/** String vocabulary shared by the models: leftmost search, literal replacement, and the
    "C" locale character classes the source takes from `<cctype>`. */
module Text {

  datatype Option<+T> = None | Some(value: T)

  /** A tag with its attributes, each behind a space. */
  function OpenTag(tag: string, attributes: string): string {
    "<" + tag + attributes + ">"
  }

  function CloseTag(tag: string): string {
    "</" + tag + ">"
  }

  /** `std::isspace` in the "C" locale: space, tab, line feed, vertical tab, form feed, return. */
  predicate IsSpace(c: char) {
    c == ' ' || '\t' <= c <= '\r'
  }

  predicate IsDigit(c: char) {
    '0' <= c <= '9'
  }

  datatype Split<+T> = Absent | Around(before: seq<T>, after: seq<T>)

  /** Splits `s` around the leftmost occurrence of `d`, which `std::string::find` locates. */
  function Cut<T(==)>(s: seq<T>, d: seq<T>): (r: Split<T>)
    ensures r.Around? ==> |r.before| + |d| + |r.after| == |s|
  {
    if d <= s then Around([], s[|d|..])
    else if s == [] then Absent
    else
      match Cut(s[1..], d)
      case Absent => Absent
      case Around(before, after) => Around([s[0]] + before, after)
  }

  lemma Regroup<T>(a: seq<T>, b: seq<T>, c: seq<T>)
    ensures a + (b + c) == a + b + c
  {
  }

  lemma TakeDrop<T>(s: seq<T>, n: nat)
    requires n <= |s|
    ensures s == s[..n] + s[n..]
  {
  }

  lemma FirstRest<T>(x: T, s: seq<T>)
    ensures ([x] + s)[0] == x && ([x] + s)[1..] == s
  {
  }

  lemma DropDrop<T>(s: seq<T>, i: nat, j: nat)
    requires i + j <= |s|
    ensures s[i..][j..] == s[i + j..]
  {
  }

  /** No element occurs twice. */
  predicate Distinct<T(==)>(s: seq<T>) {
    s == [] || (s[0] !in s[1..] && Distinct(s[1..]))
  }

  lemma {:induction false} DistinctAppend<T>(s: seq<T>, x: T)
    requires Distinct(s) && x !in s
    ensures Distinct(s + [x])
  {
    if s != [] {
      DistinctAppend(s[1..], x);
      assert (s + [x])[1..] == s[1..] + [x];
    }
  }

  lemma {:induction false} DistinctSize<T>(s: seq<T>, elements: set<T>)
    requires Distinct(s) && forall x :: x in elements <==> x in s
    ensures |elements| == |s|
    decreases |s|
  {
    if s == [] {
      assert elements == {};
    } else {
      assert s[0] in elements;
      assert forall x :: x in s <==> x == s[0] || x in s[1..];
      DistinctSize(s[1..], elements - {s[0]});
    }
  }

  /** `d` occurs in `s` at position `i`. */
  predicate At<T(==)>(s: seq<T>, i: nat, d: seq<T>) {
    i <= |s| && d <= s[i..]
  }

  /** What `Cut` means: the two parts and the delimiter are the text, the delimiter does not
      occur further left, and `Absent` says that it does not occur at all. */
  lemma {:induction false} CutIsLeftmost<T>(s: seq<T>, d: seq<T>)
    ensures Cut(s, d).Around? ==> s == Cut(s, d).before + d + Cut(s, d).after
    ensures forall i: nat :: At(s, i, d) ==> Cut(s, d).Around? && |Cut(s, d).before| <= i
  {
    if d <= s {
      TakeDrop(s, |d|);
    } else if s != [] {
      CutIsLeftmost(s[1..], d);
      CutOneOn(s, d);
      hide Cut;
      var rest := Cut(s[1..], d);
      if rest.Around? {
        Prepended(s, rest.before, d, rest.after);
      }
      forall i: nat | At(s, i, d)
        ensures Cut(s, d).Around? && |Cut(s, d).before| <= i
      {
        AtOneOn(s, i, d);
      }
    }
  }

  lemma CutOneOn<T>(s: seq<T>, d: seq<T>)
    requires s != [] && !(d <= s)
    ensures var rest := Cut(s[1..], d);
            if rest.Absent? then Cut(s, d).Absent?
            else Cut(s, d) == Around([s[0]] + rest.before, rest.after)
  {
  }

  lemma Prepended<T>(s: seq<T>, a: seq<T>, b: seq<T>, c: seq<T>)
    requires s != [] && s[1..] == a + b + c
    ensures s == [s[0]] + a + b + c
  {
    TakeDrop(s, 1);
    Regroup([s[0]], a + b, c);
    Regroup([s[0]], a, b);
  }

  lemma AtOneOn<T>(s: seq<T>, i: nat, d: seq<T>)
    requires s != [] && !(d <= s) && At(s, i, d)
    ensures i > 0 && At(s[1..], i - 1, d)
  {
    assert s[0..] == s;
    if i > 0 {
      DropDrop(s, 1, i - 1);
    }
  }

  /** Cutting at a character does not look behind it. */
  lemma {:induction false} CutAppend(a: string, b: string, c: char)
    requires Cut(a, [c]).Around?
    ensures Cut(a + b, [c]) == Around(Cut(a, [c]).before, Cut(a, [c]).after + b)
  {
    if a[0] == c {
      assert (a + b)[1..] == a[1..] + b;
    } else {
      assert (a + b)[0] == a[0] && (a + b)[1..] == a[1..] + b;
      CutAppend(a[1..], b, c);
    }
  }

  lemma {:induction false} CutAbsent(s: string, c: char)
    requires Cut(s, [c]).Absent?
    ensures c !in s
  {
    if s != "" {
      assert s[0] != c;
      CutAbsent(s[1..], c);
    }
  }

  /** Without its first element a delimiter does not occur. */
  lemma {:induction false} CutsNowhere<T>(s: seq<T>, d: seq<T>)
    requires d != [] && d[0] !in s
    ensures Cut(s, d).Absent?
  {
    if s != [] {
      assert s[0] in s;
      CutsNowhere(s[1..], d);
    }
  }

  /** The first occurrence of a character. */
  lemma {:induction false} CutAtFirst(a: string, b: string, c: char)
    requires c !in a
    ensures Cut(a + [c] + b, [c]) == Around(a, b)
  {
    var s := a + [c] + b;
    if a == "" {
      assert s[1..] == b;
    } else {
      assert a[0] in a && s[0] == a[0];
      assert s[1..] == a[1..] + [c] + b;
      CutAtFirst(a[1..], b, c);
      assert a == [a[0]] + a[1..];
    }
  }

  /** `boost::regex_replace` with a one-character literal pattern. */
  function ReplaceChar(s: string, c: char, r: string): string {
    if s == [] then []
    else (if s[0] == c then r else [s[0]]) + ReplaceChar(s[1..], c, r)
  }

  /** Replacing a single character distributes over concatenation. */
  lemma {:induction false} ReplaceConcat(a: string, b: string, c: char, r: string)
    ensures ReplaceChar(a + b, c, r) == ReplaceChar(a, c, r) + ReplaceChar(b, c, r)
  {
    if a == [] {
      assert a + b == b;
    } else {
      var head := if a[0] == c then r else [a[0]];
      calc {
        ReplaceChar(a + b, c, r);
        { assert (a + b)[1..] == a[1..] + b; }
        head + ReplaceChar(a[1..] + b, c, r);
        { ReplaceConcat(a[1..], b, c, r); }
        head + (ReplaceChar(a[1..], c, r) + ReplaceChar(b, c, r));
        ReplaceChar(a, c, r) + ReplaceChar(b, c, r);
      }
    }
  }

  /** A character that does not occur is not replaced. */
  lemma {:induction false} ReplaceAbsent(a: string, c: char, r: string)
    requires c !in a
    ensures ReplaceChar(a, c, r) == a
  {
    if a != [] {
      ReplaceAbsent(a[1..], c, r);
      assert a == [a[0]] + a[1..];
    }
  }
}
