/** The `delim(.*?)delim -> open $1 close` rewriting that `boost::regex_replace` performs for
    `**` and for the backtick, and its one-pass reading: number the non-overlapping delimiters
    from the left, turn even ones into `open` and odd ones into `close`, and leave a last
    unpaired one alone. */
module PairedMarks {
  import opened Text

  /** The regex replacement: find the leftmost delimiter, then the next one after it,
      wrap what is between, and go on behind the second. */
  function WrapPairs<T(==)>(s: seq<T>, d: seq<T>, open: seq<T>, close: seq<T>): seq<T>
    requires d != []
    decreases |s|
  {
    match Cut(s, d)
    case Absent => s
    case Around(before, rest) =>
      match Cut(rest, d)
      case Absent => s
      case Around(inner, after) => before + open + inner + close + WrapPairs(after, d, open, close)
  }

  /** The length of the next unit of `s`: a whole delimiter, or one element. */
  function Unit<T(==)>(s: seq<T>, d: seq<T>): (n: nat)
    requires s != [] && d != []
    ensures 0 < n <= |s|
  {
    if d <= s then |d| else 1
  }

  /** How many non-overlapping delimiters `s` holds, counted from the left. */
  function Count<T(==)>(s: seq<T>, d: seq<T>): nat
    requires d != []
  {
    if s == [] then 0
    else (if d <= s then 1 else 0) + Count(s[Unit(s, d)..], d)
  }

  /** One pass: delimiter number `k` becomes `open` or `close` by its parity while `k < limit`. */
  function Mark<T(==)>(s: seq<T>, d: seq<T>, open: seq<T>, close: seq<T>, k: nat, limit: nat): seq<T>
    requires d != []
  {
    if s == [] then []
    else
      Piece(s, d, open, close, k, limit) +
      Mark(s[Unit(s, d)..], d, open, close, if d <= s then k + 1 else k, limit)
  }

  /** What the first unit of `s` becomes. */
  function Piece<T(==)>(s: seq<T>, d: seq<T>, open: seq<T>, close: seq<T>, k: nat, limit: nat): seq<T>
    requires s != [] && d != []
  {
    if d <= s && k < limit then (if k % 2 == 0 then open else close)
    else s[..Unit(s, d)]
  }

  /** The number of delimiters that have a partner. */
  function Paired<T(==)>(s: seq<T>, d: seq<T>): (n: nat)
    requires d != []
    ensures n % 2 == 0
  {
    Count(s, d) / 2 * 2
  }

  /** The text with exactly its paired delimiters removed. */
  function Strip<T(==)>(s: seq<T>, d: seq<T>): seq<T>
    requires d != []
  {
    Mark(s, d, [], [], 0, Paired(s, d))
  }

  lemma {:induction false} MarkPastLimit<T>(s: seq<T>, d: seq<T>, open: seq<T>, close: seq<T>, k: nat, limit: nat)
    requires d != [] && limit <= k
    ensures Mark(s, d, open, close, k, limit) == s
    decreases |s|
  {
    if s == [] {
    } else if d <= s {
      MarkPastLimit(s[|d|..], d, open, close, k + 1, limit);
      TakeDrop(s, |d|);
    } else {
      MarkPastLimit(s[1..], d, open, close, k, limit);
      TakeDrop(s, 1);
    }
  }

  /** Marking delimiters as themselves changes nothing. */
  lemma {:induction false} MarkIdentity<T>(s: seq<T>, d: seq<T>, k: nat, limit: nat)
    requires d != []
    ensures Mark(s, d, d, d, k, limit) == s
    decreases |s|
  {
    if s == [] {
    } else if d <= s {
      MarkIdentity(s[|d|..], d, k + 1, limit);
      TakeDrop(s, |d|);
    } else {
      MarkIdentity(s[1..], d, k, limit);
      TakeDrop(s, 1);
    }
  }

  lemma {:induction false} MarkShift<T>(s: seq<T>, d: seq<T>, open: seq<T>, close: seq<T>, k: nat, limit: nat)
    requires d != []
    ensures Mark(s, d, open, close, k + 2, limit + 2) == Mark(s, d, open, close, k, limit)
    decreases |s|
  {
    if s == [] {
    } else if d <= s {
      MarkShift(s[|d|..], d, open, close, k + 1, limit);
    } else {
      MarkShift(s[1..], d, open, close, k, limit);
    }
  }

  /** One unfolding of both readings at an element that starts no delimiter. */
  lemma Advance<T>(s: seq<T>, d: seq<T>, open: seq<T>, close: seq<T>, k: nat, limit: nat)
    requires d != [] && s != [] && !(d <= s)
    ensures Count(s, d) == Count(s[1..], d)
    ensures Mark(s, d, open, close, k, limit) == [s[0]] + Mark(s[1..], d, open, close, k, limit)
    ensures Cut(s, d) == match Cut(s[1..], d)
                         case Absent => Absent
                         case Around(before, after) => Around([s[0]] + before, after)
  {
  }

  /** One unfolding of both readings at a delimiter. */
  lemma AtDelimiter<T>(s: seq<T>, d: seq<T>, open: seq<T>, close: seq<T>, k: nat, limit: nat)
    requires d != [] && d <= s
    ensures Count(s, d) == 1 + Count(s[|d|..], d)
    ensures Mark(s, d, open, close, k, limit) ==
            (if k < limit then (if k % 2 == 0 then open else close) else d) +
            Mark(s[|d|..], d, open, close, k + 1, limit)
    ensures Cut(s, d) == Around([], s[|d|..])
  {
  }

  /** An element sequence that never starts a delimiter is copied. */
  lemma {:induction false} MarkSkip<T>(a: seq<T>, s: seq<T>, d: seq<T>, open: seq<T>, close: seq<T>, k: nat, limit: nat)
    requires d != [] && d[0] !in a
    ensures Mark(a + s, d, open, close, k, limit) == a + Mark(s, d, open, close, k, limit)
    ensures Count(a + s, d) == Count(s, d)
    decreases |a|
  {
    hide Mark, Count;
    if a == [] {
      assert a + s == s;
    } else {
      var rest := a[1..] + s;
      assert (a + s)[1..] == rest && !(d <= a + s) by {
        assert a[0] in a && (a + s)[0] == a[0];
      }
      Advance(a + s, d, open, close, k, limit);
      MarkSkip(a[1..], s, d, open, close, k, limit);
      calc {
        Mark(a + s, d, open, close, k, limit);
        [a[0]] + Mark(rest, d, open, close, k, limit);
        [a[0]] + (a[1..] + Mark(s, d, open, close, k, limit));
        a + Mark(s, d, open, close, k, limit);
      }
    }
  }

  /** Both readings walk unchanged up to the leftmost delimiter. */
  lemma {:induction false} MarkToFirst<T>(s: seq<T>, d: seq<T>, open: seq<T>, close: seq<T>, k: nat, limit: nat)
    requires d != []
    ensures match Cut(s, d)
            case Absent => Count(s, d) == 0 && Mark(s, d, open, close, k, limit) == s
            case Around(before, rest) =>
              && Count(s, d) == 1 + Count(rest, d)
              && (k < limit ==>
                    Mark(s, d, open, close, k, limit) ==
                    before + ((if k % 2 == 0 then open else close) + Mark(rest, d, open, close, k + 1, limit)))
    decreases |s|
  {
    hide Mark, Count;
    if s == [] {
      assert Count(s, d) == 0 && Mark(s, d, open, close, k, limit) == [] by {
        Empty(s, d, open, close, k, limit);
      }
    } else if d <= s {
      AtDelimiter(s, d, open, close, k, limit);
    } else {
      MarkToFirst(s[1..], d, open, close, k, limit);
      Advance(s, d, open, close, k, limit);
      match Cut(s[1..], d)
      case Absent => assert [s[0]] + s[1..] == s;
      case Around(before, rest) =>
        var m := (if k % 2 == 0 then open else close) + Mark(rest, d, open, close, k + 1, limit);
        assert [s[0]] + (before + m) == ([s[0]] + before) + m;
    }
  }

  lemma Empty<T>(s: seq<T>, d: seq<T>, open: seq<T>, close: seq<T>, k: nat, limit: nat)
    requires d != [] && s == []
    ensures Count(s, d) == 0 && Mark(s, d, open, close, k, limit) == []
  {
  }

  /** Two delimiters from the left, both readings agree if they agree on what follows. */
  lemma {:induction false} MarkFirstPair<T>(s: seq<T>, d: seq<T>, open: seq<T>, close: seq<T>,
                                            before: seq<T>, rest: seq<T>, inner: seq<T>, after: seq<T>)
    requires d != []
    requires Cut(s, d) == Around(before, rest) && Cut(rest, d) == Around(inner, after)
    ensures Mark(s, d, open, close, 0, Paired(s, d)) ==
            before + (open + (inner + (close + Mark(after, d, open, close, 0, Paired(after, d)))))
  {
    hide Mark, Count, Cut;
    var limit := Paired(after, d) + 2;
    MarkToFirst(s, d, open, close, 0, limit);
    MarkToFirst(rest, d, open, close, 1, limit);
    MarkShift(after, d, open, close, 0, Paired(after, d));
  }

  /** The regex replacement is the one-pass reading. */
  lemma {:induction false} WrapPairsIsMark<T>(s: seq<T>, d: seq<T>, open: seq<T>, close: seq<T>)
    requires d != []
    ensures WrapPairs(s, d, open, close) == Mark(s, d, open, close, 0, Paired(s, d))
    decreases |s|
  {
    hide Mark, Count, Cut;
    match Cut(s, d)
    case Absent => MarkToFirst(s, d, open, close, 0, 0);
    case Around(before, rest) =>
      match Cut(rest, d)
      case Absent =>
        MarkToFirst(s, d, open, close, 0, 0);
        MarkToFirst(rest, d, open, close, 0, 0);
        MarkPastLimit(s, d, open, close, 0, 0);
      case Around(inner, after) =>
        WrapPairsIsMark(after, d, open, close);
        MarkFirstPair(s, d, open, close, before, rest, inner, after);
        var w := WrapPairs(after, d, open, close);
        assert before + (open + (inner + (close + w))) == before + open + inner + close + w;
  }

  /** Marking brings in nothing but the two tags. */
  lemma {:induction false} MarkElements<T>(s: seq<T>, d: seq<T>, open: seq<T>, close: seq<T>, k: nat, limit: nat)
    requires d != []
    ensures forall x :: x in Mark(s, d, open, close, k, limit) ==> x in s || x in open || x in close
    decreases |s|
  {
    if s != [] {
      MarkElements(s[Unit(s, d)..], d, open, close, if d <= s then k + 1 else k, limit);
    }
  }
}
