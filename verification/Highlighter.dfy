/** The highlighting loop of `decorate_code_block`: at each cursor every rule searches to the
    right, the leftmost match wins with ties to the lowest rule, and its formatted text, which
    carries marker bytes, replaces the match. Regex search itself is an arbitrary function. */
module Highlighter {
  import opened Text

  /** A match at `start..final` and what the rule's format makes of it. */
  datatype Hit = Hit(start: nat, final: nat, shown: string)

  /** `boost::regex_search` of one rule, from a cursor to the end of the text. */
  type Rule = (string, nat) -> Option<Hit>

  /** A search answers within the range it was given. */
  ghost predicate Sound(rules: seq<Rule>) {
    forall r: nat, s, pos: nat :: r < |rules| && pos <= |s| ==> SoundAt(rules[r], s, pos)
  }

  predicate SoundAt(rule: Rule, s: string, pos: nat) {
    match rule(s, pos)
    case None => true
    case Some(h) => pos <= h.start <= h.final <= |s|
  }

  /** Rule `r` has a match that starts before the end of the text. */
  predicate Hits(rules: seq<Rule>, s: string, pos: nat, r: nat) {
    r < |rules| && rules[r](s, pos).Some? && rules[r](s, pos).value.start < |s|
  }

  function StartOf(rules: seq<Rule>, s: string, pos: nat, r: nat): nat
    requires Hits(rules, s, pos, r)
  {
    rules[r](s, pos).value.start
  }

  /** `r` is the rule to apply among the first `n`: leftmost match, then lowest index. */
  ghost predicate Chosen(rules: seq<Rule>, s: string, pos: nat, n: nat, r: nat) {
    && r < n && Hits(rules, s, pos, r)
    && forall q: nat :: q < n && Hits(rules, s, pos, q) ==>
         StartOf(rules, s, pos, r) < StartOf(rules, s, pos, q) ||
         (StartOf(rules, s, pos, r) == StartOf(rules, s, pos, q) && r <= q)
  }

  /** The choice among the first `n` rules. */
  function Choose(rules: seq<Rule>, s: string, pos: nat, n: nat): (r: Option<nat>)
    requires n <= |rules|
    ensures r.Some? ==> r.value < n && Hits(rules, s, pos, r.value)
  {
    if n == 0 then None
    else
      var best := Choose(rules, s, pos, n - 1);
      if !Hits(rules, s, pos, n - 1) then best
      else if best.Some? && StartOf(rules, s, pos, best.value) <= StartOf(rules, s, pos, n - 1) then best
      else Some(n - 1)
  }

  lemma {:induction false} ChooseIsLeftmost(rules: seq<Rule>, s: string, pos: nat, n: nat)
    requires n <= |rules|
    ensures match Choose(rules, s, pos, n)
            case None => forall q: nat :: q < n ==> !Hits(rules, s, pos, q)
            case Some(r) => Chosen(rules, s, pos, n, r)
  {
    if n > 0 {
      ChooseIsLeftmost(rules, s, pos, n - 1);
    }
  }

  /** There is never more than one rule to apply. */
  lemma ChosenUnique(rules: seq<Rule>, s: string, pos: nat, n: nat, r: nat, q: nat)
    requires Chosen(rules, s, pos, n, r) && Chosen(rules, s, pos, n, q)
    ensures r == q
  {
  }

  /** Where the cursor goes after a match: an empty match at the cursor skips a character. */
  function Next(h: Hit, pos: nat): nat {
    if h.final == pos then pos + 1 else h.final
  }

  /** The highlighted text from the cursor on. */
  function Highlight(rules: seq<Rule>, s: string, pos: nat): string
    requires Sound(rules)
    decreases |s| - pos
  {
    if pos >= |s| then ""
    else
      match Choose(rules, s, pos, |rules|)
      case None => s[pos..]
      case Some(r) =>
        assert SoundAt(rules[r], s, pos);
        var h := rules[r](s, pos).value;
        s[pos..h.start] + h.shown + Highlight(rules, s, Next(h, pos))
  }

  /** The inner loop: the best match so far is replaced only by one that starts earlier. */
  method FindBest(rules: seq<Rule>, s: string, pos: nat) returns (best: Option<nat>)
    ensures best == Choose(rules, s, pos, |rules|)
  {
    var bestStart := |s|;
    best := None;
    for r := 0 to |rules|
      invariant best == Choose(rules, s, pos, r)
      invariant bestStart == if best.None? then |s| else StartOf(rules, s, pos, best.value)
    {
      var found := rules[r](s, pos);
      if found.Some? && found.value.start < bestStart {
        assert Hits(rules, s, pos, r);
        bestStart := found.value.start;
        best := Some(r);
      }
    }
  }

  /** One turn of the loop, over what has been written so far. */
  lemma Turn(rules: seq<Rule>, s: string, pos: nat, out: string)
    requires Sound(rules) && pos < |s|
    ensures match Choose(rules, s, pos, |rules|)
            case None => out + Highlight(rules, s, pos) == out + s[pos..]
            case Some(r) =>
              var h := rules[r](s, pos).value;
              && pos <= h.start <= h.final <= |s|
              && out + Highlight(rules, s, pos) ==
                 out + s[pos..h.start] + h.shown + Highlight(rules, s, Next(h, pos))
  {
    var best := Choose(rules, s, pos, |rules|);
    if best.Some? {
      assert SoundAt(rules[best.value], s, pos);
    }
  }

  /** The loop of the source. */
  method Run(rules: seq<Rule>, s: string) returns (out: string)
    requires Sound(rules)
    ensures out == Highlight(rules, s, 0)
  {
    out := "";
    var pos := 0;
    ghost var whole := Highlight(rules, s, 0);
    assert Highlight(rules, s, |s|) == "";
    hide Highlight, Choose, Sound;
    while pos < |s|
      invariant pos <= |s| && out + Highlight(rules, s, pos) == whole
      decreases |s| - pos
    {
      Turn(rules, s, pos, out);
      var best := FindBest(rules, s, pos);
      if best.None? {
        out := out + s[pos..];
        return;
      }
      var h := rules[best.value](s, pos).value;
      out := out + s[pos..h.start];
      out := out + h.shown;
      pos := Next(h, pos);
    }
  }

  // ----- marker bytes -----

  /** The bytes 0x01 to 0x08 and 0x0F to 0x14. */
  predicate IsMarker(c: char) {
    0x01 <= c as int <= 0x08 || 0x0F <= c as int <= 0x14
  }

  predicate Opener(c: char) {
    IsMarker(c) && c as int % 2 == 1
  }

  predicate Closer(c: char) {
    IsMarker(c) && c as int % 2 == 0
  }

  predicate MarkerFree(s: string) {
    forall c :: c in s ==> !IsMarker(c)
  }

  function EraseMarkers(s: string): string {
    if s == "" then ""
    else (if IsMarker(s[0]) then "" else [s[0]]) + EraseMarkers(s[1..])
  }

  lemma {:induction false} EraseConcat(a: string, b: string)
    ensures EraseMarkers(a + b) == EraseMarkers(a) + EraseMarkers(b)
  {
    if a == "" {
      assert a + b == b;
    } else {
      var head := if IsMarker(a[0]) then "" else [a[0]];
      calc {
        EraseMarkers(a + b);
        { assert (a + b)[1..] == a[1..] + b; }
        head + EraseMarkers(a[1..] + b);
        { EraseConcat(a[1..], b); }
        head + (EraseMarkers(a[1..]) + EraseMarkers(b));
        EraseMarkers(a) + EraseMarkers(b);
      }
    }
  }

  lemma {:induction false} EraseNothing(s: string)
    requires MarkerFree(s)
    ensures EraseMarkers(s) == s
  {
    if s != "" {
      assert s[0] in s;
      EraseNothing(s[1..]);
      assert s == [s[0]] + s[1..];
    }
  }

  // ----- when highlighting keeps the text -----

  /** How many characters the loop skips because the chosen match is empty at the cursor. */
  function Skipped(rules: seq<Rule>, s: string, pos: nat): nat
    requires Sound(rules)
    decreases |s| - pos
  {
    if pos >= |s| then 0
    else
      match Choose(rules, s, pos, |rules|)
      case None => 0
      case Some(r) =>
        assert SoundAt(rules[r], s, pos);
        var h := rules[r](s, pos).value;
        (if h.final == pos then 1 else 0) + Skipped(rules, s, Next(h, pos))
  }

  /** How many characters the chosen matches show less than they match, all in all. */
  function Dropped(rules: seq<Rule>, s: string, pos: nat): int
    requires Sound(rules)
    decreases |s| - pos
  {
    if pos >= |s| then 0
    else
      match Choose(rules, s, pos, |rules|)
      case None => 0
      case Some(r) =>
        assert SoundAt(rules[r], s, pos);
        var h := rules[r](s, pos).value;
        h.final - h.start - |EraseMarkers(h.shown)| + Dropped(rules, s, Next(h, pos))
  }

  /** Each chosen match shows, besides markers, its own text with some characters left out. */
  predicate LeavesOut(rules: seq<Rule>, s: string, pos: nat)
    requires Sound(rules)
    decreases |s| - pos
  {
    if pos >= |s| then true
    else
      match Choose(rules, s, pos, |rules|)
      case None => true
      case Some(r) =>
        assert SoundAt(rules[r], s, pos);
        var h := rules[r](s, pos).value;
        Subsequence(EraseMarkers(h.shown), s[h.start..h.final]) && LeavesOut(rules, s, Next(h, pos))
  }

  lemma Erased3(plain: string, shown: string, rest: string)
    requires MarkerFree(plain)
    ensures EraseMarkers(plain + shown + rest) == plain + EraseMarkers(shown) + EraseMarkers(rest)
  {
    EraseConcat(plain + shown, rest);
    EraseConcat(plain, shown);
    EraseNothing(plain);
  }

  lemma FreeSlice(s: string, i: nat, j: nat)
    requires MarkerFree(s) && i <= j <= |s|
    ensures MarkerFree(s[i..j])
  {
  }

  /** Conservation, whatever the rules are: what is shown besides markers, what is skipped and what
      the formats drop make up the length of the source. */
  lemma {:induction false} ErasedLength(rules: seq<Rule>, s: string, pos: nat)
    requires Sound(rules) && MarkerFree(s) && pos <= |s|
    ensures |EraseMarkers(Highlight(rules, s, pos))| + Skipped(rules, s, pos) + Dropped(rules, s, pos) == |s| - pos
    decreases |s| - pos
  {
    if pos < |s| {
      match Choose(rules, s, pos, |rules|)
      case None =>
        FreeSlice(s, pos, |s|);
        EraseNothing(s[pos..]);
      case Some(r) =>
        assert SoundAt(rules[r], s, pos);
        var h := rules[r](s, pos).value;
        ErasedLength(rules, s, Next(h, pos));
        FreeSlice(s, pos, h.start);
        Erased3(s[pos..h.start], h.shown, Highlight(rules, s, Next(h, pos)));
    }
  }

  /** If the chosen matches only leave out, the whole text only leaves out. */
  lemma {:induction false} ErasedHighlight(rules: seq<Rule>, s: string, pos: nat)
    requires Sound(rules) && MarkerFree(s) && pos <= |s| && LeavesOut(rules, s, pos)
    ensures Subsequence(EraseMarkers(Highlight(rules, s, pos)), s[pos..])
    decreases |s| - pos
  {
    if pos == |s| {
      assert s[pos..] == "";
    } else {
      match Choose(rules, s, pos, |rules|)
      case None =>
        FreeSlice(s, pos, |s|);
        EraseNothing(s[pos..]);
        SubsequenceRefl(s[pos..]);
      case Some(r) =>
        assert SoundAt(rules[r], s, pos);
        var h := rules[r](s, pos).value;
        ErasedHighlight(rules, s, Next(h, pos));
        ErasedStep(s, pos, h, Highlight(rules, s, Next(h, pos)));
    }
  }

  /** `a` is `b` with some characters left out. */
  predicate Subsequence(a: string, b: string) {
    if a == "" then true
    else if b == "" then false
    else (a[0] == b[0] && Subsequence(a[1..], b[1..])) || Subsequence(a, b[1..])
  }

  lemma {:induction false} SubsequenceRefl(a: string)
    ensures Subsequence(a, a)
  {
    if a != "" {
      SubsequenceRefl(a[1..]);
    }
  }

  lemma {:induction false} SubsequencePrepend(p: string, a: string, b: string)
    requires Subsequence(a, b)
    ensures Subsequence(p + a, p + b)
  {
    if p == "" {
      assert p + a == a && p + b == b;
    } else {
      SubsequencePrepend(p[1..], a, b);
      assert (p + a)[1..] == p[1..] + a && (p + b)[1..] == p[1..] + b;
    }
  }

  lemma {:induction false} SubsequenceWhole(a: string, b: string)
    requires Subsequence(a, b)
    ensures |a| <= |b|
    ensures |a| == |b| ==> a == b
  {
    if a != "" {
      if a[0] == b[0] && Subsequence(a[1..], b[1..]) {
        SubsequenceWhole(a[1..], b[1..]);
      } else {
        SubsequenceWhole(a, b[1..]);
      }
    }
  }

  lemma {:induction false} SubsequenceConcat(a: string, b: string, p: string, q: string)
    requires Subsequence(a, p) && Subsequence(b, q)
    ensures Subsequence(a + b, p + q)
    decreases |p|
  {
    if a == "" {
      assert a + b == b;
      SubsequenceBehind(b, p, q);
    } else if a[0] == p[0] && Subsequence(a[1..], p[1..]) {
      SubsequenceConcat(a[1..], b, p[1..], q);
      assert (a + b)[1..] == a[1..] + b && (p + q)[1..] == p[1..] + q;
    } else {
      SubsequenceConcat(a, b, p[1..], q);
      assert (p + q)[1..] == p[1..] + q;
    }
  }

  lemma {:induction false} SubsequenceBehind(b: string, p: string, q: string)
    requires Subsequence(b, q)
    ensures Subsequence(b, p + q)
    decreases |p|
  {
    if p == "" {
      assert p + q == q;
    } else {
      SubsequenceBehind(b, p[1..], q);
      assert (p + q)[1..] == p[1..] + q;
    }
  }

  lemma ErasedStep(s: string, pos: nat, h: Hit, rest: string)
    requires MarkerFree(s) && pos < |s| && pos <= h.start <= h.final <= |s|
    requires Subsequence(EraseMarkers(h.shown), s[h.start..h.final])
    requires Next(h, pos) <= |s| && Subsequence(EraseMarkers(rest), s[Next(h, pos)..])
    ensures Subsequence(EraseMarkers(s[pos..h.start] + h.shown + rest), s[pos..])
  {
    var plain, shown, tail := s[pos..h.start], EraseMarkers(h.shown), EraseMarkers(rest);
    FreeSlice(s, pos, h.start);
    Erased3(plain, h.shown, rest);
    SubsequenceRefl(plain);
    SubsequenceConcat(plain, shown, plain, s[h.start..h.final]);
    JoinSlices(s, pos, h.start, h.final);
    SubsequenceBehind(tail, s[h.final..Next(h, pos)], s[Next(h, pos)..]);
    JoinSlices(s, h.final, Next(h, pos), |s|);
    SubsequenceConcat(plain + shown, tail, s[pos..h.final], s[h.final..]);
    JoinSlices(s, pos, h.final, |s|);
  }

  lemma JoinSlices(s: string, i: nat, j: nat, k: nat)
    requires i <= j <= k <= |s|
    ensures s[i..j] + s[j..k] == s[i..k] && s[j..|s|] == s[j..] && s[i..|s|] == s[i..]
  {
  }

  /** A way to look at text piece by piece: as it is, or with its tabs expanded. */
  ghost predicate Piecewise(view: string -> string) {
    && (forall a, b :: view(a + b) == view(a) + view(b))
    && (forall a :: a != "" ==> view(a) != "")
  }

  /** No chosen match shows more than it has matched. */
  predicate Modest(view: string -> string, rules: seq<Rule>, s: string, pos: nat)
    requires Sound(rules)
    decreases |s| - pos
  {
    if pos >= |s| then true
    else
      match Choose(rules, s, pos, |rules|)
      case None => true
      case Some(r) =>
        assert SoundAt(rules[r], s, pos);
        var h := rules[r](s, pos).value;
        |view(EraseMarkers(h.shown))| <= |view(s[h.start..h.final])| && Modest(view, rules, s, Next(h, pos))
  }

  /** In particular when no format of the grammar ever does. */
  lemma {:induction false} ModestRules(view: string -> string, rules: seq<Rule>, s: string, pos: nat)
    requires Sound(rules)
    requires forall r: nat, p: nat :: r < |rules| && p <= |s| && rules[r](s, p).Some? && SoundAt(rules[r], s, p) ==>
               var h := rules[r](s, p).value; |view(EraseMarkers(h.shown))| <= |view(s[h.start..h.final])|
    ensures Modest(view, rules, s, pos)
    decreases |s| - pos
  {
    if pos < |s| && Choose(rules, s, pos, |rules|).Some? {
      var r := Choose(rules, s, pos, |rules|).value;
      assert SoundAt(rules[r], s, pos);
      ModestRules(view, rules, s, Next(rules[r](s, pos).value, pos));
    }
  }

  /** Every chosen match goes on behind itself and shows, besides markers, what it has matched. */
  predicate Kept(view: string -> string, rules: seq<Rule>, s: string, pos: nat)
    requires Sound(rules)
    decreases |s| - pos
  {
    if pos >= |s| then true
    else
      match Choose(rules, s, pos, |rules|)
      case None => true
      case Some(r) =>
        assert SoundAt(rules[r], s, pos);
        var h := rules[r](s, pos).value;
        && h.final != pos && view(EraseMarkers(h.shown)) == view(s[h.start..h.final])
        && Kept(view, rules, s, Next(h, pos))
  }

  /** Exactly when highlighting loses nothing to the eye. */
  lemma {:induction false} KeptIff(view: string -> string, rules: seq<Rule>, s: string, pos: nat)
    requires Piecewise(view) && Sound(rules) && Modest(view, rules, s, pos) && MarkerFree(s) && pos <= |s|
    ensures |view(EraseMarkers(Highlight(rules, s, pos)))| <= |view(s[pos..])|
    ensures view(EraseMarkers(Highlight(rules, s, pos))) == view(s[pos..]) <==> Kept(view, rules, s, pos)
    decreases |s| - pos
  {
    if pos == |s| {
      assert s[pos..] == "";
    } else {
      match Choose(rules, s, pos, |rules|)
      case None =>
        FreeSlice(s, pos, |s|);
        EraseNothing(s[pos..]);
      case Some(r) =>
        assert SoundAt(rules[r], s, pos);
        var h := rules[r](s, pos).value;
        KeptIff(view, rules, s, Next(h, pos));
        FreeSlice(s, pos, h.start);
        Erased3(s[pos..h.start], h.shown, Highlight(rules, s, Next(h, pos)));
        KeptStep(view, s, pos, h, EraseMarkers(h.shown), EraseMarkers(Highlight(rules, s, Next(h, pos))));
    }
  }

  /** The lengths settle it: neither the match nor the rest can make up for what the other lost. */
  lemma KeptStep(view: string -> string, s: string, pos: nat, h: Hit, shown: string, tail: string)
    requires Piecewise(view) && pos < |s| && pos <= h.start <= h.final <= |s| && Next(h, pos) <= |s|
    requires |view(shown)| <= |view(s[h.start..h.final])| && |view(tail)| <= |view(s[Next(h, pos)..])|
    ensures |view(s[pos..h.start] + shown + tail)| <= |view(s[pos..])|
    ensures view(s[pos..h.start] + shown + tail) == view(s[pos..]) <==>
            && h.final != pos && view(shown) == view(s[h.start..h.final])
            && view(tail) == view(s[Next(h, pos)..])
  {
    var plain, matched, gap, rest := s[pos..h.start], s[h.start..h.final], s[h.final..Next(h, pos)], s[Next(h, pos)..];
    assert s[pos..] == plain + matched + (gap + rest) by {
      JoinSlices(s, pos, h.start, h.final);
      JoinSlices(s, h.final, Next(h, pos), |s|);
      JoinSlices(s, pos, h.final, |s|);
    }
    assert view(s[pos..]) == view(plain) + view(matched) + (view(gap) + view(rest));
    assert view(plain + shown + tail) == view(plain) + view(shown) + view(tail);
    assert h.final == pos ==> gap != "" && view(gap) != "";
    assert h.final != pos ==> gap == "" && view(gap) == "" by {
      EmptyView(view);
    }
    SameThree(view(plain), view(shown), view(tail), view(matched), view(gap), view(rest));
  }

  lemma EmptyView(view: string -> string)
    requires Piecewise(view)
    ensures view("") == ""
  {
    assert "" + "" == "" && view("" + "") == view("") + view("");
  }

  lemma SameThree(p: string, a: string, b: string, m: string, g: string, r: string)
    requires |a| <= |m| && |b| <= |r|
    ensures |p + a + b| <= |p + m + (g + r)|
    ensures p + a + b == p + m + (g + r) <==> g == "" && a == m && b == r
  {
    var s, u := p + a + b, p + m + (g + r);
    if s == u {
      assert |a| == |m| && |b| == |r| && g == "";
      assert a == s[|p|..|p| + |a|] && m == u[|p|..|p| + |m|];
      assert b == s[|p| + |a|..] && r == u[|p| + |m|..];
    }
  }

  function Identity(): string -> string {
    s => s
  }

  /** Exactly when erasing the markers gives back the source. */
  lemma TextKeptIff(rules: seq<Rule>, s: string)
    requires Sound(rules) && Modest(Identity(), rules, s, 0) && MarkerFree(s)
    ensures EraseMarkers(Highlight(rules, s, 0)) == s <==> Kept(Identity(), rules, s, 0)
  {
    KeptIff(Identity(), rules, s, 0);
    assert s[0..] == s;
  }

  /** Every chosen match shows exactly the text it has matched, plus markers. */
  predicate Honest(rules: seq<Rule>, s: string, pos: nat)
    requires Sound(rules)
    decreases |s| - pos
  {
    if pos >= |s| then true
    else
      match Choose(rules, s, pos, |rules|)
      case None => true
      case Some(r) =>
        assert SoundAt(rules[r], s, pos);
        var h := rules[r](s, pos).value;
        EraseMarkers(h.shown) == s[h.start..h.final] && Honest(rules, s, Next(h, pos))
  }

  /** Honest matches lose text only by being empty at the cursor. */
  lemma {:induction false} HonestKept(view: string -> string, rules: seq<Rule>, s: string, pos: nat)
    requires Sound(rules) && Honest(rules, s, pos)
    ensures Modest(view, rules, s, pos)
    ensures Kept(view, rules, s, pos) <==> Skipped(rules, s, pos) == 0
    decreases |s| - pos
  {
    if pos < |s| && Choose(rules, s, pos, |rules|).Some? {
      var r := Choose(rules, s, pos, |rules|).value;
      assert SoundAt(rules[r], s, pos);
      HonestKept(view, rules, s, Next(rules[r](s, pos).value, pos));
    }
  }

  /** In particular when no rule of the grammar matches the empty string. */
  lemma {:induction false} NonEmptyRulesSkipNothing(rules: seq<Rule>, s: string, pos: nat)
    requires Sound(rules)
    requires forall r: nat, p: nat :: r < |rules| && p <= |s| && rules[r](s, p).Some? ==>
               rules[r](s, p).value.start < rules[r](s, p).value.final
    ensures Skipped(rules, s, pos) == 0
    decreases |s| - pos
  {
    if pos < |s| && Choose(rules, s, pos, |rules|).Some? {
      var r := Choose(rules, s, pos, |rules|).value;
      assert SoundAt(rules[r], s, pos);
      NonEmptyRulesSkipNothing(rules, s, Next(rules[r](s, pos).value, pos));
    }
  }

  /** A rule whose pattern is an empty group, as the first rule of the built-in HTML grammar:
      it matches the empty string at every cursor. */
  function EmptyGroupRule(): Rule {
    (s: string, pos: nat) => Some(Hit(pos, pos, [0x03 as char, 0x04 as char]))
  }

  lemma EmptyGroupErased()
    ensures EraseMarkers([0x03 as char, 0x04 as char]) == ""
  {
    var shown, close := [0x03 as char, 0x04 as char], [0x04 as char];
    assert shown[1..] == close && close[1..] == "";
    assert EraseMarkers(close) == EraseMarkers(close[1..]) == "";
    assert EraseMarkers(shown) == EraseMarkers(shown[1..]);
  }

  /** Such a first rule always wins, so every character of the code is skipped. */
  lemma {:induction false} EmptyFirstRuleSkipsAll(rules: seq<Rule>, s: string, pos: nat)
    requires Sound(rules) && rules != [] && rules[0] == EmptyGroupRule() && pos <= |s|
    ensures Skipped(rules, s, pos) == |s| - pos
    ensures EraseMarkers(Highlight(rules, s, pos)) == ""
    decreases |s| - pos
  {
    if pos < |s| {
      var n := |rules|;
      ChooseIsLeftmost(rules, s, pos, n);
      assert Hits(rules, s, pos, 0) && StartOf(rules, s, pos, 0) == pos;
      var r := Choose(rules, s, pos, n).value;
      assert SoundAt(rules[r], s, pos);
      assert r == 0;
      EmptyFirstRuleSkipsAll(rules, s, pos + 1);
      var shown := [0x03 as char, 0x04 as char];
      EraseConcat(s[pos..pos] + shown, Highlight(rules, s, pos + 1));
      EmptyGroupErased();
      assert s[pos..pos] + shown == shown;
      hide EraseMarkers;
    }
  }

  /** So HTML code is displayed as no text at all. */
  lemma HtmlGrammarShowsNothing(rules: seq<Rule>, s: string)
    requires Sound(rules) && rules != [] && rules[0] == EmptyGroupRule()
    ensures EraseMarkers(Highlight(rules, s, 0)) == ""
  {
    EmptyFirstRuleSkipsAll(rules, s, 0);
  }

  // ----- pairing of markers -----

  /** Reads markers left to right: an opener must be followed by its own closer before any other
      marker. `open` is the opener being waited on; the answer is `None` on a mismatch. */
  function Reads(s: string, open: Option<char>): Option<Option<char>> {
    if s == "" then Some(open)
    else if Opener(s[0]) then
      if open.Some? then None else Reads(s[1..], Some(s[0]))
    else if Closer(s[0]) then
      if open.Some? && open.value as int + 1 == s[0] as int then Reads(s[1..], None) else None
    else Reads(s[1..], open)
  }

  predicate Paired(s: string) {
    Reads(s, None) == Some(None)
  }

  lemma {:induction false} ReadsConcat(a: string, b: string, open: Option<char>)
    ensures Reads(a + b, open) == match Reads(a, open) case None => None case Some(o) => Reads(b, o)
  {
    if a == "" {
      assert a + b == b;
    } else {
      assert (a + b)[1..] == a[1..] + b;
      ReadsConcat(a[1..], b, None);
      ReadsConcat(a[1..], b, Some(a[0]));
      ReadsConcat(a[1..], b, open);
    }
  }

  lemma {:induction false} PlainIsPaired(s: string)
    requires MarkerFree(s)
    ensures Paired(s)
  {
    if s != "" {
      assert s[0] in s;
      PlainIsPaired(s[1..]);
    }
  }

  /** If every format pairs its own markers, so does the highlighted text, flat and unnested. */
  lemma {:induction false} HighlightPaired(rules: seq<Rule>, s: string, pos: nat)
    requires Sound(rules) && MarkerFree(s)
    requires forall r: nat, p: nat :: r < |rules| && p <= |s| && rules[r](s, p).Some? ==>
               Paired(rules[r](s, p).value.shown)
    ensures Paired(Highlight(rules, s, pos))
    decreases |s| - pos
  {
    if pos < |s| {
      match Choose(rules, s, pos, |rules|)
      case None => PlainIsPaired(s[pos..]);
      case Some(r) =>
        assert SoundAt(rules[r], s, pos);
        var h := rules[r](s, pos).value;
        var rest := Highlight(rules, s, Next(h, pos));
        HighlightPaired(rules, s, Next(h, pos));
        PlainIsPaired(s[pos..h.start]);
        ReadsConcat(s[pos..h.start], h.shown, None);
        ReadsConcat(s[pos..h.start] + h.shown, rest, None);
    }
  }
}
