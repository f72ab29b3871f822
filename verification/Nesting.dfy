/** How the two kinds of inline tags stand to each other: they may cross, and exactly when they nest. */
module Nesting {
  import opened Text
  import opened PairedMarks
  import opened Inline

  /** The tags of the atoms nest, on a stack of open tags. */
  predicate Nests(atoms: seq<Atom>, open: seq<Atom>) {
    if atoms == [] then open == []
    else match atoms[0]
      case Ch(_) => Nests(atoms[1..], open)
      case BoldOpen => Nests(atoms[1..], [BoldOpen] + open)
      case CodeOpen => Nests(atoms[1..], [CodeOpen] + open)
      case BoldClose => open != [] && open[0] == BoldOpen && Nests(atoms[1..], open[1..])
      case CodeClose => open != [] && open[0] == CodeOpen && Nests(atoms[1..], open[1..])
  }

  /** How many paired backticks there are: each is a code tag. */
  function CodeTags(atoms: seq<Atom>): nat {
    if atoms == [] then 0
    else (if atoms[0] == CodeOpen || atoms[0] == CodeClose then 1 else 0) + CodeTags(atoms[1..])
  }

  /** Every bold span opened outside code holds an even number of paired backticks, and every one
      opened inside code holds none. */
  predicate SpansFit(atoms: seq<Atom>, inCode: bool)
    decreases |atoms|
  {
    var open := Cut(atoms, [BoldOpen]);
    if open.Absent? then true
    else
      var inside := inCode != (CodeTags(open.before) % 2 == 1);
      var close := Cut(open.after, [BoldClose]);
      if close.Absent? then true
      else
        var held := CodeTags(close.before);
        (if inside then held == 0 else held % 2 == 0) && SpansFit(close.after, inside)
  }

  function Base(inCode: bool): seq<Atom> {
    if inCode then [CodeOpen] else []
  }

  predicate NoBold(atoms: seq<Atom>) {
    BoldOpen !in atoms && BoldClose !in atoms
  }

  /** Code tags open and close above whatever is open, up to the next bold tag. */
  lemma {:induction false} CodeRun(seg: seq<Atom>, rest: seq<Atom>, inCode: bool, below: seq<Atom>)
    requires NoBold(seg) && Alternates(seg + rest, CodeOpen, CodeClose, inCode)
    ensures var out := inCode != (CodeTags(seg) % 2 == 1);
            && Alternates(rest, CodeOpen, CodeClose, out)
            && (Nests(seg + rest, Base(inCode) + below) <==> Nests(rest, Base(out) + below))
    decreases |seg|
  {
    if seg == [] {
      assert seg + rest == rest;
    } else {
      var a, s := seg[0], seg[1..];
      assert a in seg && seg + rest == [a] + (s + rest);
      FirstRest(a, s + rest);
      var next := if a == CodeOpen then true else if a == CodeClose then false else inCode;
      assert NoBold(s);
      CodeRun(s, rest, next, below);
      FirstRest(CodeOpen, below);
      assert Base(true) + below == [CodeOpen] + below && Base(false) + below == below;
    }
  }

  /** Between a bold tag opened inside code and its end, no code tag can stand. */
  lemma {:induction false} BoldInCode(seg: seq<Atom>, rest: seq<Atom>, below: seq<Atom>)
    requires NoBold(seg) && Alternates(seg + rest, CodeOpen, CodeClose, true)
    ensures Nests(seg + rest, [BoldOpen] + below) <==> CodeTags(seg) == 0 && Nests(rest, [BoldOpen] + below)
    ensures CodeTags(seg) == 0 ==> Alternates(rest, CodeOpen, CodeClose, true)
    decreases |seg|
  {
    if seg == [] {
      assert seg + rest == rest;
    } else {
      var a, s := seg[0], seg[1..];
      assert a in seg && seg + rest == [a] + (s + rest);
      FirstRest(a, s + rest);
      FirstRest(BoldOpen, below);
      if a.Ch? {
        assert NoBold(s);
        BoldInCode(s, rest, below);
      }
    }
  }

  /** Up to the first bold tag the alternation of bold tags stands still. */
  lemma {:induction false} BoldRun(seg: seq<Atom>, rest: seq<Atom>, inside: bool)
    requires Alternates(seg + rest, BoldOpen, BoldClose, inside)
    requires (if inside then BoldClose else BoldOpen) !in seg
    ensures NoBold(seg) && Alternates(rest, BoldOpen, BoldClose, inside)
    decreases |seg|
  {
    if seg == [] {
      assert seg + rest == rest;
    } else {
      var a, s := seg[0], seg[1..];
      assert a in seg && seg + rest == [a] + (s + rest);
      FirstRest(a, s + rest);
      BoldRun(s, rest, inside);
      assert seg == [a] + s;
    }
  }

  lemma {:induction false} CutAtoms(atoms: seq<Atom>, a: Atom)
    ensures var cut := Cut(atoms, [a]);
            if cut.Absent? then a !in atoms else a !in cut.before && atoms == cut.before + ([a] + cut.after)
  {
    if atoms != [] && !([a] <= atoms) {
      CutAtoms(atoms[1..], a);
      var cut := Cut(atoms[1..], [a]);
      assert atoms == [atoms[0]] + atoms[1..];
      if cut.Around? {
        Regroup([atoms[0]], cut.before, [a] + cut.after);
      }
    } else if atoms != [] {
      assert atoms == [] + ([a] + atoms[1..]);
    }
  }

  /** A bold span that starts here. */
  lemma SpanNests(inner: seq<Atom>, after: seq<Atom>, inside: bool)
    requires NoBold(inner) && Alternates(inner + ([BoldClose] + after), CodeOpen, CodeClose, inside)
    ensures var held := CodeTags(inner);
            && (Nests(inner + ([BoldClose] + after), [BoldOpen] + Base(inside)) <==>
                (if inside then held == 0 else held % 2 == 0) && Nests(after, Base(inside)))
            && ((if inside then held == 0 else held % 2 == 0) ==> Alternates(after, CodeOpen, CodeClose, inside))
  {
    var tail := [BoldClose] + after;
    FirstRest(BoldClose, after);
    FirstRest(BoldOpen, Base(inside));
    if inside {
      BoldInCode(inner, tail, Base(inside));
    } else {
      CodeRun(inner, tail, false, [BoldOpen]);
      assert Base(false) + [BoldOpen] == [BoldOpen] && [BoldOpen] + Base(false) == [BoldOpen];
      assert [BoldOpen][1..] == [];
      FirstRest(CodeOpen, [BoldOpen]);
    }
  }

  lemma {:induction false} NestsIff(atoms: seq<Atom>, inCode: bool)
    requires Alternates(atoms, BoldOpen, BoldClose, false) && Alternates(atoms, CodeOpen, CodeClose, inCode)
    ensures Nests(atoms, Base(inCode)) <==> SpansFit(atoms, inCode)
    decreases |atoms|
  {
    var open := Cut(atoms, [BoldOpen]);
    CutAtoms(atoms, BoldOpen);
    assert Base(inCode) + [] == Base(inCode);
    if open.Absent? {
      assert atoms + [] == atoms;
      BoldRun(atoms, [], false);
      CodeRun(atoms, [], inCode, []);
    } else {
      var before, rest := open.before, [BoldOpen] + open.after;
      BoldRun(before, rest, false);
      CodeRun(before, rest, inCode, []);
      var inside := inCode != (CodeTags(before) % 2 == 1);
      FirstRest(BoldOpen, open.after);
      assert Base(inside) + [] == Base(inside);
      assert Nests(atoms, Base(inCode)) <==> Nests(open.after, [BoldOpen] + Base(inside));
      SpanAhead(open.after, inside);
      var close := Cut(open.after, [BoldClose]);
      if if inside then CodeTags(close.before) == 0 else CodeTags(close.before) % 2 == 0 {
        NestsIff(close.after, inside);
      }
    }
  }

  /** The rest behind a bold tag that opens a span. */
  lemma SpanAhead(rest: seq<Atom>, inside: bool)
    requires Alternates(rest, BoldOpen, BoldClose, true) && Alternates(rest, CodeOpen, CodeClose, inside)
    ensures var close := Cut(rest, [BoldClose]);
            && close.Around? && Alternates(close.after, BoldOpen, BoldClose, false)
            && var fits := if inside then CodeTags(close.before) == 0 else CodeTags(close.before) % 2 == 0;
            && (Nests(rest, [BoldOpen] + Base(inside)) <==> fits && Nests(close.after, Base(inside)))
            && (fits ==> Alternates(close.after, CodeOpen, CodeClose, inside))
  {
    var close := Cut(rest, [BoldClose]);
    CutAtoms(rest, BoldClose);
    if close.Absent? {
      assert rest + [] == rest;
      BoldRun(rest, [], true);
      assert false;
    } else {
      var tail := [BoldClose] + close.after;
      BoldRun(close.before, tail, true);
      FirstRest(BoldClose, close.after);
      SpanNests(close.before, close.after, inside);
    }
  }

  /** The tags nest exactly when the bold spans of the structured text fit into its code. */
  lemma StructureNestsIff(text: string)
    ensures Nests(Structure(text), []) <==> SpansFit(Structure(text), false)
  {
    TagsAlternate(text);
    NestsIff(Structure(text), false);
  }

  // ----- the same, read off the text -----

  /** The backticks of a text. */
  function Ticks(s: string): nat {
    if s == "" then 0 else (if s[0] == '`' then 1 else 0) + Ticks(s[1..])
  }

  function Min(a: nat, b: nat): nat {
    if a < b then a else b
  }

  /** `s` is what is left of a text with `k` backticks in front of it and `n` paired ones in all: each
      bold span of `s` that opens outside code holds an even number of paired backticks, and each
      that opens inside code holds none. */
  predicate Fits(s: string, k: nat, n: nat)
    decreases |s|
  {
    var open := Cut(s, "**");
    if open.Absent? then true
    else
      var close := Cut(open.after, "**");
      if close.Absent? then true
      else
        var k1 := k + Ticks(open.before);
        var k2 := k1 + Ticks(close.before);
        var held := Min(k2, n) - Min(k1, n);
        (if Min(k1, n) % 2 == 1 then held == 0 else held % 2 == 0) && Fits(close.after, k2, n)
  }

  /** The code pass from backtick number `k` on. */
  function Coded(atoms: seq<Atom>, k: nat, n: nat): seq<Atom> {
    Mark(atoms, TICK, [CodeOpen], [CodeClose], k, n)
  }

  function TickAtoms(atoms: seq<Atom>): nat {
    Count(atoms, TICK)
  }

  lemma CodedStep(a: Atom, rest: seq<Atom>, k: nat, n: nat)
    ensures var hit := a == Ch('`');
            && Coded([a] + rest, k, n) ==
               [if hit && k < n then (if k % 2 == 0 then CodeOpen else CodeClose) else a]
               + Coded(rest, if hit then k + 1 else k, n)
            && TickAtoms([a] + rest) == (if hit then 1 else 0) + TickAtoms(rest)
  {
    FirstRest(a, rest);
    var s := [a] + rest;
    assert TICK <= s <==> a == Ch('`');
    assert s[..1] == [a];
  }

  lemma {:induction false} CodedConcat(x: seq<Atom>, y: seq<Atom>, k: nat, n: nat)
    ensures Coded(x + y, k, n) == Coded(x, k, n) + Coded(y, k + TickAtoms(x), n)
    ensures TickAtoms(x + y) == TickAtoms(x) + TickAtoms(y)
    decreases |x|
  {
    if x == [] {
      assert x + y == y;
    } else {
      var a, rest := x[0], x[1..];
      TakeDrop(x, 1);
      assert x[..1] == [a];
      CodedStep(a, rest, k, n);
      CodedStep(a, rest + y, k, n);
      Regroup([a], rest, y);
      var k' := if a == Ch('`') then k + 1 else k;
      CodedConcat(rest, y, k', n);
      hide Coded, TickAtoms;
      Regroup([if a == Ch('`') && k < n then (if k % 2 == 0 then CodeOpen else CodeClose) else a],
              Coded(rest, k', n), Coded(y, k' + TickAtoms(rest), n));
    }
  }

  /** What the code pass makes of plain text. */
  lemma {:induction false} CodedPlain(s: string, k: nat, n: nat)
    ensures TickAtoms(Plain(s)) == Ticks(s) && NoBold(Coded(Plain(s), k, n))
    ensures CodeTags(Coded(Plain(s), k, n)) == Min(k + Ticks(s), n) - Min(k, n)
    decreases |s|
  {
    if s != "" {
      var a, rest := Ch(s[0]), Plain(s[1..]);
      var k' := if s[0] == '`' then k + 1 else k;
      CodedStep(a, rest, k, n);
      CodedPlain(s[1..], k', n);
      hide Coded, TickAtoms;
      FirstRest(if s[0] == '`' && k < n then (if k % 2 == 0 then CodeOpen else CodeClose) else a, Coded(rest, k', n));
    }
  }

  lemma {:induction false} CutPlain(s: string)
    ensures var cut := Cut(s, "**");
            Cut(Plain(s), STARS) == if cut.Absent? then Absent else Around(Plain(cut.before), Plain(cut.after))
    decreases |s|
  {
    if s != "" {
      PlainStars(s);
      FirstRest(Ch(s[0]), Plain(s[1..]));
      if !("**" <= s) {
        CutPlain(s[1..]);
        var cut := Cut(s[1..], "**");
        if cut.Around? {
          FirstRest(s[0], cut.before);
        }
      }
    }
  }

  lemma PlainStars(s: string)
    ensures STARS <= Plain(s) <==> "**" <= s
    ensures "**" <= s ==> Plain(s)[2..] == Plain(s[2..])
  {
    if |s| >= 2 {
      FirstRest(Ch(s[0]), Plain(s[1..]));
      FirstRest(Ch(s[1]), Plain(s[1..][1..]));
      assert s[1..][1..] == s[2..];
      assert Plain(s)[1..][1..] == Plain(s)[2..];
    }
  }

  lemma {:induction false} CutAtAtom(a: seq<Atom>, x: Atom, b: seq<Atom>)
    requires x !in a
    ensures Cut(a + ([x] + b), [x]) == Around(a, b)
    decreases |a|
  {
    if a == [] {
      assert a + ([x] + b) == [x] + b;
      FirstRest(x, b);
    } else {
      TakeDrop(a, 1);
      assert a[..1] == [a[0]] && a + ([x] + b) == [a[0]] + (a[1..] + ([x] + b));
      FirstRest(a[0], a[1..] + ([x] + b));
      CutAtAtom(a[1..], x, b);
    }
  }

  lemma {:induction false} CutNoAtom(a: seq<Atom>, x: Atom)
    requires x !in a
    ensures Cut(a, [x]) == Absent
    decreases |a|
  {
    if a != [] {
      assert a[0] in a;
      CutNoAtom(a[1..], x);
    }
  }

  /** The bold pass of a text, as the replacement computes it. */
  function Wrapped(s: string): seq<Atom> {
    WrapPairs(Plain(s), STARS, [BoldOpen], [BoldClose])
  }

  /** The bold pass around the first span. */
  lemma WrappedSpan(s: string)
    ensures var open := Cut(s, "**");
            if open.Absent? || Cut(open.after, "**").Absent? then Wrapped(s) == Plain(s)
            else
              var close := Cut(open.after, "**");
              Wrapped(s) ==
              Plain(open.before) + ([BoldOpen] + (Plain(close.before) + ([BoldClose] + Wrapped(close.after))))
  {
    var open := Cut(s, "**");
    CutPlain(s);
    if open.Around? {
      CutPlain(open.after);
      var close := Cut(open.after, "**");
      if close.Around? {
        hide Plain, Cut;
        var a, b, w := Plain(open.before), Plain(close.before), Wrapped(close.after);
        assert Wrapped(s) == a + [BoldOpen] + b + [BoldClose] + w;
        Grouped4(a, [BoldOpen], b, [BoldClose], w);
      }
    }
  }

  lemma Grouped4(a: seq<Atom>, b: seq<Atom>, c: seq<Atom>, d: seq<Atom>, e: seq<Atom>)
    ensures a + b + c + d + e == a + (b + (c + (d + e)))
  {
  }

  /** The code pass around the first bold span. */
  lemma CodedSpan(x: seq<Atom>, y: seq<Atom>, w: seq<Atom>, k: nat, k1: nat, k2: nat, n: nat)
    requires k1 == k + TickAtoms(x) && k2 == k1 + TickAtoms(y)
    ensures Coded(x + ([BoldOpen] + (y + ([BoldClose] + w))), k, n) ==
            Coded(x, k, n) + ([BoldOpen] + (Coded(y, k1, n) + ([BoldClose] + Coded(w, k2, n))))
  {
    hide Coded, TickAtoms;
    var tail := y + ([BoldClose] + w);
    CodedBold(x, BoldOpen, tail, k, n);
    CodedBold(y, BoldClose, w, k1, n);
  }

  lemma CodedBold(x: seq<Atom>, a: Atom, rest: seq<Atom>, k: nat, n: nat)
    requires a == BoldOpen || a == BoldClose
    ensures Coded(x + ([a] + rest), k, n) == Coded(x, k, n) + ([a] + Coded(rest, k + TickAtoms(x), n))
  {
    hide Coded, TickAtoms;
    CodedConcat(x, [a] + rest, k, n);
    CodedStep(a, rest, k + TickAtoms(x), n);
  }

  lemma {:induction false} FitsIff(s: string, k: nat, n: nat)
    ensures SpansFit(Coded(Wrapped(s), k, n), Min(k, n) % 2 == 1) <==> Fits(s, k, n)
    decreases |s|
  {
    hide Coded, TickAtoms, Wrapped, Plain, Ticks, CodeTags, Cut;
    var open := Cut(s, "**");
    WrappedSpan(s);
    if open.Absent? || Cut(open.after, "**").Absent? {
      CodedPlain(s, k, n);
      CutNoAtom(Coded(Plain(s), k, n), BoldOpen);
    } else {
      var close := Cut(open.after, "**");
      var k1 := k + Ticks(open.before);
      var k2 := k1 + Ticks(close.before);
      FitsIff(close.after, k2, n);
      CodedPlain(open.before, k, n);
      CodedPlain(close.before, k1, n);
      CodedSpan(Plain(open.before), Plain(close.before), Wrapped(close.after), k, k1, k2, n);
      var a, b := Coded(Plain(open.before), k, n), Coded(Plain(close.before), k1, n);
      SpanAgrees(a, b, Coded(Wrapped(close.after), k2, n), Min(k, n), Min(k1, n), Min(k2, n));
    }
  }

  lemma SpanAgrees(a: seq<Atom>, b: seq<Atom>, w: seq<Atom>, m: nat, m1: nat, m2: nat)
    requires m <= m1 <= m2 && CodeTags(a) == m1 - m && CodeTags(b) == m2 - m1 && NoBold(a) && NoBold(b)
    ensures SpansFit(a + ([BoldOpen] + (b + ([BoldClose] + w))), m % 2 == 1) <==>
            (if m1 % 2 == 1 then m2 == m1 else (m2 - m1) % 2 == 0) && SpansFit(w, m2 % 2 == 1)
  {
    CutAtAtom(a, BoldOpen, b + ([BoldClose] + w));
    CutAtAtom(b, BoldClose, w);
    hide SpansFit;
    OneSpan(a, b, w, m, m1, m2);
  }

  /** The first span of the structured text. */
  lemma OneSpan(a: seq<Atom>, b: seq<Atom>, w: seq<Atom>, m: nat, m1: nat, m2: nat)
    requires m <= m1 <= m2 && CodeTags(a) == m1 - m && CodeTags(b) == m2 - m1
    requires Cut(a + ([BoldOpen] + (b + ([BoldClose] + w))), [BoldOpen]) == Around(a, b + ([BoldClose] + w))
    requires Cut(b + ([BoldClose] + w), [BoldClose]) == Around(b, w)
    ensures SpansFit(a + ([BoldOpen] + (b + ([BoldClose] + w))), m % 2 == 1) <==>
            (if m1 % 2 == 1 then m2 == m1 else (m2 - m1) % 2 == 0) && SpansFit(w, m2 % 2 == 1)
  {
    hide CodeTags, Cut;
  }

  /** Exactly when the two kinds of tags nest, as the text itself tells: each bold span opened outside
      code holds an even number of paired backticks, and each one opened inside code holds none. */
  lemma TagsNestIff(text: string)
    ensures Nests(Structure(text), []) <==> Fits(text, 0, Ticks(text) / 2 * 2)
  {
    var n := Ticks(text) / 2 * 2;
    StructureNestsIff(text);
    FitsIff(text, 0, n);
    WrapPairsIsMark(Plain(text), STARS, [BoldOpen], [BoldClose]);
    WrappedTicks(text);
    assert Structure(text) == Coded(Wrapped(text), 0, n);
  }

  /** The bold pass leaves the backticks alone. */
  lemma {:induction false} WrappedTicks(s: string)
    ensures TickAtoms(Wrapped(s)) == Ticks(s)
    decreases |s|
  {
    var open := Cut(s, "**");
    WrappedSpan(s);
    if open.Absent? || Cut(open.after, "**").Absent? {
      CodedPlain(s, 0, 0);
    } else {
      var close := Cut(open.after, "**");
      CutIsLeftmost(s, "**");
      CutIsLeftmost(open.after, "**");
      WrappedTicks(close.after);
      CodedPlain(open.before, 0, 0);
      CodedPlain(close.before, 0, 0);
      hide TickAtoms, Wrapped, Plain, Cut;
      var b, w := Plain(close.before), Wrapped(close.after);
      CodedStep(BoldClose, w, 0, 0);
      CodedConcat(b, [BoldClose] + w, 0, 0);
      CodedStep(BoldOpen, b + ([BoldClose] + w), 0, 0);
      CodedConcat(Plain(open.before), [BoldOpen] + (b + ([BoldClose] + w)), 0, 0);
      TicksSpan(open.before, close.before, close.after);
    }
  }

  lemma {:induction false} TicksConcat(a: string, b: string)
    ensures Ticks(a + b) == Ticks(a) + Ticks(b)
  {
    if a == "" {
      assert a + b == b;
    } else {
      assert (a + b)[1..] == a[1..] + b;
      TicksConcat(a[1..], b);
    }
  }

  lemma TicksSpan(a: string, b: string, c: string)
    ensures Ticks(a + "**" + (b + "**" + c)) == Ticks(a) + Ticks(b) + Ticks(c)
  {
    TicksConcat(a + "**", b + "**" + c);
    TicksConcat(a, "**");
    TicksConcat(b + "**", c);
    TicksConcat(b, "**");
    assert "**"[1..] == "*" && "*"[1..] == "";
  }

  lemma Behind(d: seq<Atom>, rest: seq<Atom>)
    ensures d <= d + rest && (d + rest)[|d|..] == rest
  {
  }

  /** The bold pass over two pairs of stars with plain text around them. */
  lemma TwoStars(a: seq<Atom>, b: seq<Atom>)
    requires Ch('*') !in a && Ch('*') !in b
    ensures var s := STARS + (a + (STARS + (b + [])));
            Mark(s, STARS, [BoldOpen], [BoldClose], 0, Paired(s, STARS)) == [BoldOpen] + (a + ([BoldClose] + (b + [])))
  {
    var tail := STARS + (b + []);
    var s := STARS + (a + tail);
    hide Mark, Count;
    Behind(STARS, b + []);
    Behind(STARS, a + tail);
    Empty<Atom>([], STARS, [BoldOpen], [BoldClose], 2, 2);
    MarkSkip(b, [], STARS, [BoldOpen], [BoldClose], 2, 2);
    AtDelimiter(tail, STARS, [BoldOpen], [BoldClose], 1, 2);
    MarkSkip(a, tail, STARS, [BoldOpen], [BoldClose], 1, 2);
    AtDelimiter(s, STARS, [BoldOpen], [BoldClose], 0, 2);
  }

  lemma TwoTicks(a: seq<Atom>, b: seq<Atom>, c: seq<Atom>)
    requires Ch('`') !in a && Ch('`') !in b && Ch('`') !in c
    ensures var s := a + (TICK + (b + (TICK + (c + []))));
            Mark(s, TICK, [CodeOpen], [CodeClose], 0, Paired(s, TICK)) ==
            a + ([CodeOpen] + (b + ([CodeClose] + (c + []))))
  {
    var last := TICK + (c + []);
    var tail := TICK + (b + last);
    hide Mark, Count;
    Behind(TICK, c + []);
    Behind(TICK, b + last);
    Empty<Atom>([], TICK, [CodeOpen], [CodeClose], 2, 2);
    MarkSkip(c, [], TICK, [CodeOpen], [CodeClose], 2, 2);
    AtDelimiter(last, TICK, [CodeOpen], [CodeClose], 1, 2);
    MarkSkip(b, last, TICK, [CodeOpen], [CodeClose], 1, 2);
    AtDelimiter(tail, TICK, [CodeOpen], [CodeClose], 0, 2);
    MarkSkip(a, tail, TICK, [CodeOpen], [CodeClose], 0, 2);
  }

  lemma {:induction false} PlainConcat(a: string, b: string)
    ensures Plain(a + b) == Plain(a) + Plain(b)
  {
    if a == "" {
      assert a + b == b;
    } else {
      assert (a + b)[1..] == a[1..] + b;
      PlainConcat(a[1..], b);
      Regroup([Ch(a[0])], Plain(a[1..]), Plain(b));
    }
  }

  /** The atoms of a text without stars and backticks. */
  predicate Letters(atoms: seq<Atom>) {
    (forall a :: a in atoms ==> a.Ch?) && Ch('*') !in atoms && Ch('`') !in atoms
  }

  lemma {:induction false} PlainLetters(text: string)
    requires '*' !in text && '`' !in text
    ensures Letters(Plain(text))
  {
    if text != "" {
      PlainLetters(text[1..]);
    }
  }

  lemma {:induction false} NestsLetters(seg: seq<Atom>, rest: seq<Atom>, open: seq<Atom>)
    requires forall a :: a in seg ==> a.Ch?
    ensures Nests(seg + rest, open) == Nests(rest, open)
  {
    if seg == [] {
      assert seg + rest == rest;
    } else {
      assert seg + rest == [seg[0]] + (seg[1..] + rest);
      FirstRest(seg[0], seg[1..] + rest);
      NestsLetters(seg[1..], rest, open);
    }
  }

  lemma CrossedAtoms(a: seq<Atom>, b: seq<Atom>, c: seq<Atom>)
    requires Letters(a) && Letters(b)
    ensures !Nests([BoldOpen] + (a + ([CodeOpen] + (b + ([BoldClose] + c)))), [])
  {
    var s3 := [BoldClose] + c;
    var s2 := [CodeOpen] + (b + s3);
    FirstRest(BoldOpen, a + s2);
    NestsLetters(a, s2, [BoldOpen] + []);
    FirstRest(CodeOpen, b + s3);
    NestsLetters(b, s3, [CodeOpen] + ([BoldOpen] + []));
    FirstRest(BoldClose, c);
    FirstRest(CodeOpen, [BoldOpen] + []);
  }

  lemma CrossedStructure(a: seq<Atom>, b: seq<Atom>, c: seq<Atom>)
    requires Letters(a) && Letters(b) && Letters(c)
    ensures var plain := STARS + (a + TICK + b + (STARS + (c + TICK + [])));
            var bolded := Mark(plain, STARS, [BoldOpen], [BoldClose], 0, Paired(plain, STARS));
            Mark(bolded, TICK, [CodeOpen], [CodeClose], 0, Paired(bolded, TICK)) ==
            [BoldOpen] + (a + ([CodeOpen] + (b + ([BoldClose] + (c + [CodeClose])))))
  {
    var front, middle := [BoldOpen] + a, b + ([BoldClose] + c);
    hide Mark, Count;
    TwoStars(a + TICK + b, c + TICK);
    TwoTicks(front, middle, []);
    var tail := [BoldClose] + (c + TICK + []);
    calc {
      [BoldOpen] + (a + TICK + b + tail);
      { Regroup(a + TICK, b, tail); }
      [BoldOpen] + (a + TICK + (b + tail));
      { Regroup(a, TICK, b + tail); }
      [BoldOpen] + (a + (TICK + (b + tail)));
      { Regroup([BoldOpen], a, TICK + (b + tail)); }
      front + (TICK + (b + tail));
      { assert b + tail == middle + (TICK + ([] + [])); }
      front + (TICK + (middle + (TICK + ([] + []))));
    }
    Crossed(a, b, c);
  }

  lemma Crossed(a: seq<Atom>, b: seq<Atom>, c: seq<Atom>)
    ensures [BoldOpen] + a + ([CodeOpen] + (b + ([BoldClose] + c) + ([CodeClose] + ([] + [])))) ==
            [BoldOpen] + (a + ([CodeOpen] + (b + ([BoldClose] + (c + [CodeClose])))))
  {
    var end := [CodeClose] + ([] + []);
    assert end == [CodeClose];
    Regroup([BoldClose], c, end);
    Regroup(b, [BoldClose] + c, end);
    Regroup([BoldOpen], a, [CodeOpen] + (b + ([BoldClose] + (c + end))));
  }

  /** A bold span that begins before a backtick and ends behind it, and another backtick. */
  function CrossingText(x: string, y: string, z: string): string {
    "**" + (x + "`" + y + ("**" + (z + "`" + "")))
  }

  lemma CrossingPlain(x: string, y: string, z: string)
    ensures Plain(CrossingText(x, y, z)) ==
            STARS + (Plain(x) + TICK + Plain(y) + (STARS + (Plain(z) + TICK + [])))
  {
    DelimiterAtoms();
    hide Plain;
    PlainConcat(z, "`");
    PlainConcat(z + "`", "");
    PlainConcat("**", z + "`" + "");
    PlainConcat(x, "`");
    PlainConcat(x + "`", y);
    PlainConcat(x + "`" + y, "**" + (z + "`" + ""));
    PlainConcat("**", x + "`" + y + ("**" + (z + "`" + "")));
  }

  lemma DelimiterAtoms()
    ensures Plain("**") == STARS && Plain("`") == TICK && Plain("") == []
  {
    assert "**"[1..] == "*" && Plain("*") == [Ch('*')];
  }

  /** They do cross: a backtick inside a bold span is paired with one behind it, whatever the
      letters around are. */
  lemma TagsCross(x: string, y: string, z: string)
    requires '*' !in x && '`' !in x && '*' !in y && '`' !in y && '*' !in z && '`' !in z
    ensures var s := Structure(CrossingText(x, y, z));
            && s == [BoldOpen] + (Plain(x) + ([CodeOpen] + (Plain(y) + ([BoldClose] + (Plain(z) + [CodeClose])))))
            && !Nests(s, [])
  {
    PlainLetters(x);
    PlainLetters(y);
    PlainLetters(z);
    CrossingPlain(x, y, z);
    hide Plain, CrossingText, Letters, Mark, Count, Nests;
    CrossedStructure(Plain(x), Plain(y), Plain(z));
    CrossedAtoms(Plain(x), Plain(y), Plain(z) + [CodeClose]);
  }
}
