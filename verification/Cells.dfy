/** Table rows as text: `parse_row_cells`, the delimiter test, and the printer they invert. */
module Cells {
  import opened Text
  import opened Tokenizer

  function Trim(s: string): string {
    TrimRight(TrimLeft(s))
  }

  predicate EndsInSlash(s: string) {
    s != "" && s[|s| - 1] == '\\'
  }

  function DropSlash(cell: string): string {
    if EndsInSlash(cell) then cell[..|cell| - 1] else cell
  }

  /** The cells of the rest of a row, after the character `prev` and with `cell` collected so far.
      A pipe behind a backslash is text and takes the backslash's place. */
  function Split(prev: char, rest: string, cell: string): seq<string>
    decreases |rest|
  {
    if rest == "" then [cell]
    else if rest[0] == '|' && prev != '\\' then [cell] + Split('|', rest[1..], "")
    else if rest[0] == '|' then Split('|', rest[1..], DropSlash(cell) + "|")
    else Split(rest[0], rest[1..], cell + [rest[0]])
  }

  predicate LeadingPipe(t: string) {
    t != "" && t[0] == '|'
  }

  predicate TrailingPipe(t: string) {
    |t| > 1 && t[|t| - 1] == '|' && t[|t| - 2] != '\\'
  }

  /** What is between the outer pipes of a trimmed row. */
  function Inside(t: string): string
    requires t != ""
  {
    t[if LeadingPipe(t) then 1 else 0..if TrailingPipe(t) then |t| - 1 else |t|]
  }

  function ParseRow(row: string): seq<string> {
    var t := Trim(row);
    if t == "" then [] else Split('|', Inside(t), "")
  }

  /** One turn of the loop: what `cells` and `cell` become. */
  lemma SplitTurn(t: string, i: nat, end: nat, prev: char, cells: seq<string>, cell: string)
    requires i < end <= |t|
    ensures cells + Split(prev, t[i..end], cell) ==
            if t[i] == '|' && prev != '\\' then cells + [cell] + Split('|', t[i + 1..end], "")
            else cells + Split(t[i], t[i + 1..end], (if t[i] == '|' then DropSlash(cell) else cell) + [t[i]])
  {
    assert t[i..end][0] == t[i] && t[i..end][1..] == t[i + 1..end];
  }

  lemma SplitEnd(t: string, end: nat, prev: char, cell: string)
    requires end <= |t|
    ensures Split(prev, t[end..end], cell) == [cell]
  {
  }

  /** The loop of `parse_row_cells`. */
  method SplitRange(t: string, start: nat, end: nat) returns (cells: seq<string>)
    requires start <= end <= |t| && (start > 0 ==> t[start - 1] != '\\')
    ensures cells == Split(if start == 0 then '|' else t[start - 1], t[start..end], "")
  {
    hide Split, DropSlash;
    var cell := "";
    cells := [];
    var i := start;
    ghost var prev := if start == 0 then '|' else t[start - 1];
    ghost var all := Split(prev, t[start..end], "");
    while i < end
      invariant start <= i <= end
      invariant if i == 0 then prev == '|' else prev == t[i - 1]
      invariant cells + Split(prev, t[i..end], cell) == all
    {
      SplitTurn(t, i, end, prev, cells, cell);
      if t[i] == '|' && (i == 0 || t[i - 1] != '\\') {
        cells := cells + [cell];
        cell := "";
      } else {
        if t[i] == '|' && i > 0 && t[i - 1] == '\\' {
          cell := DropSlash(cell);
        }
        cell := cell + [t[i]];
      }
      prev := t[i];
      i := i + 1;
    }
    SplitEnd(t, end, prev, cell);
    cells := cells + [cell];
  }

  method ParseRowCells(row: string) returns (cells: seq<string>)
    ensures cells == ParseRow(row)
  {
    var t := Trim(row);
    if t == "" {
      return [];
    }
    var start := if LeadingPipe(t) then 1 else 0;
    var end := if TrailingPipe(t) then |t| - 1 else |t|;
    hide Split, Trim;
    cells := SplitRange(t, start, end);
  }

  // ----- the printer -----

  function EscapePipes(cell: string): string {
    if cell == "" then ""
    else (if cell[0] == '|' then "\\|" else [cell[0]]) + EscapePipes(cell[1..])
  }

  /** Cells with escaped pipes, each closed by a pipe. */
  function Closed(cells: seq<string>): string {
    if cells == [] then "" else EscapePipes(cells[0]) + "|" + Closed(cells[1..])
  }

  /** A row with outer pipes. */
  function PrintRow(cells: seq<string>): string {
    "|" + Closed(cells)
  }

  /** What a printed row is read back as: a cell that ends in a backslash escapes the pipe behind
      it, so it swallows that pipe and runs into the next cell. */
  function ReadBack(cells: seq<string>): seq<string>
    requires cells != []
    decreases |cells|
  {
    var c := cells[0];
    if |cells| == 1 then [if EndsInSlash(c) then DropSlash(c) + "|" else c]
    else if EndsInSlash(c) then ReadBack([DropSlash(c) + "|" + cells[1]] + cells[2..])
    else [c] + ReadBack(cells[1..])
  }

  /** What is between the outer pipes of a printed row. */
  function Between(cells: seq<string>): string
    requires cells != []
  {
    if |cells| == 1 then EscapePipes(cells[0]) + (if EndsInSlash(cells[0]) then "|" else "")
    else EscapePipes(cells[0]) + "|" + Between(cells[1..])
  }

  function LastOf(prev: char, c: string): char {
    if c == "" then prev else c[|c| - 1]
  }

  lemma SplitPipe(prev: char, e: string, cell: string)
    ensures Split(prev, "\\|" + e, cell) == Split('|', e, cell + "|")
  {
    var s := "\\|" + e;
    assert s[1..] == "|" + e && s[1..][1..] == e;
    assert Split(prev, s, cell) == Split('\\', s[1..], cell + "\\");
    assert DropSlash(cell + "\\") == cell;
  }

  lemma SplitPlain(prev: char, c: char, e: string, cell: string)
    requires c != '|'
    ensures Split(prev, [c] + e, cell) == Split(c, e, cell + [c])
  {
    assert ([c] + e)[1..] == e;
  }

  /** An escaped cell is collected as it was. */
  lemma {:induction false} SplitCell(prev: char, c: string, rest: string, cell: string)
    ensures Split(prev, EscapePipes(c) + rest, cell) == Split(LastOf(prev, c), rest, cell + c)
    decreases |c|
  {
    hide Split;
    if c == "" {
      assert EscapePipes(c) + rest == rest && cell + c == cell;
    } else {
      var e := EscapePipes(c[1..]) + rest;
      SplitCell(c[0], c[1..], rest, cell + [c[0]]);
      assert cell + [c[0]] + c[1..] == cell + c;
      if c[0] == '|' {
        assert EscapePipes(c) + rest == "\\|" + e;
        SplitPipe(prev, e, cell);
      } else {
        assert EscapePipes(c) + rest == [c[0]] + e;
        SplitPlain(prev, c[0], e, cell);
      }
    }
  }

  /** Splitting what is between the outer pipes, with `cell` already in front of the first cell. */
  lemma {:induction false} SplitBetween(cells: seq<string>, cell: string)
    requires cells != [] && !EndsInSlash(cell)
    ensures Split('|', Between(cells), cell) == ReadBack([cell + cells[0]] + cells[1..])
    decreases |cells|
  {
    var c := cells[0];
    var whole := cell + c;
    assert EndsInSlash(whole) <==> LastOf('|', c) == '\\';
    hide Split, EscapePipes, DropSlash;
    if |cells| == 1 {
      SplitLast(c, cell);
      assert [whole] + cells[1..] == [whole] && cells == [c];
    } else {
      var rest := Between(cells[1..]);
      var merged := [whole] + cells[1..];
      assert Between(cells) == EscapePipes(c) + ("|" + rest);
      SplitCell('|', c, "|" + rest, cell);
      SplitDelimiter(LastOf('|', c), rest, whole);
      assert merged[1] == cells[1] && merged[2..] == cells[1..][1..] && merged[1..] == cells[1..];
      if EndsInSlash(whole) {
        SplitBetween(cells[1..], DropSlash(whole) + "|");
      } else {
        SplitBetween(cells[1..], "");
        assert "" + cells[1] == cells[1];
        assert ["" + cells[1]] + cells[1..][1..] == cells[1..];
      }
    }
  }

  lemma SplitLast(c: string, cell: string)
    requires !EndsInSlash(cell)
    ensures Split('|', Between([c]), cell) == ReadBack([cell + c])
  {
    var whole, last := cell + c, LastOf('|', c);
    var tail := if EndsInSlash(c) then "|" else "";
    assert EndsInSlash(whole) <==> last == '\\';
    hide Split, EscapePipes, DropSlash;
    SplitCell('|', c, tail, cell);
    SplitDelimiter(last, "", whole);
    SplitNothing('|', DropSlash(whole) + "|");
    SplitNothing(last, whole);
    assert "|" + "" == "|";
  }

  lemma SplitNothing(prev: char, cell: string)
    ensures Split(prev, "", cell) == [cell]
  {
  }

  lemma SplitDelimiter(prev: char, rest: string, cell: string)
    ensures Split(prev, "|" + rest, cell) ==
            if prev != '\\' then [cell] + Split('|', rest, "") else Split('|', rest, DropSlash(cell) + "|")
  {
    assert ("|" + rest)[1..] == rest;
  }

  lemma {:induction false} ClosedIsBetween(cells: seq<string>)
    requires cells != []
    ensures Closed(cells) == Between(cells) + (if EndsInSlash(cells[|cells| - 1]) then "" else "|")
  {
    var c := cells[0];
    if |cells| == 1 {
      assert Closed(cells[1..]) == "";
    } else {
      ClosedIsBetween(cells[1..]);
      var end := if EndsInSlash(cells[|cells| - 1]) then "" else "|";
      calc {
        Closed(cells);
        EscapePipes(c) + "|" + Closed(cells[1..]);
        EscapePipes(c) + "|" + (Between(cells[1..]) + end);
        Between(cells) + end;
      }
    }
  }

  lemma {:induction false} ClosedLast(cells: seq<string>)
    requires cells != []
    ensures Closed(cells) == Closed(cells[..|cells| - 1]) + (EscapePipes(cells[|cells| - 1]) + "|")
  {
    hide EscapePipes;
    var c, n := cells[0], |cells| - 1;
    if n == 0 {
      assert Closed(cells[1..]) == "" && Closed(cells[..0]) == "";
    } else {
      ClosedLast(cells[1..]);
      var last := EscapePipes(cells[n]) + "|";
      assert Closed(cells[..n]) == EscapePipes(c) + "|" + Closed(cells[1..][..n - 1]) by {
        assert cells[..n][0] == c && cells[1..][..n - 1] == cells[..n][1..];
      }
      assert Closed(cells) == EscapePipes(c) + "|" + Closed(cells[1..]);
      hide Closed;
      Regroup(EscapePipes(c) + "|", Closed(cells[1..][..n - 1]), last);
    }
  }

  /** A printed row starts and ends with a pipe, and the last one is taken as a closing pipe
      unless the last cell escapes it. */
  lemma PrintedEnds(cells: seq<string>)
    requires cells != []
    ensures var t := PrintRow(cells);
            && |t| > 1 && t[0] == '|' && t[|t| - 1] == '|'
            && (TrailingPipe(t) <==> !EndsInSlash(cells[|cells| - 1]))
  {
    var n := |cells| - 1;
    var e := EscapePipes(cells[n]);
    ClosedLast(cells);
    EscapedEnd(cells[n]);
    if n > 0 {
      ClosedLast(cells[..n]);
    }
    hide EscapePipes, Closed;
    assert Closed([]) == "" by {
      ClosedNothing();
    }
    var front := "|" + Closed(cells[..n]);
    assert PrintRow(cells) == front + (e + "|");
    assert front[|front| - 1] == '|';
    EndsOf(front, e);
  }

  lemma EndsOf(front: string, e: string)
    requires front != "" && front[0] == '|' && front[|front| - 1] == '|'
    ensures var t := front + (e + "|");
            |t| > 1 && t[0] == '|' && t[|t| - 1] == '|' && (TrailingPipe(t) <==> !EndsInSlash(e))
  {
    var t := front + (e + "|");
    assert t[|t| - 2] == if e == "" then '|' else e[|e| - 1];
  }

  lemma ClosedNothing()
    ensures Closed([]) == ""
  {
  }

  lemma {:induction false} EscapedEnd(c: string)
    ensures EscapePipes(c) == "" <==> c == ""
    ensures EndsInSlash(EscapePipes(c)) <==> EndsInSlash(c)
  {
    if c != "" {
      EscapedEnd(c[1..]);
    }
  }

  lemma TrimNothing(t: string)
    requires t != "" && t[0] == '|' && t[|t| - 1] == '|'
    ensures Trim(t) == t
  {
  }

  /** Exactly what parsing makes of a printed row. */
  lemma ParsePrinted(cells: seq<string>)
    requires cells != []
    ensures ParseRow(PrintRow(cells)) == ReadBack(cells)
  {
    hide PrintRow, Inside, Between, Split, Trim, ReadBack;
    PrintedEnds(cells);
    TrimNothing(PrintRow(cells));
    PrintedInside(cells);
    SplitBetween(cells, "");
    TakeDrop(cells, 1);
    assert "" + cells[0] == cells[0] && cells[..1] == [cells[0]];
  }

  lemma PrintedInside(cells: seq<string>)
    requires cells != []
    ensures PrintRow(cells) != "" && Inside(PrintRow(cells)) == Between(cells)
  {
    PrintedEnds(cells);
    ClosedIsBetween(cells);
    hide EscapePipes, Closed, Between;
    FirstRest('|', Closed(cells));
  }

  lemma {:induction false} ReadBackIdentity(cells: seq<string>)
    requires cells != []
    ensures |ReadBack(cells)| <= |cells|
    ensures ReadBack(cells) == cells <==> forall i :: 0 <= i < |cells| ==> !EndsInSlash(cells[i])
    decreases |cells|
  {
    var c := cells[0];
    if |cells| == 1 {
      if EndsInSlash(c) {
        assert (DropSlash(c) + "|")[|c| - 1] == '|';
      }
    } else if EndsInSlash(c) {
      var merged := [DropSlash(c) + "|" + cells[1]] + cells[2..];
      ReadBackIdentity(merged);
    } else {
      var rest := ReadBack(cells[1..]);
      ReadBackIdentity(cells[1..]);
      assert cells == [c] + cells[1..];
      assert ([c] + rest)[1..] == rest;
    }
  }

  /** The parser inverts the printer exactly on the rows none of whose cells ends in a backslash. */
  lemma RoundTripIff(cells: seq<string>)
    requires cells != []
    ensures ParseRow(PrintRow(cells)) == cells <==> forall i :: 0 <= i < |cells| ==> !EndsInSlash(cells[i])
  {
    ParsePrinted(cells);
    ReadBackIdentity(cells);
  }

  // ----- delimiter cells -----

  function Dashes(n: nat): string {
    if n == 0 then "" else "-" + Dashes(n - 1)
  }

  function DropFirstColon(s: string): string {
    if s != "" && s[0] == ':' then s[1..] else s
  }

  function DropLastColon(s: string): string {
    if s != "" && s[|s| - 1] == ':' then s[..|s| - 1] else s
  }

  /** `is_valid_delimiter_cell`. */
  predicate IsDelimiterCell(cell: string) {
    var core := DropLastColon(DropFirstColon(Trim(cell)));
    core != "" && AllDashes(core)
  }

  /** A delimiter cell as GFM section 4.10 describes it: hyphens, with optional colons around. */
  ghost predicate DelimiterForm(s: string) {
    exists n: nat, left: bool, right: bool :: n > 0 && s == Delimiter(n, left, right)
  }

  function Delimiter(n: nat, left: bool, right: bool): string {
    (if left then ":" else "") + Dashes(n) + (if right then ":" else "")
  }

  lemma {:induction false} DashesAre(n: nat)
    ensures |Dashes(n)| == n && AllDashes(Dashes(n))
  {
    if n > 0 {
      DashesAre(n - 1);
    }
  }

  lemma {:induction false} AllDashesAre(s: string)
    requires AllDashes(s)
    ensures s == Dashes(|s|)
  {
    if s != "" {
      assert s[0] in s && forall c :: c in s[1..] ==> c in s;
      AllDashesAre(s[1..]);
      assert s == [s[0]] + s[1..];
    }
  }

  lemma DelimiterCore(t: string)
    requires var core := DropLastColon(DropFirstColon(t)); core != "" && AllDashes(core)
    ensures DelimiterForm(t)
  {
    var u := DropFirstColon(t);
    var core := DropLastColon(u);
    AllDashesAre(core);
    assert u == core + (if u != core then ":" else "");
    assert t == (if t != u then ":" else "") + u;
    assert t == Delimiter(|core|, t != u, u != core);
  }

  lemma DelimiterHasCore(n: nat, left: bool, right: bool)
    requires n > 0
    ensures DropLastColon(DropFirstColon(Delimiter(n, left, right))) == Dashes(n)
    ensures Dashes(n) != "" && AllDashes(Dashes(n))
  {
    DashesAre(n);
    var d := Dashes(n);
    hide Dashes;
    assert d[0] in d && d[n - 1] in d;
    hide AllDashes;
    ColonsDropped(d, left, right);
  }

  lemma ColonsDropped(d: string, left: bool, right: bool)
    requires d != "" && d[0] != ':' && d[|d| - 1] != ':'
    ensures DropLastColon(DropFirstColon((if left then ":" else "") + d + (if right then ":" else ""))) == d
  {
    var u := d + if right then ":" else "";
    assert u[0] == d[0];
    assert right ==> u[..|u| - 1] == d;
    FirstRest(':', u);
    Regroup(if left then ":" else "", d, if right then ":" else "");
    assert "" + u == u;
  }

  /** The test accepts exactly the delimiter cells. */
  lemma DelimiterTest(cell: string)
    ensures IsDelimiterCell(cell) <==> DelimiterForm(Trim(cell))
  {
    var t := Trim(cell);
    hide Trim, Dashes, DropFirstColon, DropLastColon, Delimiter;
    if IsDelimiterCell(cell) {
      DelimiterCore(t);
    }
    if DelimiterForm(t) {
      var n: nat, left: bool, right: bool :| n > 0 && t == Delimiter(n, left, right);
      DelimiterHasCore(n, left, right);
    }
  }
}
