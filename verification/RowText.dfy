/** What the row parser finds in any row, however its outer pipes are written. */
module RowText {
  import opened Text
  import opened Tokenizer
  import opened Cells

  // ----- trimming -----

  predicate Blanks(s: string) {
    forall i :: 0 <= i < |s| ==> IsSpace(s[i])
  }

  /** A text that neither starts nor ends with white space. */
  predicate Tight(t: string) {
    t != "" ==> !IsSpace(t[0]) && !IsSpace(t[|t| - 1])
  }

  lemma {:induction false} TrimLeftIs(front: string, s: string)
    requires Blanks(front) && (s != "" ==> !IsSpace(s[0]))
    ensures TrimLeft(front + s) == s
  {
    if front == "" {
      assert front + s == s;
    } else {
      assert (front + s)[1..] == front[1..] + s;
      TrimLeftIs(front[1..], s);
    }
  }

  lemma {:induction false} TrimRightIs(s: string, back: string)
    requires Blanks(back) && (s != "" ==> !IsSpace(s[|s| - 1]))
    ensures TrimRight(s + back) == s
    decreases |back|
  {
    if back == "" {
      assert s + back == s;
    } else {
      var n := |back| - 1;
      assert (s + back)[..|s + back| - 1] == s + back[..n];
      TrimRightIs(s, back[..n]);
    }
  }

  /** Trimming takes the white space around a text and nothing else. */
  lemma TrimIs(front: string, t: string, back: string)
    requires Blanks(front) && Blanks(back) && Tight(t)
    ensures Trim(front + t + back) == t
  {
    if t == "" {
      assert front + t + back == front + back + "";
      TrimLeftIs(front + back, "");
    } else {
      assert front + t + back == front + (t + back);
      TrimLeftIs(front, t + back);
      TrimRightIs(t, back);
    }
  }

  // ----- cells and the text they stand for -----

  /** Cells with escaped pipes, and a pipe between each two. */
  function JoinRow(cells: seq<string>): string
    requires cells != []
  {
    if |cells| == 1 then EscapePipes(cells[0]) else EscapePipes(cells[0]) + "|" + JoinRow(cells[1..])
  }

  /** No cell but the last ends in a backslash. */
  predicate Unswallowed(cells: seq<string>) {
    forall i :: 0 <= i < |cells| - 1 ==> !EndsInSlash(cells[i])
  }

  /** How many pipes no backslash escapes, in a text behind the character `prev`. */
  function BarePipes(prev: char, s: string): nat
    decreases |s|
  {
    if s == "" then 0 else (if s[0] == '|' && prev != '\\' then 1 else 0) + BarePipes(s[0], s[1..])
  }

  lemma {:induction false} EscapeConcat(a: string, b: string)
    ensures EscapePipes(a + b) == EscapePipes(a) + EscapePipes(b)
  {
    if a == "" {
      assert a + b == b;
    } else {
      assert (a + b)[1..] == a[1..] + b;
      EscapeConcat(a[1..], b);
    }
  }

  /** One more character of a cell, as it stands in the text. */
  lemma EscapeGrown(prev: char, c: char, cell: string)
    requires EndsInSlash(cell) <==> prev == '\\'
    requires c == '|' ==> prev == '\\'
    ensures EscapePipes((if c == '|' then DropSlash(cell) else cell) + [c]) == EscapePipes(cell) + [c]
  {
    var front := DropSlash(cell);
    EscapeConcat(if c == '|' then front else cell, [c]);
    assert EscapePipes("") == "" && [c][1..] == "";
    if c == '|' {
      assert cell == front + "\\";
      EscapeConcat(front, "\\");
      assert EscapePipes("\\") == "\\" + EscapePipes("") == "\\";
      assert EscapePipes([c]) == "\\|" + EscapePipes("") == "\\|";
    }
  }

  lemma JoinCons(cell: string, cells: seq<string>)
    requires cells != []
    ensures JoinRow([cell] + cells) == EscapePipes(cell) + "|" + JoinRow(cells)
    ensures !EndsInSlash(cell) && Unswallowed(cells) ==> Unswallowed([cell] + cells)
  {
    FirstRest(cell, cells);
  }

  lemma JoinOne(cell: string)
    ensures JoinRow([cell]) == EscapePipes(cell) && Unswallowed([cell])
  {
  }

  /** Nothing of a row is lost: its cells, with their pipes escaped again and joined by pipes, are its
      text; there is one cell more than bare pipes; and none but the last ends in a backslash. */
  lemma {:induction false} SplitJoins(prev: char, rest: string, cell: string)
    requires EndsInSlash(cell) <==> prev == '\\'
    ensures var cells := Cells.Split(prev, rest, cell);
            && |cells| == BarePipes(prev, rest) + 1 && JoinRow(cells) == EscapePipes(cell) + rest
            && Unswallowed(cells)
    decreases |rest|
  {
    if rest == "" {
      JoinOne(cell);
      assert EscapePipes(cell) + rest == EscapePipes(cell);
    } else {
      var c, tail := rest[0], rest[1..];
      assert rest == [c] + tail;
      if c == '|' && prev != '\\' {
        SplitJoins('|', tail, "");
        JoinCons(cell, Cells.Split('|', tail, ""));
        assert EscapePipes("") + tail == tail;
        Regroup(EscapePipes(cell), "|", tail);
      } else {
        var grown := (if c == '|' then DropSlash(cell) else cell) + [c];
        EscapeGrown(prev, c, cell);
        SplitJoins(c, tail, grown);
        Regroup(EscapePipes(cell), [c], tail);
      }
    }
  }

  /** And cells none but the last of which ends in a backslash are split off again. */
  lemma {:induction false} JoinSplits(cells: seq<string>)
    requires cells != [] && Unswallowed(cells)
    ensures Cells.Split('|', JoinRow(cells), "") == cells
  {
    var c := cells[0];
    hide Cells.Split;
    assert "" + c == c;
    if |cells| == 1 {
      assert EscapePipes(c) + "" == EscapePipes(c);
      SplitCell('|', c, "", "");
      SplitNothing(LastOf('|', c), c);
    } else {
      var rest := JoinRow(cells[1..]);
      Regroup(EscapePipes(c), "|", rest);
      SplitCell('|', c, "|" + rest, "");
      SplitDelimiter(LastOf('|', c), rest, c);
      assert forall i :: 0 <= i < |cells| - 2 ==> cells[1..][i] == cells[i + 1];
      JoinSplits(cells[1..]);
    }
  }

  // ----- whole rows -----

  /** The pipe in front of a trimmed row, if it starts with one. */
  function Lead(t: string): string {
    if t != "" && t[0] == '|' then "|" else ""
  }

  /** The pipe behind a trimmed row, if it ends with one that is not escaped, besides the one in front. */
  function Trail(t: string): string {
    if |t| > 1 && t[|t| - 1] == '|' && t[|t| - 2] != '\\' then "|" else ""
  }

  lemma Middle(t: string, i: nat, j: nat, inner: string)
    requires i <= j <= |t|
    ensures t == t[..i] + t[i..j] + t[j..]
    ensures t == t[..i] + inner + t[j..] ==> inner == t[i..j]
  {
    var whole := t[..i] + inner + t[j..];
    if t == whole {
      assert |inner| == j - i && whole[i..j] == inner;
    }
  }

  lemma OuterIs(t: string)
    requires t != ""
    ensures var i, j := |Lead(t)|, |t| - |Trail(t)|;
            i <= j && Inside(t) == t[i..j] && Lead(t) == t[..i] && Trail(t) == t[j..]
  {
  }

  lemma InsideIs(t: string, inner: string)
    requires t != ""
    ensures t == Lead(t) + Inside(t) + Trail(t)
    ensures Inside(t) == inner <==> t == Lead(t) + inner + Trail(t)
  {
    OuterIs(t);
    hide Lead, Trail, Inside;
    Middle(t, |Lead(t)|, |t| - |Trail(t)|, inner);
  }

  /** Exactly which cells a row has, with or without outer pipes: the ones that spell it when their pipes
      are escaped and they are joined by pipes, and of which none but the last ends in a backslash. */
  lemma ParsedIff(row: string, cells: seq<string>)
    requires Trim(row) != "" && cells != []
    ensures var t := Trim(row);
            ParseRow(row) == cells <==> t == Lead(t) + JoinRow(cells) + Trail(t) && Unswallowed(cells)
  {
    var t := Trim(row);
    hide Trim, Cells.Split;
    InsideIs(t, JoinRow(cells));
    SplitJoins('|', Inside(t), "");
    assert EscapePipes("") + Inside(t) == Inside(t);
    if Unswallowed(cells) {
      JoinSplits(cells);
    }
  }

  lemma {:induction false} BareConcat(prev: char, a: string, b: string)
    ensures BarePipes(prev, a + b) == BarePipes(prev, a) + BarePipes(LastOf(prev, a), b)
    decreases |a|
  {
    if a == "" {
      assert a + b == b;
    } else {
      assert (a + b)[1..] == a[1..] + b;
      BareConcat(a[0], a[1..], b);
    }
  }

  /** How many cells a row has: one more than pipes that are neither escaped nor outer ones, and none if
      it is blank. */
  lemma CellCount(row: string)
    ensures var t := Trim(row);
            |ParseRow(row)| == if t == "" then 0 else BarePipes('|', t) + 1 - |Lead(t)| - |Trail(t)|
  {
    var t := Trim(row);
    hide Trim, Cells.Split, BarePipes;
    if t != "" {
      InsideIs(t, "");
      SplitJoins('|', Inside(t), "");
      BareConcat('|', Lead(t), Inside(t) + Trail(t));
      BareConcat('|', Inside(t), Trail(t));
      Regroup(Lead(t), Inside(t), Trail(t));
      BareEnds(LastOf('|', Inside(t)), t);
    }
  }

  lemma BareEnds(last: char, t: string)
    requires Trail(t) != "" ==> last != '\\'
    ensures BarePipes('|', Lead(t)) == |Lead(t)| && LastOf('|', Lead(t)) == '|'
    ensures BarePipes(last, Trail(t)) == |Trail(t)|
  {
    assert forall c: char :: [c][1..] == "";
  }

  /** Cells whose row needs no outer pipes: it would not be trimmed, and has no pipe at its ends. */
  predicate Open(cells: seq<string>) {
    cells != [] &&
    var first, last := cells[0], cells[|cells| - 1];
    && first != "" && !IsSpace(first[0]) && first[0] != '|'
    && last != "" && !IsSpace(last[|last| - 1]) && last[|last| - 1] != '|'
  }

  lemma {:induction false} EscapeEnds(c: string)
    requires c != ""
    ensures var e := EscapePipes(c);
            e != "" && e[|e| - 1] == c[|c| - 1] && (c[0] != '|' ==> e[0] == c[0])
  {
    if |c| == 1 {
      assert EscapePipes(c[1..]) == "";
    } else {
      EscapeEnds(c[1..]);
    }
  }

  lemma {:induction false} JoinEnds(cells: seq<string>)
    requires cells != [] && cells[|cells| - 1] != ""
    ensures var s, last := JoinRow(cells), cells[|cells| - 1];
            s != "" && s[|s| - 1] == last[|last| - 1]
  {
    if |cells| == 1 {
      EscapeEnds(cells[0]);
    } else {
      JoinEnds(cells[1..]);
      var rest := JoinRow(cells[1..]);
      assert JoinRow(cells) == EscapePipes(cells[0]) + "|" + rest;
      hide JoinRow, EscapePipes;
    }
  }

  /** A row printed without outer pipes is read back exactly if no cell but the last ends in a backslash. */
  lemma OpenRowIff(cells: seq<string>)
    requires Open(cells)
    ensures ParseRow(JoinRow(cells)) == cells <==> Unswallowed(cells)
  {
    var t := JoinRow(cells);
    EscapeEnds(cells[0]);
    JoinEnds(cells);
    assert t[0] == cells[0][0];
    TrimIs("", t, "");
    assert "" + t + "" == t;
    hide Trim;
    ParsedIff(t, cells);
  }
}
