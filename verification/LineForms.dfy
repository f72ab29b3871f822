/** How the lines of a document are written: their prefixes, letter by letter, and their ends. */
module LineForms {
  import opened Text
  import opened Tokenizer
  import opened Cells

  lemma Prefixed(line: string, prefix: string, text: string)
    ensures line == prefix + text <==> prefix <= line && line[|prefix|..] == text
  {
    if prefix <= line {
      TakeDrop(line, |prefix|);
    }
  }

  /** Up to six number signs. */
  function Signs(n: nat): string
    requires 1 <= n <= 6
  {
    "######"[..n]
  }

  function HeaderKind(n: nat): TokenType {
    if n == 1 then Header1 else if n == 2 then Header2 else if n == 3 then Header3 else Header4
  }

  lemma SignedLine(line: string, n: nat)
    requires 1 <= n <= 6 && Signs(n) + " " <= line
    ensures Classify(line) == Block(HeaderKind(n), line[n + 1..])
  {
    var prefix := Signs(n) + " ";
    assert prefix[n] == ' ' && forall i :: 0 <= i < n ==> prefix[i] == '#';
    assert line[n] == ' ' && forall i :: 0 <= i < n ==> line[i] == '#';
    hide Signs, Classify;
    SignsThenSpace(line, n);
  }

  lemma SignsThenSpace(line: string, n: nat)
    requires 1 <= n <= 6 && n < |line| && line[n] == ' ' && forall i :: 0 <= i < n ==> line[i] == '#'
    ensures Classify(line) == Block(HeaderKind(n), line[n + 1..])
  {
    hide DigitCount, HasTablePipe, AllDashes;
  }

  lemma HeaderIsSigned(line: string)
    requires Classify(line).Block? && IsHeaderKind(Classify(line).kind)
    ensures exists n :: 1 <= n <= 6 && Signs(n) + " " <= line
  {
    assert Signs(1) == "#" && Signs(2) == "##" && Signs(3) == "###" && Signs(4) == "####";
    assert Signs(5) == "#####" && Signs(6) == "######";
    hide DigitCount, HasTablePipe, AllDashes, Signs;
  }

  predicate IsHeaderKind(kind: TokenType) {
    kind == Header1 || kind == Header2 || kind == Header3 || kind == Header4
  }

  /** A header is a line that starts with one to six number signs and a space; from four on it is of the
      fourth level. */
  lemma HeaderLines(line: string, kind: TokenType, text: string)
    requires IsHeaderKind(kind)
    ensures Classify(line) == Block(kind, text) <==>
            match kind
            case Header1 => line == "# " + text
            case Header2 => line == "## " + text
            case Header3 => line == "### " + text
            case _ => line == "#### " + text || line == "##### " + text || line == "###### " + text
  {
    assert forall n :: 1 <= n <= 6 ==> |Signs(n)| == n;
    assert Signs(1) + " " == "# " && Signs(2) + " " == "## " && Signs(3) + " " == "### ";
    assert Signs(4) + " " == "#### " && Signs(5) + " " == "##### " && Signs(6) + " " == "###### ";
    hide Classify, Signs;
    forall n | 1 <= n <= 6
      ensures line == Signs(n) + " " + text ==> Classify(line) == Block(HeaderKind(n), text)
    {
      if line == Signs(n) + " " + text {
        SignedLine(line, n);
      }
    }
    if Classify(line) == Block(kind, text) {
      HeaderIsSigned(line);
      var n :| 1 <= n <= 6 && Signs(n) + " " <= line;
      SignedLine(line, n);
      Prefixed(line, Signs(n) + " ", text);
    }
  }

  /** An item of an unordered list is a line that starts with a star or a hyphen, and a space. */
  lemma BulletLines(line: string, text: string)
    ensures Classify(line) == Block(ListUnordered, text) <==> line == "* " + text || line == "- " + text
  {
    Prefixed(line, "* ", text);
    Prefixed(line, "- ", text);
    if line == "* " + text || line == "- " + text {
      assert line[0] != '#' && line[1] == ' ' && line[1] in line;
    }
    hide DigitCount, HasTablePipe;
  }

  predicate Digits(s: string) {
    s != "" && forall i :: 0 <= i < |s| ==> '0' <= s[i] <= '9'
  }

  lemma {:induction false} DigitCountIs(line: string)
    ensures var n := DigitCount(line);
            && (forall i :: 0 <= i < n ==> IsDigit(line[i])) && (n < |line| ==> !IsDigit(line[n]))
  {
    if line != "" && IsDigit(line[0]) {
      DigitCountIs(line[1..]);
    }
  }

  ghost predicate Numbered(line: string, text: string) {
    exists number :: Digits(number) && line == number + ". " + text
  }

  lemma NumberedLine(line: string, number: string, text: string)
    requires Digits(number) && line == number + ". " + text
    ensures DigitCount(line) == |number| && IsDigit(line[0])
    ensures |line| >= |number| + 2 && line[|number|] == '.' && line[|number| + 1] == ' ' && line[|number| + 2..] == text
  {
    DigitCountIs(line);
    hide DigitCount;
    assert forall i :: 0 <= i < |number| ==> line[i] == number[i];
    assert line[|number|] == '.' && line[|number| + 1] == ' ';
  }

  lemma StartsWithDigit(line: string)
    requires line != "" && IsDigit(line[0]) && IsOrderedItem(line)
    ensures Classify(line) == Block(ListOrdered, line[DigitCount(line) + 2..])
  {
    assert line[0] in line;
    hide DigitCount, HasTablePipe;
  }

  lemma OrderedItem(line: string)
    requires IsOrderedItem(line)
    ensures var n := DigitCount(line);
            Digits(line[..n]) && line == line[..n] + ". " + line[n + 2..]
  {
    DigitCountIs(line);
    hide DigitCount;
  }

  lemma OrderedKind(line: string)
    ensures Classify(line).Block? && Classify(line).kind == ListOrdered ==>
              IsOrderedItem(line) && Classify(line).content == line[DigitCount(line) + 2..]
  {
    hide DigitCount, HasTablePipe, AllDashes;
  }

  /** An item of an ordered list is a line that starts with a number, a full stop and a space. */
  lemma NumberLines(line: string, text: string)
    ensures Classify(line) == Block(ListOrdered, text) <==> Numbered(line, text)
  {
    hide Classify, DigitCount, Digits;
    OrderedKind(line);
    if Classify(line) == Block(ListOrdered, text) {
      OrderedItem(line);
    }
    if Numbered(line, text) {
      var number :| Digits(number) && line == number + ". " + text;
      NumberedLine(line, number, text);
      assert |number| > 0 by {
        NotEmpty(number);
      }
      StartsWithDigit(line);
    }
  }

  lemma NotEmpty(number: string)
    requires Digits(number)
    ensures number != ""
  {
  }

  /** Hyphens alone rule the page off from three on. */
  lemma DashLines(n: nat)
    ensures Classify(Dashes(n)) == if n == 0 then Blank else if n < 3 then Prose else Rule
  {
    DashesAre(n);
    var d := Dashes(n);
    hide Dashes;
    assert n > 0 ==> d[0] in d;
    assert n > 1 ==> d[1] in d;
    forall i | 0 <= i < n
      ensures d[i] == '-'
    {
      assert d[i] in d;
    }
    assert DigitCount(d) == 0 && !HasTablePipe(d) && AllDashes(d);
    hide HasTablePipe, DigitCount, AllDashes;
  }

  /** A fence outside a block opens one in the language named behind it, trimmed, and flushes what
      stands before; any fence inside a block closes it. */
  lemma FenceLines(s: State, text: string)
    ensures IsFence("```" + text)
    ensures !s.inBlock && s.buffer == "" ==> StepLine(s, "```" + text) == State(s.tokens, "", Trim(text), true)
    ensures s.inBlock && s.buffer != "" ==>
              StepLine(s, "```" + text) ==
              State(s.tokens + [Token(CodeBlock, s.buffer, s.language)], "", "", false)
  {
    assert ("```" + text)[3..] == text;
    hide TrimLeft, TrimRight;
  }

  // ----- line ends -----

  /** Lines, each ended by a carriage return and a line feed. */
  function JoinedReturns(lines: seq<string>): string {
    if lines == [] then "" else lines[0] + "\r\n" + JoinedReturns(lines[1..])
  }

  /** A line as it is typed: no line feed in it, and no carriage return at its end. */
  predicate Typed(line: string) {
    '\n' !in line && (line == "" || line[|line| - 1] != '\r')
  }

  lemma {:induction false} ReadEitherWay(lines: seq<string>)
    requires forall l :: l in lines ==> Typed(l)
    ensures Lines(Joined(lines)) == lines && Lines(JoinedReturns(lines)) == lines
  {
    if lines != [] {
      var line, rest := lines[0], lines[1..];
      assert line in lines;
      ReadEitherWay(rest);
      assert Chomp(line) == line && Chomp(line + "\r") == line;
      assert IsLine(line) && IsLine(line + "\r");
      assert line + "\r\n" == line + "\r" + "\n";
      hide Lines, Chomp;
      LinesOfLine(line, Joined(rest));
      LinesOfLine(line + "\r", JoinedReturns(rest));
    }
  }

  /** A text whose lines are typed is read as these lines whichever way they end, so the tokens are the
      same: with a line feed alone or behind a carriage return. */
  lemma LineEndsDoNotMatter(lines: seq<string>)
    requires forall l :: l in lines ==> Typed(l)
    ensures Lines(Joined(lines)) == lines
    ensures Tokenize(JoinedReturns(lines)) == Tokenize(Joined(lines))
  {
    ReadEitherWay(lines);
    hide Lines, Joined, JoinedReturns;
  }
}
