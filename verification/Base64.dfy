/** The image encoder: a 32-bit accumulator that wraps, drained six bits at a time, against the
    base 64 encoding of section 4 of RFC 4648. */
module Base64 {
  import opened Text

  type Octet = n: int | 0 <= n < 256

  type Sextet = n: int | 0 <= n < 64

  /** The values of `std::uint32_t`, which wrap. */
  type Word = n: int | 0 <= n < 0x1_0000_0000

  // ----- RFC 4648 -----

  /** Table 1 of RFC 4648, which is also the source's lookup table. */
  function Digit(v: Sextet): char {
    if v < 26 then ('A' as int + v) as char
    else if v < 52 then ('a' as int + v - 26) as char
    else if v < 62 then ('0' as int + v - 52) as char
    else if v == 62 then '+'
    else '/'
  }

  /** Three octets are one 24-bit number, written as four digits. */
  function Group(a: Octet, b: Octet, c: Octet): (r: string)
    ensures |r| == 4
  {
    var v := a * 65536 + b * 256 + c;
    [Digit(v / 262144), Digit(v / 4096 % 64), Digit(v / 64 % 64), Digit(v % 64)]
  }

  /** Section 4: full groups, and a last one of one or two octets filled up with zero bits, whose
      unused digits are padding. */
  function Encoded(input: seq<Octet>): string
    decreases |input|
  {
    if input == [] then ""
    else if |input| == 1 then Group(input[0], 0, 0)[..2] + "=="
    else if |input| == 2 then Group(input[0], input[1], 0)[..3] + "="
    else Group(input[0], input[1], input[2]) + Encoded(input[3..])
  }

  // ----- the accumulator -----

  /** `bits << 8` on 32 bits. */
  function Shl8(bits: Word): Word {
    bits * 256 % 0x1_0000_0000
  }

  /** `(bits << 8) + b` on 32 bits. */
  function Pushed(bits: Word, b: Octet): Word {
    (Shl8(bits) + b) % 0x1_0000_0000
  }

  /** `(bits >> k) & 0x3F`, for the shifts that occur. */
  function Sextet6(bits: Word, k: nat): Sextet
    requires k == 0 || k == 2 || k == 4 || k == 6
  {
    (if k == 0 then bits else if k == 2 then bits / 4 else if k == 4 then bits / 16 else bits / 64) % 64
  }

  /** The digits the loop has written after reading some octets. */
  function Written(input: seq<Octet>): string
    decreases |input|
  {
    if input == [] then ""
    else if |input| == 1 then [Digit(input[0] / 4)]
    else if |input| == 2 then [Digit(input[0] / 4), Digit(input[0] % 4 * 16 + input[1] / 16)]
    else Group(input[0], input[1], input[2]) + Written(input[3..])
  }

  /** What reading one more octet writes, given how many octets came before and the last of them. */
  function Next(n: nat, last: Octet, b: Octet): string {
    if n % 3 == 0 then [Digit(b / 4)]
    else if n % 3 == 1 then [Digit(last % 4 * 16 + b / 16)]
    else [Digit(last % 16 * 4 + b / 64), Digit(b % 64)]
  }

  /** What is written at the end. */
  function Tail(n: nat, last: Octet): string {
    if n % 3 == 0 then ""
    else if n % 3 == 1 then [Digit(last % 4 * 16), '=', '=']
    else [Digit(last % 16 * 4), '=']
  }

  function Last(input: seq<Octet>): Octet {
    if input == [] then 0 else input[|input| - 1]
  }

  lemma By4(q: nat, r: nat)
    requires r < 4
    ensures (q * 4 + r) / 4 == q && (q * 4 + r) % 4 == r
  {
  }

  lemma By16(q: nat, r: nat)
    requires r < 16
    ensures (q * 16 + r) / 16 == q && (q * 16 + r) % 16 == r
  {
  }

  lemma By64(q: nat, r: nat)
    requires r < 64
    ensures (q * 64 + r) / 64 == q && (q * 64 + r) % 64 == r
  {
  }

  lemma By256(q: nat, r: nat)
    requires r < 256
    ensures (q * 256 + r) % 256 == r
  {
  }

  lemma By4096(q: nat, r: nat)
    requires r < 4096
    ensures (q * 4096 + r) / 4096 == q
  {
  }

  lemma By262144(q: nat, r: nat)
    requires r < 262144
    ensures (q * 262144 + r) / 262144 == q
  {
  }

  lemma FirstTwo(a: Octet, b: Octet, c: Octet)
    ensures var v := a * 65536 + b * 256 + c;
            v / 262144 == a / 4 && v / 4096 % 64 == a % 4 * 16 + b / 16
  {
    By262144(a / 4, a % 4 * 65536 + b * 256 + c);
    By4096(a * 16 + b / 16, b % 16 * 256 + c);
    By64(a / 4, a % 4 * 16 + b / 16);
  }

  lemma LastTwo(a: Octet, b: Octet, c: Octet)
    ensures var v := a * 65536 + b * 256 + c;
            v / 64 % 64 == b % 16 * 4 + c / 64 && v % 64 == c % 64
  {
    By64(a * 1024 + b * 4 + c / 64, c % 64);
    By64(a * 16 + b / 16, b % 16 * 4 + c / 64);
  }

  lemma GroupDigits(a: Octet, b: Octet, c: Octet)
    ensures Group(a, b, c) ==
            [Digit(a / 4), Digit(a % 4 * 16 + b / 16), Digit(b % 16 * 4 + c / 64), Digit(c % 64)]
  {
    hide Digit;
    FirstTwo(a, b, c);
    LastTwo(a, b, c);
  }

  lemma LastOf(input: seq<Octet>, b: Octet)
    ensures Last(input + [b]) == b
  {
  }

  lemma NextPeriodic(input: seq<Octet>, b: Octet)
    requires |input| >= 3
    ensures Next(|input[3..]|, Last(input[3..]), b) == Next(|input|, Last(input), b)
    ensures Tail(|input[3..]|, Last(input[3..])) == Tail(|input|, Last(input))
  {
    hide Digit;
    assert |input[3..]| % 3 == |input| % 3;
    assert |input| == 3 || Last(input[3..]) == Last(input);
  }

  lemma {:induction false} WrittenNext(input: seq<Octet>, b: Octet)
    ensures Written(input + [b]) == Written(input) + Next(|input|, Last(input), b)
    decreases |input|
  {
    hide Group, Digit;
    var s := input + [b];
    if |input| == 2 {
      GroupDigits(input[0], input[1], b);
      assert s[3..] == [];
      assert Written(s) == Group(input[0], input[1], b);
    } else if |input| >= 3 {
      assert s[3..] == input[3..] + [b];
      WrittenNext(input[3..], b);
      NextPeriodic(input, b);
      assert Written(s) == Group(s[0], s[1], s[2]) + Written(s[3..]);
      hide Next, Written;
      Regroup(Group(s[0], s[1], s[2]), Written(input[3..]), Next(|input|, Last(input), b));
    }
  }

  lemma {:induction false} EncodedTail(input: seq<Octet>)
    ensures Encoded(input) == Written(input) + Tail(|input|, Last(input))
    decreases |input|
  {
    if |input| == 1 {
      GroupDigits(input[0], 0, 0);
      hide Group, Digit;
    } else if |input| == 2 {
      GroupDigits(input[0], input[1], 0);
      hide Group, Digit;
    } else if |input| >= 3 {
      EncodedTail(input[3..]);
      NextPeriodic(input, 0);
      hide Group, Digit, Tail;
      Regroup(Group(input[0], input[1], input[2]), Written(input[3..]), Tail(|input|, Last(input)));
    }
  }

  lemma {:induction false} WrittenLength(input: seq<Octet>)
    ensures |Written(input)| == |input| / 3 * 4 + |input| % 3
    decreases |input|
  {
    if |input| >= 3 {
      WrittenLength(input[3..]);
    }
  }

  // ----- the loops -----

  /** The digits that a bit count of two, four or six leaves to be written. */
  function Drained(bits: Word, bitCount: int): string
    requires bitCount == 2 || bitCount == 4 || bitCount == 6
  {
    if bitCount == 6 then [Digit(Sextet6(bits, 6)), Digit(Sextet6(bits, 0))] else [Digit(Sextet6(bits, bitCount))]
  }

  /** The inner loop: digits are written while six bits are left. */
  method Drain(bits: Word, bitCount: int) returns (digits: string, left: int)
    requires bitCount == 2 || bitCount == 4 || bitCount == 6
    ensures left == if bitCount == 6 then -6 else bitCount - 6
    ensures digits == Drained(bits, bitCount)
  {
    digits, left := "", bitCount;
    while left >= 0
      invariant left == bitCount || left == bitCount - 6 || left == bitCount - 12
      invariant left == bitCount ==> digits == ""
      invariant left == bitCount - 6 ==> digits == [Digit(Sextet6(bits, bitCount))]
      invariant left == bitCount - 12 ==>
                  bitCount == 6 && digits == [Digit(Sextet6(bits, 6)), Digit(Sextet6(bits, 0))]
    {
      digits := digits + [Digit(Sextet6(bits, left))];
      left := left - 6;
    }
  }

  /** The accumulator wraps, but the last two octets stay in it. */
  lemma Wrapped(bits: Word, last: Octet) returns (top: nat)
    requires bits % 256 == last
    ensures top < 65536 && Shl8(bits) == top * 65536 + last * 256
  {
    var high := bits / 256;
    top := high % 65536;
    WrapAt(high / 65536, top * 65536 + last * 256);
  }

  lemma WrapAt(q: nat, r: nat)
    requires r < 0x1_0000_0000
    ensures (q * 0x1_0000_0000 + r) % 0x1_0000_0000 == r
  {
  }

  lemma Sextets(top: nat, last: Octet, b: Octet)
    requires top < 65536
    ensures var next := top * 65536 + last * 256 + b;
            && next % 256 == b && Sextet6(next, 2) == b / 4 && Sextet6(next, 4) == last % 4 * 16 + b / 16
            && Sextet6(next, 6) == last % 16 * 4 + b / 64 && Sextet6(next, 0) == b % 64
  {
    LowOctet(top * 256 + last, b);
    LowSextets(top, last, b);
  }

  lemma LowOctet(high: nat, b: Octet)
    ensures (high * 256 + b) % 256 == b && (high * 256 + b) / 4 % 64 == b / 4
  {
    assert high * 256 + b == (high * 64 + b / 4) * 4 + b % 4;
    By4(high * 64 + b / 4, b % 4);
    By64(high, b / 4);
    By256(high, b);
  }

  lemma LowSextets(top: nat, last: Octet, b: Octet)
    ensures var next := top * 65536 + last * 256 + b;
            && next / 16 % 64 == last % 4 * 16 + b / 16 && next / 64 % 64 == last % 16 * 4 + b / 64
            && next % 64 == b % 64
  {
    By16(top * 4096 + last * 16 + b / 16, b % 16);
    By64(top * 64 + last / 4, last % 4 * 16 + b / 16);
    By64(top * 1024 + last * 4 + b / 64, b % 64);
    By64(top * 16 + last / 16, last % 16 * 4 + b / 64);
  }

  lemma Accumulate(bits: Word, last: Octet, b: Octet, n: nat)
    requires bits % 256 == last
    ensures var next := Pushed(bits, b);
            && next % 256 == b
            && Next(n, last, b) == Drained(next, n % 3 * 2 + 2)
  {
    hide Digit, Sextet6, Shl8;
    var top := Wrapped(bits, last);
    Sextets(top, last, b);
  }

  lemma LastDigit(bits: Word, last: Octet, n: nat)
    requires bits % 256 == last
    ensures n % 3 == 1 ==> Sextet6(Shl8(bits), 4) == last % 4 * 16
    ensures n % 3 == 2 ==> Sextet6(Shl8(bits), 6) == last % 16 * 4
  {
    hide Sextet6, Shl8;
    var top := Wrapped(bits, last);
    Sextets(top, last, 0);
  }

  /** The outer loop. */
  method Accumulated(input: seq<Octet>) returns (output: string, bits: Word, bitCount: int)
    ensures output == Written(input) && Ready(bits, input) && bitCount == BitCount(|input|)
  {
    hide Digit, Pushed, Written, Drained, Ready, BitCount;
    output, bits, bitCount := "", 0, -6;
    var n := 0;
    StartReady(input[..0]);
    while n < |input|
      invariant n <= |input| && bitCount == BitCount(n)
      invariant output == Written(input[..n]) && Ready(bits, input[..n])
    {
      ReadOctet(input, n, bits);
      NextCount(n);
      bits := Pushed(bits, input[n]);
      bitCount := bitCount + 8;
      var digits, left := Drain(bits, bitCount);
      output, bitCount := output + digits, left;
      n := n + 1;
    }
    assert input[..n] == input;
  }

  /** The accumulator ends in the last octet read. */
  predicate Ready(bits: Word, front: seq<Octet>) {
    bits % 256 == Last(front)
  }

  /** Minus six, and two more for every octet of a group that has been read. */
  function BitCount(n: nat): int {
    n % 3 * 2 - 6
  }

  lemma NextCount(n: nat)
    ensures var c := BitCount(n) + 8;
            (c == 2 || c == 4 || c == 6) && BitCount(n + 1) == if c == 6 then -6 else c - 6
  {
  }

  lemma StartReady(input: seq<Octet>)
    requires input == []
    ensures Written(input) == "" && Ready(0, input) && BitCount(0) == -6
  {
  }

  lemma ReadOctet(input: seq<Octet>, n: nat, bits: Word)
    requires n < |input| && Ready(bits, input[..n])
    ensures var next := Pushed(bits, input[n]);
            && Ready(next, input[..n + 1])
            && Written(input[..n + 1]) == Written(input[..n]) + Drained(next, BitCount(n) + 8)
  {
    var front, b := input[..n], input[n];
    assert input[..n + 1] == front + [b];
    LastOf(front, b);
    hide Last, Next, Written, Drained, Pushed;
    Accumulate(bits, Last(front), b, n);
    WrittenNext(front, b);
  }

  /** The whole encoder is the encoding of RFC 4648, for every input. */
  method Encode(input: seq<Octet>) returns (output: string)
    ensures output == Encoded(input)
  {
    hide Digit, Sextet6, Shl8, Encoded, Written;
    var bits: Word, bitCount: int;
    output, bits, bitCount := Accumulated(input);
    ghost var n, last := |input|, Last(input);
    LastDigit(bits, last, n);
    EncodedTail(input);
    EncodedLength(input);
    WrittenLength(input);
    ghost var padding := Tail(n, last)[if n % 3 == 0 then 0 else 1..];
    if bitCount > -6 {
      Regroup(output, [Tail(n, last)[0]], padding);
      assert Tail(n, last) == [Tail(n, last)[0]] + padding;
      output := output + [Digit(Sextet6(Shl8(bits), bitCount + 8))];
    }
    while |output| % 4 != 0
      invariant output + padding == Encoded(input) && |Encoded(input)| % 4 == 0
      invariant padding == "" || padding == "=" || padding == "=="
      decreases |padding|
    {
      assert padding == "=" + padding[1..];
      Regroup(output, "=", padding[1..]);
      output := output + "=";
      padding := padding[1..];
    }
  }

  // ----- what the encoding is for -----

  /** Four digits for every three octets begun. */
  lemma {:induction false} EncodedLength(input: seq<Octet>)
    ensures |Encoded(input)| == 4 * ((|input| + 2) / 3)
    decreases |input|
  {
    hide Group;
    if |input| >= 3 {
      EncodedLength(input[3..]);
    }
  }

  /** The meaning of a digit; `None` for anything that is not one. */
  function Value(c: char): Option<Sextet> {
    if 'A' <= c <= 'Z' then Some(c as int - 'A' as int)
    else if 'a' <= c <= 'z' then Some(c as int - 'a' as int + 26)
    else if '0' <= c <= '9' then Some(c as int - '0' as int + 52)
    else if c == '+' then Some(62)
    else if c == '/' then Some(63)
    else None
  }

  lemma ValueDigit(v: Sextet)
    ensures Value(Digit(v)) == Some(v) && Digit(v) != '='
  {
  }

  function Ungroup(v: Sextet, w: Sextet, x: Sextet, y: Sextet): seq<Octet> {
    [v * 4 + w / 16, w % 16 * 16 + x / 4, x % 4 * 64 + y]
  }

  /** A decoder as section 4 of RFC 4648 describes it; it takes padding only at the end, and only
      canonical text, whose unused bits are zero (section 3.5). */
  function Decode(text: string): Option<seq<Octet>>
    decreases |text|
  {
    if text == "" then Some([])
    else if |text| < 4 then None
    else
      var v, w, x, y := Value(text[0]), Value(text[1]), Value(text[2]), Value(text[3]);
      if v == None || w == None then None
      else if text[2..] == "==" then
        if w.value % 16 == 0 then Some(Ungroup(v.value, w.value, 0, 0)[..1]) else None
      else if x == None then None
      else if text[3..] == "=" then
        if x.value % 4 == 0 then Some(Ungroup(v.value, w.value, x.value, 0)[..2]) else None
      else if y == None || Decode(text[4..]) == None then None
      else Some(Ungroup(v.value, w.value, x.value, y.value) + Decode(text[4..]).value)
  }

  lemma GroupValues(a: Octet, b: Octet, c: Octet)
    ensures var g := Group(a, b, c);
            && Value(g[0]) == Some(a / 4) && Value(g[1]) == Some(a % 4 * 16 + b / 16)
            && Value(g[2]) == Some(b % 16 * 4 + c / 64) && Value(g[3]) == Some(c % 64)
            && forall i :: 0 <= i < 4 ==> g[i] != '='
  {
    GroupDigits(a, b, c);
    ValueDigit(a / 4);
    ValueDigit(a % 4 * 16 + b / 16);
    ValueDigit(b % 16 * 4 + c / 64);
    ValueDigit(c % 64);
    hide Digit, Value, Group;
  }

  lemma Octets(a: Octet, b: Octet, c: Octet)
    ensures Ungroup(a / 4, a % 4 * 16 + b / 16, b % 16 * 4 + c / 64, c % 64) == [a, b, c]
    ensures b == 0 ==> (a % 4 * 16 + b / 16) % 16 == 0
    ensures c == 0 ==> (b % 16 * 4 + c / 64) % 4 == 0
  {
    By16(a % 4, b / 16);
    By4(b % 16, c / 64);
  }

  lemma DecodeOne(a: Octet)
    ensures Decode(Group(a, 0, 0)[..2] + "==") == Some([a])
  {
    var g := Group(a, 0, 0);
    var text := g[..2] + "==";
    GroupValues(a, 0, 0);
    Octets(a, 0, 0);
    hide Group, Value, Decode, Ungroup;
    assert text[0] == g[0] && text[1] == g[1] && text[2..] == "==";
    DecodePair(text);
    FirstOctet(a / 4, a % 4 * 16 + 0 / 16, 0 % 16 * 4 + 0 / 64, 0 % 64);
  }

  lemma FirstOctet(v: Sextet, w: Sextet, x: Sextet, y: Sextet)
    ensures Ungroup(v, w, 0, 0)[..1] == [Ungroup(v, w, x, y)[0]]
    ensures Ungroup(v, w, x, 0)[..2] == [Ungroup(v, w, x, y)[0], Ungroup(v, w, x, y)[1]]
  {
  }

  lemma DecodePair(text: string)
    requires |text| == 4 && text[2..] == "==" && Value(text[0]).Some? && Value(text[1]).Some?
    requires Value(text[1]).value % 16 == 0
    ensures Decode(text) == Some(Ungroup(Value(text[0]).value, Value(text[1]).value, 0, 0)[..1])
  {
    hide Value, Ungroup;
  }

  lemma DecodeTwo(a: Octet, b: Octet)
    ensures Decode(Group(a, b, 0)[..3] + "=") == Some([a, b])
  {
    GroupValues(a, b, 0);
    Octets(a, b, 0);
    hide Group, Value, Decode, Ungroup;
    DecodeSpelled(Group(a, b, 0), a, b, a / 4, a % 4 * 16 + b / 16, b % 16 * 4 + 0 / 64);
  }

  lemma DecodeSpelled(g: string, a: Octet, b: Octet, v: Sextet, w: Sextet, x: Sextet)
    requires |g| == 4 && g[2] != '=' && Value(g[0]) == Some(v) && Value(g[1]) == Some(w) && Value(g[2]) == Some(x)
    requires x % 4 == 0 && Ungroup(v, w, x, 0) == [a, b, 0]
    ensures Decode(g[..3] + "=") == Some([a, b])
  {
    var text := g[..3] + "=";
    assert text[0] == g[0] && text[1] == g[1] && text[2] == g[2] && text[3..] == "=";
    hide Value, Decode, Ungroup;
    DecodeTriple(text);
    assert [a, b, 0][..2] == [a, b];
  }

  lemma DecodeTriple(text: string)
    requires |text| == 4 && text[2] != '=' && text[3..] == "="
    requires Value(text[0]).Some? && Value(text[1]).Some? && Value(text[2]).Some? && Value(text[2]).value % 4 == 0
    ensures Decode(text) ==
            Some(Ungroup(Value(text[0]).value, Value(text[1]).value, Value(text[2]).value, 0)[..2])
  {
    hide Value, Ungroup;
    assert text[2..][0] == text[2];
  }

  lemma DecodeThree(a: Octet, b: Octet, c: Octet, rest: string)
    requires Decode(rest).Some?
    ensures Decode(Group(a, b, c) + rest) == Some([a, b, c] + Decode(rest).value)
  {
    var g := Group(a, b, c);
    var text := g + rest;
    GroupValues(a, b, c);
    Octets(a, b, c);
    hide Group, Value, Ungroup, Decode;
    assert text[0] == g[0] && text[1] == g[1] && text[2] == g[2] && text[3] == g[3] && text[4..] == rest;
    DecodeGroup(text);
  }

  lemma DecodeGroup(text: string)
    requires |text| >= 4 && text[2] != '=' && text[3] != '=' && Decode(text[4..]).Some?
    requires forall i :: 0 <= i < 4 ==> Value(text[i]).Some?
    ensures Decode(text) ==
            Some(Ungroup(Value(text[0]).value, Value(text[1]).value, Value(text[2]).value, Value(text[3]).value)
                 + Decode(text[4..]).value)
  {
    hide Value, Ungroup;
    assert text[2..][0] != '=' && text[3..][0] != '=';
  }

  /** Decoding gives every input back. */
  lemma {:induction false} DecodeEncoded(input: seq<Octet>)
    ensures Decode(Encoded(input)) == Some(input)
    decreases |input|
  {
    hide Decode, Group;
    if input == [] {
      DecodeNothing();
    } else if |input| == 1 {
      DecodeOne(input[0]);
      assert input == [input[0]];
    } else if |input| == 2 {
      DecodeTwo(input[0], input[1]);
      assert input == [input[0], input[1]];
    } else {
      DecodeEncoded(input[3..]);
      DecodeThree(input[0], input[1], input[2], Encoded(input[3..]));
      assert input == [input[0], input[1], input[2]] + input[3..];
    }
  }

  lemma DecodeNothing()
    ensures Decode("") == Some([])
  {
  }

  lemma GroupUngroup(v: Sextet, w: Sextet, x: Sextet, y: Sextet)
    ensures var u := Ungroup(v, w, x, y);
            Group(u[0], u[1], u[2]) == [Digit(v), Digit(w), Digit(x), Digit(y)]
  {
    var u := Ungroup(v, w, x, y);
    GroupDigits(u[0], u[1], u[2]);
    Sextets4(v, w, x, y);
    hide Digit, Group;
  }

  lemma Sextets4(v: Sextet, w: Sextet, x: Sextet, y: Sextet)
    ensures var u := Ungroup(v, w, x, y);
            && u[0] / 4 == v && u[0] % 4 * 16 + u[1] / 16 == w
            && u[1] % 16 * 4 + u[2] / 64 == x && u[2] % 64 == y
  {
    By4(v, w / 16);
    By16(w % 16, x / 4);
    By64(x % 4, y);
  }

  lemma EncodeOne(text: string, v: Sextet, w: Sextet)
    requires text == [Digit(v), Digit(w)] + "==" && w % 16 == 0
    ensures Encoded(Ungroup(v, w, 0, 0)[..1]) == text
  {
    GroupUngroup(v, w, 0, 0);
    hide Digit, Group;
    assert Group(v * 4 + w / 16, 0, 0)[..2] == [Digit(v), Digit(w)];
  }

  lemma EncodeTwo(text: string, v: Sextet, w: Sextet, x: Sextet)
    requires text == [Digit(v), Digit(w), Digit(x)] + "=" && x % 4 == 0
    ensures Encoded(Ungroup(v, w, x, 0)[..2]) == text
  {
    var u := Ungroup(v, w, x, 0);
    assert u[2] == 0;
    GroupUngroup(v, w, x, 0);
    hide Digit, Group, Ungroup;
    assert u[..2] == [u[0], u[1]];
    assert Group(u[0], u[1], 0)[..3] == [Digit(v), Digit(w), Digit(x)];
  }

  lemma EncodeThree(v: Sextet, w: Sextet, x: Sextet, y: Sextet, rest: seq<Octet>)
    ensures Encoded(Ungroup(v, w, x, y) + rest) == [Digit(v), Digit(w), Digit(x), Digit(y)] + Encoded(rest)
  {
    GroupUngroup(v, w, x, y);
    hide Digit, Group;
    var u := Ungroup(v, w, x, y);
    assert (u + rest)[3..] == rest;
  }

  lemma SpelledOne(text: string)
    requires |text| >= 4 && text[2..] == "==" && Value(text[0]).Some? && Value(text[1]).Some?
    ensures text == [Digit(Value(text[0]).value), Digit(Value(text[1]).value)] + "=="
  {
    Spelled(text[0], text[1], text[0], text[1]);
    hide Digit, Value;
    assert text == [text[0], text[1]] + text[2..];
  }

  lemma SpelledTwo(text: string)
    requires |text| >= 4 && text[3..] == "="
    requires Value(text[0]).Some? && Value(text[1]).Some? && Value(text[2]).Some?
    ensures text == [Digit(Value(text[0]).value), Digit(Value(text[1]).value), Digit(Value(text[2]).value)] + "="
  {
    Spelled(text[0], text[1], text[2], text[2]);
    hide Digit, Value;
    assert text == [text[0], text[1], text[2]] + text[3..];
  }

  lemma SpelledThree(text: string)
    requires |text| >= 4 && Value(text[0]).Some? && Value(text[1]).Some? && Value(text[2]).Some? && Value(text[3]).Some?
    ensures text == [Digit(Value(text[0]).value), Digit(Value(text[1]).value),
                     Digit(Value(text[2]).value), Digit(Value(text[3]).value)] + text[4..]
  {
    Spelled(text[0], text[1], text[2], text[3]);
    hide Digit, Value;
    assert text == [text[0], text[1], text[2], text[3]] + text[4..];
  }

  /** A text that decodes is the encoding of what it decodes to: the encoding is canonical. */
  lemma {:induction false} EncodedDecoded(text: string)
    requires Decode(text).Some?
    ensures Encoded(Decode(text).value) == text
    decreases |text|
  {
    if text != "" {
      hide Digit, Encoded, Ungroup, Value;
      var v, w, x, y := Value(text[0]), Value(text[1]), Value(text[2]), Value(text[3]);
      if text[2..] == "==" {
        SpelledOne(text);
        EncodeOne(text, v.value, w.value);
      } else if text[3..] == "=" {
        SpelledTwo(text);
        EncodeTwo(text, v.value, w.value, x.value);
      } else {
        SpelledThree(text);
        EncodedDecoded(text[4..]);
        EncodeThree(v.value, w.value, x.value, y.value, Decode(text[4..]).value);
      }
    }
  }

  /** Characters that have values are the digits of them. */
  lemma Spelled(a: char, b: char, c: char, d: char)
    ensures Value(a).Some? ==> Digit(Value(a).value) == a
    ensures Value(b).Some? ==> Digit(Value(b).value) == b
    ensures Value(c).Some? ==> Digit(Value(c).value) == c
    ensures Value(d).Some? ==> Digit(Value(d).value) == d
  {
  }

  lemma EncodedOne(a: Octet)
    ensures Encoded([a]) == [Digit(a / 4), Digit(a % 4 * 16), '=', '=']
  {
    GroupDigits(a, 0, 0);
    hide Group, Digit;
  }

  lemma EncodedTwo(a: Octet, b: Octet)
    ensures Encoded([a, b]) == [Digit(a / 4), Digit(a % 4 * 16 + b / 16), Digit(b % 16 * 4), '=']
  {
    var g, input := Group(a, b, 0), [a, b];
    hide Group, Digit;
    assert Encoded(input) == g[..3] + "=";
    hide Encoded;
    GroupDigits(a, b, 0);
    assert g[2] == Digit(b % 16 * 4);
  }

  lemma EncodedThree(a: Octet, b: Octet, c: Octet)
    ensures Encoded([a, b, c]) == [Digit(a / 4), Digit(a % 4 * 16 + b / 16), Digit(b % 16 * 4 + c / 64), Digit(c % 64)]
  {
    GroupDigits(a, b, c);
    hide Group, Digit;
    assert [a, b, c][3..] == [];
  }

  lemma SomeDigits()
    ensures Digit(25) == 'Z' && Digit(32) == 'g' && Digit(38) == 'm' && Digit(60) == '8' && Digit(61) == '9'
    ensures Digit(47) == 'v' && Digit(62) == '+' && Digit(63) == '/'
  {
  }

  /** The test vectors of section 10 of RFC 4648 for "f", "fo" and "foo", and one with the two digits that
      are neither letters nor figures. */
  lemma TestVectors()
    ensures Encoded([0x66]) == "Zg==" && Encoded([0x66, 0x6F]) == "Zm8=" && Encoded([0x66, 0x6F, 0x6F]) == "Zm9v"
    ensures Encoded([0xFB, 0xFF]) == "+/8="
  {
    SomeDigits();
    hide Encoded, Digit;
    EncodedOne(0x66);
    EncodedTwo(0x66, 0x6F);
    EncodedThree(0x66, 0x6F, 0x6F);
    EncodedTwo(0xFB, 0xFF);
  }
}
