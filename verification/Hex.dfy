/** The hexadecimal payload of the copy and download links, and its decoder in the chat panel. */
module Hex {
  import opened Fnv

  function Digit(n: nat): char
    requires n < 16
  {
    if n < 10 then '0' + n as char else 'A' + (n - 10) as char
  }

  /** Two upper-case digits per byte, high nibble first. */
  function Encode(s: string): string {
    if s == "" then ""
    else [Digit(Byte(s[0]) / 16), Digit(Byte(s[0]) % 16)] + Encode(s[1..])
  }

  method EncodePayload(code: string) returns (hex: string)
    ensures hex == Encode(code)
  {
    hex := "";
    for i := 0 to |code|
      invariant hex + Encode(code[i..]) == Encode(code)
    {
      var b := Byte(code[i]);
      ghost var rest := Encode(code[i + 1..]);
      assert code[i..][0] == code[i] && code[i..][1..] == code[i + 1..];
      assert hex + ([Digit(b / 16), Digit(b % 16)] + rest) == hex + [Digit(b / 16)] + [Digit(b % 16)] + rest;
      hex := hex + [Digit(b / 16)];
      hex := hex + [Digit(b % 16)];
    }
  }

  /** `get_hex_value`: anything that is no digit counts as zero. */
  function Value(c: char): (n: nat)
    ensures n < 16
  {
    if '0' <= c <= '9' then c as int - '0' as int
    else if 'A' <= c <= 'F' then c as int - 'A' as int + 10
    else if 'a' <= c <= 'f' then c as int - 'a' as int + 10
    else 0
  }

  /** The high value fills the upper four bits, so the bitwise or is a sum. */
  function Pair(high: char, low: char): char {
    (Value(high) * 16 + Value(low)) as char
  }

  function Decode(hex: string): string {
    if |hex| < 2 then "" else [Pair(hex[0], hex[1])] + Decode(hex[2..])
  }

  /** `decode_hex_payload`; a digit left over at the end is ignored. */
  method DecodePayload(hex: string) returns (decoded: string)
    ensures decoded == Decode(hex)
  {
    decoded := "";
    var index := 0;
    while index + 1 < |hex|
      invariant index <= |hex|
      invariant decoded + Decode(hex[index..]) == Decode(hex)
    {
      assert hex[index..][2..] == hex[index + 2..];
      decoded := decoded + [Pair(hex[index], hex[index + 1])];
      index := index + 2;
    }
  }

  lemma DigitValue(n: nat)
    requires n < 16
    ensures Value(Digit(n)) == n
  {
  }

  /** Copying a code block gives back its bytes. */
  lemma {:induction false} DecodeEncode(s: string)
    requires IsBytes(s)
    ensures Decode(Encode(s)) == s
  {
    if s != "" {
      var b := Byte(s[0]);
      DigitValue(b / 16);
      DigitValue(b % 16);
      assert Encode(s)[2..] == Encode(s[1..]);
      DecodeEncode(s[1..]);
      assert s == [s[0]] + s[1..];
    }
  }

  predicate IsHex(s: string) {
    forall i :: 0 <= i < |s| ==> '0' <= s[i] <= '9' || 'A' <= s[i] <= 'F'
  }

  lemma PairDigits(high: char, low: char)
    requires IsHex([high, low])
    ensures var b := Byte(Pair(high, low)); Digit(b / 16) == high && Digit(b % 16) == low
  {
    assert IsHex([high, low]) ==> [high, low][0] == high && [high, low][1] == low;
    assert Byte(Pair(high, low)) == Value(high) * 16 + Value(low);
  }

  /** And every payload of whole upper-case pairs is the payload of what it decodes to. */
  lemma {:induction false} EncodeDecode(h: string)
    requires |h| % 2 == 0 && IsHex(h)
    ensures Encode(Decode(h)) == h
  {
    if h != "" {
      PairDigits(h[0], h[1]);
      EncodeDecode(h[2..]);
      var c := Pair(h[0], h[1]);
      assert ([c] + Decode(h[2..]))[1..] == Decode(h[2..]);
      hide Pair, Digit;
      assert Encode(Decode(h)) == [h[0], h[1]] + Encode(Decode(h[2..]));
    }
  }

  function SmallDigit(c: char): char {
    if 'A' <= c <= 'F' then c + ('a' - 'A') else c
  }

  /** The same digits in small letters. */
  function Small(h: string): string {
    if h == "" then "" else [SmallDigit(h[0])] + Small(h[1..])
  }

  /** The decoder takes digits in either case. */
  lemma {:induction false} SmallDigits(h: string)
    requires IsHex(h)
    ensures |Small(h)| == |h| && Decode(Small(h)) == Decode(h)
  {
    if |h| < 2 {
      assert |h| == 1 ==> |Small(h[1..])| == 0;
    } else {
      SmallDigits(h[2..]);
      var high, low, rest := SmallDigit(h[0]), SmallDigit(h[1]), Small(h[2..]);
      assert h[1..][1..] == h[2..] && Small(h[1..]) == [low] + rest;
      assert Small(h) == [high] + ([low] + rest) == [high, low] + rest;
      assert ([high, low] + rest)[2..] == rest;
      assert Value(high) == Value(h[0]) && Value(low) == Value(h[1]);
    }
  }
}
