/** Go's `base64.RawStdEncoding`: the standard alphabet of RFC 4648, section 4,
    with the padding of section 3.2 omitted. The decoder is Go's non-strict one:
    it skips '\r' and '\n' and ignores the unused low bits of a final group. */
module Base64 {
  import opened Wrappers
  import opened Bytes

  /** A 6-bit group. */
  type sextet = x: int | 0 <= x < 64

  predicate IsAlphabetChar(c: char)
  {
    ('A' <= c <= 'Z') || ('a' <= c <= 'z') || ('0' <= c <= '9') || c == '+' || c == '/'
  }

  /** Characters the decoder skips. */
  predicate IsNewline(c: char)
  {
    c == '\r' || c == '\n'
  }

  /** RFC 4648, section 4, Table 1: values 0-25 are 'A'-'Z', 26-51 are 'a'-'z',
      52-61 are '0'-'9', 62 is '+' and 63 is '/'. */
  function CharOf(v: sextet): (c: char)
    ensures IsAlphabetChar(c)
  {
    if v < 26 then (65 + v) as char
    else if v < 52 then (97 + v - 26) as char
    else if v < 62 then (48 + v - 52) as char
    else if v == 62 then '+'
    else '/'
  }

  function ValueOf(c: char): sextet
    requires IsAlphabetChar(c)
  {
    if 'A' <= c <= 'Z' then c as int - 65
    else if 'a' <= c <= 'z' then c as int - 97 + 26
    else if '0' <= c <= '9' then c as int - 48 + 52
    else if c == '+' then 62
    else 63
  }

  /** The two tables are inverse. */
  lemma CharOfValueOf(v: sextet)
    ensures ValueOf(CharOf(v)) == v
  {
  }

  /** The three bytes of one full group, as the encoder writes them. */
  function Group(b0: byte, b1: byte, b2: byte): (g: string)
    ensures |g| == 4 && forall i :: 0 <= i < 4 ==> IsAlphabetChar(g[i])
  {
    var x0, x1, x2 := b0 as int, b1 as int, b2 as int;
    [CharOf(x0 / 4), CharOf(x0 % 4 * 16 + x1 / 16), CharOf(x1 % 16 * 4 + x2 / 64), CharOf(x2 % 64)]
  }

  /** EncodeToString: each group of three bytes becomes four characters; a final
      group of one or two bytes becomes two or three characters, unpadded. The
      output never ends in a lone character of a group, which the decoder would
      reject. */
  function Encode(b: seq<byte>): (s: string)
    ensures |s| % 4 != 1
    decreases |b|
  {
    if |b| == 0 then []
    else
      var b0 := b[0] as int;
      if |b| == 1 then [CharOf(b0 / 4), CharOf(b0 % 4 * 16)]
      else
        var b1 := b[1] as int;
        if |b| == 2 then [CharOf(b0 / 4), CharOf(b0 % 4 * 16 + b1 / 16), CharOf(b1 % 16 * 4)]
        else
          Group(b[0], b[1], b[2]) + Encode(b[3..])
  }

  /** The index of the first character that is neither in the alphabet nor a
      skipped newline; |s| when there is none. */
  function FirstInvalid(s: string): (k: nat)
    ensures k <= |s|
    ensures forall i :: 0 <= i < k ==> IsAlphabetChar(s[i]) || IsNewline(s[i])
    ensures k < |s| ==> !IsAlphabetChar(s[k]) && !IsNewline(s[k])
  {
    if s == [] then 0
    else if IsAlphabetChar(s[0]) || IsNewline(s[0]) then 1 + FirstInvalid(s[1..])
    else 0
  }

  /** The characters the decoder looks at. */
  function StripNewlines(s: string): (r: string)
    ensures |r| <= |s|
    ensures (forall i :: 0 <= i < |s| ==> IsAlphabetChar(s[i]) || IsNewline(s[i]))
            ==> forall j :: 0 <= j < |r| ==> IsAlphabetChar(r[j])
    ensures (forall i :: 0 <= i < |s| ==> !IsNewline(s[i])) ==> r == s
  {
    if s == [] then []
    else if IsNewline(s[0]) then StripNewlines(s[1..])
    else [s[0]] + StripNewlines(s[1..])
  }

  /** The bytes that consecutive 6-bit groups contribute: the first byte takes
      all of v0 and the top two bits of v1, and so on. */
  function Byte0(v0: sextet, v1: sextet): byte { (v0 * 4 + v1 / 16) as byte }
  function Byte1(v1: sextet, v2: sextet): byte { (v1 % 16 * 16 + v2 / 4) as byte }
  function Byte2(v2: sextet, v3: sextet): byte { (v2 % 4 * 64 + v3) as byte }

  /** Decoding of newline-free text over the alphabet whose length leaves no
      lone final character. */
  function DecodeClean(s: string): seq<byte>
    requires forall i :: 0 <= i < |s| ==> IsAlphabetChar(s[i])
    requires |s| % 4 != 1
    decreases |s|
  {
    if |s| == 0 then []
    else if |s| == 2 then [Byte0(ValueOf(s[0]), ValueOf(s[1]))]
    else if |s| == 3 then [Byte0(ValueOf(s[0]), ValueOf(s[1])), Byte1(ValueOf(s[1]), ValueOf(s[2]))]
    else
      [Byte0(ValueOf(s[0]), ValueOf(s[1])), Byte1(ValueOf(s[1]), ValueOf(s[2])), Byte2(ValueOf(s[2]), ValueOf(s[3]))]
        + DecodeClean(s[4..])
  }

  /** DecodeString: the bytes, or the offset that `CorruptInputError` reports. An
      invalid character is reported at its own index; otherwise a lone final
      character is reported at the last index of the input. */
  function Decode(s: string): (r: Result<seq<byte>, nat>)
    ensures r.Failure? ==> r.error < |s|
  {
    var bad := FirstInvalid(s);
    if bad < |s| then Failure(bad)
    else
      var clean := StripNewlines(s);
      if |clean| % 4 == 1 then Failure(|s| - 1)
      else Success(DecodeClean(clean))
  }

  /** The encoding holds only alphabet characters: no '=' padding and no newline. */
  lemma {:induction false} EncodeAlphabet(b: seq<byte>)
    ensures forall i :: 0 <= i < |Encode(b)| ==> IsAlphabetChar(Encode(b)[i])
    ensures '=' !in Encode(b)
    decreases |b|
  {
    if |b| > 2 {
      EncodeAlphabet(b[3..]);
      var e := Encode(b);
      assert e[4..] == Encode(b[3..]);
    }
  }

  /** n bytes encode to ceil(4n/3) characters. */
  lemma {:induction false} EncodeLength(b: seq<byte>)
    ensures |Encode(b)| == (4 * |b| + 2) / 3
    decreases |b|
  {
    if |b| > 2 {
      EncodeLength(b[3..]);
    }
  }

  /** The decoder's shifts undo the encoder's: one group's bit arithmetic. */
  lemma GroupArithmetic(b0: byte, b1: byte, b2: byte)
    ensures var x0, x1, x2 := b0 as int, b1 as int, b2 as int;
      && Byte0(x0 / 4, x0 % 4 * 16 + x1 / 16) == b0
      && Byte1(x0 % 4 * 16 + x1 / 16, x1 % 16 * 4 + x2 / 64) == b1
      && Byte2(x1 % 16 * 4 + x2 / 64, x2 % 64) == b2
      && Byte0(x0 / 4, x0 % 4 * 16) == b0
      && Byte1(x0 % 4 * 16 + x1 / 16, x1 % 16 * 4) == b1
  {
  }

  /** Decoding four characters in front of more text: their values give three
      bytes, and decoding goes on with the rest. */
  lemma DecodeFour(v0: sextet, v1: sextet, v2: sextet, v3: sextet, rest: string)
    requires forall i :: 0 <= i < |rest| ==> IsAlphabetChar(rest[i])
    requires |rest| % 4 != 1
    ensures var s := [CharOf(v0), CharOf(v1), CharOf(v2), CharOf(v3)] + rest;
      && (forall i :: 0 <= i < |s| ==> IsAlphabetChar(s[i]))
      && |s| % 4 != 1
      && DecodeClean(s) == [Byte0(v0, v1), Byte1(v1, v2), Byte2(v2, v3)] + DecodeClean(rest)
  {
    var s := [CharOf(v0), CharOf(v1), CharOf(v2), CharOf(v3)] + rest;
    AlphabetAppend([CharOf(v0), CharOf(v1), CharOf(v2), CharOf(v3)], rest);
    AddFourMod(|rest|);
    CharOfValueOf(v0);
    CharOfValueOf(v1);
    CharOfValueOf(v2);
    CharOfValueOf(v3);
    assert s[4..] == rest;
  }

  /** Decoding a full group of four characters gives back its three bytes. */
  lemma DecodeFullGroup(b0: byte, b1: byte, b2: byte, rest: string)
    requires forall i :: 0 <= i < |rest| ==> IsAlphabetChar(rest[i])
    requires |rest| % 4 != 1
    ensures DecodeClean(Group(b0, b1, b2) + rest) == [b0, b1, b2] + DecodeClean(rest)
  {
    var x0, x1, x2 := b0 as int, b1 as int, b2 as int;
    var v0: sextet, v1: sextet, v2: sextet, v3: sextet := x0 / 4, x0 % 4 * 16 + x1 / 16, x1 % 16 * 4 + x2 / 64, x2 % 64;
    assert Group(b0, b1, b2) == [CharOf(v0), CharOf(v1), CharOf(v2), CharOf(v3)];
    GroupArithmetic(b0, b1, b2);
    var decoded := [Byte0(v0, v1), Byte1(v1, v2), Byte2(v2, v3)];
    assert decoded == [b0, b1, b2];
    DecodeFour(v0, v1, v2, v3, rest);
  }

  /** Decoding the two or three characters of a final short group. */
  lemma DecodeShortGroup(b: seq<byte>)
    requires 1 <= |b| <= 2
    ensures forall i :: 0 <= i < |Encode(b)| ==> IsAlphabetChar(Encode(b)[i])
    ensures |Encode(b)| == |b| + 1
    ensures DecodeClean(Encode(b)) == b
  {
    var x0 := b[0] as int;
    CharOfValueOf(x0 / 4);
    if |b| == 1 {
      CharOfValueOf(x0 % 4 * 16);
      GroupArithmetic(b[0], 0, 0);
    } else {
      var x1 := b[1] as int;
      CharOfValueOf(x0 % 4 * 16 + x1 / 16);
      CharOfValueOf(x1 % 16 * 4);
      GroupArithmetic(b[0], b[1], 0);
    }
  }

  lemma AddFourMod(n: nat)
    ensures (4 + n) % 4 == n % 4
  {
  }

  lemma {:induction false} DecodeCleanEncode(b: seq<byte>)
    ensures forall i :: 0 <= i < |Encode(b)| ==> IsAlphabetChar(Encode(b)[i])
    ensures |Encode(b)| % 4 != 1
    ensures DecodeClean(Encode(b)) == b
    decreases |b|
  {
    if |b| == 0 {
    } else if |b| <= 2 {
      DecodeShortGroup(b);
    } else {
      DecodeCleanEncode(b[3..]);
      DecodeFullStep(b);
    }
  }

  /** The inductive step of DecodeCleanEncode: one more full group in front. */
  lemma DecodeFullStep(b: seq<byte>)
    requires |b| >= 3
    requires forall i :: 0 <= i < |Encode(b[3..])| ==> IsAlphabetChar(Encode(b[3..])[i])
    requires |Encode(b[3..])| % 4 != 1
    requires DecodeClean(Encode(b[3..])) == b[3..]
    ensures |Encode(b)| % 4 != 1
    ensures forall i :: 0 <= i < |Encode(b)| ==> IsAlphabetChar(Encode(b)[i])
    ensures DecodeClean(Encode(b)) == b
  {
    var g, rest := Group(b[0], b[1], b[2]), Encode(b[3..]);
    assert Encode(b) == g + rest;
    AlphabetAppend(g, rest);
    AddFourMod(|rest|);
    DecodeFullGroup(b[0], b[1], b[2], rest);
    assert b == [b[0], b[1], b[2]] + b[3..];
  }

  lemma AlphabetAppend(s: string, t: string)
    requires forall i :: 0 <= i < |s| ==> IsAlphabetChar(s[i])
    requires forall i :: 0 <= i < |t| ==> IsAlphabetChar(t[i])
    ensures forall i :: 0 <= i < |s + t| ==> IsAlphabetChar((s + t)[i])
  {
  }

  /** Round trip: decoding what EncodeToString produced yields the original bytes. */
  lemma DecodeEncode(b: seq<byte>)
    ensures Decode(Encode(b)) == Success(b)
  {
    DecodeCleanEncode(b);
    var e := Encode(b);
    assert forall i :: 0 <= i < |e| ==> !IsNewline(e[i]);
    assert StripNewlines(e) == e;
  }
}
