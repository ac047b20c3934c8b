/** Hexadecimal text. */
module Hex {
  import opened Common

  predicate IsHexDigit(c: char) {
    '0' <= c <= '9' || 'a' <= c <= 'f' || 'A' <= c <= 'F'
  }

  predicate AllHex(s: string) {
    forall i :: 0 <= i < |s| ==> IsHexDigit(s[i])
  }

  function DigitValue(c: char): (v: nat)
    requires IsHexDigit(c)
    ensures v < 16
  {
    if c <= '9' then c as nat - '0' as nat
    else if 'a' <= c then c as nat - 'a' as nat + 10
    else c as nat - 'A' as nat + 10
  }

  function Digit(v: nat): (c: char)
    requires v < 16
    ensures IsHexDigit(c) && LowerChar(c) == c && DigitValue(c) == v
  {
    if v < 10 then ('0' as nat + v) as char else ('a' as nat + v - 10) as char
  }

  function LowerChar(c: char): char {
    if 'A' <= c <= 'F' then (c as nat + 32) as char else c
  }

  /** Case-normalised text. */
  function Lower(s: string): (r: string)
    ensures |r| == |s|
  {
    seq(|s|, i requires 0 <= i < |s| => LowerChar(s[i]))
  }

  function Parse(s: string): nat
    requires AllHex(s)
  {
    if s == "" then 0 else 16 * Parse(s[..|s| - 1]) + DigitValue(s[|s| - 1])
  }

  function Print(width: nat, n: nat): (s: string)
    ensures |s| == width && AllHex(s)
  {
    if width == 0 then "" else Print(width - 1, n / 16) + [Digit(n % 16)]
  }

  function Pow16(width: nat): (r: nat)
    ensures r >= 1
  {
    if width == 0 then 1 else 16 * Pow16(width - 1)
  }

  lemma {:induction false} PrintThenParse(width: nat, n: nat)
    requires n < Pow16(width)
    ensures Parse(Print(width, n)) == n
  {
    if width > 0 {
      PrintThenParse(width - 1, n / 16);
      assert Print(width, n)[..width - 1] == Print(width - 1, n / 16);
    }
  }

  lemma {:induction false} ParseThenPrint(s: string)
    requires AllHex(s)
    ensures Parse(s) < Pow16(|s|) && Print(|s|, Parse(s)) == Lower(s)
  {
    if s != "" {
      var n := |s| - 1;
      ParseThenPrint(s[..n]);
      assert Lower(s) == Lower(s[..n]) + [LowerChar(s[n])];
      assert Parse(s) / 16 == Parse(s[..n]) && Parse(s) % 16 == DigitValue(s[n]);
    } else {
      assert Lower(s) == "";
    }
  }

  lemma LowerIsHex(s: string)
    requires AllHex(Lower(s))
    ensures AllHex(s)
  {
    forall i | 0 <= i < |s|
      ensures IsHexDigit(s[i])
    {
      assert IsHexDigit(Lower(s)[i]);
    }
  }

  lemma {:induction false} ParseIgnoresCase(s: string, t: string)
    requires AllHex(s) && AllHex(t) && Lower(s) == Lower(t)
    ensures Parse(s) == Parse(t)
  {
    assert |s| == |Lower(s)| == |t|;
    if s != "" {
      var n := |s| - 1;
      assert Lower(s)[n] == Lower(t)[n];
      LowerSlice(s, 0, n);
      LowerSlice(t, 0, n);
      ParseIgnoresCase(s[..n], t[..n]);
    }
  }

  lemma LowerConcat(s: string, t: string)
    ensures Lower(s + t) == Lower(s) + Lower(t)
  {
  }

  lemma {:induction false} PrintIsLower(width: nat, n: nat)
    ensures Lower(Print(width, n)) == Print(width, n)
  {
    if width > 0 {
      PrintIsLower(width - 1, n / 16);
      LowerConcat(Print(width - 1, n / 16), [Digit(n % 16)]);
    }
  }

  lemma LowerSlice(s: string, from: nat, to: nat)
    requires from <= to <= |s|
    ensures Lower(s[from..to]) == Lower(s)[from..to]
  {
  }

  // ----- Bytes -----

  function OfBytes(b: seq<byte>): (s: string)
    ensures |s| == 2 * |b|
  {
    if b == [] then "" else OfBytes(b[..|b| - 1]) + [Digit(b[|b| - 1] as nat / 16), Digit(b[|b| - 1] as nat % 16)]
  }

  lemma {:induction false} OfBytesIsLowerHex(b: seq<byte>)
    ensures AllHex(OfBytes(b)) && Lower(OfBytes(b)) == OfBytes(b)
  {
    if b != [] {
      OfBytesIsLowerHex(b[..|b| - 1]);
    }
  }

  lemma {:induction false} OfBytesIsInjective(a: seq<byte>, b: seq<byte>)
    requires OfBytes(a) == OfBytes(b)
    ensures a == b
  {
    assert |a| == |b|;
    hide Digit, OfBytes;
    if a != [] {
      var n := |a| - 1;
      assert a == a[..n] + [a[n]] && b == b[..n] + [b[n]];
      LastByte(a[..n], a[n], b[..n], b[n]);
      OfBytesIsInjective(a[..n], b[..n]);
    }
  }

  lemma LastByte(a: seq<byte>, x: byte, b: seq<byte>, y: byte)
    requires |a| == |b| && OfBytes(a + [x]) == OfBytes(b + [y])
    ensures OfBytes(a) == OfBytes(b) && x == y
  {
    OfBytesAppend(a, x);
    OfBytesAppend(b, y);
    hide OfBytes, Digit;
    var s, t := OfBytes(a + [x]), OfBytes(b + [y]);
    assert s[..2 * |a|] == OfBytes(a) && t[..2 * |a|] == OfBytes(b);
    DigitIsInjective(x as nat / 16, y as nat / 16);
    DigitIsInjective(x as nat % 16, y as nat % 16);
    assert s[2 * |a|] == t[2 * |a|] && s[2 * |a| + 1] == t[2 * |a| + 1];
    assert x as nat == 16 * (x as nat / 16) + x as nat % 16 && y as nat == 16 * (y as nat / 16) + y as nat % 16;
  }

  lemma DigitIsInjective(v: nat, w: nat)
    requires v < 16 && w < 16
    ensures Digit(v) == Digit(w) ==> v == w
  {
  }

  /** The bytes that hex text denotes. */
  function BytesOf(s: string): (b: seq<byte>)
    requires AllHex(s) && |s| % 2 == 0
    ensures |b| == |s| / 2
  {
    if s == "" then []
    else BytesOf(s[..|s| - 2]) + [(16 * DigitValue(s[|s| - 2]) + DigitValue(s[|s| - 1])) as byte]
  }

  lemma OfBytesAppend(b: seq<byte>, x: byte)
    ensures OfBytes(b + [x]) == OfBytes(b) + [Digit(x as nat / 16), Digit(x as nat % 16)]
  {
    assert (b + [x])[..|b|] == b;
  }

  lemma DigitOfValue(c: char)
    requires IsHexDigit(c)
    ensures Digit(DigitValue(c)) == LowerChar(c)
  {
  }

  lemma LowerOfTwoMore(s: string, n: nat)
    requires |s| == n + 2
    ensures Lower(s) == Lower(s[..n]) + [LowerChar(s[n]), LowerChar(s[n + 1])]
  {
  }

  lemma {:induction false} OfBytesInvertsBytesOf(s: string)
    requires AllHex(s) && |s| % 2 == 0
    ensures OfBytes(BytesOf(s)) == Lower(s)
  {
    hide OfBytes, Digit, DigitValue, LowerChar, Lower, IsHexDigit;
    if s == "" {
      NoBytes();
    } else {
      var n := |s| - 2;
      OfBytesInvertsBytesOf(s[..n]);
      var high, low := DigitValue(s[n]), DigitValue(s[n + 1]);
      var x := (16 * high + low) as byte;
      assert BytesOf(s) == BytesOf(s[..n]) + [x];
      OfBytesAppend(BytesOf(s[..n]), x);
      ByteOfDigits(high, low, x as nat);
      DigitOfValue(s[n]);
      DigitOfValue(s[n + 1]);
      LowerOfTwoMore(s, n);
    }
  }

  lemma NoBytes()
    ensures OfBytes([]) == Lower("")
  {
  }

  lemma ByteOfDigits(high: nat, low: nat, b: nat)
    requires high < 16 && low < 16 && b == 16 * high + low
    ensures b / 16 == high && b % 16 == low
  {
  }

  /** Reading hex text gives back the bytes it was written from, in any digit case. */
  lemma BytesOfInvertsOfBytes(s: string, b: seq<byte>)
    requires AllHex(s) && Lower(s) == OfBytes(b)
    ensures |s| % 2 == 0 && BytesOf(s) == b
  {
    hide OfBytes, Lower, BytesOf;
    OfBytesInvertsBytesOf(s);
    OfBytesIsInjective(BytesOf(s), b);
  }
}

/** The browser scanner's strict decoder of announcement event data
    (packages/ts/src/scanner.ts; Solidity Contract ABI Specification, "Formal
    Specification of the Encoding"). */
module AbiData {
  import opened Common
  import opened Hex

  /** Hex digits per 32-byte word. */
  const WORD: nat := 64

  datatype DecodeError =
    | MalformedData
    | ValidUntilTooLarge
    | NonCanonicalOffset
    | TruncatedRecord
    | NonCanonicalPadding

  function Decode(data: string): (r: Result<(nat, string), DecodeError>)
    ensures r.Success? ==> r.value.0 <= U64_MAX as nat && |r.value.1| >= 2 && |r.value.1| % 2 == 0 && AllHex(r.value.1[2..])
  {
    var encoded := if |data| >= 2 then data[2..] else "";
    if |encoded| < 3 * WORD || |encoded| % WORD != 0 || !AllHex(encoded) then Failure(MalformedData)
    else
      var validUntil := Parse(encoded[..WORD]);
      if validUntil > U64_MAX as nat then Failure(ValidUntilTooLarge)
      else if Parse(encoded[WORD..2 * WORD]) != 64 then Failure(NonCanonicalOffset)
      else
        var length := Parse(encoded[2 * WORD..3 * WORD]);
        var availableBytes := (|encoded| - 3 * WORD) / 2;
        if length > availableBytes then Failure(TruncatedRecord)
        else
          var payloadEnd := 3 * WORD + length * 2;
          var expectedEnd := 3 * WORD + (length + 31) / 32 * 64;
          if |encoded| != expectedEnd || !AllZero(encoded[payloadEnd..]) then Failure(NonCanonicalPadding)
          else Success((validUntil, "0x" + encoded[3 * WORD..payloadEnd]))
  }

  predicate AllZero(s: string) {
    forall i :: 0 <= i < |s| ==> s[i] == '0'
  }

  function Zeros(n: nat): (s: string)
    ensures |s| == n && AllZero(s)
  {
    seq(n, _ => '0')
  }

  function Padding(length: nat): nat {
    2 * ((32 - length % 32) % 32)
  }

  /** The canonical ABI encoding of (uint64, bytes), as lower-case hex without prefix: the value,
      the offset of the dynamic part, its length, its bytes, and zeros up to a whole word. */
  function Encode(validUntil: nat, record: seq<byte>): string {
    Print(WORD, validUntil) + Print(WORD, 64) + Print(WORD, |record|) + OfBytes(record) + Zeros(Padding(|record|))
  }

  lemma PaddingFills(length: nat)
    ensures 2 * length + Padding(length) == (length + 31) / 32 * 64
  {
  }

  lemma WordBounds()
    ensures 64 < Pow16(WORD) && U64_MAX as nat < Pow16(WORD)
  {
    assert Pow16(4) == 0x1_0000 by {
      assert Pow16(1) == 16 && Pow16(2) == 0x100 && Pow16(3) == 0x1000;
    }
    Pow16Grows(4, 4);
    Pow16Grows(8, 4);
    Pow16Grows(12, 4);
    Pow16Grows(16, WORD - 16);
  }

  lemma {:induction false} Pow16Grows(a: nat, b: nat)
    ensures Pow16(a + b) == Pow16(a) * Pow16(b)
    ensures Pow16(a + b) >= Pow16(a)
  {
    if b > 0 {
      Pow16Grows(a, b - 1);
      assert Pow16(a + b) == 16 * Pow16(a + b - 1);
    }
  }

  // ----- Decoding inverts encoding -----

  /** The five fields of a text whose lower-case form is an encoding. */
  lemma FieldsOfEncoding(e: string, validUntil: nat, record: seq<byte>)
    requires Lower(e) == Encode(validUntil, record)
    ensures var end := 3 * WORD + 2 * |record|;
      && |e| == 3 * WORD + (|record| + 31) / 32 * 64
      && end <= |e|
      && Lower(e[..WORD]) == Print(WORD, validUntil)
      && Lower(e[WORD..2 * WORD]) == Print(WORD, 64)
      && Lower(e[2 * WORD..3 * WORD]) == Print(WORD, |record|)
      && Lower(e[3 * WORD..end]) == OfBytes(record)
      && Lower(e[end..]) == Zeros(Padding(|record|))
  {
    hide Print, OfBytes, Zeros, Padding, Lower;
    PaddingFills(|record|);
    var end := 3 * WORD + 2 * |record|;
    LowerSlice(e, 0, WORD);
    LowerSlice(e, WORD, 2 * WORD);
    LowerSlice(e, 2 * WORD, 3 * WORD);
    LowerSlice(e, 3 * WORD, end);
    LowerSlice(e, end, |e|);
    assert e[..WORD] == e[0..WORD] && e[end..] == e[end..|e|];
  }

  lemma LowerZeros(s: string)
    ensures AllZero(s) <==> Lower(s) == Zeros(|s|)
  {
    if Lower(s) == Zeros(|s|) {
      forall i | 0 <= i < |s|
        ensures s[i] == '0'
      {
        assert LowerChar(s[i]) == Lower(s)[i] == '0';
      }
    }
  }

  lemma EncodingIsHex(validUntil: nat, record: seq<byte>)
    ensures AllHex(Encode(validUntil, record))
  {
    hide Print, OfBytes;
    OfBytesIsLowerHex(record);
    HexConcat(Print(WORD, validUntil), Print(WORD, 64));
    HexConcat(Print(WORD, validUntil) + Print(WORD, 64), Print(WORD, |record|));
    HexConcat(Print(WORD, validUntil) + Print(WORD, 64) + Print(WORD, |record|), OfBytes(record));
    HexConcat(Print(WORD, validUntil) + Print(WORD, 64) + Print(WORD, |record|) + OfBytes(record), Zeros(Padding(|record|)));
  }

  lemma HexConcat(s: string, t: string)
    requires AllHex(s) && AllHex(t)
    ensures AllHex(s + t)
  {
  }

  lemma ParsePrinted(s: string, n: nat)
    requires AllHex(s) && Lower(s) == Print(WORD, n) && n < Pow16(WORD)
    ensures Parse(s) == n
  {
    hide Print, Parse, Lower, Pow16;
    PrintIsLower(WORD, n);
    ParseIgnoresCase(s, Print(WORD, n));
    PrintThenParse(WORD, n);
  }

  lemma DecodeOfFields(data: string, e: string, validUntil: nat, length: nat)
    requires |data| >= 2 && e == data[2..] && |e| == 3 * WORD + (length + 31) / 32 * 64 && AllHex(e)
    requires AllHex(e[..WORD]) && Parse(e[..WORD]) == validUntil <= U64_MAX as nat
    requires AllHex(e[WORD..2 * WORD]) && Parse(e[WORD..2 * WORD]) == 64
    requires AllHex(e[2 * WORD..3 * WORD]) && Parse(e[2 * WORD..3 * WORD]) == length
    requires AllZero(e[3 * WORD + 2 * length..])
    ensures Decode(data) == Success((validUntil, "0x" + e[3 * WORD..3 * WORD + 2 * length]))
  {
    hide Parse, AllHex, AllZero;
  }

  /** Every canonical encoding, in any digit case, is accepted and yields its value and its bytes. */
  lemma DecodeAcceptsEncodings(data: string, validUntil: nat, record: seq<byte>)
    requires |data| >= 2 && Lower(data[2..]) == Encode(validUntil, record)
    requires validUntil <= U64_MAX as nat && |record| < Pow16(WORD)
    ensures Decode(data).Success? && Decode(data).value.0 == validUntil
    ensures var payload := Decode(data).value.1;
      payload[..2] == "0x" && Lower(payload[2..]) == OfBytes(record)
  {
    hide Decode, Print, Parse, OfBytes, Lower, Encode, Pow16, AllHex, AllZero, Zeros, Padding, IsHexDigit;
    var e := data[2..];
    FieldsOfEncoding(e, validUntil, record);
    EncodingIsHex(validUntil, record);
    LowerIsHex(e);
    HexSlice(e, 0, WORD);
    HexSlice(e, WORD, 2 * WORD);
    HexSlice(e, 2 * WORD, 3 * WORD);
    assert e[..WORD] == e[0..WORD];
    WordBounds();
    ParsePrinted(e[..WORD], validUntil);
    ParsePrinted(e[WORD..2 * WORD], 64);
    ParsePrinted(e[2 * WORD..3 * WORD], |record|);
    PaddingFills(|record|);
    LowerZeros(e[3 * WORD + 2 * |record|..]);
    DecodeOfFields(data, e, validUntil, |record|);
  }

  lemma HexSlice(s: string, from: nat, to: nat)
    requires AllHex(s) && from <= to <= |s|
    ensures AllHex(s[from..to])
  {
  }

  lemma ParsedWord(e: string, from: nat)
    requires AllHex(e) && from + WORD <= |e|
    ensures AllHex(e[from..from + WORD])
    ensures Lower(e)[from..from + WORD] == Print(WORD, Parse(e[from..from + WORD]))
    ensures Parse(e[from..from + WORD]) < Pow16(WORD)
  {
    hide Print, Parse, Lower, Pow16;
    HexSlice(e, from, from + WORD);
    ParseThenPrint(e[from..from + WORD]);
    LowerSlice(e, from, from + WORD);
  }

  lemma FieldsOfDecoded(data: string, e: string) returns (length: nat)
    requires Decode(data).Success? && e == if |data| >= 2 then data[2..] else ""
    ensures |data| >= 2 && |e| == 3 * WORD + (length + 31) / 32 * 64 >= 3 * WORD + 2 * length && AllHex(e)
    ensures AllHex(e[..WORD]) && Decode(data).value.0 == Parse(e[..WORD]) <= U64_MAX as nat
    ensures AllHex(e[WORD..2 * WORD]) && Parse(e[WORD..2 * WORD]) == 64
    ensures AllHex(e[2 * WORD..3 * WORD]) && Parse(e[2 * WORD..3 * WORD]) == length
    ensures AllZero(e[3 * WORD + 2 * length..]) && Decode(data).value.1 == "0x" + e[3 * WORD..3 * WORD + 2 * length]
  {
    hide Parse, AllZero;
    length := Parse(e[2 * WORD..3 * WORD]);
  }

  /** Whatever is accepted is, up to digit case, the canonical encoding of what is returned. */
  lemma DecodeAcceptsOnlyEncodings(data: string) returns (record: seq<byte>)
    requires Decode(data).Success?
    ensures Decode(data).value.0 <= U64_MAX as nat && |record| < Pow16(WORD)
    ensures var payload := Decode(data).value.1;
      |payload| >= 2 && payload[..2] == "0x" && Lower(payload[2..]) == OfBytes(record)
    ensures |data| >= 2 && Lower(data[2..]) == Encode(Decode(data).value.0, record)
  {
    hide Decode, Print, Parse, OfBytes, BytesOf, Lower, AllHex, AllZero, Zeros, Pow16, Padding, IsHexDigit;
    var e := if |data| >= 2 then data[2..] else "";
    var length := FieldsOfDecoded(data, e);
    ParsedWord(e, 0);
    ParsedWord(e, WORD);
    ParsedWord(e, 2 * WORD);
    assert e[..WORD] == e[0..WORD];
    record := RecordOfDecoded(e, length);
    FiveParts(Lower(e), 3 * WORD + 2 * length);
  }

  lemma RecordOfDecoded(e: string, length: nat) returns (record: seq<byte>)
    requires |e| == 3 * WORD + (length + 31) / 32 * 64 >= 3 * WORD + 2 * length && AllHex(e)
    requires AllZero(e[3 * WORD + 2 * length..])
    ensures |record| == length && |Lower(e)| == |e|
    ensures var end := 3 * WORD + 2 * length;
      && OfBytes(record) == Lower(e)[3 * WORD..end] == Lower(e[3 * WORD..end])
      && Lower(e)[end..|e|] == Zeros(Padding(length))
  {
    hide OfBytes, BytesOf, AllHex, AllZero, Zeros, Padding, IsHexDigit;
    var end := 3 * WORD + 2 * length;
    HexSlice(e, 3 * WORD, end);
    record := BytesOf(e[3 * WORD..end]);
    OfBytesInvertsBytesOf(e[3 * WORD..end]);
    LowerSlice(e, 3 * WORD, end);
    PaddingFills(length);
    LowerZeros(e[end..]);
    assert e[end..] == e[end..|e|];
    LowerSlice(e, end, |e|);
  }

  lemma FiveParts(t: string, end: nat)
    requires 3 * WORD <= end <= |t|
    ensures t == t[0..WORD] + t[WORD..2 * WORD] + t[2 * WORD..3 * WORD] + t[3 * WORD..end] + t[end..|t|]
  {
  }

  /** No two case-normalised inputs decode to the same pair. */
  lemma DecodeIsInjective(a: string, b: string)
    requires Decode(a).Success? && Decode(b).Success?
    requires Decode(a).value.0 == Decode(b).value.0 && Lower(Decode(a).value.1[2..]) == Lower(Decode(b).value.1[2..])
    ensures |a| >= 2 && |b| >= 2 && Lower(a[2..]) == Lower(b[2..])
  {
    hide Print, Parse, OfBytes, Lower, Encode, Decode;
    var x := DecodeAcceptsOnlyEncodings(a);
    var y := DecodeAcceptsOnlyEncodings(b);
    OfBytesIsInjective(x, y);
  }

  ghost predicate Encodes(data: string, validUntil: nat, record: seq<byte>) {
    && validUntil <= U64_MAX as nat && |record| < Pow16(WORD)
    && |data| >= 2 && Lower(data[2..]) == Encode(validUntil, record)
  }

  /** The decoder accepts exactly the canonical encodings of a uint64 and a byte string. */
  lemma DecodeAcceptsExactlyEncodings(data: string)
    ensures Decode(data).Success? <==> exists validUntil, record :: Encodes(data, validUntil, record)
  {
    hide Print, Parse, OfBytes, Lower, Encode, Decode, Pow16;
    if Decode(data).Success? {
      var record := DecodeAcceptsOnlyEncodings(data);
      assert Encodes(data, Decode(data).value.0, record);
    }
    if validUntil, record :| Encodes(data, validUntil, record) {
      DecodeAcceptsEncodings(data, validUntil, record);
    }
  }
}
