/** The length-prefixed signing frame of libp2p signed envelopes
    (crates/resurrect-libp2p/src/signed_peer_record.rs; libp2p RFC 0002, "Signature
    Production / Verification"). */
module SigningFrame {
  import opened Common

  /** "libp2p-peer-record" in ASCII. */
  const DOMAIN: seq<byte> := [
    0x6c, 0x69, 0x62, 0x70, 0x32, 0x70, 0x2d, 0x70, 0x65, 0x65, 0x72, 0x2d, 0x72, 0x65, 0x63, 0x6f, 0x72, 0x64]

  /** Seven bits per byte, least significant group first, high bit set on all but the last. */
  function Uvarint(value: nat): (b: seq<byte>)
    ensures |b| >= 1
  {
    if value < 0x80 then [value as byte] else [(value % 0x80 + 0x80) as byte] + Uvarint(value / 0x80)
  }

  /** Reads one varint off the front of a byte string. */
  function ReadUvarint(b: seq<byte>): Option<(nat, seq<byte>)> {
    if b == [] then None
    else if b[0] < 0x80 then Some((b[0] as nat, b[1..]))
    else
      match ReadUvarint(b[1..])
      case None => None
      case Some((high, rest)) => Some((0x80 * high + (b[0] as nat - 0x80), rest))
  }

  lemma ReadContinued(first: byte, tail: seq<byte>, high: nat, rest: seq<byte>)
    requires first >= 0x80 && ReadUvarint(tail) == Some((high, rest))
    ensures ReadUvarint([first] + tail) == Some((0x80 * high + (first as nat - 0x80), rest))
  {
    assert ([first] + tail)[1..] == tail;
  }

  /** Reading back what was written returns the value and leaves what follows untouched. */
  lemma {:induction false} ReadInvertsWrite(value: nat, rest: seq<byte>)
    ensures ReadUvarint(Uvarint(value) + rest) == Some((value, rest))
  {
    if value < 0x80 {
      assert (Uvarint(value) + rest)[1..] == rest;
    } else {
      hide ReadUvarint;
      ReadInvertsWrite(value / 0x80, rest);
      var first := (value % 0x80 + 0x80) as byte;
      ReadContinued(first, Uvarint(value / 0x80) + rest, value / 0x80, rest);
      assert Uvarint(value) + rest == [first] + (Uvarint(value / 0x80) + rest);
    }
  }

  /** Byte `i` holds the `i`-th group of seven bits, and its high bit says whether more follow. */
  lemma {:induction false} UvarintGroups(value: nat, i: nat)
    requires i < |Uvarint(value)|
    ensures Uvarint(value)[i] as nat == (value / Pow128(i)) % 0x80 + if i + 1 < |Uvarint(value)| then 0x80 else 0
  {
    if i > 0 {
      UvarintGroups(value / 0x80, i - 1);
      QuotientOfQuotient(value, Pow128(i - 1));
    }
  }

  lemma QuotientOfQuotient(value: nat, p: nat)
    requires p >= 1
    ensures (value / 0x80) / p == value / (0x80 * p)
  {
    var q, r := (value / 0x80) / p, (value / 0x80) % p;
    assert value / 0x80 == p * q + r;
    var low := 0x80 * r + value % 0x80;
    assert value == (0x80 * p) * q + low && 0 <= low < 0x80 * p;
    QuotientIs(value, 0x80 * p, q, low);
  }

  lemma QuotientIs(a: nat, d: nat, q: nat, r: nat)
    requires a == d * q + r && r < d
    ensures a / d == q
  {
    var k := a / d;
    assert a == d * k + a % d;
    if k > q {
      ProductGrows(q + 1, k, d);
    } else if k < q {
      ProductGrows(k + 1, q, d);
    }
  }

  /** No varint is a prefix of another one. */
  lemma UvarintIsPrefixFree(a: nat, b: nat)
    requires Uvarint(a) <= Uvarint(b)
    ensures a == b
  {
    var rest := Uvarint(b)[|Uvarint(a)|..];
    assert Uvarint(b) == Uvarint(a) + rest == Uvarint(b) + [];
    ReadInvertsWrite(a, rest);
    ReadInvertsWrite(b, []);
  }

  function Pow128(n: nat): (p: nat)
    ensures p >= 1
  {
    if n == 0 then 1 else 0x80 * Pow128(n - 1)
  }

  lemma {:induction false} UvarintLength(value: nat, n: nat)
    requires n >= 1 && value < Pow128(n)
    ensures |Uvarint(value)| <= n
  {
    if value >= 0x80 {
      assert n > 1 by {
        assert Pow128(1) == 0x80;
      }
      UvarintLength(value / 0x80, n - 1);
    }
  }

  /** A byte vector that grows in place. */
  class ByteBuffer {
    var bytes: seq<byte>

    constructor ()
      ensures bytes == []
    {
      bytes := [];
    }

    method Extend(more: seq<byte>)
      modifies this
      ensures bytes == old(bytes) + more
    {
      bytes := bytes + more;
    }

    method AppendUvarint(value: u64)
      modifies this
      ensures bytes == old(bytes) + Uvarint(value as nat)
    {
      var left := value;
      while left >= 0x80
        invariant bytes + Uvarint(left as nat) == old(bytes) + Uvarint(value as nat)
        decreases left
      {
        ghost var before := bytes;
        bytes := bytes + [(left % 0x80 + 0x80) as byte];
        assert before + Uvarint(left as nat) == bytes + Uvarint(left as nat / 0x80);
        left := left / 0x80;
      }
      bytes := bytes + [left as byte];
    }
  }

  /** One length-prefixed field. */
  function Field(content: seq<byte>): seq<byte> {
    Uvarint(|content|) + content
  }

  function Frame(payloadType: seq<byte>, payload: seq<byte>): seq<byte> {
    Field(DOMAIN) + Field(payloadType) + Field(payload)
  }

  /** Reads one length-prefixed field off the front of a byte string. */
  function ReadField(b: seq<byte>): Option<(seq<byte>, seq<byte>)> {
    match ReadUvarint(b)
    case None => None
    case Some((length, rest)) => if length <= |rest| then Some((rest[..length], rest[length..])) else None
  }

  lemma ReadInvertsField(content: seq<byte>, rest: seq<byte>)
    ensures ReadField(Field(content) + rest) == Some((content, rest))
  {
    ReadInvertsWrite(|content|, content + rest);
    assert Field(content) + rest == Uvarint(|content|) + (content + rest);
  }

  ghost predicate ReadsOff(b: seq<byte>, content: seq<byte>, rest: seq<byte>) {
    ReadField(b) == Some((content, rest))
  }

  /** The three fields of a frame, in order, and nothing after them. */
  ghost predicate HoldsFields(input: seq<byte>, domain: seq<byte>, payloadType: seq<byte>, payload: seq<byte>) {
    exists afterDomain, afterType ::
      ReadsOff(input, domain, afterDomain) && ReadsOff(afterDomain, payloadType, afterType) && ReadsOff(afterType, payload, [])
  }

  ghost predicate Spells(b: seq<byte>, text: string) {
    |b| == |text| && forall i :: 0 <= i < |b| ==> b[i] as int == text[i] as int
  }

  lemma FrameHoldsFields(payloadType: seq<byte>, payload: seq<byte>)
    ensures HoldsFields(Frame(payloadType, payload), DOMAIN, payloadType, payload)
  {
    hide Field, ReadField;
    assert Frame(payloadType, payload) == Field(DOMAIN) + (Field(payloadType) + Field(payload));
    assert Field(payload) == Field(payload) + [];
    ReadInvertsField(DOMAIN, Field(payloadType) + Field(payload));
    ReadInvertsField(payloadType, Field(payload));
    ReadInvertsField(payload, []);
    assert ReadsOff(Frame(payloadType, payload), DOMAIN, Field(payloadType) + Field(payload));
    assert ReadsOff(Field(payloadType) + Field(payload), payloadType, Field(payload));
  }

  /** Reading three fields off the result gives the domain, the payload type and the payload, in that
      order, and it fits the capacity reserved up front. */
  method SigningInput(payloadType: seq<byte>, payload: seq<byte>) returns (input: seq<byte>)
    requires |payloadType| <= U64_MAX as nat && |payload| <= U64_MAX as nat
    ensures input == Frame(payloadType, payload)
    ensures HoldsFields(input, DOMAIN, payloadType, payload) && Spells(DOMAIN, "libp2p-peer-record")
    ensures |input| <= |"libp2p-peer-record"| + |payloadType| + |payload| + 30
  {
    hide HoldsFields, Uvarint;
    var buffer := new ByteBuffer();
    buffer.AppendUvarint(|DOMAIN| as u64);
    buffer.Extend(DOMAIN);
    buffer.AppendUvarint(|payloadType| as u64);
    buffer.Extend(payloadType);
    buffer.AppendUvarint(|payload| as u64);
    buffer.Extend(payload);
    input := buffer.bytes;
    assert input == Frame(payloadType, payload);
    FrameHoldsFields(payloadType, payload);
    LengthFieldFits(|payloadType|);
    LengthFieldFits(|payload|);
    LengthFieldFits(|DOMAIN|);
  }

  lemma LengthFieldFits(length: nat)
    requires length <= U64_MAX as nat
    ensures |Uvarint(length)| <= 10
  {
    assert Pow128(5) == 0x8_0000_0000 by {
      assert Pow128(1) == 0x80 && Pow128(2) == 0x4000 && Pow128(3) == 0x20_0000 && Pow128(4) == 0x1000_0000;
    }
    assert Pow128(10) == 0x8_0000_0000 * 0x8_0000_0000 by {
      assert Pow128(6) == 0x80 * Pow128(5) && Pow128(7) == 0x80 * Pow128(6) && Pow128(8) == 0x80 * Pow128(7);
      assert Pow128(9) == 0x80 * Pow128(8) && Pow128(10) == 0x80 * Pow128(9);
    }
    UvarintLength(length, 10);
  }

  lemma {:induction false} FieldsAreSelfDelimiting(a: seq<byte>, restA: seq<byte>, b: seq<byte>, restB: seq<byte>)
    requires Field(a) + restA == Field(b) + restB
    ensures a == b && restA == restB
  {
    assert Field(a) + restA == Uvarint(|a|) + (a + restA);
    assert Field(b) + restB == Uvarint(|b|) + (b + restB);
    ReadInvertsWrite(|a|, a + restA);
    ReadInvertsWrite(|b|, b + restB);
    assert a == (a + restA)[..|a|] && restA == (a + restA)[|a|..];
    assert b == (b + restB)[..|b|] && restB == (b + restB)[|b|..];
  }

  /** Two signing inputs agree only if both their payload types and their payloads do. */
  lemma SigningInputIsUnambiguous(typeA: seq<byte>, payloadA: seq<byte>, typeB: seq<byte>, payloadB: seq<byte>)
    requires Frame(typeA, payloadA) == Frame(typeB, payloadB)
    ensures typeA == typeB && payloadA == payloadB
  {
    assert Frame(typeA, payloadA) == Field(DOMAIN) + (Field(typeA) + Field(payloadA));
    assert Frame(typeB, payloadB) == Field(DOMAIN) + (Field(typeB) + Field(payloadB));
    hide Field, Frame;
    FieldsAreSelfDelimiting(DOMAIN, Field(typeA) + Field(payloadA), DOMAIN, Field(typeB) + Field(payloadB));
    FieldsAreSelfDelimiting(typeA, Field(payloadA), typeB, Field(payloadB));
    assert Field(payloadA) == Field(payloadA) + [] && Field(payloadB) == Field(payloadB) + [];
    FieldsAreSelfDelimiting(payloadA, [], payloadB, []);
  }
}
