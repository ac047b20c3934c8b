/** Machine integers, result types, byte strings and small helpers shared by every component. */
module Common {
  newtype byte = x: int | 0 <= x < 0x100
  newtype u32 = x: int | 0 <= x < 0x1_0000_0000
  newtype u64 = x: int | 0 <= x < 0x1_0000_0000_0000_0000

  const U32_MAX: u32 := 0xFFFF_FFFF
  const U64_MAX: u64 := 0xFFFF_FFFF_FFFF_FFFF
  const U32_BYTES: nat := 4

  datatype Option<+T> = None | Some(value: T) {
    function GetOr(default: T): T {
      match this
      case Some(v) => v
      case None => default
    }
  }

  datatype Result<+T, +E> = Success(value: T) | Failure(error: E)

  function Min(a: int, b: int): int {
    if a <= b then a else b
  }

  function Max(a: int, b: int): int {
    if a >= b then a else b
  }

  lemma ProductGrows(a: nat, b: nat, c: nat)
    requires a <= b
    ensures a * c <= b * c
  {
  }

  function Pow2(n: nat): (r: nat)
    ensures r >= 1
  {
    if n == 0 then 1 else 2 * Pow2(n - 1)
  }

  /** The low `width` bytes of `n`, most significant first. */
  function BigEndian(width: nat, n: nat): (b: seq<byte>)
    ensures |b| == width
  {
    if width == 0 then [] else BigEndian(width - 1, n / 0x100) + [(n % 0x100) as byte]
  }

  /** A byte string read as a big-endian number. */
  function Magnitude(b: seq<byte>): nat {
    if b == [] then 0 else 0x100 * Magnitude(b[..|b| - 1]) + b[|b| - 1] as nat
  }

  function Pow256(width: nat): nat {
    if width == 0 then 1 else 0x100 * Pow256(width - 1)
  }

  lemma {:induction false} BigEndianRoundTrip(width: nat, n: nat)
    requires n < Pow256(width)
    ensures Magnitude(BigEndian(width, n)) == n
  {
    if width > 0 {
      var b := BigEndian(width, n);
      assert b[..width - 1] == BigEndian(width - 1, n / 0x100);
      BigEndianRoundTrip(width - 1, n / 0x100);
    }
  }

  /** Byte strings of one length are told apart by their magnitude. */
  lemma {:induction false} MagnitudeIsInjective(a: seq<byte>, b: seq<byte>)
    requires |a| == |b| && Magnitude(a) == Magnitude(b)
    ensures a == b
  {
    if a != [] {
      var n := |a| - 1;
      MagnitudeIsInjective(a[..n], b[..n]);
      assert a == a[..n] + [a[n]] && b == b[..n] + [b[n]];
    }
  }

  /** A subset with at least as many elements is the whole set. */
  lemma SubsetOfSameSize<T>(small: set<T>, big: set<T>)
    requires small <= big && |small| >= |big|
    ensures small == big
  {
    assert |big - small| == |big| - |small|;
  }

  lemma SubsetIsSmaller<T>(small: set<T>, big: set<T>)
    requires small <= big
    ensures |small| <= |big|
    ensures small != big ==> |small| < |big|
  {
    assert |big - small| == |big| - |small|;
    if small != big {
      assert big - small != {};
    }
  }
}
