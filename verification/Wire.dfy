/** Big-endian numbers and fixed-width fields. */
module Wire {
  import opened Types

  const ID_LEN := 32
  const ADDRESS_LEN := 33
  const NODE_ID_LEN := 20

  function Pow256(n: nat): (p: nat)
    ensures p > 0
  {
    if n == 0 then 1 else 256 * Pow256(n - 1)
  }

  lemma PowersOf256()
    ensures Pow256(1) == 0x100 && Pow256(2) == 0x1_0000 && Pow256(4) == 0x1_0000_0000 && Pow256(8) == TWO_TO_64
  {
    assert Pow256(2) == 256 * Pow256(1);
    assert Pow256(3) == 256 * Pow256(2);
    assert Pow256(4) == 256 * Pow256(3);
    assert Pow256(5) == 256 * Pow256(4);
    assert Pow256(6) == 256 * Pow256(5);
    assert Pow256(7) == 256 * Pow256(6);
    assert Pow256(8) == 256 * Pow256(7);
  }

  /** The last `n` big-endian bytes of `x`. */
  function ToBytes(x: nat, n: nat): (b: Bytes)
    ensures |b| == n
  {
    if n == 0 then [] else ToBytes(x / 256, n - 1) + [x % 256]
  }

  function FromBytes(b: Bytes): nat {
    if b == [] then 0 else 256 * FromBytes(b[..|b| - 1]) + b[|b| - 1]
  }

  lemma {:induction false} NumberRoundTrip(x: nat, n: nat)
    requires x < Pow256(n)
    ensures FromBytes(ToBytes(x, n)) == x
    decreases n
  {
    if n > 0 {
      var b := ToBytes(x / 256, n - 1);
      assert (b + [x % 256])[..n - 1] == b;
      assert x / 256 < Pow256(n - 1);
      NumberRoundTrip(x / 256, n - 1);
    }
  }

  lemma {:induction false} BytesRoundTrip(b: Bytes)
    ensures FromBytes(b) < Pow256(|b|) && ToBytes(FromBytes(b), |b|) == b
    decreases |b|
  {
    if b != [] {
      var init := b[..|b| - 1];
      BytesRoundTrip(init);
      assert FromBytes(b) / 256 == FromBytes(init) && FromBytes(b) % 256 == b[|b| - 1];
      assert init + [b[|b| - 1]] == b;
    }
  }

  lemma MoveFactor(digit: nat, p: nat, rest: nat)
    ensures 256 * (digit * p + rest) == digit * (256 * p) + 256 * rest
  {
  }

  /** Most significant byte first: the first byte of a number counts for as much as all that the bytes behind it can hold. */
  lemma {:induction false} BigEndian(b: Bytes)
    requires b != []
    ensures FromBytes(b) == b[0] * Pow256(|b| - 1) + FromBytes(b[1..])
    decreases |b|
  {
    if |b| > 1 {
      var n := |b| - 1;
      BigEndian(b[..n]);
      assert b[..n][1..] == b[1..][..n - 1];
      MoveFactor(b[0], Pow256(n - 1), FromBytes(b[1..][..n - 1]));
    }
  }

  /** Numbers of `n` bytes and strings of `n` bytes correspond one to one. */
  lemma FixedWidth(x: nat, n: nat, b: Bytes)
    requires |b| == n
    ensures x < Pow256(n) ==> FromBytes(ToBytes(x, n)) == x
    ensures FromBytes(b) < Pow256(n) && ToBytes(FromBytes(b), n) == b
  {
    if x < Pow256(n) {
      NumberRoundTrip(x, n);
    }
    BytesRoundTrip(b);
  }
}
