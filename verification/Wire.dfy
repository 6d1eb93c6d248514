/** Little-endian integers and slices of byte strings. */
module Wire {
  import opened Base

  /** 256 to the power `n`. */
  function Pow256(n: nat): (p: nat)
    ensures p > 0
  {
    if n == 0 then 1 else 256 * Pow256(n - 1)
  }

  lemma Widths()
    ensures Pow256(2) == 0x1_0000 && Pow256(4) == TWO_32 && Pow256(8) == TWO_64
  {
    assert Pow256(4) == 256 * (256 * (256 * 256));
    assert Pow256(8) == 256 * (256 * (256 * (256 * Pow256(4))));
  }

  /** The `n` low bytes of `v`, least significant first. */
  function Le(v: nat, n: nat): (b: Bytes)
    ensures |b| == n
    decreases n
  {
    if n == 0 then [] else [v % 256] + Le(v / 256, n - 1)
  }

  /** The value of a little-endian byte string. */
  function Un(b: Bytes): (v: nat)
    decreases |b|
  {
    if b == [] then 0 else b[0] + 256 * Un(b[1..])
  }

  lemma {:induction false} UnBound(b: Bytes)
    ensures Un(b) < Pow256(|b|)
    decreases |b|
  {
    if b != [] { UnBound(b[1..]); }
  }

  lemma {:induction false} UnLe(v: nat, n: nat)
    requires v < Pow256(n)
    ensures Un(Le(v, n)) == v
    decreases n
  {
    if n > 0 {
      UnLe(v / 256, n - 1);
      assert Le(v, n)[1..] == Le(v / 256, n - 1);
    }
  }

  lemma {:induction false} LeUn(b: Bytes)
    ensures Le(Un(b), |b|) == b
    decreases |b|
  {
    if b != [] {
      LeUn(b[1..]);
      assert Un(b) % 256 == b[0] && Un(b) / 256 == Un(b[1..]);
    }
  }

  function Le16(v: int): (b: Bytes) requires 0 <= v < 0x1_0000 ensures |b| == 2 { Le(v, 2) }
  function Le32(v: u32): (b: Bytes) ensures |b| == 4 { Le(v, 4) }
  function Le64(v: u64): (b: Bytes) ensures |b| == 8 { Le(v, 8) }

  function U16(b: Bytes): (v: int)
    requires |b| == 2
    ensures 0 <= v < 0x1_0000
  {
    UnBound(b); Widths();
    Un(b)
  }

  function U32(b: Bytes): (v: u32)
    requires |b| == 4
  {
    UnBound(b); Widths();
    Un(b)
  }

  function U64(b: Bytes): (v: u64)
    requires |b| == 8
  {
    UnBound(b); Widths();
    Un(b)
  }

  lemma Exact16(v: int, b: Bytes)
    requires 0 <= v < 0x1_0000 && |b| == 2
    ensures U16(Le16(v)) == v && Le16(U16(b)) == b
  {
    Widths(); UnLe(v, 2); LeUn(b);
  }

  lemma Exact32(v: u32, b: Bytes)
    requires |b| == 4
    ensures U32(Le32(v)) == v && Le32(U32(b)) == b
  {
    Widths(); UnLe(v, 4); LeUn(b);
  }

  lemma Exact64(v: u64, b: Bytes)
    requires |b| == 8
    ensures U64(Le64(v)) == v && Le64(U64(b)) == b
  {
    Widths(); UnLe(v, 8); LeUn(b);
  }

  /** Two's complement, 64 bits. */
  function AsU64(t: i64): u64 { if t < 0 then t + TWO_64 else t }

  function AsI64(v: u64): i64 { if v < TWO_63 then v else v - TWO_64 }

  lemma TwosComplement(t: i64, v: u64)
    ensures AsI64(AsU64(t)) == t && AsU64(AsI64(v)) == v
  {
  }

  function Zeros(n: nat): (b: Bytes)
    ensures |b| == n
  {
    seq(n, _ => 0)
  }

  /** The `n` low bytes of `v`, most significant first. */
  function Be(v: nat, n: nat): (b: Bytes)
    ensures |b| == n
    decreases n
  {
    if n == 0 then [] else Be(v / 256, n - 1) + [v % 256]
  }

  function UnBe(b: Bytes): (v: nat)
    decreases |b|
  {
    if b == [] then 0 else 256 * UnBe(b[..|b| - 1]) + b[|b| - 1]
  }

  lemma {:induction false} UnBeBound(b: Bytes)
    ensures UnBe(b) < Pow256(|b|)
    decreases |b|
  {
    if b != [] { UnBeBound(b[..|b| - 1]); }
  }

  lemma {:induction false} UnBeBe(v: nat, n: nat)
    requires v < Pow256(n)
    ensures UnBe(Be(v, n)) == v
    decreases n
  {
    if n > 0 {
      UnBeBe(v / 256, n - 1);
      assert Be(v, n)[..n - 1] == Be(v / 256, n - 1);
    }
  }

  lemma {:induction false} BeUnBe(b: Bytes)
    ensures Be(UnBe(b), |b|) == b
    decreases |b|
  {
    if b != [] {
      BeUnBe(b[..|b| - 1]);
      assert UnBe(b) % 256 == b[|b| - 1] && UnBe(b) / 256 == UnBe(b[..|b| - 1]);
    }
  }

  lemma IdWidth()
    ensures Pow256(16) == 0x1_0000_0000_0000_0000_0000_0000_0000_0000
  {
    Widths();
    assert Pow256(12) == 256 * (256 * (256 * (256 * Pow256(8))));
    assert Pow256(16) == 256 * (256 * (256 * (256 * Pow256(12))));
  }

  function IdBytes(id: Id): (b: Bytes) ensures |b| == 16 { Be(id, 16) }

  function IdOf(b: Bytes): Id
    requires |b| == 16
  {
    UnBeBound(b); IdWidth();
    UnBe(b)
  }

  lemma ExactId(id: Id, b: Bytes)
    requires |b| == 16
    ensures IdOf(IdBytes(id)) == id && IdBytes(IdOf(b)) == b
  {
    IdWidth(); UnBeBe(id, 16); BeUnBe(b);
  }
}
