/**
 Octets, big-endian numbers and the number of octets a value takes.
 Everything here is arithmetic on unbounded integers; the machine widths of the
 native code are written out where it uses them.
 */
module Octets {
  type Octet = n: int | 0 <= n < 256
  type Bytes = seq<Octet>

  datatype Option<+T> = None | Some(value: T)

  datatype Result<+T, +E> = Ok(value: T) | Err(error: E)

  const TWO_32: int := 0x1_0000_0000
  const U32_MAX: int := 0xFFFF_FFFF
  const TWO_63: int := 0x8000_0000_0000_0000
  const TWO_64: int := 0x1_0000_0000_0000_0000
  const U64_MAX: int := 0xFFFF_FFFF_FFFF_FFFF

  function Min(a: int, b: int): int {
    if a <= b then a else b
  }

  function Pow256(n: nat): (p: nat)
    ensures p >= 1
  {
    if n == 0 then 1 else 256 * Pow256(n - 1)
  }

  // The unsigned value of big-endian octets.
  function FromBE(s: Bytes): nat {
    if s == [] then 0 else 256 * FromBE(s[..|s| - 1]) + s[|s| - 1]
  }

  // The two's-complement value of big-endian octets; empty octets read as 0.
  function SignedBE(s: Bytes): int {
    if s != [] && s[0] >= 128 then FromBE(s) - Pow256(|s|) else FromBE(s)
  }

  // The low `n` octets of `v`, most significant first.
  function ToBE(v: nat, n: nat): (s: Bytes)
    ensures |s| == n
  {
    if n == 0 then [] else ToBE(v / 256, n - 1) + [v % 256]
  }

  function BitLength(v: nat): nat {
    if v == 0 then 0 else 1 + BitLength(v / 2)
  }

  // Octets of `v` without leading zeros: none for 0.
  function OctetCount(v: nat): nat {
    (BitLength(v) + 7) / 8
  }

  // The content of [0, 24) fits; these are the powers the native widths use.
  lemma Powers()
    ensures Pow256(1) == 256
    ensures Pow256(2) == 0x1_0000
    ensures Pow256(3) == 0x100_0000
    ensures Pow256(4) == TWO_32
    ensures Pow256(8) == TWO_64
  {
    assert Pow256(3) == 256 * Pow256(2);
    assert Pow256(4) == 256 * Pow256(3);
    assert Pow256(5) == 256 * Pow256(4);
    assert Pow256(6) == 256 * Pow256(5);
    assert Pow256(7) == 256 * Pow256(6);
  }

  lemma {:induction false} PowersGrow(a: nat, b: nat)
    requires a <= b
    ensures Pow256(a) <= Pow256(b)
  {
    if a < b {
      PowersGrow(a, b - 1);
    }
  }

  lemma {:induction false} FromBEBound(s: Bytes)
    ensures FromBE(s) < Pow256(|s|)
  {
    if s != [] {
      FromBEBound(s[..|s| - 1]);
    }
  }

  // to_bytes then from_bytes: the value comes back exactly when it fits.
  lemma {:induction false} FromToBE(v: nat, n: nat)
    ensures FromBE(ToBE(v, n)) == v <==> v < Pow256(n)
  {
    if n > 0 {
      var s := ToBE(v, n);
      assert s[..n - 1] == ToBE(v / 256, n - 1);
      FromToBE(v / 256, n - 1);
      FromBEBound(ToBE(v / 256, n - 1));
    }
  }

  lemma {:induction false} ToFromBE(s: Bytes)
    ensures ToBE(FromBE(s), |s|) == s
  {
    if s != [] {
      ToFromBE(s[..|s| - 1]);
      assert s == s[..|s| - 1] + [s[|s| - 1]];
    }
  }

  lemma {:induction false} FromBEConcat(a: Bytes, b: Bytes)
    ensures FromBE(a + b) == FromBE(a) * Pow256(|b|) + FromBE(b)
  {
    if b == [] {
      assert a + b == a;
    } else {
      var init, last := b[..|b| - 1], b[|b| - 1];
      assert (a + b)[..|a + b| - 1] == a + init;
      FromBEConcat(a, init);
      assert FromBE(a) * Pow256(|b|) == 256 * (FromBE(a) * Pow256(|init|));
    }
  }

  lemma BitLengthByOctet(v: nat)
    requires v >= 256
    ensures BitLength(v) == 8 + BitLength(v / 256)
  {
    var h1 := v / 2;
    var h2 := h1 / 2;
    var h3 := h2 / 2;
    var h4 := h3 / 2;
    var h5 := h4 / 2;
    var h6 := h5 / 2;
    var h7 := h6 / 2;
    assert BitLength(v) == 2 + BitLength(h2) by {
      assert BitLength(h1) == 1 + BitLength(h2);
    }
    assert BitLength(h2) == 2 + BitLength(h4) by {
      assert BitLength(h3) == 1 + BitLength(h4);
    }
    assert BitLength(h4) == 2 + BitLength(h6) by {
      assert BitLength(h5) == 1 + BitLength(h6);
    }
    assert BitLength(h6) == 2 + BitLength(h7 / 2) by {
      assert BitLength(h7) == 1 + BitLength(h7 / 2);
    }
    assert h7 / 2 == v / 256;
  }

  lemma SmallBitLength(v: nat)
    requires v < 256
    ensures v == 0 ==> BitLength(v) == 0
    ensures 0 < v < 128 ==> 1 <= BitLength(v) <= 7
    ensures 128 <= v ==> BitLength(v) == 8
  {
    if v >= 2 {
      var h3 := v / 2 / 2 / 2;
      assert BitLength(v) == 1 + BitLength(v / 2);
      assert v >= 4 ==> BitLength(v / 2) == 1 + BitLength(v / 2 / 2);
      assert v >= 8 ==> BitLength(v / 2 / 2) == 1 + BitLength(h3);
      assert h3 < 32;
      assert h3 >= 2 ==> BitLength(h3) == 1 + BitLength(h3 / 2);
      assert h3 >= 4 ==> BitLength(h3 / 2) == 1 + BitLength(h3 / 2 / 2);
      assert h3 >= 8 ==> BitLength(h3 / 2 / 2) == 1 + BitLength(h3 / 2 / 2 / 2);
      assert h3 >= 16 ==> BitLength(h3 / 2 / 2 / 2) == 1 + BitLength(h3 / 2 / 2 / 2 / 2);
    }
  }

  // `OctetCount` is the least number of octets that hold `v`.
  lemma {:induction false} OctetCountIsLeast(v: nat)
    ensures v < Pow256(OctetCount(v))
    ensures v > 0 ==> OctetCount(v) > 0 && Pow256(OctetCount(v) - 1) <= v
  {
    if v < 256 {
      SmallBitLength(v);
    } else {
      BitLengthByOctet(v);
      OctetCountIsLeast(v / 256);
    }
  }

  lemma OctetCountAtMost(v: nat, n: nat)
    requires v < Pow256(n)
    ensures OctetCount(v) <= n
  {
    OctetCountIsLeast(v);
    if OctetCount(v) > n {
      PowersGrow(n, OctetCount(v) - 1);
    }
  }
}
