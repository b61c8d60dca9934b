/** Byte strings and the fixed-width integers the two database protocols put on the wire. */
module Bytes {

  type Byte = x: int | 0 <= x < 256

  datatype Option<+T> = None | Some(value: T)

  function Pow256(n: nat): (p: nat)
    ensures p > 0
  {
    if n == 0 then 1 else 256 * Pow256(n - 1)
  }

  /** The value of a least-significant-first byte string. */
  function FromLE(b: seq<Byte>): (v: nat)
    ensures v < Pow256(|b|)
  {
    if b == [] then 0 else b[0] + 256 * FromLE(b[1..])
  }

  /** The `n` least significant bytes of `v`, least significant first. */
  function ToLE(v: nat, n: nat): (b: seq<Byte>)
    ensures |b| == n
  {
    if n == 0 then [] else [v % 256] + ToLE(v / 256, n - 1)
  }

  /** The value of a most-significant-first byte string. */
  function FromBE(b: seq<Byte>): (v: nat) {
    if b == [] then 0 else 256 * FromBE(b[..|b| - 1]) + b[|b| - 1]
  }

  function ToBE(v: nat, n: nat): (b: seq<Byte>)
    ensures |b| == n
  {
    if n == 0 then [] else ToBE(v / 256, n - 1) + [v % 256]
  }

  lemma {:induction false} LittleEndianInverse(v: nat, n: nat)
    requires v < Pow256(n)
    ensures FromLE(ToLE(v, n)) == v
  {
    if n == 0 {
    } else {
      LittleEndianInverse(v / 256, n - 1);
      assert ToLE(v, n)[1..] == ToLE(v / 256, n - 1);
    }
  }

  lemma {:induction false} BigEndianInverse(v: nat, n: nat)
    requires v < Pow256(n)
    ensures FromBE(ToBE(v, n)) == v
  {
    if n == 0 {
    } else {
      BigEndianInverse(v / 256, n - 1);
      assert ToBE(v, n)[..n - 1] == ToBE(v / 256, n - 1);
    }
  }

  lemma {:induction false} BigEndianUnique(b: seq<Byte>)
    ensures ToBE(FromBE(b), |b|) == b
  {
    if b == [] {
    } else {
      BigEndianUnique(b[..|b| - 1]);
    }
  }

  lemma {:induction false} FirstLE(x: Byte, rest: seq<Byte>)
    ensures FromLE([x] + rest) == x + 256 * FromLE(rest)
  {
    assert ([x] + rest)[1..] == rest;
  }

  lemma {:induction false} LastBE(rest: seq<Byte>, x: Byte)
    ensures FromBE(rest + [x]) == 256 * FromBE(rest) + x
  {
    assert (rest + [x])[..|rest|] == rest;
  }

  /** The byte orders, spelt out. */
  lemma {:induction false} ByteOrders(a: Byte, b: Byte, c: Byte, d: Byte)
    ensures FromLE([a, b, c, d]) == a + 0x100 * b + 0x1_0000 * c + 0x100_0000 * d
    ensures FromBE([a, b, c, d]) == 0x100_0000 * a + 0x1_0000 * b + 0x100 * c + d
  {
    FirstLE(d, []);
    FirstLE(c, [d] + []);
    FirstLE(b, [c] + ([d] + []));
    FirstLE(a, [b] + ([c] + ([d] + [])));
    assert [a, b, c, d] == [a] + ([b] + ([c] + ([d] + [])));
    LastBE([], a);
    LastBE([] + [a], b);
    LastBE([] + [a] + [b], c);
    LastBE([] + [a] + [b] + [c], d);
    assert [a, b, c, d] == [] + [a] + [b] + [c] + [d];
  }

  /** Whether bit `k` of a status word is set. */
  predicate Bit(v: nat, k: nat) {
    if k == 0 then v % 2 == 1 else Bit(v / 2, k - 1)
  }

  function Ascii(text: string): seq<Byte> {
    seq(|text|, i requires 0 <= i < |text| => text[i] as int % 256)
  }
}
