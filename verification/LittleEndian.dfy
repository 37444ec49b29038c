/** Little-endian encoding: bytes of a number and number of bytes. */
module LittleEndian {
  import opened Bytes

  function FromLe(b: Buffer): nat {
    if b == [] then 0 else b[0] as nat + 256 * FromLe(b[1..])
  }

  function ToLe(x: nat, n: nat): (b: Buffer)
    ensures |b| == n
  {
    if n == 0 then [] else [(x % 256) as byte] + ToLe(x / 256, n - 1)
  }

  /** The values of a list of messages. */
  function Values(blocks: seq<Buffer>): (vs: seq<int>) {
    seq(|blocks|, i requires 0 <= i < |blocks| => FromLe(blocks[i]))
  }

  function Pow256(n: nat): nat {
    if n == 0 then 1 else 256 * Pow256(n - 1)
  }

  lemma {:induction false} FromLeBound(b: Buffer)
    ensures FromLe(b) < Pow256(|b|)
  {
    if b != [] {
      FromLeBound(b[1..]);
    }
  }

  lemma EightBytes()
    ensures Pow256(8) == TWO_TO_64
  {
    assert Pow256(4) == 0x1_0000_0000;
    assert Pow256(8) == 256 * (256 * (256 * (256 * Pow256(4))));
  }

  lemma {:induction false} RoundTrip(x: nat, n: nat)
    requires x < Pow256(n)
    ensures FromLe(ToLe(x, n)) == x
  {
    if n > 0 {
      RoundTrip(x / 256, n - 1);
      assert ToLe(x, n)[1..] == ToLe(x / 256, n - 1);
    }
  }

  lemma {:induction false} RoundTripBytes(b: Buffer)
    ensures ToLe(FromLe(b), |b|) == b
  {
    if b != [] {
      RoundTripBytes(b[1..]);
      assert FromLe(b) % 256 == b[0] as nat && FromLe(b) / 256 == FromLe(b[1..]);
    }
  }

  /** The least significant byte comes first. */
  lemma {:induction false} HighByte(b: Buffer, d: byte)
    ensures FromLe(b + [d]) == FromLe(b) + Pow256(|b|) * d as nat && FromLe([]) == 0
  {
    if b == [] {
      assert b + [d] == [d] && [d][1..] == [];
    } else {
      assert (b + [d])[1..] == b[1..] + [d];
      HighByte(b[1..], d);
    }
  }

  /** Zero padding on the right does not change the value. */
  lemma {:induction false} PadValue(b: Buffer, n: nat)
    ensures FromLe(b + Zeros(n)) == FromLe(b)
  {
    if b != [] {
      assert (b + Zeros(n))[1..] == b[1..] + Zeros(n);
      PadValue(b[1..], n);
    } else if n > 0 {
      assert b + Zeros(n) == Zeros(n) && Zeros(n)[1..] == b + Zeros(n - 1);
      PadValue(b, n - 1);
    }
  }

  function Zeros(n: nat): (z: Buffer)
  {
    seq(n, _ => 0 as byte)
  }

  /** A message in the zeroed buffer posted for it. */
  function ZeroPadded(data: Buffer, len: nat): (b: Buffer)
    ensures |b| == len
  {
    if |data| <= len then data + Zeros(len - |data|) else data[..len]
  }

  lemma U64RoundTrip(x: nat)
    requires x < TWO_TO_64
    ensures FromLe(ToLe(x, 8)) == x
  {
    EightBytes();
    RoundTrip(x, 8);
  }

  lemma U64Bound(b: Buffer)
    requires |b| == 8
    ensures FromLe(b) < TWO_TO_64
  {
    EightBytes();
    FromLeBound(b);
  }
}
