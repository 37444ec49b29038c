/** How `fan_init` puts the maps on the wire: four bytes an entry, filled from a machine word. */
module MapEncoding {
  import opened Wrappers
  import opened Bytes
  import opened LittleEndian

  /** Every entry in four little-endian bytes. */
  function Encoded(m: seq<nat>): (b: Buffer)
    ensures |b| == 4 * |m|
  {
    if m == [] then [] else Encoded(m[..|m| - 1]) + ToLe(m[|m| - 1], 4)
  }

  function Decoded(b: Buffer): (m: seq<nat>) {
    seq(|b| / 4, i requires 0 <= i < |b| / 4 => FromLe(b[4 * i..4 * i + 4]))
  }

  /** Copies the bytes of each word to its place. The copy demands equal lengths, so it fails on any entry
      unless a word has four bytes. */
  method EncodeMap(m: seq<nat>, usizeBytes: nat) returns (sent: Option<Buffer>)
    ensures sent == if usizeBytes == 4 || m == [] then Some(Encoded(m)) else None
  {
    var buf := [];
    for i := 0 to |m|
      invariant i > 0 ==> usizeBytes == 4
      invariant buf == Encoded(m[..i])
    {
      var bytes := ToLe(m[i], usizeBytes);
      if |bytes| != 4 {
        return None;
      }
      assert m[..i + 1][..i] == m[..i];
      buf := buf + bytes;
    }
    assert m[..|m|] == m;
    sent := Some(buf);
  }

  lemma {:induction false} EncodedAt(m: seq<nat>, i: nat)
    requires i < |m|
    ensures Encoded(m)[4 * i..4 * i + 4] == ToLe(m[i], 4)
  {
    var last := |m| - 1;
    if i < last {
      EncodedAt(m[..last], i);
      assert Encoded(m)[4 * i..4 * i + 4] == Encoded(m[..last])[4 * i..4 * i + 4];
    }
  }

  /** Entries below 2^32 come back as they were sent. */
  lemma {:induction false} DecodedEncoded(m: seq<nat>)
    requires forall i :: 0 <= i < |m| ==> m[i] < Pow256(4)
    ensures Decoded(Encoded(m)) == m
  {
    forall i | 0 <= i < |m| ensures Decoded(Encoded(m))[i] == m[i] {
      EncodedAt(m, i);
      RoundTrip(m[i], 4);
    }
  }
}
