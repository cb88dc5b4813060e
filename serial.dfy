/**
  The serializer a store is built with: any pair of functions turning a value into
  a byte payload and back. The store only ever relies on the pair round-tripping.
 */
module Serial {
  import opened Wrappers

  newtype Byte = x: int | 0 <= x < 256
  type Bytes = seq<Byte>

  /** The two-method capability the store uses (`dumps` to write, `loads` to read). */
  datatype Serializer<!V> = Serializer(dumps: V -> Bytes, loads: Bytes -> V)

  /** Every value survives encoding followed by decoding. */
  ghost predicate RoundTrips<V(!new)>(s: Serializer<V>) {
    forall v :: s.loads(s.dumps(v)) == v
  }

  /** Decodes a list of payloads element by element, keeping the order. */
  function DecodeAll<V>(s: Serializer<V>, xs: seq<Bytes>): (vs: seq<V>) {
    seq(|xs|, i requires 0 <= i < |xs| => s.loads(xs[i]))
  }

  /** Decoding one more payload of a list extends the decoded prefix by that payload's value. */
  lemma DecodeAllSnoc<V>(s: Serializer<V>, xs: seq<Bytes>, k: nat)
    requires k < |xs|
    ensures DecodeAll(s, xs[..k + 1]) == DecodeAll(s, xs[..k]) + [s.loads(xs[k])]
  {
  }

  /**
    A concrete serializer for optional byte strings: a tag byte says whether the
    value is `None` (tag 0) or a payload (tag 1, followed by the payload). It stands
    in for a general object serializer that can also store `None`.
   */
  function Tagged(): (s: Serializer<Option<Bytes>>) {
    Serializer(
      (v: Option<Bytes>) => if v.None? then [0 as Byte] else [1 as Byte] + v.value,
      (b: Bytes) => if b != [] && b[0] == 1 then Some(b[1..]) else None)
  }

  lemma TaggedRoundTrips()
    ensures RoundTrips(Tagged())
  {
    forall v: Option<Bytes> ensures Tagged().loads(Tagged().dumps(v)) == v {
      if v.Some? {
        assert ([1 as Byte] + v.value)[1..] == v.value;
      }
    }
  }
}
