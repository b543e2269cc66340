/**
 * The declarations of BindlessFilter.h that have a meaning of their own:
 * the PipelineIndex enumeration and the ResourceIndices record whose bytes
 * are uploaded to a GPU buffer and read by the compute shader.
 */
module ResourceIndexLayout {
  import opened Types

  /** enum PipelineIndex: IMAGE_PROC, then the count NUM_PIPELINE. */
  const IMAGE_PROC: nat := 0
  const NUM_PIPELINE: nat := IMAGE_PROC + 1

  /** The record, fields in declaration order, each a uint32_t. */
  datatype ResourceIndices = ResourceIndices(TexIn: uint32, TexOut: uint32, SmpLinear: uint32)

  /** The default member initialisers: TexIn = 0, TexOut = TexIn + 1, SmpLinear = 0. */
  function Defaults(): (r: ResourceIndices)
    ensures r.TexOut == r.TexIn + 1 && r.TexIn != r.TexOut
  {
    var texIn := 0;
    ResourceIndices(texIn, texIn + 1, 0)
  }

  /** The record's words in declaration order. */
  function Fields(r: ResourceIndices): seq<uint32>
  {
    [r.TexIn, r.TexOut, r.SmpLinear]
  }

  /** sizeof(uint32_t) */
  const WORD_SIZE: nat := 4

  /** sizeof(ResourceIndices): three packed 32-bit words, no padding. */
  const SIZE_OF_RESOURCE_INDICES: nat := 3 * WORD_SIZE

  /** The four bytes of a 32-bit word in little-endian memory order. */
  function WordBytes(w: uint32): (bs: seq<uint8>)
    ensures |bs| == WORD_SIZE
  {
    var q1 := w / 256;
    var q2 := q1 / 256;
    [w % 256, q1 % 256, q2 % 256, q2 / 256]
  }

  /** The little-endian 32-bit word stored at word offset i of a byte buffer. */
  function WordAt(bs: seq<uint8>, i: nat): uint32
    requires WORD_SIZE * i + WORD_SIZE <= |bs|
  {
    var k := WORD_SIZE * i;
    bs[k] as int + 256 * (bs[k + 1] as int + 256 * (bs[k + 2] as int + 256 * bs[k + 3] as int))
  }

  /** The bytes of the record as they lie in memory and as they are uploaded. */
  function Serialize(r: ResourceIndices): (bs: seq<uint8>)
    ensures |bs| == SIZE_OF_RESOURCE_INDICES
  {
    WordBytes(r.TexIn) + WordBytes(r.TexOut) + WordBytes(r.SmpLinear)
  }

  /** How device-side code reads the record back from a buffer of its size. */
  function Decode(bs: seq<uint8>): Option<ResourceIndices>
  {
    if |bs| != SIZE_OF_RESOURCE_INDICES then None
    else Some(ResourceIndices(WordAt(bs, 0), WordAt(bs, 1), WordAt(bs, 2)))
  }

  lemma WordRoundTrip(w: uint32)
    ensures WordAt(WordBytes(w), 0) == w
  {
    var q1 := w / 256;
    var q2 := q1 / 256;
    assert q1 == 256 * (q1 / 256) + q1 % 256;
    assert q2 == 256 * (q2 / 256) + q2 % 256;
    assert w == 256 * q1 + w % 256;
  }

  lemma BytesRoundTrip(bs: seq<uint8>, i: nat)
    requires WORD_SIZE * i + WORD_SIZE <= |bs|
    ensures WordBytes(WordAt(bs, i)) == bs[WORD_SIZE * i .. WORD_SIZE * i + WORD_SIZE]
  {
    var k := WORD_SIZE * i;
    var a, b, c, d: int := bs[k], bs[k + 1], bs[k + 2], bs[k + 3];
    var w := a + 256 * (b + 256 * (c + 256 * d));
    assert w / 256 == b + 256 * (c + 256 * d);
    assert (w / 256) / 256 == c + 256 * d;
  }

  /** Word i of the serialised record is field i of the declaration. */
  lemma SerializeFieldOrder(r: ResourceIndices, i: nat)
    requires i < 3
    ensures WordAt(Serialize(r), i) == Fields(r)[i]
  {
    var bs := Serialize(r);
    var w := Fields(r)[i];
    assert bs[WORD_SIZE * i .. WORD_SIZE * i + WORD_SIZE] == WordBytes(w);
    WordRoundTrip(w);
    assert WordAt(bs, i) == WordAt(WordBytes(w), 0);
  }

  /** Decoding the uploaded bytes gives back the record. */
  lemma DecodeSerialize(r: ResourceIndices)
    ensures Decode(Serialize(r)) == Some(r)
  {
    SerializeFieldOrder(r, 0);
    SerializeFieldOrder(r, 1);
    SerializeFieldOrder(r, 2);
  }

  /** Every buffer of the record's size is the serialisation of the record it decodes to. */
  lemma SerializeDecode(bs: seq<uint8>)
    requires |bs| == SIZE_OF_RESOURCE_INDICES
    ensures Decode(bs).Some? && Serialize(Decode(bs).value) == bs
  {
    BytesRoundTrip(bs, 0);
    BytesRoundTrip(bs, 1);
    BytesRoundTrip(bs, 2);
    assert bs == bs[0..4] + bs[4..8] + bs[8..12];
  }

  /** Equal bytes come only from equal records (and equal records give equal bytes, Serialize being a function). */
  lemma SerializeInjective(r1: ResourceIndices, r2: ResourceIndices)
    ensures Serialize(r1) == Serialize(r2) <==> r1 == r2
  {
    if Serialize(r1) == Serialize(r2) {
      DecodeSerialize(r1);
      DecodeSerialize(r2);
    }
  }

  /** The default record is serialised as the three words 0, 1, 0. */
  lemma DefaultsLayout()
    ensures Fields(Defaults()) == [0, 1, 0]
    ensures Serialize(Defaults()) == [0, 0, 0, 0, 1, 0, 0, 0, 0, 0, 0, 0]
  {
  }

  /**
   * With the defaults, TexIn and TexOut are two distinct indices into a table
   * of two descriptors and SmpLinear indexes a table of one sampler, the
   * fixed layout of the compile-time alternative in createDescriptorTables.
   */
  lemma DefaultsFitFixedTables()
    ensures Defaults().TexIn < 2 && Defaults().TexOut < 2
    ensures Defaults().TexIn != Defaults().TexOut
    ensures Defaults().SmpLinear < 1
  {
  }

  /** The pipeline and pipeline-layout arrays have one slot, and IMAGE_PROC indexes it. */
  lemma PipelineIndexInRange()
    ensures NUM_PIPELINE == 1 && IMAGE_PROC < NUM_PIPELINE
  {
  }
}
