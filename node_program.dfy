/**
 * webglNodeProgram: the GPU-side store of square nodes.
 *
 * Every node is one record of five words: x, the negated y, depth and size as
 * floats and the packed colour as a uint32.  The program keeps the number of
 * live records and appends, removes (by moving the last record into the hole)
 * and overwrites records in one ArrayBuffer that doubles when it runs out of
 * room.
 */
module WebglNodeProgram {
  import opened Buffers
  import opened Geometry

  /** x, y, z, size and colour. */
  const ATTRIBUTES_PER_PRIMITIVE: nat := 5
  /** x, y, z and size as floats, the colour as a uint32: 4 * 4 + 4 bytes. */
  const BYTES_PER_NODE: nat := 20

  /** A record of ATTRIBUTES_PER_PRIMITIVE words is exactly BYTES_PER_NODE bytes. */
  lemma RecordLayout()
    ensures BYTES_PER_NODE == 4 * FLOAT32_BYTES + UINT32_BYTES
    ensures ATTRIBUTES_PER_PRIMITIVE * BYTES_PER_WORD == BYTES_PER_NODE
  {
  }

  /** ensureEnoughStorage grows the buffer when the record after the next one would not fit. */
  predicate NeedsGrowth(nodesCount: nat, byteLength: nat)
  {
    (nodesCount + 1) * BYTES_PER_NODE >= byteLength
  }

  /**
   * The byte length after ensureEnoughStorage.  As long as one spare slot
   * exists beforehand, there is room for the new record and one more slot
   * afterwards: a full buffer is always doubled.
   */
  function ByteLengthAfterEnsure(nodesCount: nat, byteLength: nat): (r: nat)
    requires nodesCount * BYTES_PER_NODE < byteLength && BYTES_PER_NODE <= byteLength
    ensures r == byteLength || r == 2 * byteLength
    ensures r == 2 * byteLength <==> NeedsGrowth(nodesCount, byteLength)
    ensures (nodesCount + 1) * BYTES_PER_NODE < r
  {
    if NeedsGrowth(nodesCount, byteLength) then 2 * byteLength else byteLength
  }

  /** The five words `position` writes for a node: x, the negated y, the depth, the size and the colour. */
  function NodeRecord(pos: Point, depth: real, size: real, color: u32): (r: seq<Word>)
    ensures |r| == ATTRIBUTES_PER_PRIMITIVE
    ensures r[0] == F32(pos.x) && r[1] == F32(-pos.y)
    ensures r[2] == F32(depth) && r[3] == F32(size) && r[4] == U32(color)
  {
    [F32(pos.x), F32(-pos.y), F32(depth), F32(size), U32(color)]
  }

  class NodeProgram {
    var storage: array<Word>
    var nodesCount: nat

    function ByteLength(): nat
      reads this
    {
      BYTES_PER_WORD * storage.Length
    }

    /** The buffer holds at least the initial 16 records and always one spare slot. */
    ghost predicate Valid()
      reads this
    {
      storage.Length >= INITIAL_RECORDS * ATTRIBUTES_PER_PRIMITIVE &&
      nodesCount * BYTES_PER_NODE < ByteLength()
    }

    /** The live node records, in slot order. */
    ghost function Live(): seq<seq<Word>>
      reads this, storage
      requires Valid()
    {
      Records(storage[..], nodesCount, ATTRIBUTES_PER_PRIMITIVE)
    }

    constructor ()
      ensures Valid() && fresh(storage) && nodesCount == 0 && Live() == []
      ensures ByteLength() == INITIAL_RECORDS * BYTES_PER_NODE
      ensures storage[..] == Zeros(storage.Length)
    {
      storage := new Word[INITIAL_RECORDS * ATTRIBUTES_PER_PRIMITIVE](_ => Zero);
      nodesCount := 0;
    }

    /** ensureEnoughStorage: double the buffer, keeping its words, when it is about to fill up. */
    method EnsureEnoughStorage()
      requires Valid()
      modifies this
      ensures Valid() && nodesCount == old(nodesCount)
      ensures ByteLength() == ByteLengthAfterEnsure(old(nodesCount), old(ByteLength()))
      ensures if NeedsGrowth(old(nodesCount), old(ByteLength()))
              then fresh(storage) && storage[..] == old(storage[..]) + Zeros(old(storage.Length))
              else storage == old(storage)
    {
      if (nodesCount + 1) * BYTES_PER_NODE >= BYTES_PER_WORD * storage.Length {
        storage := Grow(storage, Zero);
      }
    }

    /** createNode: make room, then count one more node; every old record is kept. */
    method CreateNode()
      requires Valid()
      modifies this
      ensures Valid() && nodesCount == old(nodesCount) + 1
      ensures ByteLength() == ByteLengthAfterEnsure(old(nodesCount), old(ByteLength()))
      ensures storage == old(storage) || (fresh(storage) && storage[..] == old(storage[..]) + Zeros(old(storage.Length)))
      ensures Live()[..old(nodesCount)] == old(Live())
    {
      ghost var before := storage[..];
      EnsureEnoughStorage();
      nodesCount := nodesCount + 1;
      AppendKeepsRecords(before, storage[..], nodesCount - 1, ATTRIBUTES_PER_PRIMITIVE);
    }

    /**
     * removeNode: the count goes down when positive, and a removed slot below
     * the new count is refilled with the last record.
     */
    method RemoveNode(id: nat)
      requires Valid()
      modifies this, storage
      ensures Valid() && storage == old(storage)
      ensures nodesCount == CountAfterRemoval(old(nodesCount))
      ensures storage[..] == AfterRemoval(old(storage[..]), old(nodesCount), id, ATTRIBUTES_PER_PRIMITIVE)
      ensures id < old(nodesCount) ==>
        Live() == LastIntoHole(old(Live()), id) &&
        multiset(Live()) == multiset(old(Live())) - multiset{old(Live())[id]}
    {
      ghost var before := storage[..];
      ghost var count := nodesCount;
      nodesCount := RemoveRecord(storage, nodesCount, id, ATTRIBUTES_PER_PRIMITIVE);
      if id < count {
        AfterRemovalRecords(before, count, id, ATTRIBUTES_PER_PRIMITIVE, storage[..], nodesCount);
      }
    }

    /** position: overwrite the five words of slot `id` and nothing else. */
    method Position(id: nat, pos: Point, depth: real, size: real, color: u32)
      requires Valid()
      requires id * ATTRIBUTES_PER_PRIMITIVE + ATTRIBUTES_PER_PRIMITIVE <= storage.Length
      modifies storage
      ensures storage[..] == Overwrite(old(storage[..]), id * ATTRIBUTES_PER_PRIMITIVE, NodeRecord(pos, depth, size, color))
      ensures id < nodesCount ==> Live() == old(Live())[id := NodeRecord(pos, depth, size, color)]
    {
      var rec := NodeRecord(pos, depth, size, color);
      WriteRecord(storage, id * ATTRIBUTES_PER_PRIMITIVE, rec);
      if id < nodesCount {
        OverwriteRecords(old(storage[..]), nodesCount, ATTRIBUTES_PER_PRIMITIVE, id, rec, storage[..]);
      }
    }

    /** render: the number of points drawn, all of which lie inside the buffer. */
    method Render() returns (points: nat)
      requires Valid()
      ensures points == nodesCount
      ensures points * BYTES_PER_NODE < ByteLength()
    {
      points := nodesCount;
    }
  }
}
