/**
 * webglLinkProgram: the GPU-side store of straight links.
 *
 * Every link is one record of eight words, two vertices of x, y, depth and
 * packed colour.  Besides the count of live records the program keeps
 * `frontLinkId`, the slot that the next bring-to-front call swaps into; it is
 * undefined until the first link is created, modelled as -1 (every `>`
 * comparison of undefined with an id is false, as with -1).
 */
module WebglLinkProgram {
  import opened Buffers
  import opened Geometry

  /** Two vertices of x, y, z and colour. */
  const ATTRIBUTES_PER_PRIMITIVE: nat := 8
  /** 2 * (3 * 4 + 4) bytes. */
  const BYTES_PER_LINK: nat := 32

  /** A record of ATTRIBUTES_PER_PRIMITIVE words is exactly BYTES_PER_LINK bytes. */
  lemma RecordLayout()
    ensures BYTES_PER_LINK == 2 * (3 * FLOAT32_BYTES + UINT32_BYTES)
    ensures ATTRIBUTES_PER_PRIMITIVE * BYTES_PER_WORD == BYTES_PER_LINK
  {
  }

  /** ensureEnoughStorage grows the buffer exactly when the next record would not fit. */
  predicate NeedsGrowth(linksCount: nat, byteLength: nat)
  {
    (linksCount + 1) * BYTES_PER_LINK > byteLength
  }

  /** The byte length after ensureEnoughStorage: the next record always fits. */
  function ByteLengthAfterEnsure(linksCount: nat, byteLength: nat): (r: nat)
    requires linksCount * BYTES_PER_LINK <= byteLength && BYTES_PER_LINK <= byteLength
    ensures r == byteLength || r == 2 * byteLength
    ensures r == 2 * byteLength <==> NeedsGrowth(linksCount, byteLength)
    ensures (linksCount + 1) * BYTES_PER_LINK <= r
  {
    if NeedsGrowth(linksCount, byteLength) then 2 * byteLength else byteLength
  }

  /**
   * The eight words `position` writes: the start point unchanged, the end
   * point pulled back by half the node size towards the start, both with the
   * link's depth and colour.
   */
  function LinkRecord(from: Point, to: Point, nodeSize: real, mag: real, depth: real, color: u32): (r: seq<Word>)
    requires IsMagnitude(Sub(to, from), mag) && mag > 0.0
    ensures |r| == ATTRIBUTES_PER_PRIMITIVE
    ensures r[0] == F32(from.x) && r[1] == F32(from.y)
    ensures r[4].F32? && r[5].F32?
    ensures var e := Point(r[4].value, r[5].value);
      Cross(Sub(to, from), Sub(to, e)) == 0.0 &&
      Dot(Sub(to, e), Sub(to, e)) == (nodeSize / 2.0) * (nodeSize / 2.0) &&
      Dot(Sub(to, e), Sub(to, from)) == (nodeSize / 2.0) * mag
    ensures r[2] == r[6] == F32(depth) && r[3] == r[7] == U32(color)
  {
    var end := PullBack(from, to, nodeSize / 2.0, mag);
    [F32(from.x), F32(from.y), F32(depth), U32(color), F32(end.x), F32(end.y), F32(depth), U32(color)]
  }

  class LinkProgram {
    var storage: array<Word>
    var linksCount: nat
    var frontLinkId: int

    function ByteLength(): nat
      reads this
    {
      BYTES_PER_WORD * storage.Length
    }

    /**
     * The live records fit, the buffer never shrinks below 16 records, and
     * the front id is undefined or names a slot inside the buffer.
     */
    ghost predicate Valid()
      reads this
    {
      storage.Length >= INITIAL_RECORDS * ATTRIBUTES_PER_PRIMITIVE &&
      linksCount * BYTES_PER_LINK <= ByteLength() &&
      -1 <= frontLinkId &&
      (frontLinkId >= 0 ==> (frontLinkId + 1) * BYTES_PER_LINK <= ByteLength())
    }

    /** The live link records, in slot order (slot order is drawing order). */
    ghost function Live(): seq<seq<Word>>
      reads this, storage
      requires Valid()
    {
      Records(storage[..], linksCount, ATTRIBUTES_PER_PRIMITIVE)
    }

    constructor ()
      ensures Valid() && fresh(storage) && linksCount == 0 && frontLinkId == -1 && Live() == []
      ensures ByteLength() == INITIAL_RECORDS * BYTES_PER_LINK
      ensures storage[..] == Zeros(storage.Length)
    {
      storage := new Word[INITIAL_RECORDS * ATTRIBUTES_PER_PRIMITIVE](_ => Zero);
      linksCount := 0;
      frontLinkId := -1;
    }

    /** ensureEnoughStorage: double the buffer, keeping its words, when the next record would not fit. */
    method EnsureEnoughStorage()
      requires Valid()
      modifies this
      ensures Valid() && linksCount == old(linksCount) && frontLinkId == old(frontLinkId)
      ensures ByteLength() == ByteLengthAfterEnsure(old(linksCount), old(ByteLength()))
      ensures if NeedsGrowth(old(linksCount), old(ByteLength()))
              then fresh(storage) && storage[..] == old(storage[..]) + Zeros(old(storage.Length))
              else storage == old(storage)
    {
      if (linksCount + 1) * BYTES_PER_LINK > BYTES_PER_WORD * storage.Length {
        storage := Grow(storage, Zero);
      }
    }

    /**
     * createLink: make room, count one more link and make the new link's
     * slot the front.  The caller passes the id it assigned, the old count.
     */
    method CreateLink(id: nat)
      requires Valid() && id <= linksCount
      modifies this
      ensures Valid() && linksCount == old(linksCount) + 1 && frontLinkId == id
      ensures ByteLength() == ByteLengthAfterEnsure(old(linksCount), old(ByteLength()))
      ensures storage == old(storage) || (fresh(storage) && storage[..] == old(storage[..]) + Zeros(old(storage.Length)))
      ensures Live()[..old(linksCount)] == old(Live())
    {
      ghost var before := storage[..];
      EnsureEnoughStorage();
      linksCount := linksCount + 1;
      frontLinkId := id;
      assert (id + 1) * BYTES_PER_LINK <= linksCount * BYTES_PER_LINK;
      AppendKeepsRecords(before, storage[..], linksCount - 1, ATTRIBUTES_PER_PRIMITIVE);
    }

    /**
     * removeLink: the count goes down when positive, and a removed slot below
     * the new count is refilled with the last record.  The front id is left
     * as it is.
     */
    method RemoveLink(id: nat)
      requires Valid()
      modifies this, storage
      ensures Valid()
      ensures storage == old(storage) && frontLinkId == old(frontLinkId)
      ensures linksCount == CountAfterRemoval(old(linksCount))
      ensures storage[..] == AfterRemoval(old(storage[..]), old(linksCount), id, ATTRIBUTES_PER_PRIMITIVE)
      ensures id < old(linksCount) ==>
        Live() == LastIntoHole(old(Live()), id) &&
        multiset(Live()) == multiset(old(Live())) - multiset{old(Live())[id]}
    {
      ghost var before := storage[..];
      ghost var count := linksCount;
      linksCount := RemoveRecord(storage, linksCount, id, ATTRIBUTES_PER_PRIMITIVE);
      if id < count {
        AfterRemovalRecords(before, count, id, ATTRIBUTES_PER_PRIMITIVE, storage[..], linksCount);
      }
    }

    /**
     * position: overwrite the eight words of slot `id` and nothing else.
     * `mag` is the length of the link, which `normalized_direction` computes.
     */
    method Position(id: nat, from: Point, to: Point, nodeSize: real, mag: real, depth: real, color: u32)
      requires Valid()
      requires id * ATTRIBUTES_PER_PRIMITIVE + ATTRIBUTES_PER_PRIMITIVE <= storage.Length
      requires IsMagnitude(Sub(to, from), mag) && mag > 0.0
      modifies storage
      ensures storage[..] == Overwrite(old(storage[..]), id * ATTRIBUTES_PER_PRIMITIVE, LinkRecord(from, to, nodeSize, mag, depth, color))
      ensures id < linksCount ==> Live() == old(Live())[id := LinkRecord(from, to, nodeSize, mag, depth, color)]
    {
      var offset := id * ATTRIBUTES_PER_PRIMITIVE;
      var rec := LinkRecord(from, to, nodeSize, mag, depth, color);
      WriteRecord(storage, offset, rec);
      if id < linksCount {
        OverwriteRecords(old(storage[..]), linksCount, ATTRIBUTES_PER_PRIMITIVE, id, rec, storage[..]);
      }
    }

    /** render: the number of vertices drawn (two per live link), then the front is reset to the last slot. */
    method Render() returns (vertices: nat)
      requires Valid()
      modifies this
      ensures Valid() && storage == old(storage) && linksCount == old(linksCount)
      ensures vertices == 2 * linksCount
      ensures vertices * (BYTES_PER_LINK / 2) <= ByteLength()
      ensures frontLinkId == linksCount - 1
    {
      vertices := linksCount * 2;
      frontLinkId := linksCount - 1;
    }

    /**
     * bringToFront: when the front slot lies above the link's slot the two
     * records are swapped; the front then walks down by one, never below 0.
     */
    method BringToFront(id: nat)
      requires Valid()
      modifies this, storage
      ensures Valid() && storage == old(storage) && linksCount == old(linksCount)
      ensures storage[..] == AfterBringToFront(old(storage[..]), old(frontLinkId), id, ATTRIBUTES_PER_PRIMITIVE)
      ensures frontLinkId == NextFront(old(frontLinkId))
      ensures id < old(frontLinkId) < linksCount ==>
        Live() == Transposed(old(Live()), id, old(frontLinkId) as nat) &&
        multiset(Live()) == multiset(old(Live()))
    {
      ghost var before := storage[..];
      ghost var front := frontLinkId;
      SwapRecords(storage, frontLinkId, id, ATTRIBUTES_PER_PRIMITIVE);
      frontLinkId := NextFront(frontLinkId);
      if id < front < linksCount {
        AfterBringToFrontRecords(before, linksCount, front, id, ATTRIBUTES_PER_PRIMITIVE, storage[..]);
      }
    }

    /** getFrontLinkId: the slot the next bring-to-front swaps into, inside the buffer when defined. */
    method GetFrontLinkId() returns (front: int)
      requires Valid()
      ensures front == frontLinkId
      ensures front >= 0 ==> (front + 1) * BYTES_PER_LINK <= ByteLength()
    {
      front := frontLinkId;
    }
  }
}
