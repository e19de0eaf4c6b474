/**
 * webglCurvedLinkProgram: links drawn as polylines sampled from a quadratic
 * Bezier curve.
 *
 * A program is built for `segments` line segments per curve (the
 * `curveResolution` argument).  Every link is one record of `segments + 1`
 * vertices of x, y and packed colour.  Besides the vertex buffer the program
 * keeps a Uint16 index buffer with `2 * segments` entries per slot, the end
 * points of each segment; both buffers are doubled together.
 *
 * The ghost field `capacity` is the number of record slots the vertex
 * buffer holds; the index buffer always holds the same number of slots.
 */
module WebglCurvedLinkProgram {
  import opened Buffers
  import opened Geometry

  /** x, y and colour. */
  const ATTRIBUTES_PER_VERTEX: nat := 3
  /** x and y as floats, the colour as a uint32. */
  const BYTES_PER_VERTEX: nat := 12

  /** The indices of `count` curves of `segments` segments fit in the index buffer of `cap` curves. */
  lemma {:induction false} IndexCountFits(count: nat, cap: nat, segments: nat)
    requires count <= cap
    ensures count * segments * 2 <= Offset(cap, 2 * segments)
  {
    OffsetBound(count, cap, 2 * segments);
    assert count * segments * 2 == count * (2 * segments);
  }

  /** tSampling: `segments + 1` curve parameters spaced evenly from 0 to 1. */
  function TSampling(segments: nat): (r: seq<real>)
    requires segments >= 1
    ensures |r| == segments + 1
    ensures r[0] == 0.0 && r[segments] == 1.0
  {
    var r := seq(segments + 1, k requires 0 <= k <= segments => k as real / segments as real);
    var s := segments as real;
    assert r[0] == 0.0 / s && r[segments] == s / s;
    DivSelf(s);
    r
  }

  lemma DivSelf(s: real)
    requires s > 0.0
    ensures 0.0 / s == 0.0 && s / s == 1.0
  {
    assert (s / s - 1.0) * s == 0.0;
  }

  /** The samples rise strictly from 0 to 1, so the polyline runs from one end of the curve to the other. */
  lemma TSamplingIncreasing(segments: nat, i: nat, j: nat)
    requires segments >= 1 && i < j <= segments
    ensures 0.0 <= TSampling(segments)[i] < TSampling(segments)[j] <= 1.0
  {
    var t := TSampling(segments);
    var s := segments as real;
    assert t[i] == (i as real) / s && t[j] == (j as real) / s;
    QuotientsOrdered(i as real, j as real, s);
  }

  lemma {:induction false} QuotientsOrdered(a: real, b: real, s: real)
    requires 0.0 <= a < b <= s
    ensures 0.0 <= a / s < b / s <= 1.0
  {
    assert (a / s) * s == a && (b / s) * s == b;
    assert (b / s - a / s) * s == b - a;
    assert (1.0 - b / s) * s == s - b;
  }

  /**
   * The words `position` writes for one curve: vertex `k` is the point of
   * the Bezier curve through `from`, `ctrl` and `to` at `tSampling[k]`,
   * followed by the link's colour.
   */
  function CurveRecord(segments: nat, from: Point, ctrl: Point, to: Point, color: u32): (r: seq<Word>)
    requires segments >= 1
    ensures |r| == (segments + 1) * ATTRIBUTES_PER_VERTEX
  {
    var t := TSampling(segments);
    seq((segments + 1) * ATTRIBUTES_PER_VERTEX, i requires 0 <= i < (segments + 1) * ATTRIBUTES_PER_VERTEX =>
      var p := SampleBezier(from, ctrl, to, t[i / 3]);
      if i % 3 == 0 then F32(p.x) else if i % 3 == 1 then F32(p.y) else U32(color))
  }

  /** The polyline starts at `from`, ends at `to`, and every vertex carries the colour. */
  lemma CurveRecordShape(segments: nat, from: Point, ctrl: Point, to: Point, color: u32)
    requires segments >= 1
    ensures var r := CurveRecord(segments, from, ctrl, to, color);
      r[0] == F32(from.x) && r[1] == F32(from.y) &&
      r[3 * segments] == F32(to.x) && r[3 * segments + 1] == F32(to.y) &&
      forall k :: 0 <= k <= segments ==> r[3 * k + 2] == U32(color)
  {
    var r := CurveRecord(segments, from, ctrl, to, color);
    var t := TSampling(segments);
    assert t[0] == 0.0 && t[segments] == 1.0;
    assert 0 / 3 == 0 && 0 % 3 == 0 && 1 / 3 == 0 && 1 % 3 == 1;
    assert r[0] == F32(SampleBezier(from, ctrl, to, 0.0).x);
    assert r[1] == F32(SampleBezier(from, ctrl, to, 0.0).y);
    assert (3 * segments) / 3 == segments && (3 * segments) % 3 == 0;
    assert (3 * segments + 1) / 3 == segments && (3 * segments + 1) % 3 == 1;
    assert r[3 * segments] == F32(SampleBezier(from, ctrl, to, 1.0).x);
    assert r[3 * segments + 1] == F32(SampleBezier(from, ctrl, to, 1.0).y);
    forall k | 0 <= k <= segments
      ensures r[3 * k + 2] == U32(color)
    {
      assert (3 * k + 2) % 3 == 2;
    }
  }

  /**
   * The `2 * segments` index entries of slot `id`: segment `k` joins the
   * vertices `id * (segments + 1) + k` and `+ k + 1`, stored modulo 2^16.
   */
  function IndexBlock(segments: nat, id: nat): (r: seq<u16>)
    ensures |r| == 2 * segments
  {
    seq(2 * segments, i requires 0 <= i < 2 * segments => ToUint16(id * (segments + 1) + i / 2 + i % 2))
  }

  /**
   * While all vertices of the first `count` slots have 16-bit numbers, the
   * index pairs of a live slot join consecutive vertices of that same slot.
   */
  lemma IndexBlockInSlot(segments: nat, id: nat, count: nat)
    requires id < count && count * (segments + 1) <= 0x1_0000
    ensures forall k :: 0 <= k < segments ==>
      IndexBlock(segments, id)[2 * k] as int == id * (segments + 1) + k &&
      IndexBlock(segments, id)[2 * k + 1] as int == id * (segments + 1) + k + 1
    ensures forall i :: 0 <= i < 2 * segments ==>
      id * (segments + 1) <= IndexBlock(segments, id)[i] as int <= id * (segments + 1) + segments
  {
    var base := id * (segments + 1);
    assert (id + 1) * (segments + 1) <= count * (segments + 1) by {
      MulMonotone(id + 1, count, segments + 1);
    }
    assert base + segments < 0x1_0000;
    var b := IndexBlock(segments, id);
    forall k | 0 <= k < segments
      ensures b[2 * k] as int == base + k && b[2 * k + 1] as int == base + k + 1
    {
      assert (2 * k) / 2 == k && (2 * k) % 2 == 0;
      assert (2 * k + 1) / 2 == k && (2 * k + 1) % 2 == 1;
    }
  }

  lemma MulMonotone(a: nat, b: nat, c: nat)
    requires a <= b
    ensures a * c <= b * c
  {
    assert b * c == a * c + (b - a) * c;
  }

  /** Slot `j` of an index buffer still holds zeros or holds its own index pairs. */
  predicate IndexSlotOk(ix: seq<u16>, segments: nat, j: nat)
  {
    var w := 2 * segments;
    Offset(j, w) + w <= |ix| &&
    (ix[Offset(j, w) .. Offset(j, w) + w] == IndexBlock(segments, j) ||
     ix[Offset(j, w) .. Offset(j, w) + w] == Filled(w, 0))
  }

  /**
   * The index-buffer invariant: index pairs depend only on the slot number,
   * so a slot's entries are either never written or its own pairs.  This is
   * why removal and bring-to-front may move vertex records without touching
   * the index buffer.
   */
  predicate IndexBlocksOk(ix: seq<u16>, segments: nat, capacity: nat)
  {
    forall j :: 0 <= j < capacity ==> IndexSlotOk(ix, segments, j)
  }

  /** A zero-filled index buffer of `capacity` slots satisfies the invariant. */
  lemma ZeroIndicesOk(segments: nat, capacity: nat)
    ensures IndexBlocksOk(Filled(Offset(capacity, 2 * segments), 0), segments, capacity)
  {
    var w := 2 * segments;
    var ix := Filled(Offset(capacity, w), 0 as u16);
    forall j | 0 <= j < capacity
      ensures IndexSlotOk(ix, segments, j)
    {
      RecordInside(j, capacity, w);
      SliceEq(ix, Offset(j, w), Filled(w, 0 as u16), 0, w);
      assert Filled(w, 0 as u16)[0 .. w] == Filled(w, 0 as u16);
    }
  }

  /** Doubling the index buffer with zeros keeps the invariant for twice the slots. */
  lemma IndexBlocksAfterGrowth(ix: seq<u16>, segments: nat, capacity: nat)
    requires |ix| == Offset(capacity, 2 * segments) && IndexBlocksOk(ix, segments, capacity)
    ensures IndexBlocksOk(ix + Filled(|ix|, 0), segments, 2 * capacity)
  {
    var w := 2 * segments;
    var t := ix + Filled(|ix|, 0 as u16);
    OffsetDouble(capacity, w);
    forall j | 0 <= j < 2 * capacity
      ensures IndexSlotOk(t, segments, j)
    {
      RecordInside(j, 2 * capacity, w);
      var o := Offset(j, w);
      if j < capacity {
        assert IndexSlotOk(ix, segments, j);
        SliceEq(t, o, ix, o, w);
      } else {
        if j > capacity {
          RecordInside(capacity, j, w);
        }
        SliceEq(t, o, Filled(w, 0 as u16), 0, w);
        assert Filled(w, 0 as u16)[0 .. w] == Filled(w, 0 as u16);
      }
    }
  }

  /** Writing slot `id`'s own index pairs keeps the invariant. */
  lemma IndexBlocksAfterWrite(ix: seq<u16>, segments: nat, capacity: nat, id: nat)
    requires |ix| == Offset(capacity, 2 * segments) && IndexBlocksOk(ix, segments, capacity) && id < capacity
    ensures Offset(id, 2 * segments) + 2 * segments <= |ix|
    ensures IndexBlocksOk(Overwrite(ix, Offset(id, 2 * segments), IndexBlock(segments, id)), segments, capacity)
  {
    var w := 2 * segments;
    RecordInside(id, capacity, w);
    var t := Overwrite(ix, Offset(id, w), IndexBlock(segments, id));
    forall j | 0 <= j < capacity
      ensures IndexSlotOk(t, segments, j)
    {
      OverwriteRecordAt(ix, capacity, w, id, IndexBlock(segments, id), j);
      assert IndexSlotOk(ix, segments, j);
    }
  }

  class CurvedLinkProgram {
    const segments: nat
    const curviness: real
    const attributesPerCurve: nat
    const bytesPerCurve: nat
    const tSampling: seq<real>
    var storage: array<Word>
    var indices: array<u16>
    var linksCount: nat
    var frontLinkId: int
    ghost var capacity: nat

    function ByteLength(): nat
      reads this
    {
      BYTES_PER_WORD * storage.Length
    }

    /** ensureEnoughStorage grows both buffers exactly when the next record would not fit. */
    predicate NeedsGrowth(count: nat, byteLength: nat)
    {
      (count + 1) * bytesPerCurve > byteLength
    }

    /**
     * Both buffers hold `capacity` slots, at least the initial 16; the live
     * records and the front id lie inside them; the index buffer satisfies
     * its invariant.
     */
    ghost predicate Valid()
      reads this, indices
    {
      segments >= 1 &&
      attributesPerCurve == (segments + 1) * ATTRIBUTES_PER_VERTEX &&
      bytesPerCurve == (segments + 1) * BYTES_PER_VERTEX &&
      tSampling == TSampling(segments) &&
      capacity >= INITIAL_RECORDS &&
      storage.Length == Offset(capacity, attributesPerCurve) &&
      indices.Length == Offset(capacity, 2 * segments) &&
      linksCount <= capacity &&
      linksCount * attributesPerCurve <= storage.Length &&
      -1 <= frontLinkId < capacity &&
      (frontLinkId >= 0 ==> frontLinkId * attributesPerCurve + attributesPerCurve <= storage.Length) &&
      IndexBlocksOk(indices[..], segments, capacity)
    }

    /** The live curve records, in slot order. */
    ghost function Live(): seq<seq<Word>>
      reads this, indices, storage
      requires Valid()
    {
      Records(storage[..], linksCount, attributesPerCurve)
    }

    /** The byte length is `capacity` records, so the live records always fit. */
    lemma CapacityInBytes()
      requires Valid()
      ensures ByteLength() == capacity * bytesPerCurve
      ensures linksCount * bytesPerCurve <= ByteLength()
    {
      OffsetIsProduct(capacity, attributesPerCurve);
      assert capacity * ((segments + 1) * 3) * 4 == capacity * ((segments + 1) * 12);
      MulMonotone(linksCount, capacity, bytesPerCurve);
    }

    /** The growth test fires exactly when every slot is taken. */
    lemma GrowthIffFull()
      requires Valid()
      ensures NeedsGrowth(linksCount, ByteLength()) <==> linksCount == capacity
    {
      CapacityInBytes();
      if linksCount < capacity {
        MulMonotone(linksCount + 1, capacity, bytesPerCurve);
      }
    }

    constructor (curveResolution: nat, curviness: real)
      requires curveResolution >= 1
      ensures Valid() && fresh(storage) && fresh(indices)
      ensures segments == curveResolution && this.curviness == curviness
      ensures linksCount == 0 && frontLinkId == -1 && capacity == INITIAL_RECORDS && Live() == []
      ensures storage[..] == Zeros(storage.Length) && indices[..] == Filled(indices.Length, 0)
    {
      segments := curveResolution;
      this.curviness := curviness;
      attributesPerCurve := (curveResolution + 1) * ATTRIBUTES_PER_VERTEX;
      bytesPerCurve := (curveResolution + 1) * BYTES_PER_VERTEX;
      tSampling := TSampling(curveResolution);
      OffsetIsProduct(INITIAL_RECORDS, (curveResolution + 1) * ATTRIBUTES_PER_VERTEX);
      OffsetIsProduct(INITIAL_RECORDS, 2 * curveResolution);
      storage := new Word[INITIAL_RECORDS * ((curveResolution + 1) * ATTRIBUTES_PER_VERTEX)](_ => Zero);
      indices := new u16[INITIAL_RECORDS * (2 * curveResolution)](_ => 0);
      linksCount := 0;
      frontLinkId := -1;
      capacity := INITIAL_RECORDS;
      new;
      ZeroIndicesOk(segments, capacity);
      assert indices[..] == Filled(Offset(capacity, 2 * segments), 0);
    }

    /**
     * ensureEnoughStorage: when the next record would not fit, double the
     * vertex buffer and the index buffer, keeping their contents.
     */
    method EnsureEnoughStorage()
      requires Valid()
      modifies this
      ensures Valid() && linksCount == old(linksCount) && frontLinkId == old(frontLinkId)
      ensures linksCount < capacity
      ensures if NeedsGrowth(old(linksCount), old(ByteLength()))
              then fresh(storage) && fresh(indices) && capacity == 2 * old(capacity) &&
                   ByteLength() == 2 * old(ByteLength()) &&
                   storage[..] == old(storage[..]) + Zeros(old(storage.Length)) &&
                   indices[..] == old(indices[..]) + Filled(old(indices.Length), 0)
              else storage == old(storage) && indices == old(indices) && capacity == old(capacity)
    {
      GrowthIffFull();
      if (linksCount + 1) * bytesPerCurve > BYTES_PER_WORD * storage.Length {
        ghost var ix := indices[..];
        storage := Grow(storage, Zero);
        indices := Grow(indices, 0);
        OffsetDouble(capacity, attributesPerCurve);
        OffsetDouble(capacity, 2 * segments);
        IndexBlocksAfterGrowth(ix, segments, capacity);
        capacity := 2 * capacity;
      }
    }

    /**
     * createLink: make room, count one more link and make the new link's
     * slot the front.  The caller passes the id it assigned, the old count.
     */
    method CreateLink(id: nat)
      requires Valid() && id <= linksCount
      modifies this
      ensures Valid() && linksCount == old(linksCount) + 1 && frontLinkId == id
      ensures (storage == old(storage) && indices == old(indices)) ||
        (fresh(storage) && fresh(indices) && storage[..] == old(storage[..]) + Zeros(old(storage.Length)))
      ensures Live()[..old(linksCount)] == old(Live())
    {
      ghost var before := storage[..];
      ghost var n := linksCount;
      OffsetBound(linksCount, capacity, attributesPerCurve);
      EnsureEnoughStorage();
      linksCount := linksCount + 1;
      frontLinkId := id;
      OffsetBound(linksCount, capacity, attributesPerCurve);
      RecordFits(id, capacity, attributesPerCurve);
      AppendKeepsRecords(before, storage[..], n, attributesPerCurve);
    }

    /**
     * removeLink: the count goes down when positive, and a removed slot below
     * the new count is refilled with the last record's vertex words.  The
     * index buffer is left alone: its entries depend only on slot numbers.
     */
    method RemoveLink(id: nat)
      requires Valid()
      modifies this, storage
      ensures Valid()
      ensures storage == old(storage) && indices == old(indices) && frontLinkId == old(frontLinkId)
      ensures linksCount == CountAfterRemoval(old(linksCount))
      ensures storage[..] == AfterRemoval(old(storage[..]), old(linksCount), id, attributesPerCurve)
      ensures id < old(linksCount) ==>
        Live() == LastIntoHole(old(Live()), id) &&
        multiset(Live()) == multiset(old(Live())) - multiset{old(Live())[id]}
    {
      ghost var before := storage[..];
      ghost var count := linksCount;
      OffsetBound(linksCount, capacity, attributesPerCurve);
      linksCount := RemoveRecord(storage, linksCount, id, attributesPerCurve);
      assert Valid();
      if id < count {
        AfterRemovalRecords(before, count, id, attributesPerCurve, storage[..], linksCount);
      }
    }

    /**
     * position: sample the curve from `from` to `to` with the control point
     * of `level`, writing the polyline into slot `id` and its index pairs
     * into slot `id` of the index buffer.  `mag` is the chord length the
     * control point computation takes.
     */
    method Position(id: nat, from: Point, to: Point, level: int, mag: real, color: u32)
      requires Valid()
      requires id * attributesPerCurve + attributesPerCurve <= storage.Length
      requires id * (2 * segments) + 2 * segments <= indices.Length
      requires IsMagnitude(Sub(to, from), mag) && mag > 0.0
      modifies storage, indices
      ensures Valid()
      ensures storage[..] == Overwrite(old(storage[..]), id * attributesPerCurve,
        CurveRecord(segments, from, ControlPoint(from, to, level, curviness), to, color))
      ensures indices[..] == Overwrite(old(indices[..]), id * (2 * segments), IndexBlock(segments, id))
      ensures id < linksCount ==>
        Live() == old(Live())[id := CurveRecord(segments, from, ControlPoint(from, to, level, curviness), to, color)]
    {
      var offset := id * attributesPerCurve;
      var vertexOffset := id * (segments + 1);
      var indexOffset := id * (segments * 2);
      var ctrlPos := ComputeControlPoint(from, to, level, curviness, mag);
      ghost var rec := CurveRecord(segments, from, ctrlPos, to, color);
      SlotBelowCapacity(id, capacity, attributesPerCurve);
      OffsetIsProduct(id, attributesPerCurve);
      OffsetIsProduct(id, 2 * segments);
      RecordInside(id, capacity, attributesPerCurve);
      RecordInside(id, capacity, 2 * segments);
      assert offset + (segments + 1) * 3 <= storage.Length;
      assert indexOffset + 2 * segments <= indices.Length;
      FillCurve(storage, indices, id, offset, vertexOffset, indexOffset, segments, tSampling, from, ctrlPos, to, color);
      IndexBlocksAfterWrite(old(indices[..]), segments, capacity, id);
      if id < linksCount {
        OffsetBound(linksCount, capacity, attributesPerCurve);
        OverwriteRecords(old(storage[..]), linksCount, attributesPerCurve, id, rec, storage[..]);
      }
    }

    /**
     * render: the number of indices drawn (two per segment of every live
     * link), all inside the index buffer; then the front is reset to the last
     * slot.
     */
    method Render() returns (indexCount: nat)
      requires Valid()
      modifies this
      ensures Valid() && storage == old(storage) && indices == old(indices) && linksCount == old(linksCount)
      ensures indexCount == linksCount * segments * 2
      ensures indexCount <= indices.Length
      ensures frontLinkId == linksCount - 1
    {
      if linksCount > 0 {
        RecordFits(linksCount - 1, capacity, attributesPerCurve);
      }
      frontLinkId := linksCount - 1;
      assert Valid();
      IndexCountFits(linksCount, capacity, segments);
      indexCount := linksCount * segments * 2;
    }

    /**
     * bringToFront: when the front slot lies above the link's slot the two
     * vertex records are swapped; the front then walks down by one, never
     * below 0.  The index buffer is left alone.
     */
    method BringToFront(id: nat)
      requires Valid()
      modifies this, storage
      ensures Valid()
      ensures storage == old(storage) && indices == old(indices) && linksCount == old(linksCount)
      ensures storage[..] == AfterBringToFront(old(storage[..]), old(frontLinkId), id, attributesPerCurve)
      ensures frontLinkId == NextFront(old(frontLinkId))
      ensures id < old(frontLinkId) < linksCount ==>
        Live() == Transposed(old(Live()), id, old(frontLinkId) as nat) &&
        multiset(Live()) == multiset(old(Live()))
    {
      ghost var before := storage[..];
      ghost var front := frontLinkId;
      SwapRecords(storage, frontLinkId, id, attributesPerCurve);
      frontLinkId := NextFront(frontLinkId);
      if frontLinkId >= 0 {
        RecordFits(frontLinkId, capacity, attributesPerCurve);
      }
      if id < front < linksCount {
        OffsetBound(linksCount, capacity, attributesPerCurve);
        AfterBringToFrontRecords(before, linksCount, front, id, attributesPerCurve, storage[..]);
      }
    }

    /** getFrontLinkId: the slot the next bring-to-front swaps into, a slot of the buffer when defined. */
    method GetFrontLinkId() returns (front: int)
      requires Valid()
      ensures front == frontLinkId
      ensures front < capacity
    {
      front := frontLinkId;
    }
  }

  /**
   * The loop of `position`: vertex `k` of the sampled curve goes to words
   * `offset + 3k ..`, and for every segment `k` the pair of vertex numbers
   * `vertexOffset + k`, `vertexOffset + k + 1` goes to entries
   * `indexOffset + 2k ..` of the index buffer.
   */
  method FillCurve(storage: array<Word>, indices: array<u16>, id: nat, offset: nat, vertexOffset: nat, indexOffset: nat,
                   segments: nat, tSampling: seq<real>, from: Point, ctrlPos: Point, to: Point, color: u32)
    requires segments >= 1 && tSampling == TSampling(segments) && vertexOffset == id * (segments + 1)
    requires offset + (segments + 1) * ATTRIBUTES_PER_VERTEX <= storage.Length
    requires indexOffset + 2 * segments <= indices.Length
    modifies storage, indices
    ensures storage[..] == Overwrite(old(storage[..]), offset, CurveRecord(segments, from, ctrlPos, to, color))
    ensures indices[..] == Overwrite(old(indices[..]), indexOffset, IndexBlock(segments, id))
  {
    ghost var rec := CurveRecord(segments, from, ctrlPos, to, color);
    ghost var block := IndexBlock(segments, id);
    for nodeIdx := 0 to segments + 1
      invariant WrittenUpTo(storage[..], old(storage[..]), offset, rec, 3 * nodeIdx)
      invariant WrittenUpTo(indices[..], old(indices[..]), indexOffset, block, 2 * Min(nodeIdx, segments))
    {
      var point := SampleBezier(from, ctrlPos, to, tSampling[nodeIdx]);
      CurveVertex(segments, from, ctrlPos, to, color, nodeIdx);
      WriteNext(storage, old(storage[..]), offset, rec, 3 * nodeIdx, [F32(point.x), F32(point.y), U32(color)]);
      if nodeIdx < segments {
        IndexPair(segments, id, nodeIdx);
        WriteNext(indices, old(indices[..]), indexOffset, block, 2 * nodeIdx,
                  [ToUint16(vertexOffset + nodeIdx), ToUint16(vertexOffset + nodeIdx + 1)]);
      }
    }
    WrittenUpToAll(storage[..], old(storage[..]), offset, rec);
    WrittenUpToAll(indices[..], old(indices[..]), indexOffset, block);
  }

  /** The three words of vertex `k` of a curve record. */
  lemma CurveVertex(segments: nat, from: Point, ctrl: Point, to: Point, color: u32, k: nat)
    requires segments >= 1 && k <= segments
    ensures var p := SampleBezier(from, ctrl, to, TSampling(segments)[k]);
      CurveRecord(segments, from, ctrl, to, color)[3 * k .. 3 * k + 3] == [F32(p.x), F32(p.y), U32(color)]
  {
    assert (3 * k) / 3 == k && (3 * k + 1) / 3 == k && (3 * k + 2) / 3 == k;
  }

  /** The two entries of segment `k` of an index block. */
  lemma IndexPair(segments: nat, id: nat, k: nat)
    requires k < segments
    ensures IndexBlock(segments, id)[2 * k .. 2 * k + 2] ==
      [ToUint16(id * (segments + 1) + k), ToUint16(id * (segments + 1) + k + 1)]
  {
    assert (2 * k) / 2 == k && (2 * k + 1) / 2 == k;
  }

  /** A record that fits in `capacity` records of a positive width is one of them. */
  lemma SlotBelowCapacity(k: nat, capacity: nat, R: nat)
    requires R > 0 && k * R + R <= Offset(capacity, R)
    ensures k < capacity
  {
    OffsetIsProduct(capacity, R);
    if k >= capacity {
      MulMonotone(capacity, k, R);
    }
  }

  function Min(a: int, b: int): int
  {
    if a < b then a else b
  }
}
