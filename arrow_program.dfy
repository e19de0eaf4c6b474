/**
 * webglArrowProgram: the GPU-side store of arrowheads.
 *
 * Every arrowhead is one record of nine words, three vertices of x, y and
 * packed colour.  As in the straight-link program the store keeps the count
 * of live records and a front id for bring-to-front, undefined (-1) until
 * the first arrow is created.
 *
 * The growth test of `ensureEnoughStorage` is written with the count before
 * the new arrow is added, so the arrow that fills the buffer exactly is
 * created without growth and its record falls outside the buffer.  The
 * test as written is `ByteLengthAfterEnsureAsWritten`, with the input that
 * shows the gap; the program below uses the corrected test.
 */
module WebglArrowProgram {
  import opened Buffers
  import opened Geometry

  /** x, y and colour. */
  const ATTRIBUTES_PER_VERTEX: nat := 3
  /** Three vertices make an arrowhead. */
  const ATTRIBUTES_PER_ARROW: nat := 9
  /** 3 * (2 * 4 + 4) bytes. */
  const BYTES_PER_ARROW: nat := 36

  /** A record of ATTRIBUTES_PER_ARROW words is exactly BYTES_PER_ARROW bytes. */
  lemma RecordLayout()
    ensures ATTRIBUTES_PER_ARROW == 3 * ATTRIBUTES_PER_VERTEX
    ensures BYTES_PER_ARROW == 3 * (2 * FLOAT32_BYTES + UINT32_BYTES)
    ensures ATTRIBUTES_PER_ARROW * BYTES_PER_WORD == BYTES_PER_ARROW
  {
  }

  /** The growth test as written: the count before the increment. */
  function ByteLengthAfterEnsureAsWritten(arrowCount: nat, byteLength: nat): (r: nat)
    requires byteLength > 0
    ensures r == byteLength || r == 2 * byteLength
    ensures r == 2 * byteLength <==> arrowCount * BYTES_PER_ARROW > byteLength
  {
    if arrowCount * BYTES_PER_ARROW > byteLength then 2 * byteLength else byteLength
  }

  /**
   * As written, the test keeps only a bound one record short: if all but
   * one of the live arrows fit before `createArrow`, all but one fit after.
   */
  lemma {:induction false} AsWrittenKeepsAllButOne(arrowCount: nat, byteLength: nat)
    requires BYTES_PER_ARROW <= byteLength
    requires arrowCount > 0 ==> (arrowCount - 1) * BYTES_PER_ARROW <= byteLength
    ensures arrowCount * BYTES_PER_ARROW <= ByteLengthAfterEnsureAsWritten(arrowCount, byteLength)
  {
    if arrowCount > 0 {
      assert arrowCount * BYTES_PER_ARROW == (arrowCount - 1) * BYTES_PER_ARROW + BYTES_PER_ARROW;
    }
  }

  /**
   * The 17th arrow: sixteen arrows fill the initial buffer exactly, the test
   * as written does not grow it, and the seventeenth record lies beyond its end.
   */
  lemma SeventeenthArrowOutsideBuffer()
    ensures var bytes := INITIAL_RECORDS * BYTES_PER_ARROW;
      ByteLengthAfterEnsureAsWritten(16, bytes) == bytes &&
      17 * BYTES_PER_ARROW > bytes
  {
  }

  /** The corrected test: grow when the record about to be created would not fit. */
  predicate NeedsGrowth(arrowCount: nat, byteLength: nat)
  {
    (arrowCount + 1) * BYTES_PER_ARROW > byteLength
  }

  /** The byte length after the corrected ensureEnoughStorage: the new record always fits. */
  function ByteLengthAfterEnsure(arrowCount: nat, byteLength: nat): (r: nat)
    requires arrowCount * BYTES_PER_ARROW <= byteLength && BYTES_PER_ARROW <= byteLength
    ensures r == byteLength || r == 2 * byteLength
    ensures r == 2 * byteLength <==> NeedsGrowth(arrowCount, byteLength)
    ensures (arrowCount + 1) * BYTES_PER_ARROW <= r
  {
    if NeedsGrowth(arrowCount, byteLength) then 2 * byteLength else byteLength
  }

  /**
   * The point the arrow's direction is taken from: the link's start for a
   * straight link, and for a curved one (level > 0) the curve's last sample
   * before `to`, at parameter (S - 1) / S.
   */
  function ArrowBase(from: Point, to: Point, level: int, curviness: real, curveResolution: nat, chordMag: real): (r: Point)
    requires level > 0 ==> curveResolution >= 1 && IsMagnitude(Sub(to, from), chordMag) && chordMag > 0.0
    ensures level <= 0 || curveResolution == 1 ==> r == from
    ensures level > 0 ==>
      r == SampleBezier(from, ControlPoint(from, to, level, curviness), to, (curveResolution - 1) as real / curveResolution as real)
  {
    if level > 0 then
      var ctrl := ComputeControlPoint(from, to, level, curviness, chordMag);
      SampleBezier(from, ctrl, to, (curveResolution - 1) as real / curveResolution as real)
    else from
  }

  /**
   * The arrowhead for a unit direction `dir` pointing at `to`: the apex is
   * pulled back from `to` by half the node size, and the two base corners
   * lie `arrowSize` further back, `perpMag` to either side of the axis.
   */
  function ArrowHead(to: Point, dir: Point, nodeSize: real, arrowSize: real, perpMag: real): (t: Triangle)
    ensures Mid(t.right, t.left) == Point(t.apex.x - dir.x * arrowSize, t.apex.y - dir.y * arrowSize)
    ensures Sub(t.right, Mid(t.right, t.left)) == Point(-(dir.y) * perpMag, dir.x * perpMag)
    ensures Sub(t.left, Mid(t.right, t.left)) == Point(dir.y * perpMag, -(dir.x) * perpMag)
  {
    var center := Point(to.x - (dir.x * nodeSize) / 2.0, to.y - (dir.y * nodeSize) / 2.0);
    var right := Point(center.x - dir.x * arrowSize - dir.y * perpMag, center.y - dir.y * arrowSize + dir.x * perpMag);
    var left := Point(center.x - dir.x * arrowSize + dir.y * perpMag, center.y - dir.y * arrowSize - dir.x * perpMag);
    Triangle(center, right, left)
  }

  /**
   * With the direction normalised from `base` to `to`, the apex is the point
   * half a node size short of `to` on the way from `base`.
   */
  lemma ApexIsPulledBack(base: Point, to: Point, nodeSize: real, arrowSize: real, perpMag: real, mag: real)
    requires IsMagnitude(Sub(to, base), mag) && mag > 0.0
    ensures ArrowHead(to, NormalizedDirection(base, to, mag), nodeSize, arrowSize, perpMag).apex ==
            PullBack(base, to, nodeSize / 2.0, mag)
  {
    var dir := NormalizedDirection(base, to, mag);
    var h := nodeSize / 2.0;
    assert PullBack(base, to, h, mag) == Point(to.x - dir.x * h, to.y - dir.y * h);
    assert (dir.x * nodeSize) / 2.0 == dir.x * h;
    assert (dir.y * nodeSize) / 2.0 == dir.y * h;
  }

  /**
   * For a unit direction the arrowhead is isosceles: both base corners lie
   * at squared distance arrowSize^2 + perpMag^2 from the apex, and the base
   * is perpendicular to the axis.
   */
  lemma {:induction false} ArrowHeadIsosceles(to: Point, dir: Point, nodeSize: real, arrowSize: real, perpMag: real)
    requires dir.x * dir.x + dir.y * dir.y == 1.0
    ensures var t := ArrowHead(to, dir, nodeSize, arrowSize, perpMag);
      Dot(Sub(t.right, t.apex), Sub(t.right, t.apex)) == arrowSize * arrowSize + perpMag * perpMag &&
      Dot(Sub(t.left, t.apex), Sub(t.left, t.apex)) == arrowSize * arrowSize + perpMag * perpMag &&
      Dot(Sub(t.right, t.left), dir) == 0.0
  {
    var t := ArrowHead(to, dir, nodeSize, arrowSize, perpMag);
    var a, p := arrowSize, perpMag;
    assert Sub(t.right, t.apex) == Point(-(dir.x * a) - dir.y * p, -(dir.y * a) + dir.x * p);
    assert Sub(t.left, t.apex) == Point(-(dir.x * a) + dir.y * p, -(dir.y * a) - dir.x * p);
    SquaredLengthOfTurn(dir.x, dir.y, a, p);
    SquaredLengthOfTurn(dir.x, dir.y, a, -p);
  }

  lemma {:induction false} SquaredLengthOfTurn(ux: real, uy: real, a: real, p: real)
    requires ux * ux + uy * uy == 1.0
    ensures (-(ux * a) - uy * p) * (-(ux * a) - uy * p) + (-(uy * a) + ux * p) * (-(uy * a) + ux * p) == a * a + p * p
  {
    assert (-(ux * a) - uy * p) * (-(ux * a) - uy * p) + (-(uy * a) + ux * p) * (-(uy * a) + ux * p)
        == (ux * ux + uy * uy) * (a * a) + (ux * ux + uy * uy) * (p * p);
  }

  /** The nine words `position` writes: apex, right and left corner, each followed by the colour. */
  function ArrowRecord(t: Triangle, color: u32): (r: seq<Word>)
    ensures |r| == ATTRIBUTES_PER_ARROW
    ensures forall k :: 0 <= k < 3 ==> r[3 * k + 2] == U32(color)
    ensures r[0] == F32(t.apex.x) && r[1] == F32(t.apex.y)
    ensures r[3] == F32(t.right.x) && r[4] == F32(t.right.y)
    ensures r[6] == F32(t.left.x) && r[7] == F32(t.left.y)
  {
    [F32(t.apex.x), F32(t.apex.y), U32(color),
     F32(t.right.x), F32(t.right.y), U32(color),
     F32(t.left.x), F32(t.left.y), U32(color)]
  }

  class ArrowProgram {
    const curveResolution: nat
    const curviness: real
    const arrowSize: real
    /** arrowSize * tan(pitch), the half width of the arrowhead's base. */
    const perpMag: real
    var storage: array<Word>
    var arrowCount: nat
    var frontArrowId: int

    function ByteLength(): nat
      reads this
    {
      BYTES_PER_WORD * storage.Length
    }

    /**
     * The live records fit, the buffer never shrinks below 16 records, and
     * the front id is undefined or names a slot inside the buffer.
     */
    ghost predicate Valid()
      reads this
    {
      storage.Length >= INITIAL_RECORDS * ATTRIBUTES_PER_ARROW &&
      arrowCount * BYTES_PER_ARROW <= ByteLength() &&
      -1 <= frontArrowId &&
      (frontArrowId >= 0 ==> (frontArrowId + 1) * BYTES_PER_ARROW <= ByteLength())
    }

    /** The live arrow records, in slot order. */
    ghost function Live(): seq<seq<Word>>
      reads this, storage
      requires Valid()
    {
      Records(storage[..], arrowCount, ATTRIBUTES_PER_ARROW)
    }

    /** `tanPitch` is tan(pitch); the tangent itself is not computed here. */
    constructor (curveResolution: nat, curviness: real, arrowSize: real, tanPitch: real)
      ensures Valid() && fresh(storage) && arrowCount == 0 && frontArrowId == -1 && Live() == []
      ensures this.curveResolution == curveResolution && this.curviness == curviness
      ensures this.arrowSize == arrowSize && perpMag == arrowSize * tanPitch
      ensures ByteLength() == INITIAL_RECORDS * BYTES_PER_ARROW
      ensures storage[..] == Zeros(storage.Length)
    {
      this.curveResolution := curveResolution;
      this.curviness := curviness;
      this.arrowSize := arrowSize;
      perpMag := arrowSize * tanPitch;
      storage := new Word[INITIAL_RECORDS * ATTRIBUTES_PER_ARROW](_ => Zero);
      arrowCount := 0;
      frontArrowId := -1;
    }

    /** ensureEnoughStorage, corrected: double the buffer when the next record would not fit. */
    method EnsureEnoughStorage()
      requires Valid()
      modifies this
      ensures Valid() && arrowCount == old(arrowCount) && frontArrowId == old(frontArrowId)
      ensures ByteLength() == ByteLengthAfterEnsure(old(arrowCount), old(ByteLength()))
      ensures if NeedsGrowth(old(arrowCount), old(ByteLength()))
              then fresh(storage) && storage[..] == old(storage[..]) + Zeros(old(storage.Length))
              else storage == old(storage)
    {
      if (arrowCount + 1) * BYTES_PER_ARROW > BYTES_PER_WORD * storage.Length {
        storage := Grow(storage, Zero);
      }
    }

    /**
     * createArrow: make room, count one more arrow and make its slot the
     * front.  The caller passes the arrow id it assigned, the old count.
     */
    method CreateArrow(arrowId: nat)
      requires Valid() && arrowId <= arrowCount
      modifies this
      ensures Valid() && arrowCount == old(arrowCount) + 1 && frontArrowId == arrowId
      ensures ByteLength() == ByteLengthAfterEnsure(old(arrowCount), old(ByteLength()))
      ensures storage == old(storage) || (fresh(storage) && storage[..] == old(storage[..]) + Zeros(old(storage.Length)))
      ensures Live()[..old(arrowCount)] == old(Live())
    {
      ghost var before := storage[..];
      EnsureEnoughStorage();
      arrowCount := arrowCount + 1;
      frontArrowId := arrowId;
      assert (arrowId + 1) * BYTES_PER_ARROW <= arrowCount * BYTES_PER_ARROW;
      assert Valid();
      AppendKeepsRecords(before, storage[..], arrowCount - 1, ATTRIBUTES_PER_ARROW);
    }

    /**
     * removeArrow: the count goes down when positive, and a removed slot
     * below the new count is refilled with the last record.
     */
    method RemoveArrow(arrowId: nat)
      requires Valid()
      modifies this, storage
      ensures Valid()
      ensures storage == old(storage) && frontArrowId == old(frontArrowId)
      ensures arrowCount == CountAfterRemoval(old(arrowCount))
      ensures storage[..] == AfterRemoval(old(storage[..]), old(arrowCount), arrowId, ATTRIBUTES_PER_ARROW)
      ensures arrowId < old(arrowCount) ==>
        Live() == LastIntoHole(old(Live()), arrowId) &&
        multiset(Live()) == multiset(old(Live())) - multiset{old(Live())[arrowId]}
    {
      ghost var before := storage[..];
      ghost var count := arrowCount;
      arrowCount := RemoveRecord(storage, arrowCount, arrowId, ATTRIBUTES_PER_ARROW);
      assert Valid();
      if arrowId < count {
        AfterRemovalRecords(before, count, arrowId, ATTRIBUTES_PER_ARROW, storage[..], arrowCount);
      }
    }

    /**
     * position: overwrite the nine words of slot `arrowId` with the
     * arrowhead at the `to` end of the link.  `chordMag` is the length of
     * the chord (used for curved links) and `mag` the distance from the
     * direction's base point to `to`.
     */
    method Position(arrowId: nat, level: int, from: Point, to: Point, nodeSize: real, color: u32, chordMag: real, mag: real)
      requires Valid()
      requires arrowId * ATTRIBUTES_PER_ARROW + ATTRIBUTES_PER_ARROW <= storage.Length
      requires level > 0 ==> curveResolution >= 1 && IsMagnitude(Sub(to, from), chordMag) && chordMag > 0.0
      requires IsMagnitude(Sub(to, ArrowBase(from, to, level, curviness, curveResolution, chordMag)), mag) && mag > 0.0
      modifies storage
      ensures var dir := NormalizedDirection(ArrowBase(from, to, level, curviness, curveResolution, chordMag), to, mag);
        storage[..] == Overwrite(old(storage[..]), arrowId * ATTRIBUTES_PER_ARROW,
                                 ArrowRecord(ArrowHead(to, dir, nodeSize, arrowSize, perpMag), color))
      ensures var dir := NormalizedDirection(ArrowBase(from, to, level, curviness, curveResolution, chordMag), to, mag);
        arrowId < arrowCount ==>
        Live() == old(Live())[arrowId := ArrowRecord(ArrowHead(to, dir, nodeSize, arrowSize, perpMag), color)]
    {
      var base := ArrowBase(from, to, level, curviness, curveResolution, chordMag);
      var dir := NormalizedDirection(base, to, mag);
      var rec := ArrowRecord(ArrowHead(to, dir, nodeSize, arrowSize, perpMag), color);
      WriteRecord(storage, arrowId * ATTRIBUTES_PER_ARROW, rec);
      if arrowId < arrowCount {
        OverwriteRecords(old(storage[..]), arrowCount, ATTRIBUTES_PER_ARROW, arrowId, rec, storage[..]);
      }
    }

    /** render: the number of vertices drawn (three per live arrow), then the front is reset to the last slot. */
    method Render() returns (vertices: nat)
      requires Valid()
      modifies this
      ensures Valid() && storage == old(storage) && arrowCount == old(arrowCount)
      ensures vertices == 3 * arrowCount
      ensures vertices * (BYTES_PER_ARROW / 3) <= ByteLength()
      ensures frontArrowId == arrowCount - 1
    {
      vertices := arrowCount * 3;
      frontArrowId := arrowCount - 1;
    }

    /**
     * bringToFront: when the front slot lies above the arrow's slot the two
     * records are swapped; the front then walks down by one, never below 0.
     */
    method BringToFront(arrowId: nat)
      requires Valid()
      modifies this, storage
      ensures Valid() && storage == old(storage) && arrowCount == old(arrowCount)
      ensures storage[..] == AfterBringToFront(old(storage[..]), old(frontArrowId), arrowId, ATTRIBUTES_PER_ARROW)
      ensures frontArrowId == NextFront(old(frontArrowId))
      ensures arrowId < old(frontArrowId) < arrowCount ==>
        Live() == Transposed(old(Live()), arrowId, old(frontArrowId) as nat) &&
        multiset(Live()) == multiset(old(Live()))
    {
      ghost var before := storage[..];
      ghost var front := frontArrowId;
      SwapRecords(storage, frontArrowId, arrowId, ATTRIBUTES_PER_ARROW);
      frontArrowId := NextFront(frontArrowId);
      if arrowId < front < arrowCount {
        AfterBringToFrontRecords(before, arrowCount, front, arrowId, ATTRIBUTES_PER_ARROW, storage[..]);
      }
    }

    /** getFrontArrowId: the slot the next bring-to-front swaps into, inside the buffer when defined. */
    method GetFrontArrowId() returns (front: int)
      requires Valid()
      ensures front == frontArrowId
      ensures front >= 0 ==> (front + 1) * BYTES_PER_ARROW <= ByteLength()
    {
      front := frontArrowId;
    }
  }
}
