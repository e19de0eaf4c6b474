/**
 * webglDirectedNodeProgram: the GPU-side store of nodes drawn as triangles
 * pointing along the node's gradient direction.
 *
 * Every node is one record of twelve words, three vertices of x, the negated
 * y, depth and packed colour.  The growth test of `ensureEnoughStorage` has
 * the same off-by-one as the arrow program: it looks at the count before the
 * new node is added.  The test as written is
 * `ByteLengthAfterEnsureAsWritten`; the program below uses the corrected test.
 */
module WebglDirectedNodeProgram {
  import opened Buffers
  import opened Geometry

  /** x, y, z and colour. */
  const ATTRIBUTES_PER_VERTEX: nat := 4
  /** Three vertices make the triangle. */
  const ATTRIBUTES_PER_PRIMITIVE: nat := 12
  /** 3 * (3 * 4 + 4) bytes. */
  const BYTES_PER_NODE: nat := 48

  /** A record of ATTRIBUTES_PER_PRIMITIVE words is exactly BYTES_PER_NODE bytes. */
  lemma RecordLayout()
    ensures ATTRIBUTES_PER_PRIMITIVE == 3 * ATTRIBUTES_PER_VERTEX
    ensures BYTES_PER_NODE == 3 * (3 * FLOAT32_BYTES + UINT32_BYTES)
    ensures ATTRIBUTES_PER_PRIMITIVE * BYTES_PER_WORD == BYTES_PER_NODE
  {
  }

  /** The growth test as written: the count before the increment. */
  function ByteLengthAfterEnsureAsWritten(nodesCount: nat, byteLength: nat): (r: nat)
    requires byteLength > 0
    ensures r == byteLength || r == 2 * byteLength
    ensures r == 2 * byteLength <==> nodesCount * BYTES_PER_NODE > byteLength
  {
    if nodesCount * BYTES_PER_NODE > byteLength then 2 * byteLength else byteLength
  }

  /**
   * The 17th node: sixteen nodes fill the initial buffer exactly, the test
   * as written does not grow it, and the seventeenth record lies beyond its end.
   */
  lemma SeventeenthNodeOutsideBuffer()
    ensures var bytes := INITIAL_RECORDS * BYTES_PER_NODE;
      ByteLengthAfterEnsureAsWritten(16, bytes) == bytes &&
      17 * BYTES_PER_NODE > bytes
  {
  }

  /** The corrected test: grow when the record about to be created would not fit. */
  predicate NeedsGrowth(nodesCount: nat, byteLength: nat)
  {
    (nodesCount + 1) * BYTES_PER_NODE > byteLength
  }

  /** The byte length after the corrected ensureEnoughStorage: the new record always fits. */
  function ByteLengthAfterEnsure(nodesCount: nat, byteLength: nat): (r: nat)
    requires nodesCount * BYTES_PER_NODE <= byteLength && BYTES_PER_NODE <= byteLength
    ensures r == byteLength || r == 2 * byteLength
    ensures r == 2 * byteLength <==> NeedsGrowth(nodesCount, byteLength)
    ensures (nodesCount + 1) * BYTES_PER_NODE <= r
  {
    if NeedsGrowth(nodesCount, byteLength) then 2 * byteLength else byteLength
  }

  /**
   * The triangle of a node at `pos` with gradient direction `dir`: the apex
   * half a size ahead along `dir`, the base half a size behind, its corners
   * a quarter size to either side.
   */
  function DirectedTriangle(pos: Point, dir: Point, size: real): (t: Triangle)
    ensures Sub(t.apex, pos) == Point(dir.x * (size / 2.0), dir.y * (size / 2.0))
    ensures Mid(t.apex, Mid(t.right, t.left)) == pos
    ensures Sub(t.right, Mid(t.right, t.left)) == Point((dir.y * size) / 4.0, (-(dir.x) * size) / 4.0)
    ensures Sub(t.left, Mid(t.right, t.left)) == Point(-((dir.y * size) / 4.0), -((-(dir.x) * size) / 4.0))
    ensures Dot(Sub(t.right, t.left), Sub(t.apex, pos)) == 0.0
  {
    var parallel := Point(dir.x * (size / 2.0), dir.y * (size / 2.0));
    var perpendicular := Point((dir.y * size) / 4.0, (-(dir.x) * size) / 4.0);
    var apex := Point(pos.x + parallel.x, pos.y + parallel.y);
    var right := Point(pos.x - parallel.x + perpendicular.x, pos.y - parallel.y + perpendicular.y);
    var left := Point(pos.x - parallel.x - perpendicular.x, pos.y - parallel.y - perpendicular.y);
    assert Dot(Sub(right, left), Sub(apex, pos)) == Dot(Point(2.0 * perpendicular.x, 2.0 * perpendicular.y), parallel);
    Triangle(apex, right, left)
  }

  /**
   * For a unit direction the triangle is isosceles: both base corners lie
   * at squared distance size^2 + (size / 4)^2 from the apex.
   */
  lemma {:induction false} DirectedTriangleIsosceles(pos: Point, dir: Point, size: real)
    requires dir.x * dir.x + dir.y * dir.y == 1.0
    ensures var t := DirectedTriangle(pos, dir, size);
      Dot(Sub(t.right, t.apex), Sub(t.right, t.apex)) == size * size + (size / 4.0) * (size / 4.0) &&
      Dot(Sub(t.left, t.apex), Sub(t.left, t.apex)) == size * size + (size / 4.0) * (size / 4.0)
  {
    var t := DirectedTriangle(pos, dir, size);
    var a, q := size, size / 4.0;
    assert Sub(t.right, t.apex) == Point(-(dir.x * a) + dir.y * q, -(dir.y * a) - dir.x * q);
    assert Sub(t.left, t.apex) == Point(-(dir.x * a) - dir.y * q, -(dir.y * a) + dir.x * q);
    TurnedSquaredLength(dir.x, dir.y, a, q);
    TurnedSquaredLength(dir.x, dir.y, a, -q);
  }

  lemma {:induction false} TurnedSquaredLength(ux: real, uy: real, a: real, q: real)
    requires ux * ux + uy * uy == 1.0
    ensures (-(ux * a) + uy * q) * (-(ux * a) + uy * q) + (-(uy * a) - ux * q) * (-(uy * a) - ux * q) == a * a + q * q
  {
    assert (-(ux * a) + uy * q) * (-(ux * a) + uy * q) + (-(uy * a) - ux * q) * (-(uy * a) - ux * q)
        == (ux * ux + uy * uy) * (a * a) + (ux * ux + uy * uy) * (q * q);
  }

  /** The twelve words `position` writes: each corner's x, negated y, the depth and the colour. */
  function DirectedRecord(t: Triangle, depth: real, color: u32): (r: seq<Word>)
    ensures |r| == ATTRIBUTES_PER_PRIMITIVE
    ensures forall k :: 0 <= k < 3 ==> r[4 * k + 2] == F32(depth) && r[4 * k + 3] == U32(color)
    ensures r[0] == F32(t.apex.x) && r[1] == F32(-t.apex.y)
    ensures r[4] == F32(t.right.x) && r[5] == F32(-t.right.y)
    ensures r[8] == F32(t.left.x) && r[9] == F32(-t.left.y)
  {
    [F32(t.apex.x), F32(-t.apex.y), F32(depth), U32(color),
     F32(t.right.x), F32(-t.right.y), F32(depth), U32(color),
     F32(t.left.x), F32(-t.left.y), F32(depth), U32(color)]
  }

  class DirectedNodeProgram {
    var storage: array<Word>
    var nodesCount: nat

    function ByteLength(): nat
      reads this
    {
      BYTES_PER_WORD * storage.Length
    }

    /** The live records fit and the buffer never shrinks below 16 records. */
    ghost predicate Valid()
      reads this
    {
      storage.Length >= INITIAL_RECORDS * ATTRIBUTES_PER_PRIMITIVE &&
      nodesCount * BYTES_PER_NODE <= ByteLength()
    }

    /** The live node records, in slot order. */
    ghost function Live(): seq<seq<Word>>
      reads this, storage
      requires Valid()
    {
      Records(storage[..], nodesCount, ATTRIBUTES_PER_PRIMITIVE)
    }

    constructor ()
      ensures Valid() && fresh(storage) && nodesCount == 0 && Live() == []
      ensures ByteLength() == INITIAL_RECORDS * BYTES_PER_NODE
      ensures storage[..] == Zeros(storage.Length)
    {
      storage := new Word[INITIAL_RECORDS * ATTRIBUTES_PER_PRIMITIVE](_ => Zero);
      nodesCount := 0;
    }

    /**
     * resetStorage: a fresh zeroed buffer of 16 records.  The count is kept,
     * so the store is consistent again only when at most 16 nodes are counted.
     */
    method ResetStorage()
      modifies this
      ensures fresh(storage) && storage[..] == Zeros(INITIAL_RECORDS * ATTRIBUTES_PER_PRIMITIVE)
      ensures nodesCount == old(nodesCount)
      ensures Valid() <==> nodesCount <= INITIAL_RECORDS
    {
      storage := new Word[INITIAL_RECORDS * ATTRIBUTES_PER_PRIMITIVE](_ => Zero);
      if nodesCount > INITIAL_RECORDS {
        assert nodesCount * BYTES_PER_NODE >= (INITIAL_RECORDS + 1) * BYTES_PER_NODE;
      }
    }

    /** ensureEnoughStorage, corrected: double the buffer when the next record would not fit. */
    method EnsureEnoughStorage()
      requires Valid()
      modifies this
      ensures Valid() && nodesCount == old(nodesCount)
      ensures ByteLength() == ByteLengthAfterEnsure(old(nodesCount), old(ByteLength()))
      ensures if NeedsGrowth(old(nodesCount), old(ByteLength()))
              then fresh(storage) && storage[..] == old(storage[..]) + Zeros(old(storage.Length))
              else storage == old(storage)
    {
      if (nodesCount + 1) * BYTES_PER_NODE > BYTES_PER_WORD * storage.Length {
        storage := Grow(storage, Zero);
      }
    }

    /** createNode: make room, then count one more node; every old record is kept. */
    method CreateNode()
      requires Valid()
      modifies this
      ensures Valid() && nodesCount == old(nodesCount) + 1
      ensures ByteLength() == ByteLengthAfterEnsure(old(nodesCount), old(ByteLength()))
      ensures storage == old(storage) || (fresh(storage) && storage[..] == old(storage[..]) + Zeros(old(storage.Length)))
      ensures Live()[..old(nodesCount)] == old(Live())
    {
      ghost var before := storage[..];
      EnsureEnoughStorage();
      nodesCount := nodesCount + 1;
      AppendKeepsRecords(before, storage[..], nodesCount - 1, ATTRIBUTES_PER_PRIMITIVE);
    }

    /**
     * removeNode: the count goes down when positive, and a removed slot below
     * the new count is refilled with the last record.
     */
    method RemoveNode(id: nat)
      requires Valid()
      modifies this, storage
      ensures Valid() && storage == old(storage)
      ensures nodesCount == CountAfterRemoval(old(nodesCount))
      ensures storage[..] == AfterRemoval(old(storage[..]), old(nodesCount), id, ATTRIBUTES_PER_PRIMITIVE)
      ensures id < old(nodesCount) ==>
        Live() == LastIntoHole(old(Live()), id) &&
        multiset(Live()) == multiset(old(Live())) - multiset{old(Live())[id]}
    {
      ghost var before := storage[..];
      ghost var count := nodesCount;
      nodesCount := RemoveRecord(storage, nodesCount, id, ATTRIBUTES_PER_PRIMITIVE);
      if id < count {
        AfterRemovalRecords(before, count, id, ATTRIBUTES_PER_PRIMITIVE, storage[..], nodesCount);
      }
    }

    /**
     * position: overwrite the twelve words of slot `id` with the node's
     * triangle, taken from its gradient direction and size.
     */
    method Position(id: nat, pos: Point, dir: Point, size: real, depth: real, color: u32)
      requires Valid()
      requires id * ATTRIBUTES_PER_PRIMITIVE + ATTRIBUTES_PER_PRIMITIVE <= storage.Length
      modifies storage
      ensures storage[..] == Overwrite(old(storage[..]), id * ATTRIBUTES_PER_PRIMITIVE,
                                       DirectedRecord(DirectedTriangle(pos, dir, size), depth, color))
      ensures id < nodesCount ==> Live() == old(Live())[id := DirectedRecord(DirectedTriangle(pos, dir, size), depth, color)]
    {
      var rec := DirectedRecord(DirectedTriangle(pos, dir, size), depth, color);
      WriteRecord(storage, id * ATTRIBUTES_PER_PRIMITIVE, rec);
      if id < nodesCount {
        OverwriteRecords(old(storage[..]), nodesCount, ATTRIBUTES_PER_PRIMITIVE, id, rec, storage[..]);
      }
    }

    /** render: the number of vertices drawn, three per live node, all inside the buffer. */
    method Render() returns (vertices: nat)
      requires Valid()
      ensures vertices == 3 * nodesCount
      ensures vertices * (BYTES_PER_NODE / 3) <= ByteLength()
    {
      vertices := nodesCount * 3;
    }
  }
}
