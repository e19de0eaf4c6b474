/**
 * The word-level view of the ArrayBuffers that every WebGL program keeps.
 *
 * Each program owns one ArrayBuffer and looks at it through a Float32Array
 * (`positions`) and a Uint32Array (`colors`).  Both views have 4-byte
 * elements, so the buffer is modelled as one array of 4-byte words whose cells
 * hold either a float or a packed colour; the bit reinterpretation between the
 * two views is not modelled.
 *
 * Records are fixed-width runs of words: record `k` of width `R` occupies
 * words `k*R .. k*R+R-1`.  The functions below are the specifications of the
 * record operations shared by all programs (append with doubling growth,
 * swap-compacting removal, z-order swap, single-record overwrite).
 */
module Buffers {

  newtype u32 = x: int | 0 <= x < 0x1_0000_0000
  newtype u16 = x: int | 0 <= x < 0x1_0000

  /** Float32Array.BYTES_PER_ELEMENT and Uint32Array.BYTES_PER_ELEMENT. */
  const FLOAT32_BYTES: nat := 4
  const UINT32_BYTES: nat := 4
  const BYTES_PER_WORD: nat := 4

  /** Number of records every program's buffer is created with. */
  const INITIAL_RECORDS: nat := 16

  /** One 4-byte cell of an ArrayBuffer, as written through one of its two views. */
  datatype Word = F32(value: real) | U32(bits: u32)

  /** A freshly allocated ArrayBuffer is zero-filled. */
  const Zero: Word := U32(0)

  /** Assigning a number to a Uint16Array element keeps it modulo 2^16. */
  function ToUint16(v: nat): (r: u16)
    ensures v < 0x1_0000 ==> r as int == v
    ensures (r as int) % 0x1_0000 == v % 0x1_0000
  {
    (v % 0x1_0000) as u16
  }

  /** `n` copies of `x`: the contents of a freshly allocated typed array. */
  function Filled<T>(n: nat, x: T): (r: seq<T>)
    ensures |r| == n
    ensures forall i :: 0 <= i < n ==> r[i] == x
  {
    seq(n, _ => x)
  }

  /** `n` zero words. */
  function Zeros(n: nat): (r: seq<Word>)
    ensures |r| == n
    ensures forall i :: 0 <= i < n ==> r[i] == Zero
  {
    Filled(n, Zero)
  }

  /** The count after a removal: one record fewer, and never negative. */
  function CountAfterRemoval(count: nat): (r: nat)
    ensures r <= count && count <= r + 1
    ensures r < count || count == 0
  {
    if count > 0 then count - 1 else count
  }

  /**
   * The front id after a bring-to-front call: walked down by at most one
   * step, never below 0 from a slot, and left alone when there is no
   * slot below it (undefined, or already 0).
   */
  function NextFront(front: int): (r: int)
    ensures front >= 0 ==> 0 <= r <= front
    ensures front - 1 <= r && (r < front || front <= 0)
    ensures front <= 0 ==> r == front
  {
    if front > 0 then front - 1 else front
  }

  /**
   * The word offset of record `k` of width `R`, that is `k * R`, built by
   * repeated addition so that the record lemmas reason linearly about it.
   */
  function Offset(k: nat, R: nat): nat
  {
    if k == 0 then 0 else Offset(k - 1, R) + R
  }

  /** The offset of record `k` is the product of `k` and the width. */
  lemma {:induction false} OffsetIsProduct(k: nat, R: nat)
    ensures Offset(k, R) == k * R
  {
    if k > 0 {
      OffsetIsProduct(k - 1, R);
    }
  }

  /** The first `c` of `cap` records fit in the words of `cap` records. */
  lemma {:induction false} OffsetBound(c: nat, cap: nat, R: nat)
    requires c <= cap
    ensures Offset(c, R) <= Offset(cap, R) && c * R <= Offset(cap, R)
  {
    OffsetIsProduct(c, R);
    if c < cap {
      RecordInside(c, cap, R);
    }
  }

  /** Record `k` of `cap` records, located by the product `k * R`, lies inside them. */
  lemma {:induction false} RecordFits(k: nat, cap: nat, R: nat)
    requires k < cap
    ensures k * R + R <= Offset(cap, R)
  {
    OffsetIsProduct(k, R);
    RecordInside(k, cap, R);
  }

  /** Doubling the number of records doubles the words they take. */
  lemma {:induction false} OffsetDouble(c: nat, R: nat)
    ensures Offset(2 * c, R) == 2 * Offset(c, R)
  {
    OffsetIsProduct(c, R);
    OffsetIsProduct(2 * c, R);
    assert (2 * c) * R == 2 * (c * R);
  }

  /** Record `k` ends at or before record `n` starts when `k < n`. */
  lemma {:induction false} RecordInside(k: nat, n: nat, R: nat)
    requires k < n
    ensures Offset(k, R) + R <= Offset(n, R)
  {
    if k + 1 < n {
      RecordInside(k, n - 1, R);
    }
  }

  /** The word range of record `k`. */
  function Record<T>(s: seq<T>, k: nat, R: nat): (r: seq<T>)
    requires Offset(k, R) + R <= |s|
    ensures |r| == R
  {
    s[Offset(k, R) .. Offset(k, R) + R]
  }

  /** The first `n` records of a buffer, one sequence of words per record. */
  function Records<T>(s: seq<T>, n: nat, R: nat): (r: seq<seq<T>>)
    requires n * R <= |s|
    ensures |r| == n
    ensures forall k {:trigger r[k]} :: 0 <= k < n ==> Offset(k, R) + R <= |s| && r[k] == s[Offset(k, R) .. Offset(k, R) + R]
    decreases n
  {
    OffsetIsProduct(n, R);
    if n == 0 then []
    else
      OffsetIsProduct(n - 1, R);
      var front := Records(s, n - 1, R);
      var last := s[Offset(n - 1, R) .. Offset(n, R)];
      assert forall k :: 0 <= k < n ==> Offset(k, R) + R <= |s| && (front + [last])[k] == s[Offset(k, R) .. Offset(k, R) + R] by {
        forall k | 0 <= k < n
          ensures Offset(k, R) + R <= |s| && (front + [last])[k] == s[Offset(k, R) .. Offset(k, R) + R]
        {
          if k < n - 1 {
            assert (front + [last])[k] == front[k];
          }
        }
      }
      front + [last]
  }

  /** utils.copyArrayPart(arr, to, from, n): the words `from .. from+n-1` are copied to `to .. to+n-1`. */
  function CopyPart(s: seq<Word>, to: nat, from: nat, n: nat): (r: seq<Word>)
    requires to + n <= |s| && from + n <= |s|
    ensures |r| == |s|
    ensures forall i :: 0 <= i < |s| ==> r[i] == if to <= i < to + n then s[from + (i - to)] else s[i]
  {
    seq(|s|, i requires 0 <= i < |s| => if to <= i < to + n then s[from + (i - to)] else s[i])
  }

  /** utils.swapArrayPart(arr, a, b, n): the word ranges `a ..` and `b ..` of length `n` are exchanged. */
  function SwapPart(s: seq<Word>, a: nat, b: nat, n: nat): (r: seq<Word>)
    requires a + n <= b && b + n <= |s|
    ensures |r| == |s|
    ensures forall i :: 0 <= i < |s| ==>
      r[i] == if a <= i < a + n then s[b + (i - a)] else if b <= i < b + n then s[a + (i - b)] else s[i]
  {
    seq(|s|, i requires 0 <= i < |s| =>
      if a <= i < a + n then s[b + (i - a)]
      else if b <= i < b + n then s[a + (i - b)]
      else s[i])
  }

  /** The words after `rec` is written at offset `off` and nothing else. */
  function Overwrite<T>(s: seq<T>, off: nat, rec: seq<T>): (r: seq<T>)
    requires off + |rec| <= |s|
    ensures |r| == |s|
    ensures forall i :: 0 <= i < |s| ==> r[i] == if off <= i < off + |rec| then rec[i - off] else s[i]
  {
    s[..off] + rec + s[off + |rec|..]
  }

  /**
   * The words after the swap-compacting removal shared by every program:
   * the count is decremented when positive, and when the removed id lies below
   * the new count the last record is copied into its slot.
   */
  function AfterRemoval(s: seq<Word>, count: nat, id: nat, R: nat): (r: seq<Word>)
    requires count * R <= |s|
    ensures |r| == |s|
  {
    OffsetIsProduct(count, R);
    var last := CountAfterRemoval(count);
    if id < last && last > 0 then
      RecordInside(id, last, R);
      CopyPart(s, Offset(id, R), Offset(last, R), R)
    else s
  }

  /** The words after bringToFront: records `id` and `front` are swapped when `front > id`. */
  function AfterBringToFront(s: seq<Word>, front: int, id: nat, R: nat): (r: seq<Word>)
    requires front >= 0 ==> front * R + R <= |s|
    ensures |r| == |s|
  {
    if front > id then
      OffsetIsProduct(front, R);
      RecordInside(id, front, R);
      SwapPart(s, Offset(id, R), Offset(front, R), R)
    else s
  }

  /**
   * A sequence of records after a removal from slot `id`: the last record
   * fills the hole and the sequence is one shorter.
   */
  function LastIntoHole<T>(s: seq<T>, id: nat): (r: seq<T>)
    requires id < |s|
    ensures |r| == |s| - 1
  {
    s[id := s[|s| - 1]][..|s| - 1]
  }

  /** A sequence of records with the entries at `i` and `j` exchanged. */
  function Transposed<T>(s: seq<T>, i: nat, j: nat): (r: seq<T>)
    requires i < |s| && j < |s|
    ensures |r| == |s|
  {
    s[i := s[j]][j := s[i]]
  }

  /** Removal on an empty store writes nothing. */
  lemma EmptyRemovalWritesNothing(s: seq<Word>, id: nat, R: nat)
    ensures AfterRemoval(s, 0, id, R) == s
  {
  }

  /** Two equally long slices are equal when they agree word by word. */
  lemma {:induction false} SliceEq<T>(t: seq<T>, a: nat, s: seq<T>, b: nat, R: nat)
    requires a + R <= |t| && b + R <= |s|
    requires forall i :: a <= i < a + R ==> t[i] == s[b + (i - a)]
    ensures t[a .. a + R] == s[b .. b + R]
  {
    var x, y := t[a .. a + R], s[b .. b + R];
    forall j | 0 <= j < R
      ensures x[j] == y[j]
    {
      assert t[a + j] == s[b + ((a + j) - a)];
    }
  }

  /** Copying into `to ..` leaves a word range outside it untouched and fills it from `from ..`. */
  lemma {:induction false} CopyPartSlices(s: seq<Word>, to: nat, from: nat, n: nat, a: nat, m: nat)
    requires to + n <= |s| && from + n <= |s| && a + m <= |s|
    ensures a + m <= to || to + n <= a ==> CopyPart(s, to, from, n)[a .. a + m] == s[a .. a + m]
    ensures CopyPart(s, to, from, n)[to .. to + n] == s[from .. from + n]
  {
    var t := CopyPart(s, to, from, n);
    if a + m <= to || to + n <= a {
      SliceEq(t, a, s, a, m);
    }
    SliceEq(t, to, s, from, n);
  }

  /** Swapping `a ..` with `b ..` exchanges those ranges and leaves a range outside both untouched. */
  lemma {:induction false} SwapPartSlices(s: seq<Word>, a: nat, b: nat, n: nat, c: nat)
    requires a + n <= b && b + n <= |s| && c + n <= |s|
    ensures SwapPart(s, a, b, n)[a .. a + n] == s[b .. b + n]
    ensures SwapPart(s, a, b, n)[b .. b + n] == s[a .. a + n]
    ensures (c + n <= a || a + n <= c) && (c + n <= b || b + n <= c) ==>
      SwapPart(s, a, b, n)[c .. c + n] == s[c .. c + n]
  {
    var t := SwapPart(s, a, b, n);
    SliceEq(t, a, s, b, n);
    SliceEq(t, b, s, a, n);
    if (c + n <= a || a + n <= c) && (c + n <= b || b + n <= c) {
      SliceEq(t, c, s, c, n);
    }
  }

  /** Overwriting an element with the last one and dropping the last removes one copy of the former. */
  lemma {:induction false} MoveLastMultiset<T>(q: seq<T>, id: nat)
    requires id < |q|
    ensures multiset(q[id := q[|q| - 1]][..|q| - 1]) == multiset(q) - multiset{q[id]}
  {
    var last := |q| - 1;
    assert q == q[..last] + [q[last]];
    if id < last {
      assert q[id := q[last]][..last] == q[..last][id := q[last]];
      assert q[..last][id] == q[id];
      assert q[id] in multiset(q[..last]);
    } else {
      assert q[id := q[last]][..last] == q[..last];
    }
  }

  /** A transposition of two elements keeps the multiset. */
  lemma {:induction false} TranspositionMultiset<T>(q: seq<T>, i: nat, j: nat)
    requires i < j < |q|
    ensures multiset(q[i := q[j]][j := q[i]]) == multiset(q)
  {
    assert q[i := q[j]][j] == q[j];
  }

  /** After a removal below the new count, the removed slot holds the old last record. */
  lemma {:induction false} AfterRemovalRefilled(s: seq<Word>, count: nat, id: nat, R: nat)
    requires id + 1 < count && count * R <= |s|
    ensures Offset(id, R) + R <= |s| && Offset(count - 1, R) + R <= |s|
    ensures Record(AfterRemoval(s, count, id, R), id, R) == Record(s, count - 1, R)
  {
    var last := count - 1;
    OffsetIsProduct(count, R);
    RecordInside(id, last, R);
    CopyPartSlices(s, Offset(id, R), Offset(last, R), R, 0, 0);
  }

  /** A removal leaves every other record of the old count where it was. */
  lemma {:induction false} AfterRemovalKeeps(s: seq<Word>, count: nat, id: nat, R: nat, k: nat)
    requires id < count && k < count && k != id && count * R <= |s|
    ensures Offset(k, R) + R <= |s|
    ensures Record(AfterRemoval(s, count, id, R), k, R) == Record(s, k, R)
  {
    var last := count - 1;
    OffsetIsProduct(count, R);
    RecordInside(k, count, R);
    if id < last {
      RecordInside(last, count, R);
      RecordInside(id, count, R);
      if k < id { RecordInside(k, id, R); } else { RecordInside(id, k, R); }
      CopyPartSlices(s, Offset(id, R), Offset(last, R), R, Offset(k, R), R);
    }
  }

  /**
   * Swap correctness and density: removing a live record `id` leaves, as the
   * `count-1` live records, the old ones with slot `id` refilled by the old
   * last record; the live records are the old ones minus exactly one copy of
   * the removed record.
   */
  lemma {:induction false} AfterRemovalRecords(s: seq<Word>, count: nat, id: nat, R: nat, t: seq<Word>, last: nat)
    requires id < count && count * R <= |s|
    requires t == AfterRemoval(s, count, id, R) && last == count - 1
    ensures last * R <= |t|
    ensures var q := Records(s, count, R);
      Records(t, last, R) == LastIntoHole(q, id) &&
      multiset(Records(t, last, R)) == multiset(q) - multiset{q[id]}
  {
    OffsetIsProduct(count, R);
    OffsetIsProduct(last, R);
    RecordInside(last, count, R);
    var q := Records(s, count, R);
    var q' := Records(AfterRemoval(s, count, id, R), last, R);
    var want := q[id := q[last]][..last];
    forall k | 0 <= k < last
      ensures q'[k] == want[k]
    {
      if k == id {
        AfterRemovalRefilled(s, count, id, R);
      } else {
        AfterRemovalKeeps(s, count, id, R, k);
      }
    }
    assert q' == want;
    MoveLastMultiset(q, id);
  }

  /** Record `k` after records `id` and `front` of `n` are swapped. */
  lemma {:induction false} AfterBringToFrontRecordAt(s: seq<Word>, n: nat, front: nat, id: nat, R: nat, k: nat)
    requires id < front < n && k < n && Offset(n, R) <= |s| && front * R + R <= |s|
    ensures Offset(k, R) + R <= |s| && Offset(front, R) + R <= |s| && Offset(id, R) + R <= |s|
    ensures Record(AfterBringToFront(s, front, id, R), k, R)
         == if k == id then Record(s, front, R)
            else if k == front then Record(s, id, R)
            else Record(s, k, R)
  {
    OffsetIsProduct(front, R);
    RecordInside(front, n, R);
    RecordInside(k, n, R);
    RecordInside(id, front, R);
    var a, b, c := Offset(id, R), Offset(front, R), Offset(k, R);
    var t := SwapPart(s, a, b, R);
    assert AfterBringToFront(s, front, id, R) == t;
    if k == id {
      SwapPartSlices(s, a, b, R, c);
      assert Record(t, k, R) == t[a .. a + R];
    } else if k == front {
      SwapPartSlices(s, a, b, R, c);
      assert Record(t, k, R) == t[b .. b + R];
    } else {
      if k < id { RecordInside(k, id, R); } else { RecordInside(id, k, R); }
      if k < front { RecordInside(k, front, R); } else { RecordInside(front, k, R); }
      SwapPartSlices(s, a, b, R, c);
      assert Record(t, k, R) == t[c .. c + R];
    }
  }

  /**
   * bringToFront is a transposition of two live records: the record sequence
   * is permuted and nothing else changes.
   */
  lemma {:induction false} AfterBringToFrontRecords(s: seq<Word>, n: nat, front: nat, id: nat, R: nat, t: seq<Word>)
    requires id < front < n && n * R <= |s|
    requires front * R + R <= |s| && t == AfterBringToFront(s, front, id, R)
    ensures n * R <= |t|
    ensures var q := Records(s, n, R);
      Records(t, n, R) == Transposed(q, id, front) &&
      multiset(Records(t, n, R)) == multiset(q)
  {
    OffsetIsProduct(n, R);
    OffsetIsProduct(front, R);
    RecordInside(front, n, R);
    var q := Records(s, n, R);
    var q' := Records(AfterBringToFront(s, front, id, R), n, R);
    var want := q[id := q[front]][front := q[id]];
    forall k | 0 <= k < n
      ensures q'[k] == want[k]
    {
      AfterBringToFrontRecordAt(s, n, front, id, R, k);
    }
    assert q' == want;
    TranspositionMultiset(q, id, front);
  }

  /** Appending words after the buffer keeps every old record. */
  lemma {:induction false} ExtensionKeepsRecords<T>(s: seq<T>, z: seq<T>, n: nat, R: nat)
    requires n * R <= |s|
    ensures Records(s + z, n, R) == Records(s, n, R)
  {
    OffsetIsProduct(n, R);
    var t := s + z;
    forall k | 0 <= k < n
      ensures Records(t, n, R)[k] == Records(s, n, R)[k]
    {
      RecordInside(k, n, R);
      SliceEq(t, Offset(k, R), s, Offset(k, R), R);
    }
  }

  /** Record `k` of the live records is the word range `k*R .. k*R+R-1`. */
  lemma {:induction false} RecordsAt<T>(s: seq<T>, n: nat, R: nat, k: nat)
    requires n * R <= |s| && k < n
    ensures k * R + R <= |s|
    ensures Records(s, n, R)[k] == s[k * R .. k * R + R]
  {
    OffsetIsProduct(n, R);
    OffsetIsProduct(k, R);
    RecordInside(k, n, R);
  }

  /** The first `m` of `n` records are the `m` records of the same buffer. */
  lemma {:induction false} RecordsPrefix<T>(s: seq<T>, n: nat, m: nat, R: nat)
    requires m <= n && n * R <= |s|
    ensures m * R <= |s|
    ensures Records(s, n, R)[..m] == Records(s, m, R)
  {
    OffsetIsProduct(n, R);
    OffsetIsProduct(m, R);
    if m < n {
      RecordInside(m, n, R);
    }
  }

  /**
   * Appending a record slot, after an optional doubling, keeps every old
   * record as a prefix of the new live records.
   */
  lemma {:induction false} AppendKeepsRecords(before: seq<Word>, after: seq<Word>, n: nat, R: nat)
    requires n * R <= |before| && (n + 1) * R <= |after|
    requires after == before || after == before + Zeros(|before|)
    ensures Records(after, n + 1, R)[..n] == Records(before, n, R)
  {
    RecordsPrefix(after, n + 1, n, R);
    if after != before {
      ExtensionKeepsRecords(before, Zeros(|before|), n, R);
    }
  }

  /** Record `k` after record `id` of `n` is overwritten with `rec`. */
  lemma {:induction false} OverwriteRecordAt<T>(s: seq<T>, n: nat, R: nat, id: nat, rec: seq<T>, k: nat)
    requires Offset(n, R) <= |s| && id < n && k < n && |rec| == R
    ensures Offset(k, R) + R <= |s| && Offset(id, R) + R <= |s|
    ensures Record(Overwrite(s, Offset(id, R), rec), k, R) == if k == id then rec else Record(s, k, R)
  {
    RecordInside(id, n, R);
    RecordInside(k, n, R);
    var t := Overwrite(s, Offset(id, R), rec);
    var a := Offset(k, R);
    if k == id {
      SliceEq(t, a, rec, 0, R);
      assert rec[0 .. R] == rec;
    } else {
      if k < id { RecordInside(k, id, R); } else { RecordInside(id, k, R); }
      SliceEq(t, a, s, a, R);
    }
  }

  /**
   * Overwriting one record in place replaces exactly that record among the
   * live ones.
   */
  lemma {:induction false} OverwriteRecords<T>(s: seq<T>, n: nat, R: nat, id: nat, rec: seq<T>, t: seq<T>)
    requires n * R <= |s| && id < n && |rec| == R
    requires id * R + R <= |s| && t == Overwrite(s, id * R, rec)
    ensures n * R <= |t|
    ensures Records(t, n, R) == Records(s, n, R)[id := rec]
  {
    OffsetIsProduct(n, R);
    OffsetIsProduct(id, R);
    RecordInside(id, n, R);
    var q := Records(s, n, R)[id := rec];
    forall k | 0 <= k < n
      ensures Records(t, n, R)[k] == q[k]
    {
      OverwriteRecordAt(s, n, R, id, rec, k);
    }
    assert Records(t, n, R) == q;
  }

  /** utils.copyArrayPart(arr, to, from, n). */
  method CopyArrayPart(a: array<Word>, to: nat, from: nat, n: nat)
    requires to + n <= from || from + n <= to
    requires to + n <= a.Length && from + n <= a.Length
    modifies a
    ensures a[..] == CopyPart(old(a[..]), to, from, n)
  {
    for i := 0 to n
      invariant forall j :: 0 <= j < a.Length && !(to <= j < to + i) ==> a[j] == old(a[j])
      invariant forall k :: to <= k < to + i ==> a[k] == old(a[from + (k - to)])
    {
      assert a[from + i] == old(a[from + i]);
      a[to + i] := a[from + i];
    }
    assert a[..] == CopyPart(old(a[..]), to, from, n);
  }

  /** utils.swapArrayPart(arr, a, b, n). */
  method SwapArrayPart(arr: array<Word>, a: nat, b: nat, n: nat)
    requires a + n <= b && b + n <= arr.Length
    modifies arr
    ensures arr[..] == SwapPart(old(arr[..]), a, b, n)
  {
    for i := 0 to n
      invariant forall j :: 0 <= j < arr.Length && !(a <= j < a + i) && !(b <= j < b + i) ==> arr[j] == old(arr[j])
      invariant forall k :: a <= k < a + i ==> arr[k] == old(arr[b + (k - a)])
      invariant forall k :: b <= k < b + i ==> arr[k] == old(arr[a + (k - b)])
    {
      assert arr[a + i] == old(arr[a + i]) && arr[b + i] == old(arr[b + i]);
      var tmp := arr[a + i];
      arr[a + i] := arr[b + i];
      arr[b + i] := tmp;
    }
    assert arr[..] == SwapPart(old(arr[..]), a, b, n);
  }

  /** The first `n` words of `rec` have been written at `off` over `orig`, and nothing else has changed. */
  ghost predicate WrittenUpTo<T>(cur: seq<T>, orig: seq<T>, off: nat, rec: seq<T>, n: nat)
  {
    |cur| == |orig| && n <= |rec| && off + |rec| <= |orig| &&
    forall i :: 0 <= i < |cur| ==> cur[i] == if off <= i < off + n then rec[i - off] else orig[i]
  }

  lemma WrittenUpToAll<T>(cur: seq<T>, orig: seq<T>, off: nat, rec: seq<T>)
    requires WrittenUpTo(cur, orig, off, rec, |rec|)
    ensures cur == Overwrite(orig, off, rec)
  {
  }

  /** Write the next words of a record that is being written piece by piece. */
  method WriteNext<T>(a: array<T>, ghost orig: seq<T>, off: nat, ghost rec: seq<T>, n: nat, words: seq<T>)
    requires WrittenUpTo(a[..], orig, off, rec, n)
    requires n + |words| <= |rec| && words == rec[n .. n + |words|]
    modifies a
    ensures WrittenUpTo(a[..], orig, off, rec, n + |words|)
  {
    ghost var before := a[..];
    WriteRecord(a, off + n, words);
    forall i | 0 <= i < a.Length
      ensures a[..][i] == if off <= i < off + n + |words| then rec[i - off] else orig[i]
    {
      if off + n <= i < off + n + |words| {
        assert a[..][i] == words[i - off - n];
      } else {
        assert a[..][i] == before[i];
      }
    }
  }

  method WriteRecord<T>(a: array<T>, off: nat, rec: seq<T>)
    requires off + |rec| <= a.Length
    modifies a
    ensures a[..] == Overwrite(old(a[..]), off, rec)
  {
    for i := 0 to |rec|
      invariant forall j :: 0 <= j < a.Length && !(off <= j < off + i) ==> a[j] == old(a[j])
      invariant forall j :: off <= j < off + i ==> a[j] == rec[j - off]
    {
      a[off + i] := rec[i];
    }
    assert a[..] == Overwrite(old(a[..]), off, rec);
  }

  /**
   * The swap-compacting removal every program performs on its buffer: the
   * count goes down when positive, and when the removed id lies below the
   * new count the last record is copied into its slot.
   */
  method RemoveRecord(a: array<Word>, count: nat, id: nat, R: nat) returns (last: nat)
    requires count * R <= a.Length
    modifies a
    ensures last == CountAfterRemoval(count) && last * R <= count * R
    ensures a[..] == AfterRemoval(old(a[..]), count, id, R)
  {
    OffsetIsProduct(count, R);
    last := count;
    if last > 0 {
      last := last - 1;
    }
    OffsetIsProduct(last, R);
    if id < last && last > 0 {
      OffsetIsProduct(id, R);
      RecordInside(id, last, R);
      RecordInside(last, count, R);
      CopyArrayPart(a, id * R, last * R, R);
    }
  }

  /** The swap of bringToFront: records `id` and `front` change places when `front > id`. */
  method SwapRecords(a: array<Word>, front: int, id: nat, R: nat)
    requires front >= 0 ==> front * R + R <= a.Length
    modifies a
    ensures a[..] == AfterBringToFront(old(a[..]), front, id, R)
  {
    if front > id {
      OffsetIsProduct(front, R);
      OffsetIsProduct(id, R);
      RecordInside(id, front, R);
      SwapArrayPart(a, id * R, front * R, R);
    }
  }

  /**
   * The growth step of every ensureEnoughStorage: a new ArrayBuffer of twice
   * the byte length, with the old contents copied through one view.
   */
  method Grow<T>(a: array<T>, zero: T) returns (b: array<T>)
    ensures fresh(b)
    ensures b[..] == a[..] + Filled(a.Length, zero)
  {
    b := new T[2 * a.Length](_ => zero);
    for i := 0 to a.Length
      invariant forall j :: 0 <= j < i ==> b[j] == a[j]
      invariant forall j :: i <= j < b.Length ==> b[j] == zero
    {
      b[i] := a[i];
    }
    assert b[..] == a[..] + Filled(a.Length, zero);
  }
}
