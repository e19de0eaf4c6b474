/**
 * The caller-side mirror of the record stores in webglGraphics: each list
 * (`nodes`, `straightLinks`, `curvedLinks`, `arrows`) holds, in slot `i`,
 * the UI object whose record sits in slot `i` of the matching WebGL
 * program, and every UI object remembers its own slot in a mutable field
 * (`id`, or `arrowId` for arrows).
 *
 * UI objects are shared references, so they are modelled by handles, and
 * a mutable field by a map from handles to values: writing `ui.id = k` is
 * `ids[ui := k]`.
 */
module UiSlots {
  import opened Buffers

  /** A reference to a UI object. */
  type Handle = int

  /** One list: its array of UI references, the slot field of every UI object, and the live count. */
  datatype SlotList = SlotList(slots: seq<Handle>, ids: map<Handle, int>, count: nat)

  /**
   * The mirror invariant of one list whose live UI objects are `live`:
   * slot `i` below the count holds a live object that records `i`, and
   * every live object sits in the slot it records.
   */
  ghost predicate SlotsOk(slots: seq<Handle>, ids: map<Handle, int>, count: nat, live: set<Handle>)
  {
    count <= |slots| &&
    (forall i :: 0 <= i < count ==> slots[i] in live && slots[i] in ids && ids[slots[i]] == i) &&
    (forall h :: h in live ==> h in ids && 0 <= ids[h] < count && slots[ids[h]] == h)
  }

  /** Every live object has its own slot, so the count is the number of live objects. */
  lemma {:induction false} CountIsLiveSize(slots: seq<Handle>, ids: map<Handle, int>, count: nat, live: set<Handle>)
    requires SlotsOk(slots, ids, count, live)
    ensures count == |live|
  {
    var front := set i | 0 <= i < count :: slots[i];
    forall h | h in live
      ensures h in front
    {
      var i := ids[h];
      assert slots[i] == h;
    }
    assert front == live;
    SlotsInjective(slots, ids, count, live, count);
  }

  lemma {:induction false} SlotsInjective(slots: seq<Handle>, ids: map<Handle, int>, count: nat, live: set<Handle>, n: nat)
    requires SlotsOk(slots, ids, count, live) && n <= count
    ensures |set i | 0 <= i < n :: slots[i]| == n
  {
    if n > 0 {
      SlotsInjective(slots, ids, count, live, n - 1);
      var a := set i | 0 <= i < n - 1 :: slots[i];
      assert (set i | 0 <= i < n :: slots[i]) == a + {slots[n - 1]};
      assert slots[n - 1] !in a;
    }
  }

  /** Slot fields of objects outside the list may change without affecting it. */
  lemma {:induction false} SlotsOkFrame(slots: seq<Handle>, ids: map<Handle, int>, ids': map<Handle, int>, count: nat, live: set<Handle>)
    requires SlotsOk(slots, ids, count, live)
    requires forall h :: h in live ==> h in ids' && ids'[h] == ids[h]
    ensures SlotsOk(slots, ids', count, live)
  {
    forall i | 0 <= i < count
      ensures slots[i] in ids' && ids'[slots[i]] == i
    {
      var h := slots[i];
      assert h in live && ids'[h] == ids[h];
    }
  }

  /**
   * A lookup table from graph ids to UI objects (`allNodes`, `allLinks`)
   * that holds exactly the live objects, each under the id of the graph
   * element it was built for.
   */
  ghost predicate Registered<K>(registry: map<K, Handle>, owner: map<Handle, K>, live: set<Handle>)
  {
    (forall k :: k in registry ==> registry[k] in live && registry[k] in owner && owner[registry[k]] == k) &&
    (forall h :: h in live ==> h in owner && owner[h] in registry && registry[owner[h]] == h)
  }

  /** Registering a new object under a new id keeps the table exact. */
  lemma {:induction false} RegisterKeeps<K>(registry: map<K, Handle>, owner: map<Handle, K>, live: set<Handle>, k: K, h: Handle)
    requires Registered(registry, owner, live) && k !in registry && h !in live
    ensures Registered(registry[k := h], owner[h := k], live + {h})
  {
    forall k' | k' in registry
      ensures registry[k'] != h
    {
      assert registry[k'] in live;
    }
  }

  /** Deleting an id removes exactly its object from the live ones. */
  lemma {:induction false} UnregisterKeeps<K>(registry: map<K, Handle>, owner: map<Handle, K>, live: set<Handle>, k: K)
    requires Registered(registry, owner, live) && k in registry
    ensures Registered(registry - {k}, owner, live - {registry[k]})
  {
    forall k' | k' in registry && k' != k
      ensures registry[k'] != registry[k]
    {
      assert owner[registry[k']] == k';
    }
  }

  /** `arr[i] = h` on a JavaScript array: overwrite a slot, or append at the end. */
  function Store(slots: seq<Handle>, i: nat, h: Handle): (r: seq<Handle>)
    requires i <= |slots|
    ensures |r| == if i < |slots| then |slots| else i + 1
    ensures r[i] == h
    ensures forall j :: 0 <= j < |slots| && j != i ==> r[j] == slots[j]
  {
    if i < |slots| then slots[i := h] else slots + [h]
  }

  /**
   * Adding a UI object: it goes into the slot after the live ones and
   * records that slot.
   */
  function Append(l: SlotList, h: Handle): (r: SlotList)
    requires l.count <= |l.slots|
    ensures r.count == l.count + 1 && l.count < |r.slots|
    ensures r.slots[l.count] == h && h in r.ids && r.ids[h] == l.count
    ensures forall j :: 0 <= j < l.count ==> r.slots[j] == l.slots[j]
    ensures forall k :: k in l.ids && k != h ==> k in r.ids && r.ids[k] == l.ids[k]
  {
    SlotList(Store(l.slots, l.count, h), l.ids[h := l.count], l.count + 1)
  }

  /** Appending a new object keeps the mirror and makes the object live. */
  lemma {:induction false} AppendKeepsSlots(l: SlotList, live: set<Handle>, h: Handle)
    requires SlotsOk(l.slots, l.ids, l.count, live) && h !in live
    ensures var r := Append(l, h);
      SlotsOk(r.slots, r.ids, r.count, live + {h}) &&
      r.slots[..l.count] == l.slots[..l.count] && r.slots[l.count] == h
  {
    var r := Append(l, h);
    forall i | 0 <= i < r.count
      ensures r.slots[i] in live + {h} && r.slots[i] in r.ids && r.ids[r.slots[i]] == i
    {
      if i < l.count {
        assert r.slots[i] == l.slots[i] && l.slots[i] != h;
      }
    }
  }

  /**
   * removeLinkFromList (and the same steps in releaseNode): the count goes
   * down when positive; if the removed slot lies below the new count, the
   * last live object moves into it and records its new slot.
   */
  function RemoveFromList(l: SlotList, idToRemove: nat): (r: SlotList)
    requires l.count <= |l.slots|
    ensures r.count == CountAfterRemoval(l.count) && |r.slots| == |l.slots| && l.ids.Keys <= r.ids.Keys
    ensures idToRemove < r.count ==>
      r.slots[..r.count] == l.slots[..l.count][idToRemove := l.slots[l.count - 1]][..l.count - 1]
    ensures r.count <= idToRemove ==> r.slots == l.slots && r.ids == l.ids
  {
    var count := CountAfterRemoval(l.count);
    if idToRemove < count then
      var last := l.slots[count];
      SlotList(l.slots[idToRemove := last], l.ids[last := idToRemove], count)
    else SlotList(l.slots, l.ids, count)
  }

  /**
   * Removing a live object from its own slot keeps the mirror for the
   * remaining live objects and changes no slot field outside the list.
   */
  lemma {:induction false} RemoveKeepsSlots(l: SlotList, live: set<Handle>, h: Handle)
    requires SlotsOk(l.slots, l.ids, l.count, live) && h in live
    ensures var r := RemoveFromList(l, l.ids[h] as nat);
      SlotsOk(r.slots, r.ids, r.count, live - {h}) &&
      forall k :: k in l.ids && k !in live ==> r.ids[k] == l.ids[k]
  {
    var id := l.ids[h] as nat;
    var r := RemoveFromList(l, id);
    var c := r.count;
    assert c + 1 == l.count;
    if id < c {
      var last := l.slots[c];
      assert last in live && l.ids[last] == c && last != h;
      forall i | 0 <= i < c
        ensures r.slots[i] in live - {h} && r.slots[i] in r.ids && r.ids[r.slots[i]] == i
      {
        if i != id {
          assert r.slots[i] == l.slots[i];
          assert l.ids[l.slots[i]] == i;
        }
      }
      forall k | k in live - {h}
        ensures k in r.ids && 0 <= r.ids[k] < c && r.slots[r.ids[k]] == k
      {
        if k != last {
          assert l.ids[k] != id && l.ids[k] != c;
        }
      }
    } else {
      assert id == c;
      forall k | k in live - {h}
        ensures 0 <= r.ids[k] < c
      {
        assert l.ids[k] != id;
      }
    }
  }

  /**
   * swapElementsAndId: exchange two slots and let each object record its
   * new slot.  When both slots hold the same object it ends up recording
   * `id2`, the later write.
   */
  function Swapped(l: SlotList, id1: nat, id2: nat): (r: SlotList)
    requires id1 < |l.slots| && id2 < |l.slots|
    ensures r.count == l.count && |r.slots| == |l.slots|
    ensures r.slots[id1] == l.slots[id2] && r.slots[id2] == l.slots[id1]
    ensures forall j :: 0 <= j < |l.slots| && j != id1 && j != id2 ==> r.slots[j] == l.slots[j]
    ensures l.slots[id1] in r.ids && r.ids[l.slots[id1]] == id2
    ensures l.slots[id2] in r.ids && (l.slots[id1] != l.slots[id2] ==> r.ids[l.slots[id2]] == id1)
    ensures forall h :: h in l.ids && h != l.slots[id1] && h != l.slots[id2] ==> h in r.ids && r.ids[h] == l.ids[h]
  {
    var a, b := l.slots[id1], l.slots[id2];
    SlotList(l.slots[id1 := b][id2 := a], l.ids[b := id1][a := id2], l.count)
  }

  /** Swapping two live slots keeps the mirror and moves no object out of the live range. */
  lemma {:induction false} SwapKeepsSlots(l: SlotList, live: set<Handle>, id1: nat, id2: nat)
    requires SlotsOk(l.slots, l.ids, l.count, live) && id1 < l.count && id2 < l.count
    ensures var r := Swapped(l, id1, id2);
      SlotsOk(r.slots, r.ids, r.count, live) &&
      forall k :: k in l.ids && k !in live ==> k in r.ids && r.ids[k] == l.ids[k]
  {
    var r := Swapped(l, id1, id2);
    var a, b := l.slots[id1], l.slots[id2];
    forall i | 0 <= i < l.count
      ensures r.slots[i] in live && r.slots[i] in r.ids && r.ids[r.slots[i]] == i
    {
      if i != id1 && i != id2 {
        assert r.slots[i] == l.slots[i] && l.ids[l.slots[i]] == i;
      }
    }
  }

  /**
   * The arrow block of releaseLink as written: after the count goes down,
   * the last arrow moves into the freed arrow slot only when the new arrow
   * count differs from the released link's slot `linkIdToRemove`, a slot of
   * a different list.
   */
  function ArrowRemovalAsWritten(arrows: SlotList, arrowIdToRemove: nat, linkIdToRemove: nat): (r: SlotList)
    requires arrows.count <= |arrows.slots|
    ensures r.count == CountAfterRemoval(arrows.count)
    ensures linkIdToRemove != r.count ==> r == RemoveFromList(arrows, arrowIdToRemove)
  {
    if arrows.count > 0 then
      var count := arrows.count - 1;
      if arrowIdToRemove < count && count != linkIdToRemove then
        var last := arrows.slots[count];
        SlotList(arrows.slots[arrowIdToRemove := last], arrows.ids[last := arrowIdToRemove], count)
      else SlotList(arrows.slots, arrows.ids, count)
    else arrows
  }

  /**
   * Three straight links: link 0 without an arrow, links 1 and 2 with
   * arrows 0 and 1.  Releasing link 1 frees arrow slot 0 and leaves one
   * arrow, whose count equals the link slot 1, so the guard skips the move:
   * the released link keeps arrow slot 0, and link 2's arrow slot 1 is no
   * longer drawn.
   */
  lemma ArrowGuardLosesArrow()
    ensures var arrows := SlotList([1, 2], map[1 := 0, 2 := 1], 2);
      SlotsOk(arrows.slots, arrows.ids, arrows.count, {1, 2}) &&
      var r := ArrowRemovalAsWritten(arrows, 0, 1);
      r.count == 1 && r.slots[0] == 1 && r.ids[2] == 1 &&
      !SlotsOk(r.slots, r.ids, r.count, {2})
  {
    var arrows := SlotList([1, 2], map[1 := 0, 2 := 1], 2);
    var r := ArrowRemovalAsWritten(arrows, 0, 1);
    assert r == SlotList([1, 2], map[1 := 0, 2 := 1], 1);
    assert !(r.ids[2] < r.count);
  }

  /**
   * The corrected arrow block (the same steps as removeLinkFromList) keeps
   * the arrow mirror in the state above.
   */
  lemma ArrowRemovalKeepsArrow()
    ensures var arrows := SlotList([1, 2], map[1 := 0, 2 := 1], 2);
      var r := RemoveFromList(arrows, 0);
      r.count == 1 && r.slots[0] == 2 && r.ids[2] == 0 &&
      SlotsOk(r.slots, r.ids, r.count, {2})
  {
    var arrows := SlotList([1, 2], map[1 := 0, 2 := 1], 2);
    RemoveKeepsSlots(arrows, {1, 2}, 1);
    assert {1, 2} - {1} == {2};
  }

  /**
   * bringLinkToFront with a front id left stale by a removal: three links
   * whose front is slot 2; link 2 is released (nothing moves, the front is
   * not reset); bringing link 0 to the front then swaps slots 2 and 0, so
   * the released link takes live slot 0 and link 0 leaves the live range.
   */
  lemma StaleFrontMovesLiveLinkOut()
    ensures var links := SlotList([0, 1, 2], map[0 := 0, 1 := 1, 2 := 2], 3);
      SlotsOk(links.slots, links.ids, links.count, {0, 1, 2}) &&
      var removed := RemoveFromList(links, 2);
      var r := Swapped(removed, 2, 0);
      r.count == 2 && r.slots[0] == 2 && r.ids[0] == 2 &&
      !SlotsOk(r.slots, r.ids, r.count, {0, 1})
  {
    var links := SlotList([0, 1, 2], map[0 := 0, 1 := 1, 2 := 2], 3);
    var removed := RemoveFromList(links, 2);
    assert removed == SlotList([0, 1, 2], map[0 := 0, 1 := 1, 2 := 2], 2);
    var r := Swapped(removed, 2, 0);
    assert r.ids[0] == 2;
  }
}
