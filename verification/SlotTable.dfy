/** The mixer's slot table seen as a value: the ids in use, in order, and how
    many ids have been issued so far. */
module SlotTable {
  import opened Base

  datatype Slots = Slots(ids: seq<uint32>, issued: nat)

  /** The id counter is 32 bits wide and starts at 1. */
  function NextId(s: Slots): uint32 {
    (1 + s.issued) % UINT32_SIZE
  }

  predicate IsFull(s: Slots) {
    |s.ids| >= MAX_SOURCES
  }

  function AddSlot(s: Slots): (Slots, uint32) {
    if IsFull(s) then (s, 0) else (Slots(s.ids + [NextId(s)], s.issued + 1), NextId(s))
  }

  function RemoveFirst(ids: seq<uint32>, id: uint32): (r: seq<uint32>)
    ensures |r| <= |ids|
  {
    if ids == [] then []
    else if ids[0] == id then ids[1..]
    else [ids[0]] + RemoveFirst(ids[1..], id)
  }

  function RemoveSlot(s: Slots, id: uint32): Slots {
    s.(ids := RemoveFirst(s.ids, id))
  }

  function Without(ids: seq<uint32>, gone: set<uint32>): seq<uint32> {
    if ids == [] then []
    else if ids[0] in gone then Without(ids[1..], gone)
    else [ids[0]] + Without(ids[1..], gone)
  }

  function Release(s: Slots, gone: set<uint32>): Slots {
    s.(ids := Without(s.ids, gone))
  }

  /** Ids in use are non-zero, pairwise distinct and within the limit. */
  ghost predicate SoundIds(s: Slots) {
    Distinct(s.ids) && 0 !in s.ids && |s.ids| <= MAX_SOURCES
  }

  /** Every id in use was issued before, and the counter has not wrapped. */
  ghost predicate Issued(s: Slots) {
    s.issued < UINT32_SIZE && forall id :: id in s.ids ==> 1 <= id <= s.issued
  }

  lemma {:induction false} WithoutMembers(ids: seq<uint32>, gone: set<uint32>)
    ensures Elements(Without(ids, gone)) == Elements(ids) - gone
    ensures |Without(ids, gone)| <= |ids|
    ensures Distinct(ids) ==> Distinct(Without(ids, gone))
  {
    if ids != [] {
      WithoutMembers(ids[1..], gone);
      var rest := Without(ids[1..], gone);
      assert ids == [ids[0]] + ids[1..];
      assert Elements(ids) == {ids[0]} + Elements(ids[1..]);
      assert Elements([ids[0]] + rest) == {ids[0]} + Elements(rest);
      if Distinct(ids) {
        assert Distinct(ids[1..]);
        assert ids[0] !in rest by {
          assert forall x :: x in rest ==> x in Elements(rest);
          assert ids[0] !in ids[1..];
        }
      }
    }
  }

  lemma {:induction false} WithoutNothing(ids: seq<uint32>)
    ensures Without(ids, {}) == ids
  {
    if ids != [] {
      WithoutNothing(ids[1..]);
    }
  }

  lemma {:induction false} WithoutZero(ids: seq<uint32>, gone: set<uint32>)
    requires 0 !in ids
    ensures Without(ids, gone - {0}) == Without(ids, gone)
  {
    if ids != [] {
      WithoutZero(ids[1..], gone);
    }
  }

  lemma {:induction false} RemoveAbsent(ids: seq<uint32>, id: uint32)
    requires id !in ids
    ensures RemoveFirst(ids, id) == ids
  {
    if ids != [] {
      RemoveAbsent(ids[1..], id);
    }
  }

  lemma {:induction false} RemoveFirstAt(ids: seq<uint32>, k: nat, id: uint32)
    requires k < |ids| && ids[k] == id && id !in ids[..k]
    ensures RemoveFirst(ids, id) == ids[..k] + ids[k + 1..]
  {
    if k > 0 {
      assert ids[0] in ids[..k] && ids[1..][..k - 1] == ids[..k][1..];
      RemoveFirstAt(ids[1..], k - 1, id);
    }
  }

  lemma {:induction false} RemoveLast(ids: seq<uint32>, id: uint32)
    requires id !in ids
    ensures RemoveFirst(ids + [id], id) == ids
  {
    if ids != [] {
      RemoveLast(ids[1..], id);
      assert (ids + [id])[1..] == ids[1..] + [id];
    }
  }

  /** Freeing slots one by one frees the set of them, in whatever order. */
  lemma {:induction false} RemoveOneMore(ids: seq<uint32>, gone: set<uint32>, id: uint32)
    requires Distinct(ids)
    ensures RemoveFirst(Without(ids, gone), id) == Without(ids, gone + {id})
  {
    if ids != [] {
      assert Distinct(ids[1..]);
      RemoveOneMore(ids[1..], gone, id);
      var rest := Without(ids[1..], gone);
      if ids[0] == id && ids[0] !in gone {
        WithoutMembers(ids[1..], gone);
        assert id !in rest by {
          assert forall x :: x in rest ==> x in Elements(rest);
        }
        RemoveAbsent(rest, id);
        assert [ids[0]] + rest == Without(ids, gone);
        assert ([ids[0]] + rest)[1..] == rest;
      } else if ids[0] !in gone {
        assert ([ids[0]] + rest)[1..] == rest;
      }
    }
  }

  /** What adding a source does to a sound table, exactly: the new id keeps the
      table sound if and only if it is non-zero and not yet in use. */
  lemma AddSlotSoundIff(s: Slots)
    requires SoundIds(s) && !IsFull(s)
    ensures SoundIds(AddSlot(s).0) <==> NextId(s) != 0 && NextId(s) !in s.ids
  {
    var r := AddSlot(s).0;
    assert r.ids[|s.ids|] == NextId(s);
    if NextId(s) in s.ids {
      var k :| 0 <= k < |s.ids| && s.ids[k] == NextId(s);
      assert r.ids[k] == r.ids[|s.ids|];
    }
  }

  /** Until the counter has wrapped, a new id is always fresh. */
  lemma NextIdFresh(s: Slots)
    requires Issued(s) && s.issued + 1 < UINT32_SIZE
    ensures NextId(s) == s.issued + 1 && NextId(s) != 0 && NextId(s) !in s.ids
  {
  }

  /** After 2^32 - 1 ids the counter hands out 0: the slot is taken, but the
      caller is told that none was available. */
  lemma WrappedCounterLeaksSlot(s: Slots)
    requires !IsFull(s) && s.issued == UINT32_SIZE - 1
    ensures AddSlot(s).1 == 0 && |AddSlot(s).0.ids| == |s.ids| + 1
    ensures !SoundIds(AddSlot(s).0)
  {
    assert AddSlot(s).0.ids[|s.ids|] == 0;
  }
}
