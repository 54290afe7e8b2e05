/**
 * The id allocator: a counter that hands out the next id and a set of the ids
 * already recorded. The counter is a java.util.concurrent.atomic.AtomicInteger,
 * so both of its updates wrap around at the 32-bit boundary.
 */
module Ids {
  import opened Data

  /** The allocator's observable state. */
  datatype IdState = IdState(counter: int32, used: set<int32>)

  function Max32(a: int32, b: int32): int32 { if a >= b then a else b }

  /** The state right after a new allocator is built. */
  const Initial: IdState := IdState(1, {})

  /** The state after `getAndIncrement`: the counter moves on by one (with wrap-around). */
  function AfterGet(s: IdState): IdState
  {
    IdState(Wrap32(s.counter as int + 1), s.used)
  }

  /** The state after `addId(id)`: the id is recorded and the counter raised to `id + 1` (computed in 32 bits). */
  function AfterAdd(s: IdState, id: int32): IdState
  {
    IdState(Max32(s.counter, Wrap32(id as int + 1)), s.used + {id})
  }

  class IdManager {
    var counter: int32
    var idList: set<int32>

    function State(): IdState
      reads this
    {
      IdState(counter, idList)
    }

    constructor ()
      ensures State() == Initial
    {
      counter := 1;
      idList := {};
    }

    /** Returns the current counter and moves it on; the returned id is NOT recorded. */
    method GetAndIncrement() returns (id: int32)
      modifies this
      ensures id == old(counter)
      ensures State() == AfterGet(old(State()))
    {
      id := counter;
      counter := Wrap32(counter as int + 1);
    }

    /** True iff `id` has not been recorded. */
    function IdIsUnique(id: int32): (unique: bool)
      reads this
      ensures unique <==> id !in State().used
    {
      id !in idList
    }

    method AddId(id: int32)
      modifies this
      ensures State() == AfterAdd(old(State()), id)
    {
      idList := idList + {id};
      counter := Max32(counter, Wrap32(id as int + 1));
    }
  }

  /** A fresh allocator hands out 1 first, and 2 next. */
  method FreshAllocatorStartsAtOne() returns (first: int32, second: int32)
    ensures first == 1 && second == 2
  {
    var m := new IdManager();
    first := m.GetAndIncrement();
    second := m.GetAndIncrement();
  }

  /** Below the top of the int range, `getAndIncrement` raises the counter by exactly one. */
  lemma GetRaisesByOne(s: IdState)
    requires s.counter as int < MaxInt32
    ensures AfterGet(s).counter as int == s.counter as int + 1
    ensures AfterGet(s).used == s.used
  {
  }

  /**
   * Successive results strictly increase: the id returned after `n` further calls
   * exceeds the one returned now, as long as the counter does not reach the top of
   * the int range on the way.
   */
  lemma {:induction false} SuccessiveIdsIncrease(s: IdState, n: nat)
    requires s.counter as int + n <= MaxInt32
    ensures Iterate(s, n).counter as int == s.counter as int + n
    ensures Iterate(s, n).used == s.used
  {
    if n > 0 {
      SuccessiveIdsIncrease(s, n - 1);
      GetRaisesByOne(Iterate(s, n - 1));
    }
  }

  /** `n` calls of `getAndIncrement`. */
  function Iterate(s: IdState, n: nat): IdState
  {
    if n == 0 then s else AfterGet(Iterate(s, n - 1))
  }

  /** At the top of the int range the counter wraps to the bottom. */
  lemma GetWrapsAtTop(s: IdState)
    requires s.counter as int == MaxInt32
    ensures AfterGet(s).counter as int == MinInt32
  {
  }

  /**
   * `addId(id)` records `id`, never lowers the counter, and leaves it above `id`
   * unless `id + 1` overflows.
   */
  lemma AddRecordsAndRaises(s: IdState, id: int32)
    ensures id in AfterAdd(s, id).used
    ensures AfterAdd(s, id).counter >= s.counter
    ensures id as int < MaxInt32 ==> AfterAdd(s, id).counter as int >= id as int + 1
    ensures id as int == MaxInt32 ==> AfterAdd(s, id).counter == s.counter
  {
  }

  /**
   * After recording every id of `ids`, the counter exceeds each of them, so every
   * later `getAndIncrement` result (until wrap-around) is above every recorded id.
   */
  lemma {:induction false} NextIdExceedsAdded(s: IdState, ids: seq<int32>)
    requires forall i :: 0 <= i < |ids| ==> ids[i] as int < MaxInt32
    ensures forall i :: 0 <= i < |ids| ==> AddAll(s, ids).counter > ids[i]
    ensures AddAll(s, ids).counter >= s.counter
    ensures AddAll(s, ids).used == s.used + set i | 0 <= i < |ids| :: ids[i]
  {
    if ids != [] {
      var prefix := ids[..|ids| - 1];
      NextIdExceedsAdded(s, prefix);
      AddRecordsAndRaises(AddAll(s, prefix), ids[|ids| - 1]);
      assert forall i :: 0 <= i < |ids| - 1 ==> ids[i] == prefix[i];
      assert (set i | 0 <= i < |ids| :: ids[i]) == (set i | 0 <= i < |prefix| :: prefix[i]) + {ids[|ids| - 1]};
    }
  }

  /** `addId` applied to each id of `ids` in turn. */
  function AddAll(s: IdState, ids: seq<int32>): IdState
  {
    if ids == [] then s else AfterAdd(AddAll(s, ids[..|ids| - 1]), ids[|ids| - 1])
  }
}
