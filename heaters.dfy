/** The heater manager of lib/heaters/heater_manager.c: a fixed table of heater slots holding
    each heater's commanded power in percent, set one heater at a time or shared out
    proportionally to the heaters' rated power. The hardware outputs are not driven. */
module Heaters {
  import opened Common
  import opened Config

  const MAX_MANAGED_HEATERS: nat := 16

  /** heater_status_t; HeaterOk is the zero value. */
  datatype HeaterStatus = HeaterOk | HeaterNotReady | HeaterError | HeaterDisabled | OverLimit

  /** One entry of `heater_state[]`. */
  datatype HeaterSlot = HeaterSlot(id: string, powerPercent: real, maxPowerWatts: real,
                                   status: HeaterStatus, enabled: bool)

  /** A slot in zeroed storage. */
  const EmptySlot := HeaterSlot("", 0.0, 0.0, HeaterOk, false)

  /** The two-sided clamp of heater_manager_set_power, lower bound tested first. */
  function ClampPercent(p: real): (r: real)
    ensures 0.0 <= r <= 100.0
    ensures 0.0 <= p <= 100.0 ==> r == p
    ensures p < 0.0 ==> r == 0.0
    ensures p > 100.0 ==> r == 100.0
  {
    if p < 0.0 then 0.0 else if p > 100.0 then 100.0 else p
  }

  /** The ids of the first `n` slots, the part the searches look at. */
  function SlotIds(slots: seq<HeaterSlot>, n: int): seq<string>
    requires Count(n) <= |slots|
  {
    Keys(slots, n, (s: HeaterSlot) => s.id)
  }

  /** The slot the `strcmp` search finds for `id`. */
  function Lookup(slots: seq<HeaterSlot>, n: int, id: string): (r: Option<nat>)
    requires Count(n) <= |slots|
    ensures r.Some? ==> r.value < Count(n) && slots[r.value].id == id
    ensures r.Some? ==> forall k :: 0 <= k < r.value ==> slots[k].id != id
    ensures r.None? <==> forall k :: 0 <= k < Count(n) ==> slots[k].id != id
  {
    var r := FirstMatch(SlotIds(slots, n), id);
    assert r.Some? ==> forall k :: 0 <= k < r.value ==> SlotIds(slots, n)[..r.value][k] == slots[k].id;
    r
  }

  /** Two tables that differ at most in the commanded power levels. */
  predicate SameShape(a: seq<HeaterSlot>, b: seq<HeaterSlot>)
  {
    |a| == |b| && forall k :: 0 <= k < |a| ==> a[k] == b[k].(powerPercent := a[k].powerPercent)
  }

  /** Searches only look at ids, so they find the same slot in tables of the same shape. */
  lemma SameShapeLookup(a: seq<HeaterSlot>, b: seq<HeaterSlot>, n: int, id: string)
    requires SameShape(a, b) && Count(n) <= |a|
    ensures Lookup(a, n, id) == Lookup(b, n, id)
  {
    assert SlotIds(a, n) == SlotIds(b, n);
  }

  /** The table after a successful heater_manager_init: each configured heater's id, rating
      and enabled flag in config order, at 0 %, with status OK when enabled and DISABLED
      otherwise; the slots past the count zeroed. */
  function InitialSlots(c: ThermalConfig): (slots: seq<HeaterSlot>)
    requires Shaped(c) && c.numberOfHeaters <= MAX_MANAGED_HEATERS
    ensures |slots| == MAX_MANAGED_HEATERS
  {
    seq(MAX_MANAGED_HEATERS, k requires 0 <= k < MAX_MANAGED_HEATERS =>
      if k < Count(c.numberOfHeaters) then
        var h := c.heaters[k];
        HeaterSlot(h.id, 0.0, h.maxPowerW, if h.enabled then HeaterOk else HeaterDisabled, h.enabled)
      else EmptySlot)
  }

  /** What every operation after a successful init relies on: power levels within 0-100 %,
      and a configured heater's status DISABLED exactly when it is disabled. */
  predicate TableInvariant(slots: seq<HeaterSlot>, n: int)
  {
    && |slots| == MAX_MANAGED_HEATERS && n <= MAX_MANAGED_HEATERS
    && (forall k :: 0 <= k < |slots| ==> 0.0 <= slots[k].powerPercent <= 100.0)
    && (forall k :: 0 <= k < Count(n) ==>
          slots[k].status == if slots[k].enabled then HeaterOk else HeaterDisabled)
  }

  /** A successful init establishes the table invariant. */
  lemma InitialSlotsInvariant(c: ThermalConfig)
    requires Shaped(c) && c.numberOfHeaters <= MAX_MANAGED_HEATERS
    ensures TableInvariant(InitialSlots(c), c.numberOfHeaters)
    ensures forall k :: 0 <= k < MAX_MANAGED_HEATERS ==> InitialSlots(c)[k].powerPercent == 0.0
  {
  }

  /** heater_manager_set_power as a function of the table: the status and the new table.
      Only the first slot with the id changes, and only when that heater is enabled. */
  function PowerSet(slots: seq<HeaterSlot>, n: int, id: Option<string>, pct: real): (r: (int, seq<HeaterSlot>))
    requires Count(n) <= |slots|
    ensures r.0 == -1 <==> id.None?
    ensures r.0 == -2 <==> id.Some? && Lookup(slots, n, id.value).None?
    ensures r.0 == -3 <==> id.Some? && Lookup(slots, n, id.value).Some?
                           && !slots[Lookup(slots, n, id.value).value].enabled
    ensures r.0 in {0, -1, -2, -3}
    ensures SameShape(slots, r.1)
    ensures r.0 != 0 ==> r.1 == slots
  {
    if id.None? then (-1, slots)
    else match Lookup(slots, n, id.value)
      case None => (-2, slots)
      case Some(k) =>
        if !slots[k].enabled then (-3, slots)
        else (0, slots[k := slots[k].(powerPercent := ClampPercent(pct))])
  }

  /** heater_manager_get_power as a function of the table: the status and the new content of
      the caller's result variable (`None` for a NULL pointer). */
  function PowerQuery(slots: seq<HeaterSlot>, n: int, id: Option<string>, out: Option<real>): (r: (int, Option<real>))
    requires Count(n) <= |slots|
    ensures r.0 == -1 <==> id.None? || out.None?
    ensures r.0 == -2 <==> id.Some? && out.Some? && Lookup(slots, n, id.value).None?
    ensures r.0 in {0, -1, -2}
    ensures r.0 != 0 ==> r.1 == out
  {
    if id.None? || out.None? then (-1, out)
    else match Lookup(slots, n, id.value)
      case None => (-2, out)
      case Some(k) => (0, Some(slots[k].powerPercent))
  }

  /** Setting a heater's power and reading it back yields the clamped request; a disabled
      heater keeps its level. */
  lemma SetThenGet(slots: seq<HeaterSlot>, n: int, id: string, pct: real, out: real)
    requires Count(n) <= |slots|
    requires Lookup(slots, n, id).Some?
    ensures PowerSet(slots, n, Some(id), pct).0 == 0 ==>
      PowerQuery(PowerSet(slots, n, Some(id), pct).1, n, Some(id), Some(out)) == (0, Some(ClampPercent(pct)))
    ensures PowerSet(slots, n, Some(id), pct).0 != 0 ==>
      PowerQuery(PowerSet(slots, n, Some(id), pct).1, n, Some(id), Some(out)) == PowerQuery(slots, n, Some(id), Some(out))
  {
    SameShapeLookup(slots, PowerSet(slots, n, Some(id), pct).1, n, id);
  }

  /** Setting one heater leaves the table invariant in force. */
  lemma PowerSetKeepsInvariant(slots: seq<HeaterSlot>, n: int, id: Option<string>, pct: real)
    requires TableInvariant(slots, n)
    ensures TableInvariant(PowerSet(slots, n, id, pct).1, n)
  {
  }

  /** The table after heater_manager_emergency_stop: every configured heater at 0 %. */
  function Stopped(slots: seq<HeaterSlot>, n: int): (r: seq<HeaterSlot>)
    requires Count(n) <= |slots|
    ensures SameShape(slots, r)
    ensures forall k :: 0 <= k < Count(n) ==> r[k].powerPercent == 0.0
    ensures forall k :: Count(n) <= k < |slots| ==> r[k] == slots[k]
  {
    seq(|slots|, k requires 0 <= k < |slots| =>
      if k < Count(n) then slots[k].(powerPercent := 0.0) else slots[k])
  }

  /** After an emergency stop every known heater reads back 0 %, and stopping twice is the
      same as stopping once. */
  lemma StoppedReadsZero(slots: seq<HeaterSlot>, n: int, id: string, out: real)
    requires Count(n) <= |slots| && Lookup(slots, n, id).Some?
    ensures PowerQuery(Stopped(slots, n), n, Some(id), Some(out)) == (0, Some(0.0))
    ensures Stopped(Stopped(slots, n), n) == Stopped(slots, n)
  {
    SameShapeLookup(slots, Stopped(slots, n), n, id);
  }

  /** Rating of the slot the search finds for `id`, 0 W for an unknown id. */
  function Rating(slots: seq<HeaterSlot>, n: int, id: string): real
    requires Count(n) <= |slots|
  {
    match Lookup(slots, n, id)
    case Some(k) => slots[k].maxPowerWatts
    case None => 0.0
  }

  function Ratings(slots: seq<HeaterSlot>, n: int, ids: seq<string>): (r: seq<real>)
    requires Count(n) <= |slots|
    ensures |r| == |ids| && forall i :: 0 <= i < |ids| ==> r[i] == Rating(slots, n, ids[i])
  {
    seq(|ids|, i requires 0 <= i < |ids| => Rating(slots, n, ids[i]))
  }

  /** Rated power of the listed heaters: each listed id the table knows adds the rating of its
      slot (an id listed twice counts twice; unknown ids add nothing). */
  function Capacity(slots: seq<HeaterSlot>, n: int, ids: seq<string>): real
    requires Count(n) <= |slots|
  {
    Sum(Ratings(slots, n, ids))
  }

  /** Capacity accumulates one listed id at a time, as the summing loop does. */
  lemma CapacityAppendOne(slots: seq<HeaterSlot>, n: int, ids: seq<string>, id: string)
    requires Count(n) <= |slots|
    ensures Capacity(slots, n, ids + [id]) == Capacity(slots, n, ids) + Rating(slots, n, id)
  {
    assert Ratings(slots, n, ids + [id]) == Ratings(slots, n, ids) + [Rating(slots, n, id)];
    SumAppendOne(Ratings(slots, n, ids), Rating(slots, n, id));
  }

  /** The request clamped to what the listed heaters can take, upper bound tested first. */
  function ClampTotal(total: real, capacity: real): (r: real)
    requires capacity > 0.0
    ensures 0.0 <= r <= capacity
    ensures 0.0 <= total <= capacity ==> r == total
  {
    var t := if total > capacity then capacity else total;
    if t < 0.0 then 0.0 else t
  }

  /** The level every listed heater is driven to: the clamped request as a share of the
      capacity, in percent. */
  function Share(total: real, capacity: real): (p: real)
    requires capacity > 0.0
    ensures 0.0 <= p <= 100.0
  {
    ClampTotal(total, capacity) / capacity * 100.0
  }

  /** The per-heater formula `(t * (max / capacity)) / max * 100` of
      heater_manager_distribute_power is the same percentage for every heater with a
      non-zero rating. */
  lemma PerHeaterPercent(t: real, max: real, capacity: real)
    requires capacity > 0.0 && max != 0.0
    ensures (t * (max / capacity)) / max * 100.0 == t / capacity * 100.0
  {
    assert t * (max / capacity) == (t / capacity) * max;
    assert (t / capacity) * max / max == t / capacity;
  }

  /** The three steps of the per-heater computation, as the source writes them. */
  lemma SourcePercent(t: real, max: real, capacity: real, fraction: real, heaterPower: real, pct: real)
    requires capacity > 0.0 && max != 0.0
    requires fraction == max / capacity && heaterPower == t * fraction
    requires pct == (heaterPower / max) * 100.0
    ensures pct == t / capacity * 100.0
  {
    PerHeaterPercent(t, max, capacity);
  }

  /** One step of the sharing loop: the next set_power call extends the run, and the heater it
      finds has the rating it had before the loop, which is non-zero. */
  lemma ShareStep(start: seq<HeaterSlot>, before: seq<HeaterSlot>, n: int, list: seq<string>,
                  count: int, i: nat, level: real)
    requires Count(n) <= |start| && i < count <= |list|
    requires before == SetAll(start, n, list[..i], level)
    requires RatedIn(start, n, list[..count])
    ensures SetAll(start, n, list[..i + 1], level) == PowerSet(before, n, Some(list[i]), level).1
    ensures Lookup(before, n, list[i]) == Lookup(start, n, list[i])
    ensures Lookup(before, n, list[i]).Some? ==>
      before[Lookup(before, n, list[i]).value].maxPowerWatts != 0.0
  {
    assert list[..i + 1][..i] == list[..i];
    assert list[..count][i] == list[i];
    SameShapeLookup(start, before, n, list[i]);
  }

  /** Calls set_power for each listed id in order, all with the same level. */
  function SetAll(slots: seq<HeaterSlot>, n: int, ids: seq<string>, pct: real): (r: seq<HeaterSlot>)
    requires Count(n) <= |slots|
    ensures SameShape(slots, r)
    decreases |ids|
  {
    if ids == [] then slots
    else PowerSet(SetAll(slots, n, ids[..|ids| - 1], pct), n, Some(ids[|ids| - 1]), pct).1
  }

  /** Slot `k` is reached by a set_power call on one of `ids`: it is a configured, enabled
      heater, the first with its id, and that id is listed. */
  predicate Targeted(slots: seq<HeaterSlot>, n: int, ids: seq<string>, k: nat)
    requires Count(n) <= |slots|
  {
    k < Count(n) && slots[k].enabled && slots[k].id in ids && Lookup(slots, n, slots[k].id) == Some(k)
  }

  /** The result of a run of set_power calls at one level: exactly the targeted slots take the
      clamped level, every other slot is as before. */
  lemma {:induction false} SetAllClosedForm(slots: seq<HeaterSlot>, n: int, ids: seq<string>, pct: real)
    requires Count(n) <= |slots|
    ensures forall k :: 0 <= k < |slots| ==>
      SetAll(slots, n, ids, pct)[k]
        == if Targeted(slots, n, ids, k) then slots[k].(powerPercent := ClampPercent(pct)) else slots[k]
    decreases |ids|
  {
    if ids != [] {
      var init := ids[..|ids| - 1];
      var last := ids[|ids| - 1];
      SetAllClosedForm(slots, n, init, pct);
      var before := SetAll(slots, n, init, pct);
      SameShapeLookup(slots, before, n, last);
      assert ids == init + [last];
      forall k | 0 <= k < |slots|
        ensures SetAll(slots, n, ids, pct)[k]
          == if Targeted(slots, n, ids, k) then slots[k].(powerPercent := ClampPercent(pct)) else slots[k]
      {
        if Targeted(slots, n, ids, k) && !Targeted(slots, n, init, k) {
          assert slots[k].id == last;
        }
      }
    }
  }

  /** heater_manager_distribute_power as a function of the table: -1 for a NULL list or a
      non-positive count, -2 when the listed heaters have no positive total rating, otherwise
      every listed heater is set to the common Share. */
  function Distribution(slots: seq<HeaterSlot>, n: int, ids: Option<seq<string>>, count: int,
                        total: real): (r: (int, seq<HeaterSlot>))
    requires Count(n) <= |slots|
    requires ids.Some? ==> count <= |ids.value|
    ensures r.0 == -1 <==> ids.None? || count <= 0
    ensures r.0 == -2 <==> ids.Some? && count > 0 && Capacity(slots, n, ids.value[..count]) <= 0.0
    ensures r.0 in {0, -1, -2}
    ensures SameShape(slots, r.1)
    ensures r.0 != 0 ==> r.1 == slots
  {
    if ids.None? || count <= 0 then (-1, slots)
    else
      var listed := ids.value[..count];
      var capacity := Capacity(slots, n, listed);
      if capacity <= 0.0 then (-2, slots)
      else (0, SetAll(slots, n, listed, Share(total, capacity)))
  }

  /** The outcome of distribute_power on a non-empty list, once the capacity is known. */
  lemma DistributionByCapacity(slots: seq<HeaterSlot>, n: int, ids: seq<string>, count: int,
                               total: real, capacity: real)
    requires Count(n) <= |slots| && 0 < count <= |ids|
    requires capacity == Capacity(slots, n, ids[..count])
    ensures capacity <= 0.0 ==> Distribution(slots, n, Some(ids), count, total) == (-2, slots)
    ensures capacity > 0.0 ==>
      Distribution(slots, n, Some(ids), count, total)
        == (0, SetAll(slots, n, ids[..count], Share(total, capacity)))
  {
  }

  /** Shape-preserving updates keep the capacity. */
  lemma SameShapeCapacity(a: seq<HeaterSlot>, b: seq<HeaterSlot>, n: int, ids: seq<string>)
    requires SameShape(a, b) && Count(n) <= |a|
    ensures Capacity(a, n, ids) == Capacity(b, n, ids)
  {
    forall i | 0 <= i < |ids|
      ensures Rating(a, n, ids[i]) == Rating(b, n, ids[i])
    {
      SameShapeLookup(a, b, n, ids[i]);
    }
    assert Ratings(a, n, ids) == Ratings(b, n, ids);
  }

  /** A request at or above the capacity is a 100 % share, one at or below zero a 0 % share. */
  lemma ShareSaturates(total: real, capacity: real)
    requires capacity > 0.0
    ensures total >= capacity ==> Share(total, capacity) == 100.0
    ensures total <= 0.0 ==> Share(total, capacity) == 0.0
  {
    if total >= capacity {
      assert ClampTotal(total, capacity) / capacity == 1.0;
    }
  }

  /** The request clamped as heater_manager_distribute_power clamps it, upper bound first,
      gives the common share. */
  lemma ClampedShare(total: real, capacity: real, t: real)
    requires capacity > 0.0
    requires t == var u := if total > capacity then capacity else total; if u < 0.0 then 0.0 else u
    ensures Share(total, capacity) == t / capacity * 100.0
  {
  }

  /** The common level, as a fraction, of the capacity is the clamped request. */
  lemma ShareOfCapacity(total: real, capacity: real)
    requires capacity > 0.0
    ensures Share(total, capacity) / 100.0 * capacity == ClampTotal(total, capacity)
  {
  }

  /** After a run of set_power calls at level `p` within 0-100 %, every listed id the table
      knows whose heater is enabled runs at `p`. */
  lemma SetAllLevels(slots: seq<HeaterSlot>, n: int, listed: seq<string>, p: real)
    requires Count(n) <= |slots| && 0.0 <= p <= 100.0
    requires forall i :: 0 <= i < |listed| && Lookup(slots, n, listed[i]).Some? ==>
      slots[Lookup(slots, n, listed[i]).value].enabled
    ensures forall i :: 0 <= i < |listed| && Lookup(SetAll(slots, n, listed, p), n, listed[i]).Some? ==>
      SetAll(slots, n, listed, p)[Lookup(SetAll(slots, n, listed, p), n, listed[i]).value].powerPercent == p
  {
    var after := SetAll(slots, n, listed, p);
    SetAllClosedForm(slots, n, listed, p);
    forall i | 0 <= i < |listed| && Lookup(after, n, listed[i]).Some?
      ensures after[Lookup(after, n, listed[i]).value].powerPercent == p
    {
      SameShapeLookup(slots, after, n, listed[i]);
      var k := Lookup(slots, n, listed[i]).value;
      assert Targeted(slots, n, listed, k);
    }
  }

  /** Proportional sharing: when every listed heater the table knows is enabled, they all end
      at one common level, so each draws the same fraction of its rating, and that fraction of
      their total rating is exactly the request clamped to that rating. */
  lemma DistributionShares(slots: seq<HeaterSlot>, n: int, ids: seq<string>, count: int, total: real)
    requires Count(n) <= |slots| && 0 < count <= |ids|
    requires forall i :: 0 <= i < count && Lookup(slots, n, ids[i]).Some? ==>
      slots[Lookup(slots, n, ids[i]).value].enabled
    requires Distribution(slots, n, Some(ids), count, total).0 == 0
    ensures forall i :: 0 <= i < count && Lookup(slots, n, ids[i]).Some? ==>
      Distribution(slots, n, Some(ids), count, total).1[Lookup(slots, n, ids[i]).value].powerPercent
        == Share(total, Capacity(slots, n, ids[..count]))
    ensures Share(total, Capacity(slots, n, ids[..count])) / 100.0 * Capacity(slots, n, ids[..count])
         == ClampTotal(total, Capacity(slots, n, ids[..count]))
  {
    var listed := ids[..count];
    var capacity := Capacity(slots, n, listed);
    var p := Share(total, capacity);
    var after := SetAll(slots, n, listed, p);
    assert Distribution(slots, n, Some(ids), count, total).1 == after;
    SetAllLevels(slots, n, listed, p);
    forall i | 0 <= i < count && Lookup(slots, n, ids[i]).Some?
      ensures after[Lookup(slots, n, ids[i]).value].powerPercent == p
    {
      assert listed[i] == ids[i];
      SameShapeLookup(slots, after, n, ids[i]);
    }
    ShareOfCapacity(total, capacity);
  }

  /** A request at or above the capacity drives every targeted heater to 100 %, and a request
      at or below zero switches them all to 0 %. */
  lemma DistributionSaturates(slots: seq<HeaterSlot>, n: int, ids: seq<string>, count: int, total: real, k: nat)
    requires Count(n) <= |slots| && 0 < count <= |ids| && k < |slots|
    requires Capacity(slots, n, ids[..count]) > 0.0 && Targeted(slots, n, ids[..count], k)
    ensures total >= Capacity(slots, n, ids[..count]) ==>
      Distribution(slots, n, Some(ids), count, total).1[k].powerPercent == 100.0
    ensures total <= 0.0 ==>
      Distribution(slots, n, Some(ids), count, total).1[k].powerPercent == 0.0
  {
    var capacity := Capacity(slots, n, ids[..count]);
    SetAllClosedForm(slots, n, ids[..count], Share(total, capacity));
    ShareSaturates(total, capacity);
  }

  /** Two enabled heaters rated 40 W and 10 W asked for 25 W together both run at 50 %:
      20 W and 5 W. */
  lemma DistributionExample(slots: seq<HeaterSlot>)
    requires |slots| == MAX_MANAGED_HEATERS
    requires slots[0] == HeaterSlot("a", 0.0, 40.0, HeaterOk, true)
    requires slots[1] == HeaterSlot("b", 0.0, 10.0, HeaterOk, true)
    ensures var r := Distribution(slots, 2, Some(["a", "b"]), 2, 25.0);
      r.0 == 0 && r.1[0].powerPercent == 50.0 && r.1[1].powerPercent == 50.0
  {
    var ids := ["a", "b"];
    assert ids[..2] == ids;
    assert SlotIds(slots, 2) == ["a", "b"];
    assert Lookup(slots, 2, "a") == Some(0);
    assert Lookup(slots, 2, "b") == Some(1);
    assert Ratings(slots, 2, ids) == [40.0, 10.0];
    assert Sum([40.0, 10.0]) == 50.0 by {
      assert [40.0, 10.0][..1] == [40.0];
      assert [40.0][..0] == [];
    }
    assert Capacity(slots, 2, ids) == 50.0;
    assert Share(25.0, 50.0) == 50.0;
    SetAllClosedForm(slots, 2, ids, 50.0);
    assert Targeted(slots, 2, ids, 0) && Targeted(slots, 2, ids, 1);
  }

  /** Every configured listed heater the search finds has a non-zero rating, so that the
      per-heater formula divides by a non-zero number. */
  predicate RatedIn(slots: seq<HeaterSlot>, n: int, ids: seq<string>)
    requires Count(n) <= |slots|
  {
    forall i :: 0 <= i < |ids| && Lookup(slots, n, ids[i]).Some? ==>
      slots[Lookup(slots, n, ids[i]).value].maxPowerWatts != 0.0
  }

  /** Ratings survive shape-preserving updates, so a table that met RatedIn still does. */
  lemma SameShapeRatedIn(a: seq<HeaterSlot>, b: seq<HeaterSlot>, n: int, ids: seq<string>)
    requires SameShape(a, b) && Count(n) <= |a| && RatedIn(a, n, ids)
    ensures RatedIn(b, n, ids)
  {
    forall i | 0 <= i < |ids|
      ensures Lookup(a, n, ids[i]) == Lookup(b, n, ids[i])
    {
      SameShapeLookup(a, b, n, ids[i]);
    }
  }

  /** The heater manager's state: the file-scope table and the heater count. */
  class HeaterManager {
    const state: array<HeaterSlot>
    var numHeaters: int

    ghost predicate Valid()
      reads this, state
    {
      TableInvariant(state[..], numHeaters) && state.Length == MAX_MANAGED_HEATERS
    }

    /** The manager in zeroed static storage, before any init. */
    constructor ()
      ensures Valid() && fresh(state) && numHeaters == 0
      ensures state[..] == seq(MAX_MANAGED_HEATERS, _ => EmptySlot)
    {
      state := new HeaterSlot[MAX_MANAGED_HEATERS](_ => EmptySlot);
      numHeaters := 0;
    }

    /** heater_manager_init; `config` None stands for NULL. The count is stored before the
        capacity check, so a rejected table leaves the manager unusable. */
    method Init(config: Option<ThermalConfig>) returns (r: int)
      requires state.Length == MAX_MANAGED_HEATERS
      requires config.Some? ==> Shaped(config.value)
      modifies this, state
      ensures config.None? ==> r == -1 && unchanged(this) && unchanged(state)
      ensures config.Some? ==> numHeaters == config.value.numberOfHeaters
      ensures config.Some? && config.value.numberOfHeaters > MAX_MANAGED_HEATERS ==>
        r == -2 && unchanged(state) && !Valid()
      ensures config.Some? && config.value.numberOfHeaters <= MAX_MANAGED_HEATERS ==>
        r == 0 && Valid() && state[..] == InitialSlots(config.value)
    {
      if config.None? {
        return -1;
      }
      var c := config.value;
      numHeaters := c.numberOfHeaters;
      if numHeaters > MAX_MANAGED_HEATERS {
        return -2;
      }
      var k := 0;
      while k < state.Length
        invariant 0 <= k <= state.Length
        invariant numHeaters == c.numberOfHeaters
        invariant forall j :: 0 <= j < k ==> state[j] == EmptySlot
      {
        state[k] := EmptySlot;
        k := k + 1;
      }
      var i := 0;
      while i < numHeaters
        invariant 0 <= i <= Count(numHeaters)
        invariant numHeaters == c.numberOfHeaters
        invariant forall j :: 0 <= j < state.Length ==>
          state[j] == if j < i then InitialSlots(c)[j] else EmptySlot
      {
        var h := c.heaters[i];
        state[i] := state[i].(id := h.id);
        state[i] := state[i].(powerPercent := 0.0);
        state[i] := state[i].(maxPowerWatts := h.maxPowerW);
        state[i] := state[i].(enabled := h.enabled);
        state[i] := state[i].(status := if h.enabled then HeaterOk else HeaterDisabled);
        i := i + 1;
      }
      assert state[..] == InitialSlots(c);
      InitialSlotsInvariant(c);
      r := 0;
    }

    /** The `strcmp` search over the first `numHeaters` slots. */
    method IndexOf(id: string) returns (idx: int)
      requires Valid()
      ensures idx == -1 <==> Lookup(state[..], numHeaters, id).None?
      ensures idx != -1 ==> Lookup(state[..], numHeaters, id) == Some(idx)
    {
      idx := -1;
      var i := 0;
      while i < numHeaters
        invariant 0 <= i <= Count(numHeaters)
        invariant forall j :: 0 <= j < i ==> state[j].id != id
      {
        if state[i].id == id {
          idx := i;
          assert FirstMatch(SlotIds(state[..], numHeaters), id) == Some(i) by {
            assert SlotIds(state[..], numHeaters)[i] == id;
            assert id !in SlotIds(state[..], numHeaters)[..i];
          }
          return;
        }
        i := i + 1;
      }
    }

    /** heater_manager_set_power; `id` None stands for NULL. */
    method SetPower(id: Option<string>, pct: real) returns (r: int)
      requires Valid()
      modifies state
      ensures Valid()
      ensures (r, state[..]) == PowerSet(old(state[..]), numHeaters, id, pct)
    {
      PowerSetKeepsInvariant(state[..], numHeaters, id, pct);
      if id.None? {
        return -1;
      }
      var p := pct;
      if p < 0.0 {
        p := 0.0;
      }
      if p > 100.0 {
        p := 100.0;
      }
      var idx := IndexOf(id.value);
      if idx < 0 {
        return -2;
      }
      if !state[idx].enabled {
        return -3;
      }
      state[idx] := state[idx].(powerPercent := p);
      r := 0;
    }

    /** The first loop of heater_manager_distribute_power: the summed rating of the first
        `count` listed heaters. */
    method TotalRating(list: seq<string>, count: int) returns (totalMax: real)
      requires Valid() && 0 <= count <= |list|
      ensures totalMax == Capacity(state[..], numHeaters, list[..count])
    {
      totalMax := 0.0;
      var i := 0;
      while i < count
        invariant 0 <= i <= count
        invariant totalMax == Capacity(state[..], numHeaters, list[..i])
      {
        var j := IndexOf(list[i]);
        assert list[..i + 1] == list[..i] + [list[i]];
        CapacityAppendOne(state[..], numHeaters, list[..i], list[i]);
        if j >= 0 {
          totalMax := totalMax + state[j].maxPowerWatts;
        }
        i := i + 1;
      }
    }

    /** heater_manager_distribute_power; `ids` None stands for NULL. The per-heater level is
        computed with the source's own formula and applied through SetPower, whose result is
        ignored. */
    method DistributePower(ids: Option<seq<string>>, count: int, total: real) returns (r: int)
      requires Valid()
      requires ids.Some? ==> count <= |ids.value|
      requires ids.Some? && count > 0 ==> RatedIn(state[..], numHeaters, ids.value[..count])
      modifies state
      ensures Valid()
      ensures (r, state[..]) == Distribution(old(state[..]), numHeaters, ids, count, total)
    {
      if ids.None? || count <= 0 {
        return -1;
      }
      var list := ids.value;
      var totalMax := TotalRating(list, count);
      DistributionByCapacity(state[..], numHeaters, list, count, total, totalMax);
      if totalMax <= 0.0 {
        return -2;
      }
      var t := total;
      if t > totalMax {
        t := totalMax;
      }
      if t < 0.0 {
        t := 0.0;
      }
      ClampedShare(total, totalMax, t);
      ShareOut(list, count, t, totalMax);
      r := 0;
    }

    /** The second loop of heater_manager_distribute_power: every listed heater found is set,
        through SetPower, to its proportional share of the clamped request `t`, computed with
        the source's own formula. */
    method ShareOut(list: seq<string>, count: int, t: real, totalMax: real)
      requires Valid() && 0 <= count <= |list| && totalMax > 0.0
      requires RatedIn(state[..], numHeaters, list[..count])
      modifies state
      ensures Valid()
      ensures state[..] == SetAll(old(state[..]), numHeaters, list[..count], t / totalMax * 100.0)
    {
      ghost var start := state[..];
      ghost var level := t / totalMax * 100.0;
      var i := 0;
      while i < count
        invariant 0 <= i <= count
        invariant Valid()
        invariant state[..] == SetAll(start, numHeaters, list[..i], level)
      {
        ShareStep(start, state[..], numHeaters, list, count, i, level);
        ShareOne(list[i], t, totalMax);
        i := i + 1;
      }
    }

    /** One pass of the sharing loop: find the heater, compute its percentage with the
        source's formula and apply it through SetPower; an unknown id is skipped. */
    method ShareOne(id: string, t: real, totalMax: real)
      requires Valid() && totalMax > 0.0
      requires Lookup(state[..], numHeaters, id).Some? ==>
        state[Lookup(state[..], numHeaters, id).value].maxPowerWatts != 0.0
      modifies state
      ensures Valid()
      ensures state[..] == PowerSet(old(state[..]), numHeaters, Some(id), t / totalMax * 100.0).1
    {
      var j := IndexOf(id);
      if j >= 0 {
        var fraction := state[j].maxPowerWatts / totalMax;
        var heaterPower := t * fraction;
        var pct := (heaterPower / state[j].maxPowerWatts) * 100.0;
        SourcePercent(t, state[j].maxPowerWatts, totalMax, fraction, heaterPower, pct);
        var _ := SetPower(Some(id), pct);
      }
    }

    /** heater_manager_emergency_stop: every configured heater to 0 %. */
    method EmergencyStop() returns (r: int)
      requires Valid()
      modifies state
      ensures Valid() && r == 0
      ensures state[..] == Stopped(old(state[..]), numHeaters)
    {
      var i := 0;
      while i < numHeaters
        invariant 0 <= i <= Count(numHeaters)
        invariant Valid()
        invariant forall k :: 0 <= k < state.Length ==>
          state[k] == if k < i then old(state[k]).(powerPercent := 0.0) else old(state[k])
      {
        state[i] := state[i].(powerPercent := 0.0);
        i := i + 1;
      }
      assert state[..] == Stopped(old(state[..]), numHeaters);
      r := 0;
    }

    /** heater_manager_get_power; `out` is the caller's result variable (`None` for NULL). */
    method GetPower(id: Option<string>, out: Option<real>) returns (r: int, out': Option<real>)
      requires Valid()
      ensures (r, out') == PowerQuery(state[..], numHeaters, id, out)
      ensures r == 0 ==> 0.0 <= out'.value <= 100.0
    {
      out' := out;
      if id.None? || out.None? {
        return -1, out';
      }
      var idx := IndexOf(id.value);
      if idx < 0 {
        return -2, out';
      }
      out' := Some(state[idx].powerPercent);
      r := 0;
    }

    /** heater_manager_get_status: ERROR for NULL or an unknown id, otherwise the status of the
        first slot with the id, which is DISABLED exactly for a disabled heater. */
    method GetStatus(id: Option<string>) returns (s: HeaterStatus)
      requires Valid()
      ensures id.None? || Lookup(state[..], numHeaters, id.value).None? ==> s == HeaterError
      ensures id.Some? && Lookup(state[..], numHeaters, id.value).Some? ==>
        s == state[Lookup(state[..], numHeaters, id.value).value].status
        && (s == HeaterDisabled <==> !state[Lookup(state[..], numHeaters, id.value).value].enabled)
        && (s == HeaterOk <==> state[Lookup(state[..], numHeaters, id.value).value].enabled)
    {
      if id.None? {
        return HeaterError;
      }
      s := HeaterError;
      var idx := IndexOf(id.value);
      if idx >= 0 {
        s := state[idx].status;
      }
    }
  }
}
