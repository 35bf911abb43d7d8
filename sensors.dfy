/** The sensor manager of lib/sensors/sensor_manager.c: a fixed table of cached readings, one
    slot per configured sensor, refreshed by read_all and searched linearly by id. The ADC
    driver it calls is an oracle: its init status and one read outcome per sensor are inputs. */
module Sensors {
  import opened Common
  import opened Config

  const MAX_MANAGED_SENSORS: nat := 16

  /** sensor_status_t; SensorOk is the zero value. */
  datatype SensorStatus =
    | SensorOk | SensorNotReady | SensorReadError | SensorOutOfRange | SensorDisconnected

  /** sensor_reading_t. */
  datatype Reading = Reading(temperatureKelvin: real, timestampMs: int, status: SensorStatus)

  /** One entry of `sensor_cache[]`. */
  datatype CacheSlot = CacheSlot(id: string, reading: Reading, valid: bool)

  /** A cache entry in zeroed storage. */
  const EmptySlot := CacheSlot("", Reading(0.0, 0, SensorOk), false)

  /** What adc_temp_sensor_read reports for one sensor: a temperature, stamped with the uptime
      at which the manager stores it, or a failure with a non-zero code. */
  datatype ReadOutcome = ReadOk(temperatureKelvin: real, timestampMs: int) | ReadFailed(code: int)

  /** The ids of the first `n` cache slots, the part the searches look at. */
  function CacheIds(cache: seq<CacheSlot>, n: int): seq<string>
    requires Count(n) <= |cache|
  {
    Keys(cache, n, (s: CacheSlot) => s.id)
  }

  /** The slot the `strcmp` search finds for `id`. */
  function Lookup(cache: seq<CacheSlot>, n: int, id: string): (r: Option<nat>)
    requires Count(n) <= |cache|
    ensures r.Some? ==> r.value < Count(n) && cache[r.value].id == id
    ensures r.Some? ==> forall k :: 0 <= k < r.value ==> cache[k].id != id
    ensures r.None? <==> forall k :: 0 <= k < Count(n) ==> cache[k].id != id
  {
    var r := FirstMatch(CacheIds(cache, n), id);
    assert r.Some? ==> forall k :: 0 <= k < r.value ==> CacheIds(cache, n)[..r.value][k] == cache[k].id;
    r
  }

  /** The cache after a successful sensor_manager_init: each configured sensor's id in config
      order, every slot invalid and otherwise zero. */
  function InitialCache(c: ThermalConfig): (cache: seq<CacheSlot>)
    requires Shaped(c) && c.numberOfSensors <= MAX_MANAGED_SENSORS
    ensures |cache| == MAX_MANAGED_SENSORS
    ensures forall k :: 0 <= k < |cache| ==> !cache[k].valid
    ensures forall k :: 0 <= k < Count(c.numberOfSensors) ==> cache[k].id == c.sensors[k].id
  {
    seq(MAX_MANAGED_SENSORS, k requires 0 <= k < MAX_MANAGED_SENSORS =>
      if k < Count(c.numberOfSensors) then EmptySlot.(id := c.sensors[k].id) else EmptySlot)
  }

  /** One slot after one acquisition: a success replaces the reading and validates the slot; a
      failure marks the reading READ_ERROR and invalidates the slot, keeping the old
      temperature and timestamp. */
  function Refreshed(slot: CacheSlot, o: ReadOutcome): CacheSlot
  {
    match o
    case ReadOk(t, ts) => slot.(reading := Reading(t, ts, SensorOk), valid := true)
    case ReadFailed(_) => slot.(reading := slot.reading.(status := SensorReadError), valid := false)
  }

  /** The cache after read_all: the slots of enabled configured sensors refreshed, all others
      as before. */
  function RefreshedCache(cache: seq<CacheSlot>, configs: seq<SensorConfig>, n: int,
                          outcomes: seq<ReadOutcome>): seq<CacheSlot>
    requires Count(n) <= |cache| && Count(n) <= |configs| && Count(n) <= |outcomes|
  {
    seq(|cache|, k requires 0 <= k < |cache| =>
      if k < Count(n) && configs[k].enabled then Refreshed(cache[k], outcomes[k]) else cache[k])
  }

  /** What read_all does to each slot: a successful read stores the temperature and timestamp
      with status OK and marks the slot valid; a failed one marks it READ_ERROR and invalid but
      keeps the last temperature; disabled and unconfigured slots are untouched. */
  lemma RefreshedSlots(cache: seq<CacheSlot>, configs: seq<SensorConfig>, n: int,
                       outcomes: seq<ReadOutcome>, k: int)
    requires Count(n) <= |cache| && Count(n) <= |configs| && Count(n) <= |outcomes|
    requires 0 <= k < |cache|
    ensures var after := RefreshedCache(cache, configs, n, outcomes)[k];
      && (!(k < Count(n) && configs[k].enabled) ==> after == cache[k])
      && (k < Count(n) && configs[k].enabled && outcomes[k].ReadOk? ==>
            after.reading == Reading(outcomes[k].temperatureKelvin, outcomes[k].timestampMs, SensorOk)
            && after.valid && after.id == cache[k].id)
      && (k < Count(n) && configs[k].enabled && outcomes[k].ReadFailed? ==>
            after.reading.status == SensorReadError && !after.valid
            && after.reading.temperatureKelvin == cache[k].reading.temperatureKelvin
            && after.reading.timestampMs == cache[k].reading.timestampMs
            && after.id == cache[k].id)
  {
  }

  /** Refreshing one more slot of the cache. */
  lemma RefreshStep(cache: seq<CacheSlot>, configs: seq<SensorConfig>, i: nat, outcomes: seq<ReadOutcome>)
    requires i < |cache| && i < |configs| && i < |outcomes|
    ensures RefreshedCache(cache, configs, i + 1, outcomes)
         == RefreshedCache(cache, configs, i, outcomes)[i :=
              if configs[i].enabled then Refreshed(cache[i], outcomes[i]) else cache[i]]
  {
  }

  /** How many of the first `k` sensors are enabled and failed to read. */
  function Failures(configs: seq<SensorConfig>, outcomes: seq<ReadOutcome>, k: nat): (f: nat)
    requires k <= |configs| && k <= |outcomes|
    ensures f <= k
  {
    if k == 0 then 0
    else
      Failures(configs, outcomes, k - 1)
        + (if configs[k - 1].enabled && outcomes[k - 1].ReadFailed? then 1 else 0)
  }

  /** read_all reports success exactly when no enabled sensor failed. */
  lemma {:induction false} NoFailuresIff(configs: seq<SensorConfig>, outcomes: seq<ReadOutcome>, k: nat)
    requires k <= |configs| && k <= |outcomes|
    ensures Failures(configs, outcomes, k) == 0 <==>
      forall i :: 0 <= i < k && configs[i].enabled ==> outcomes[i].ReadOk?
  {
    if k > 0 {
      NoFailuresIff(configs, outcomes, k - 1);
    }
  }

  /** The temperature one listed id adds to an average: that of its slot when the id is known
      and the slot is valid, nothing otherwise. */
  function Contribution(cache: seq<CacheSlot>, n: int, id: string): (ts: seq<real>)
    requires Count(n) <= |cache|
  {
    match Lookup(cache, n, id)
    case Some(k) => if cache[k].valid then [cache[k].reading.temperatureKelvin] else []
    case None => []
  }

  /** The temperatures get_average adds up, one per listed id that is known and valid, in
      list order (an id listed twice counts twice). */
  function Contributions(cache: seq<CacheSlot>, n: int, ids: seq<string>): (ts: seq<real>)
    requires Count(n) <= |cache|
    ensures |ts| <= |ids|
    decreases |ids|
  {
    if ids == [] then []
    else Contributions(cache, n, ids[..|ids| - 1]) + Contribution(cache, n, ids[|ids| - 1])
  }

  function Mean(ts: seq<real>): real
    requires |ts| > 0
  {
    Sum(ts) / (|ts| as real)
  }

  /** sensor_manager_get_average as a function of the cache: the status, and the new content of
      the caller's result variable (`None` for a NULL pointer), written only on success. */
  function Average(cache: seq<CacheSlot>, n: int, ids: Option<seq<string>>, count: int,
                   out: Option<real>): (r: (int, Option<real>))
    requires Count(n) <= |cache|
    requires ids.Some? ==> count <= |ids.value|
    ensures r.0 == -1 <==> ids.None? || out.None? || count <= 0
    ensures r.0 == -2 <==>
      ids.Some? && out.Some? && count > 0 && Contributions(cache, n, ids.value[..count]) == []
    ensures r.0 in {0, -1, -2}
    ensures r.0 == 0 ==> r.1 == Some(Mean(Contributions(cache, n, ids.value[..count])))
    ensures r.0 != 0 ==> r.1 == out
  {
    if ids.None? || out.None? || count <= 0 then (-1, out)
    else
      var ts := Contributions(cache, n, ids.value[..count]);
      if |ts| == 0 then (-2, out) else (0, Some(Sum(ts) / (|ts| as real)))
  }

  /** One more listed id appends its own contribution. */
  lemma ContributionsStep(cache: seq<CacheSlot>, n: int, ids: seq<string>, i: nat)
    requires Count(n) <= |cache| && i < |ids|
    ensures Contributions(cache, n, ids[..i + 1]) == Contributions(cache, n, ids[..i]) + Contribution(cache, n, ids[i])
  {
    assert ids[..i + 1][..i] == ids[..i];
  }

  /** One round of get_average's loop: the id's contribution, if any, is appended to the
      temperatures collected so far and added to their sum. */
  lemma CollectStep(cache: seq<CacheSlot>, n: int, ids: seq<string>, i: nat, ts: seq<real>,
                    found: bool, t: real)
    requires Count(n) <= |cache| && i < |ids|
    requires ts == Contributions(cache, n, ids[..i])
    requires Contribution(cache, n, ids[i]) == if found then [t] else []
    ensures found ==> ts + [t] == Contributions(cache, n, ids[..i + 1]) && Sum(ts + [t]) == Sum(ts) + t
    ensures !found ==> ts == Contributions(cache, n, ids[..i + 1])
  {
    ContributionsStep(cache, n, ids, i);
    if found {
      SumAppendOne(ts, t);
    } else {
      assert ts + [] == ts;
    }
  }

  /** Listing more ids appends their temperatures: contributions split over concatenation. */
  lemma {:induction false} ContributionsAppend(cache: seq<CacheSlot>, n: int, a: seq<string>, b: seq<string>)
    requires Count(n) <= |cache|
    ensures Contributions(cache, n, a + b) == Contributions(cache, n, a) + Contributions(cache, n, b)
    decreases |b|
  {
    if b == [] {
      assert a + b == a;
    } else {
      var b' := b[..|b| - 1];
      assert (a + b)[..|a + b| - 1] == a + b';
      ContributionsAppend(cache, n, a, b');
    }
  }

  /** No temperature is collected exactly when every listed id is unknown or invalid, so
      get_average fails with -2 only then. */
  lemma NoContributionsIff(cache: seq<CacheSlot>, n: int, ids: seq<string>)
    requires Count(n) <= |cache|
    ensures Contributions(cache, n, ids) == [] <==>
      forall i :: 0 <= i < |ids| ==> Contribution(cache, n, ids[i]) == []
  {
    if Contributions(cache, n, ids) == [] {
      forall i | 0 <= i < |ids|
        ensures Contribution(cache, n, ids[i]) == []
      {
        ContributionWithin(cache, n, ids, i);
      }
    }
    if forall i :: 0 <= i < |ids| ==> Contribution(cache, n, ids[i]) == [] {
      NoneUsableMeansEmpty(cache, n, ids);
    }
  }

  /** Each listed id's own temperatures are among those collected for the whole list. */
  lemma ContributionWithin(cache: seq<CacheSlot>, n: int, ids: seq<string>, i: nat)
    requires Count(n) <= |cache| && i < |ids|
    ensures |Contribution(cache, n, ids[i])| <= |Contributions(cache, n, ids)|
  {
    var front, back := ids[..i + 1], ids[i + 1..];
    assert ids == front + back;
    ContributionsAppend(cache, n, front, back);
    assert front[..i] == ids[..i] && front[i] == ids[i];
  }

  lemma {:induction false} NoneUsableMeansEmpty(cache: seq<CacheSlot>, n: int, ids: seq<string>)
    requires Count(n) <= |cache|
    requires forall i :: 0 <= i < |ids| ==> Contribution(cache, n, ids[i]) == []
    ensures Contributions(cache, n, ids) == []
    decreases |ids|
  {
    if ids != [] {
      var prefix := ids[..|ids| - 1];
      forall i | 0 <= i < |prefix|
        ensures Contribution(cache, n, prefix[i]) == []
      {
        assert prefix[i] == ids[i];
      }
      NoneUsableMeansEmpty(cache, n, prefix);
      assert Contribution(cache, n, ids[|ids| - 1]) == [];
    }
  }

  lemma {:induction false} SumBounds(ts: seq<real>, lo: real, hi: real)
    requires forall i :: 0 <= i < |ts| ==> lo <= ts[i] <= hi
    ensures (|ts| as real) * lo <= Sum(ts) <= (|ts| as real) * hi
    decreases |ts|
  {
    if ts != [] {
      SumBounds(ts[..|ts| - 1], lo, hi);
    }
  }

  /** An average lies between the smallest and the largest temperature it is taken over. */
  lemma MeanWithin(ts: seq<real>, lo: real, hi: real)
    requires |ts| > 0
    requires forall i :: 0 <= i < |ts| ==> lo <= ts[i] <= hi
    ensures lo <= Mean(ts) <= hi
  {
    SumBounds(ts, lo, hi);
    var m := |ts| as real;
    assert Mean(ts) * m == Sum(ts);
  }

  /** Averaging over a single known and valid sensor yields exactly its temperature. */
  lemma AverageOfOne(cache: seq<CacheSlot>, n: int, id: string, out: real, k: nat)
    requires Count(n) <= |cache|
    requires Lookup(cache, n, id) == Some(k) && cache[k].valid
    ensures Average(cache, n, Some([id]), 1, Some(out)) == (0, Some(cache[k].reading.temperatureKelvin))
  {
    var t := cache[k].reading.temperatureKelvin;
    assert [id][..1] == [id];
    assert Contribution(cache, n, id) == [t];
    assert Contributions(cache, n, [id]) == Contributions(cache, n, []) + [t] by {
      assert [id][..0] == [];
    }
    assert Sum([t]) == t by {
      assert [t][..0] == [];
    }
    assert Mean([t]) == t;
  }

  /** Unknown and invalid ids are skipped: listing them next to others does not change the
      average. */
  lemma AverageSkipsUnusable(cache: seq<CacheSlot>, n: int, ids: seq<string>, extra: string, out: real)
    requires Count(n) <= |cache| && |ids| > 0
    requires Contribution(cache, n, extra) == []
    ensures Average(cache, n, Some(ids + [extra]), |ids| + 1, Some(out))
         == Average(cache, n, Some(ids), |ids|, Some(out))
  {
    assert (ids + [extra])[..|ids| + 1] == ids + [extra];
    assert ids[..|ids|] == ids;
    assert Contributions(cache, n, [extra]) == [] by {
      assert [extra][..0] == [];
    }
    ContributionsAppend(cache, n, ids, [extra]);
    assert Contributions(cache, n, ids + [extra]) == Contributions(cache, n, ids);
  }

  /** The sensor manager's state: the file-scope cache, the sensor count and the sensor table
      of the configuration it was initialised with. */
  class SensorManager {
    const cache: array<CacheSlot>
    var numSensors: int
    var sensorConfigs: seq<SensorConfig>

    /** The state every operation after a successful init relies on. A slot is only ever
        validated together with an OK status. */
    ghost predicate Valid()
      reads this, cache
    {
      && cache.Length == MAX_MANAGED_SENSORS
      && numSensors <= MAX_MANAGED_SENSORS
      && Count(numSensors) <= |sensorConfigs|
      && forall k :: 0 <= k < cache.Length ==> cache[k].valid ==> cache[k].reading.status == SensorOk
    }

    /** The manager in zeroed static storage, before any init. */
    constructor ()
      ensures Valid() && fresh(cache) && numSensors == 0
      ensures cache[..] == seq(MAX_MANAGED_SENSORS, _ => EmptySlot)
    {
      cache := new CacheSlot[MAX_MANAGED_SENSORS](_ => EmptySlot);
      numSensors := 0;
      sensorConfigs := [];
    }

    /** sensor_manager_init; `config` None stands for NULL and `driverStatus` is what
        adc_temp_sensor_init returns. The count is stored before the capacity check, so a
        rejected table leaves the manager unusable. */
    method Init(config: Option<ThermalConfig>, driverStatus: int) returns (r: int)
      requires cache.Length == MAX_MANAGED_SENSORS
      requires config.Some? ==> Shaped(config.value)
      modifies this, cache
      ensures config.None? ==> r == -1 && unchanged(this) && unchanged(cache)
      ensures config.Some? ==>
        numSensors == config.value.numberOfSensors && sensorConfigs == config.value.sensors
      ensures config.Some? && config.value.numberOfSensors > MAX_MANAGED_SENSORS ==>
        r == -2 && unchanged(cache) && !Valid()
      ensures config.Some? && config.value.numberOfSensors <= MAX_MANAGED_SENSORS ==>
        r == driverStatus && Valid() && cache[..] == InitialCache(config.value)
    {
      if config.None? {
        return -1;
      }
      var c := config.value;
      sensorConfigs := c.sensors;
      numSensors := c.numberOfSensors;
      if numSensors > MAX_MANAGED_SENSORS {
        return -2;
      }
      var k := 0;
      while k < cache.Length
        invariant 0 <= k <= cache.Length
        invariant numSensors == c.numberOfSensors && sensorConfigs == c.sensors
        invariant forall j :: 0 <= j < k ==> cache[j] == EmptySlot
      {
        cache[k] := EmptySlot;
        k := k + 1;
      }
      var i := 0;
      while i < numSensors
        invariant 0 <= i <= Count(numSensors)
        invariant numSensors == c.numberOfSensors && sensorConfigs == c.sensors
        invariant forall j :: 0 <= j < cache.Length ==>
          cache[j] == if j < i then EmptySlot.(id := c.sensors[j].id) else EmptySlot
      {
        cache[i] := cache[i].(id := c.sensors[i].id, valid := false);
        i := i + 1;
      }
      assert cache[..] == InitialCache(c);
      r := driverStatus;
    }

    /** The `strcmp` search over the first `numSensors` slots. */
    method IndexOf(id: string) returns (idx: int)
      requires Valid()
      ensures idx == -1 <==> Lookup(cache[..], numSensors, id).None?
      ensures idx != -1 ==> Lookup(cache[..], numSensors, id) == Some(idx)
    {
      idx := -1;
      var i := 0;
      while i < numSensors
        invariant 0 <= i <= Count(numSensors)
        invariant forall j :: 0 <= j < i ==> cache[j].id != id
      {
        if cache[i].id == id {
          idx := i;
          assert FirstMatch(CacheIds(cache[..], numSensors), id) == Some(i) by {
            assert CacheIds(cache[..], numSensors)[i] == id;
            assert id !in CacheIds(cache[..], numSensors)[..i];
          }
          return;
        }
        i := i + 1;
      }
    }

    /** sensor_manager_read_all; `outcomes[i]` is what adc_temp_sensor_read reports for the
        i-th configured sensor. Returns 0, or minus the number of enabled sensors that failed. */
    method ReadAll(outcomes: seq<ReadOutcome>) returns (r: int)
      requires Valid() && Count(numSensors) <= |outcomes|
      modifies cache
      ensures Valid()
      ensures cache[..] == RefreshedCache(old(cache[..]), sensorConfigs, numSensors, outcomes)
      ensures r == -(Failures(sensorConfigs, outcomes, Count(numSensors)) as int)
    {
      var errors := 0;
      var i := 0;
      while i < numSensors
        invariant 0 <= i <= Count(numSensors)
        invariant Valid()
        invariant errors == Failures(sensorConfigs, outcomes, i)
        invariant cache[..] == RefreshedCache(old(cache[..]), sensorConfigs, i, outcomes)
      {
        RefreshStep(old(cache[..]), sensorConfigs, i, outcomes);
        if sensorConfigs[i].enabled {
          match outcomes[i]
          case ReadOk(t, ts) =>
            cache[i] := cache[i].(reading := cache[i].reading.(temperatureKelvin := t));
            cache[i] := cache[i].(reading := cache[i].reading.(timestampMs := ts));
            cache[i] := cache[i].(reading := cache[i].reading.(status := SensorOk));
            cache[i] := cache[i].(valid := true);
          case ReadFailed(_) =>
            cache[i] := cache[i].(reading := cache[i].reading.(status := SensorReadError));
            cache[i] := cache[i].(valid := false);
            errors := errors + 1;
        }
        i := i + 1;
      }
      assert i == Count(numSensors);
      assert cache[..] == RefreshedCache(old(cache[..]), sensorConfigs, numSensors, outcomes);
      r := if errors > 0 then -errors else 0;
    }

    /** sensor_manager_get_reading; `out` is the caller's result variable (`None` for NULL),
        returned as it is afterwards. Never changes the cache. */
    method GetReading(id: Option<string>, out: Option<Reading>) returns (r: int, out': Option<Reading>)
      requires Valid()
      ensures r == -1 <==> id.None? || out.None?
      ensures r == -2 <==> id.Some? && out.Some? && Lookup(cache[..], numSensors, id.value).None?
      ensures r == -3 <==> id.Some? && out.Some? && Lookup(cache[..], numSensors, id.value).Some?
                           && !cache[Lookup(cache[..], numSensors, id.value).value].valid
      ensures r in {0, -1, -2, -3}
      ensures r == 0 ==> out' == Some(cache[Lookup(cache[..], numSensors, id.value).value].reading)
      ensures r == 0 ==> out'.value.status == SensorOk
      ensures r != 0 ==> out' == out
    {
      out' := out;
      if id.None? || out.None? {
        return -1, out';
      }
      var idx := IndexOf(id.value);
      if idx < 0 {
        return -2, out';
      }
      if !cache[idx].valid {
        return -3, out';
      }
      out' := Some(cache[idx].reading);
      r := 0;
    }

    /** sensor_manager_get_average. */
    method GetAverage(ids: Option<seq<string>>, count: int, out: Option<real>) returns (r: int, out': Option<real>)
      requires Valid()
      requires ids.Some? ==> count <= |ids.value|
      ensures (r, out') == Average(cache[..], numSensors, ids, count, out)
    {
      out' := out;
      if ids.None? || out.None? || count <= 0 {
        return -1, out';
      }
      var sum, validCount := Collect(ids.value, count);
      if validCount == 0 {
        return -2, out';
      }
      out' := Some(sum / (validCount as real));
      r := 0;
    }

    /** The loop of get_average: the sum and the number of the usable temperatures of the
        first `count` listed ids. */
    method Collect(list: seq<string>, count: int) returns (sum: real, validCount: int)
      requires Valid() && 0 <= count <= |list|
      ensures sum == Sum(Contributions(cache[..], numSensors, list[..count]))
      ensures validCount == |Contributions(cache[..], numSensors, list[..count])|
    {
      sum := 0.0;
      validCount := 0;
      ghost var ts: seq<real> := [];
      var i := 0;
      while i < count
        invariant 0 <= i <= count
        invariant ts == Contributions(cache[..], numSensors, list[..i])
        invariant sum == Sum(ts) && validCount == |ts|
      {
        sum, validCount, ts := Accumulate(list, i, sum, validCount, ts);
        i := i + 1;
      }
    }

    /** One round of get_average's loop: the temperatures collected for the first `i` ids
        become those for the first `i + 1`. */
    method Accumulate(list: seq<string>, i: nat, sum: real, validCount: int, ghost ts: seq<real>)
      returns (sum': real, validCount': int, ghost ts': seq<real>)
      requires Valid() && i < |list|
      requires ts == Contributions(cache[..], numSensors, list[..i])
      requires sum == Sum(ts) && validCount == |ts|
      ensures ts' == Contributions(cache[..], numSensors, list[..i + 1])
      ensures sum' == Sum(ts') && validCount' == |ts'|
    {
      var found, t := UsableTemperature(list[i]);
      CollectStep(cache[..], numSensors, list, i, ts, found, t);
      sum', validCount', ts' := sum, validCount, ts;
      if found {
        sum', validCount', ts' := sum + t, validCount + 1, ts + [t];
      }
    }

    /** The body of get_average's loop for one id: the cache slot with that id, when there is
        one and it holds a valid reading, gives its temperature. */
    method UsableTemperature(id: string) returns (found: bool, t: real)
      requires Valid()
      ensures Contribution(cache[..], numSensors, id) == if found then [t] else []
    {
      var idx := IndexOf(id);
      if idx >= 0 && cache[idx].valid {
        return true, cache[idx].reading.temperatureKelvin;
      }
      return false, 0.0;
    }

    /** sensor_manager_is_valid: false for NULL or an unknown id, else the slot's flag. */
    method IsValid(id: Option<string>) returns (b: bool)
      requires Valid()
      ensures b <==> id.Some? && Lookup(cache[..], numSensors, id.value).Some?
                     && cache[Lookup(cache[..], numSensors, id.value).value].valid
      ensures id.Some? ==> (b <==> Contribution(cache[..], numSensors, id.value) != [])
    {
      if id.None? {
        return false;
      }
      b := false;
      var idx := IndexOf(id.value);
      if idx >= 0 {
        b := cache[idx].valid;
      }
    }
  }
}
