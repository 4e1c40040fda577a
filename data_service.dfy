/**
 * The browser-side data cache: a heat-pump snapshot merged from partial
 * responses, two subscriber lists whose first member arms a one-second
 * refresh timer and whose last leaving member disarms it, and two buffers of
 * the latest 60 responses. Timers and HTTP are replaced by explicit calls:
 * `Subscribe…`/`Unsubscribe…` for the observable's subscribe and teardown,
 * `RefreshMonitorRequests` for the URLs a refresh asks for, and `On…Response`
 * for the arrival of an answer.
 */
module DataService {
  import opened Wrappers
  import BoundedHistory
  import Sets
  import DataQueries

  const BufferCapacity: nat := 60
  const RefreshPeriodMillis: int := 1000
  const DevServerUri: string := "http://192.168.1.201:80"

  // ---------------------------------------------------------------- heat-pump payloads

  /** One heat-pump register value; its other attributes are opaque here. */
  datatype NibeValue = NibeValue(id: int, name: string, rawValue: int, rawValueAt: int)

  /** A raw value and its timestamp (milliseconds), as carried by `simpleValues`. */
  datatype SimpleValue = SimpleValue(rawValue: int, rawValueAt: int)

  /** The heat-pump controller state; its contents are opaque here. */
  datatype Controller = Controller(state: map<string, string>)

  /** A heat-pump response; every part may be absent. Ids are the numeric values of the keys. */
  datatype Nibe1155Values = Nibe1155Values(
    controller: Option<Controller>,
    completeValues: Option<map<int, NibeValue>>,
    simpleValues: Option<map<int, SimpleValue>>,
    logsetIds: Option<seq<int>>)

  /** The cached snapshot (`IHeatpumpData`). */
  datatype HeatpumpData = HeatpumpData(
    lastRefreshAt: Option<int>,
    controller: Option<Controller>,
    values: map<int, NibeValue>,
    logsetIds: seq<int>,
    nonLogsetIds: seq<int>)

  // ---------------------------------------------------------------- the logset classification

  /** `xs.find(i => i === id)`: the first element equal to `id`, if any. */
  function Find(xs: seq<int>, id: int): (r: Option<int>)
    ensures r.Some? <==> id in xs
    ensures r.Some? ==> r.value == id
    decreases |xs|
  {
    if xs == [] then None else if xs[0] == id then Some(xs[0]) else Find(xs[1..], id)
  }

  /** JavaScript truthiness of a number that may be `undefined`. */
  predicate Truthy(x: Option<int>) {
    x.Some? && x.value != 0
  }

  /** The `find` test is falsy for an absent id, and also for id 0 even when 0 is a logset id. */
  lemma FindFalsy(logsetIds: seq<int>, id: int)
    ensures !Truthy(Find(logsetIds, id)) <==> id == 0 || id !in logsetIds
  {
  }

  predicate StrictlyIncreasing(xs: seq<int>) {
    forall i, j :: 0 <= i < j < |xs| ==> xs[i] < xs[j]
  }

  /** `ids` lists, in ascending order, the keys for which the `find` over `logsetIds` is falsy. */
  ghost predicate ClassifiedIds(ids: seq<int>, keys: set<int>, logsetIds: seq<int>) {
    StrictlyIncreasing(ids) && forall id :: id in ids <==> id in keys && !Truthy(Find(logsetIds, id))
  }

  /**
   * The classification loop of a clearing call. Object keys that are
   * integers are enumerated in ascending order, so the ids arrive sorted.
   */
  method NonLogsetIds(keys: set<int>, logsetIds: seq<int>) returns (ids: seq<int>)
    ensures ClassifiedIds(ids, keys, logsetIds)
    ensures forall id :: id in ids <==> id in keys && (id == 0 || id !in logsetIds)
  {
    ids := [];
    var rest := keys;
    while rest != {}
      invariant rest <= keys
      invariant StrictlyIncreasing(ids)
      invariant forall id :: id in ids <==> id in keys - rest && !Truthy(Find(logsetIds, id))
      invariant forall a, b :: a in ids && b in rest ==> a < b
      decreases |rest|
    {
      Sets.HasMinimum(rest);
      var id :| Sets.IsLeast(id, rest);
      if !Truthy(Find(logsetIds, id)) {
        forall i | 0 <= i < |ids|
          ensures ids[i] < id
        {
          assert ids[i] in ids;
        }
        ids := ids + [id];
      }
      rest := rest - {id};
    }
    forall id
      ensures id in ids <==> id in keys && (id == 0 || id !in logsetIds)
    {
      FindFalsy(logsetIds, id);
    }
  }

  // ---------------------------------------------------------------- merging values

  /** `x.setRawValue(raw, at)` for the simple value of `id`, when there is one. */
  function SimpleUpdated(x: NibeValue, simple: map<int, SimpleValue>, id: int): NibeValue {
    if id in simple then x.(rawValue := simple[id].rawValue, rawValueAt := simple[id].rawValueAt) else x
  }

  /** The effect of the simple-values loop on `values`. */
  function WithSimpleValues(values: map<int, NibeValue>, simple: map<int, SimpleValue>): (r: map<int, NibeValue>)
    ensures r.Keys == values.Keys
    ensures forall id :: id in simple && id !in values ==> id !in r
    ensures forall id :: id in values && id !in simple ==> r[id] == values[id]
    ensures forall id :: id in values && id in simple ==>
              r[id].rawValue == simple[id].rawValue && r[id].rawValueAt == simple[id].rawValueAt
              && r[id].id == values[id].id && r[id].name == values[id].name
  {
    map id | id in values :: SimpleUpdated(values[id], simple, id)
  }

  /** The complete-values loop: every entry of `complete` overwrites or adds `values[id]`. */
  method OverwriteValues(values: map<int, NibeValue>, complete: map<int, NibeValue>) returns (r: map<int, NibeValue>)
    ensures r == values + complete
  {
    r := values;
    var rest := complete.Keys;
    while rest != {}
      invariant rest <= complete.Keys
      invariant r == values + (complete - rest)
      decreases |rest|
    {
      Sets.NonEmptyHasMember(rest);
      var id :| id in rest;
      OverwriteStep(values, complete, rest, id);
      r := r[id := complete[id]];
      rest := rest - {id};
    }
    assert complete - {} == complete;
  }

  /** One step of the complete-values loop moves `id` from the pending keys into the overwritten ones. */
  lemma OverwriteStep(values: map<int, NibeValue>, complete: map<int, NibeValue>, rest: set<int>, id: int)
    requires id in rest && rest <= complete.Keys
    ensures (values + (complete - rest))[id := complete[id]] == values + (complete - (rest - {id}))
  {
    var got := (values + (complete - rest))[id := complete[id]];
    var want := values + (complete - (rest - {id}));
    assert got.Keys == want.Keys;
    forall k | k in got
      ensures got[k] == want[k]
    {
    }
  }

  /** The simple-values loop: only ids already in `values` are updated; unknown ids are skipped. */
  method ApplySimpleValues(values: map<int, NibeValue>, simple: map<int, SimpleValue>) returns (r: map<int, NibeValue>)
    ensures r == WithSimpleValues(values, simple)
  {
    r := values;
    var rest := simple.Keys;
    while rest != {}
      invariant rest <= simple.Keys
      invariant r.Keys == values.Keys
      invariant forall id :: id in values ==>
                  r[id] == if id in simple.Keys - rest then SimpleUpdated(values[id], simple, id) else values[id]
      decreases |rest|
    {
      Sets.NonEmptyHasMember(rest);
      var id :| id in rest;
      if id in r {
        r := r[id := r[id].(rawValue := simple[id].rawValue, rawValueAt := simple[id].rawValueAt)];
      }
      rest := rest - {id};
    }
  }

  function CompleteKeys(v: Nibe1155Values): set<int> {
    if v.completeValues.Some? then v.completeValues.value.Keys else {}
  }

  /** The snapshot a clearing call starts from, before the refresh below is applied. */
  function Cleared(v: Nibe1155Values, nonLogsetIds: seq<int>): HeatpumpData {
    HeatpumpData(None, None, map[], v.logsetIds.GetOr([]), nonLogsetIds)
  }

  /**
   * The part of `handleNibe1155Values` that every accepted call applies: the
   * refresh time, the controller when one is given, then complete values,
   * then simple values. The id lists are left alone.
   */
  function Refreshed(h: HeatpumpData, v: Nibe1155Values, now: int): (r: HeatpumpData)
    ensures r.lastRefreshAt == Some(now)
    ensures r.logsetIds == h.logsetIds && r.nonLogsetIds == h.nonLogsetIds
    ensures r.controller == if v.controller.Some? then v.controller else h.controller
    ensures r.values.Keys == h.values.Keys + CompleteKeys(v)
    ensures forall id :: id in CompleteKeys(v) && (v.simpleValues.None? || id !in v.simpleValues.value) ==>
              r.values[id] == v.completeValues.value[id]
    ensures forall id :: id in h.values && id !in CompleteKeys(v) && (v.simpleValues.None? || id !in v.simpleValues.value) ==>
              r.values[id] == h.values[id]
    ensures forall id :: v.simpleValues.Some? && id in v.simpleValues.value && id in r.values ==>
              r.values[id].rawValue == v.simpleValues.value[id].rawValue &&
              r.values[id].rawValueAt == v.simpleValues.value[id].rawValueAt
    ensures forall id :: id in r.values ==>
              var base := if id in CompleteKeys(v) then v.completeValues.value[id] else h.values[id];
              r.values[id].id == base.id && r.values[id].name == base.name
  {
    var merged := if v.completeValues.Some? then h.values + v.completeValues.value else h.values;
    var values := if v.simpleValues.Some? then WithSimpleValues(merged, v.simpleValues.value) else merged;
    h.(lastRefreshAt := Some(now),
       controller := if v.controller.Some? then v.controller else h.controller,
       values := values)
  }

  /**
   * What the snapshot keeps between calls: its non-logset ids are sorted,
   * each has a value, and each is 0 or not a logset id.
   */
  predicate SnapshotValid(h: HeatpumpData) {
    StrictlyIncreasing(h.nonLogsetIds)
    && (forall id :: id in h.nonLogsetIds ==> id in h.values)
    && (forall id :: id in h.nonLogsetIds ==> id == 0 || id !in h.logsetIds)
  }

  /** A clearing call produces a valid snapshot. */
  lemma ClearedRefreshValid(v: Nibe1155Values, nonLogsetIds: seq<int>, now: int)
    requires ClassifiedIds(nonLogsetIds, CompleteKeys(v), v.logsetIds.GetOr([]))
    ensures SnapshotValid(Refreshed(Cleared(v, nonLogsetIds), v, now))
  {
    var r := Refreshed(Cleared(v, nonLogsetIds), v, now);
    forall id | id in r.nonLogsetIds
      ensures id in r.values && (id == 0 || id !in r.logsetIds)
    {
      FindFalsy(v.logsetIds.GetOr([]), id);
    }
  }

  /** A refresh without clearing keeps a valid snapshot valid: values are only added. */
  lemma RefreshKeepsValid(h: HeatpumpData, v: Nibe1155Values, now: int)
    requires SnapshotValid(h)
    ensures SnapshotValid(Refreshed(h, v, now))
  {
    var r := Refreshed(h, v, now);
    assert h.values.Keys <= r.values.Keys;
  }

  // ---------------------------------------------------------------- observer lists

  /** An observer's identity; `Subscriber` objects are compared by identity. */
  type ObserverId = int

  /** `xs.indexOf(s)`: the first index holding `s`, or -1. */
  function IndexOf(xs: seq<ObserverId>, s: ObserverId): (i: int)
    ensures -1 <= i < |xs|
    ensures i == -1 <==> s !in xs
    ensures i >= 0 ==> xs[i] == s && s !in xs[..i]
    decreases |xs|
  {
    if xs == [] then -1
    else if xs[0] == s then 0
    else
      var j := IndexOf(xs[1..], s);
      if j == -1 then -1 else j + 1
  }

  /** `xs.splice(start, 1)` on the array, JavaScript's way: a negative start counts from the end. */
  function Splice1<T>(xs: seq<T>, start: int): seq<T> {
    var k := if start < 0 then (if |xs| + start < 0 then 0 else |xs| + start) else start;
    if k < |xs| then xs[..k] + xs[k + 1..] else xs
  }

  /** The teardown removes the first registration of a registered observer, keeping the others in order. */
  lemma RemoveRegistered(xs: seq<ObserverId>, s: ObserverId)
    requires s in xs
    ensures var i := IndexOf(xs, s);
            Splice1(xs, i) == xs[..i] + xs[i + 1..] && s !in xs[..i]
    ensures |Splice1(xs, IndexOf(xs, s))| == |xs| - 1
    ensures multiset(Splice1(xs, IndexOf(xs, s))) + multiset{s} == multiset(xs)
  {
    var i := IndexOf(xs, s);
    var r := xs[..i] + xs[i + 1..];
    assert Splice1(xs, i) == r;
    assert xs == xs[..i] + [s] + xs[i + 1..];
    calc {
      multiset(xs);
      multiset(xs[..i] + [s] + xs[i + 1..]);
      multiset(xs[..i]) + multiset{s} + multiset(xs[i + 1..]);
      multiset(r) + multiset{s};
    }
  }

  /** An observer that is not registered makes the teardown drop the last observer instead. */
  lemma RemoveUnregistered(xs: seq<ObserverId>, s: ObserverId)
    requires s !in xs
    ensures Splice1(xs, IndexOf(xs, s)) == if xs == [] then [] else xs[..|xs| - 1]
  {
  }

  /** Subscribing a new observer and tearing it down again restores the list. */
  lemma SubscribeThenUnsubscribe(xs: seq<ObserverId>, s: ObserverId)
    requires s !in xs
    ensures Splice1(xs + [s], IndexOf(xs + [s], s)) == xs
  {
    var ys := xs + [s];
    assert s in ys && ys[|xs|] == s;
    var i := IndexOf(ys, s);
    assert ys[..|xs|] == xs;
    assert i == |xs|;
    assert ys[..i] == xs;
  }

  /** The refresh interval (`_…Timer`). */
  datatype Interval = Disarmed | Armed(periodMillis: int)

  function TimerFor(observers: seq<ObserverId>): Interval {
    if observers == [] then Disarmed else Armed(RefreshPeriodMillis)
  }

  // ---------------------------------------------------------------- responses

  datatype Response<T> = Ok(body: T) | HttpError

  /** One meter sample; its contents are opaque here. */
  datatype FroniusMeterValues = FroniusMeterValues(fields: map<string, real>)

  /** One monitor record as the server sends it; apart from its heat-pump part it is opaque here. */
  datatype MonitorRecordData = MonitorRecordData(createdAt: int, heatpump: Option<Nibe1155Values>)

  /** The body of a monitor response: anything that is not an array, or an array of possibly null items. */
  datatype MonitorBody = NotAnArray | Items(items: seq<Option<MonitorRecordData>>)

  class DataService {
    const serverUri: string

    var froniusMeterObservers: seq<ObserverId>
    var froniusMeterTimer: Interval
    /** The buffered samples; a null response body is buffered as `None`. */
    var froniusMeterValues: seq<Option<FroniusMeterValues>>

    var monitorObservers: seq<ObserverId>
    var monitorTimer: Interval
    var monitorValues: seq<MonitorRecordData>

    var nibe1155: Option<HeatpumpData>

    /**
     * A timer is armed exactly while its list has observers, both buffers hold
     * at most 60 entries, and the snapshot keeps its id lists consistent.
     * A buffer can be non-empty without observers: a response that arrives
     * after the last teardown is still pushed.
     */
    ghost predicate Valid()
      reads this
    {
      froniusMeterTimer == TimerFor(froniusMeterObservers)
      && monitorTimer == TimerFor(monitorObservers)
      && |froniusMeterValues| <= BufferCapacity
      && |monitorValues| <= BufferCapacity
      && (nibe1155.Some? ==> SnapshotValid(nibe1155.value))
    }

    constructor (devMode: bool)
      ensures Valid()
      ensures serverUri == if devMode then DevServerUri else ""
      ensures froniusMeterObservers == [] && froniusMeterValues == [] && froniusMeterTimer == Disarmed
      ensures monitorObservers == [] && monitorValues == [] && monitorTimer == Disarmed
      ensures nibe1155 == None
    {
      serverUri := if devMode then DevServerUri else "";
      froniusMeterObservers := [];
      froniusMeterTimer := Disarmed;
      froniusMeterValues := [];
      monitorObservers := [];
      monitorTimer := Disarmed;
      monitorValues := [];
      nibe1155 := None;
    }

    /**
     * `handleNibe1155Values(v, clear)`. A missing argument changes nothing. A
     * clearing call starts a new snapshot whose logset ids are copied from the
     * response and whose non-logset ids are classified from its complete
     * values; without clearing the id lists are kept. `ok` is false when the
     * call throws because there is no snapshot to refresh; nothing changes
     * then.
     */
    method HandleNibe1155Values(v: Option<Nibe1155Values>, clear: bool, now: int) returns (ok: bool)
      requires Valid()
      modifies this
      ensures Valid()
      ensures ok <==> v.None? || clear || old(nibe1155).Some?
      ensures v.None? || !ok ==> nibe1155 == old(nibe1155)
      ensures v.Some? && clear ==>
                nibe1155.Some?
                && ClassifiedIds(nibe1155.value.nonLogsetIds, CompleteKeys(v.value), v.value.logsetIds.GetOr([]))
                && nibe1155 == Some(Refreshed(Cleared(v.value, nibe1155.value.nonLogsetIds), v.value, now))
      ensures v.Some? && !clear && old(nibe1155).Some? ==> nibe1155 == Some(Refreshed(old(nibe1155).value, v.value, now))
      ensures froniusMeterObservers == old(froniusMeterObservers) && froniusMeterTimer == old(froniusMeterTimer)
      ensures froniusMeterValues == old(froniusMeterValues)
      ensures monitorObservers == old(monitorObservers) && monitorTimer == old(monitorTimer)
      ensures monitorValues == old(monitorValues)
    {
      if v.None? {
        return true;
      }
      var x := v.value;
      var h: HeatpumpData;
      if clear {
        var logset := x.logsetIds.GetOr([]);
        var classified: seq<int> := [];
        if x.completeValues.Some? {
          classified := NonLogsetIds(x.completeValues.value.Keys, logset);
        }
        h := Cleared(x, classified);
        ClearedRefreshValid(x, classified, now);
      } else if nibe1155.None? {
        return false;
      } else {
        h := nibe1155.value;
        RefreshKeepsValid(h, x, now);
      }
      ghost var start := h;
      h := h.(lastRefreshAt := Some(now));
      if x.controller.Some? {
        h := h.(controller := x.controller);
      }
      if x.completeValues.Some? {
        var values := OverwriteValues(h.values, x.completeValues.value);
        h := h.(values := values);
      }
      if x.simpleValues.Some? {
        var values := ApplySimpleValues(h.values, x.simpleValues.value);
        h := h.(values := values);
      }
      assert h == Refreshed(start, x, now);
      nibe1155 := Some(h);
      ok := true;
    }

    /** `froniusMeterSubscriber`: the first observer arms the refresh timer. */
    method SubscribeFroniusMeter(s: ObserverId) returns (armed: bool)
      requires Valid()
      modifies this
      ensures Valid()
      ensures froniusMeterObservers == old(froniusMeterObservers) + [s]
      ensures armed <==> old(froniusMeterObservers) == []
      ensures froniusMeterTimer == Armed(RefreshPeriodMillis)
      ensures froniusMeterValues == old(froniusMeterValues)
      ensures monitorObservers == old(monitorObservers) && monitorTimer == old(monitorTimer)
      ensures monitorValues == old(monitorValues) && nibe1155 == old(nibe1155)
    {
      froniusMeterObservers := froniusMeterObservers + [s];
      armed := |froniusMeterObservers| == 1;
      if armed {
        froniusMeterTimer := Armed(RefreshPeriodMillis);
      }
    }

    /** The teardown of a meter subscription: the last observer out disarms and empties the buffer. */
    method UnsubscribeFroniusMeter(s: ObserverId) returns (disarmed: bool)
      requires Valid()
      modifies this
      ensures Valid()
      ensures froniusMeterObservers == Splice1(old(froniusMeterObservers), IndexOf(old(froniusMeterObservers), s))
      ensures |froniusMeterObservers| == if old(froniusMeterObservers) == [] then 0 else |old(froniusMeterObservers)| - 1
      ensures disarmed <==> froniusMeterObservers == []
      ensures disarmed ==> froniusMeterTimer == Disarmed && froniusMeterValues == []
      ensures !disarmed ==> froniusMeterTimer == old(froniusMeterTimer) && froniusMeterValues == old(froniusMeterValues)
      ensures monitorObservers == old(monitorObservers) && monitorTimer == old(monitorTimer)
      ensures monitorValues == old(monitorValues) && nibe1155 == old(nibe1155)
    {
      froniusMeterObservers := Splice1(froniusMeterObservers, IndexOf(froniusMeterObservers, s));
      disarmed := |froniusMeterObservers| == 0;
      if disarmed {
        froniusMeterTimer := Disarmed;
        froniusMeterValues := [];
      }
    }

    /** The single request of `refreshFroniusMeterValues`. */
    function FroniusMeterRequest(): string
      reads this
    {
      serverUri + "/data/froniusmeter"
    }

    /**
     * The answer to a meter refresh: every observer receives the sample (null
     * on an HTTP error); a received sample is appended to the buffer, which
     * drops its oldest entry beyond 60.
     */
    method OnFroniusMeterResponse(response: Response<Option<FroniusMeterValues>>)
      returns (notified: seq<ObserverId>, payload: Option<FroniusMeterValues>)
      requires Valid()
      modifies this
      ensures Valid()
      ensures notified == froniusMeterObservers == old(froniusMeterObservers)
      ensures response.HttpError? ==> payload == None && froniusMeterValues == old(froniusMeterValues)
      ensures response.Ok? ==> payload == response.body
                               && froniusMeterValues == BoundedHistory.Push(old(froniusMeterValues), response.body, BufferCapacity)
      ensures froniusMeterTimer == old(froniusMeterTimer)
      ensures monitorObservers == old(monitorObservers) && monitorTimer == old(monitorTimer)
      ensures monitorValues == old(monitorValues) && nibe1155 == old(nibe1155)
    {
      notified := froniusMeterObservers;
      if response.HttpError? {
        payload := None;
      } else {
        payload := response.body;
        froniusMeterValues := BoundedHistory.Push(froniusMeterValues, response.body, BufferCapacity);
      }
    }

    /**
     * The URLs one monitor refresh asks for: the heat-pump snapshot with
     * controller and complete values while there is none yet, then the
     * monitor data.
     */
    function RefreshMonitorRequests(): (urls: seq<string>)
      reads this
      ensures |urls| == if nibe1155.None? then 2 else 1
      ensures urls[|urls| - 1] == serverUri + "/data/monitor"
      ensures nibe1155.None? ==>
                urls[0] == DataQueries.NibeUri(serverUri, Some(DataQueries.NibeQuery(true, true, None)))
    {
      var monitor := serverUri + "/data/monitor";
      if nibe1155.None? then [DataQueries.NibeUri(serverUri, Some(DataQueries.NibeQuery(true, true, None))), monitor]
      else [monitor]
    }

    /** `monitorSubscriber`: the first observer arms the timer and triggers one refresh at once. */
    method SubscribeMonitor(s: ObserverId) returns (armed: bool, requests: seq<string>)
      requires Valid()
      modifies this
      ensures Valid()
      ensures monitorObservers == old(monitorObservers) + [s]
      ensures armed <==> old(monitorObservers) == []
      ensures monitorTimer == Armed(RefreshPeriodMillis)
      ensures requests == if armed then RefreshMonitorRequests() else []
      ensures monitorValues == old(monitorValues) && nibe1155 == old(nibe1155)
      ensures froniusMeterObservers == old(froniusMeterObservers) && froniusMeterTimer == old(froniusMeterTimer)
      ensures froniusMeterValues == old(froniusMeterValues)
    {
      monitorObservers := monitorObservers + [s];
      armed := |monitorObservers| == 1;
      requests := [];
      if armed {
        monitorTimer := Armed(RefreshPeriodMillis);
        requests := RefreshMonitorRequests();
      }
    }

    /** The teardown of a monitor subscription: the last observer out disarms and empties the buffer. */
    method UnsubscribeMonitor(s: ObserverId) returns (disarmed: bool)
      requires Valid()
      modifies this
      ensures Valid()
      ensures monitorObservers == Splice1(old(monitorObservers), IndexOf(old(monitorObservers), s))
      ensures |monitorObservers| == if old(monitorObservers) == [] then 0 else |old(monitorObservers)| - 1
      ensures disarmed <==> monitorObservers == []
      ensures disarmed ==> monitorTimer == Disarmed && monitorValues == []
      ensures !disarmed ==> monitorTimer == old(monitorTimer) && monitorValues == old(monitorValues)
      ensures nibe1155 == old(nibe1155)
      ensures froniusMeterObservers == old(froniusMeterObservers) && froniusMeterTimer == old(froniusMeterTimer)
      ensures froniusMeterValues == old(froniusMeterValues)
    {
      monitorObservers := Splice1(monitorObservers, IndexOf(monitorObservers, s));
      disarmed := |monitorObservers| == 0;
      if disarmed {
        monitorTimer := Disarmed;
        monitorValues := [];
      }
    }

    /**
     * The answer to the monitor request of a refresh. An HTTP error, or a
     * body that is not an array of exactly one item, sends null to every
     * observer and changes nothing. Otherwise the item's heat-pump part is
     * merged without clearing; when that throws (a null item, or no snapshot
     * yet) the callback ends there: nobody is notified and nothing is
     * buffered. Otherwise every observer receives the record and the buffer
     * takes it.
     */
    method OnMonitorResponse(response: Response<MonitorBody>, now: int)
      returns (notified: seq<ObserverId>, payload: Option<MonitorRecordData>)
      requires Valid()
      modifies this
      ensures Valid()
      ensures monitorObservers == old(monitorObservers) && monitorTimer == old(monitorTimer)
      ensures froniusMeterObservers == old(froniusMeterObservers) && froniusMeterTimer == old(froniusMeterTimer)
      ensures froniusMeterValues == old(froniusMeterValues)
      ensures !OneItem(response) ==>
                notified == monitorObservers && payload == None
                && monitorValues == old(monitorValues) && nibe1155 == old(nibe1155)
      ensures OneItem(response) && response.body.items[0].None? ==>
                notified == [] && payload == None
                && monitorValues == old(monitorValues) && nibe1155 == old(nibe1155)
      ensures OneItem(response) && response.body.items[0].Some? ==>
                var d := response.body.items[0].value;
                if d.heatpump.Some? && old(nibe1155).None? then
                  notified == [] && payload == None
                  && monitorValues == old(monitorValues) && nibe1155 == old(nibe1155)
                else
                  notified == monitorObservers && payload == Some(d)
                  && monitorValues == BoundedHistory.Push(old(monitorValues), d, BufferCapacity)
                  && nibe1155 == (if d.heatpump.Some? then Some(Refreshed(old(nibe1155).value, d.heatpump.value, now))
                                  else old(nibe1155))
    {
      if !OneItem(response) {
        return monitorObservers, None;
      }
      var item := response.body.items[0];
      if item.None? {
        return [], None;
      }
      var d := item.value;
      var ok := HandleNibe1155Values(d.heatpump, false, now);
      if !ok {
        return [], None;
      }
      notified := monitorObservers;
      payload := Some(d);
      monitorValues := BoundedHistory.Push(monitorValues, d, BufferCapacity);
    }
  }

  /** The monitor body passes the check `Array.isArray(v) && v.length === 1`. */
  predicate OneItem(response: Response<MonitorBody>) {
    response.Ok? && response.body.Items? && |response.body.items| == 1
  }
}
