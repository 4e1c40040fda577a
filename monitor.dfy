/**
 * The server-side monitor: one polling tick gathers the inverter blocks (when
 * they are due), the metering path and the auxiliary Saia meter, corrects the
 * daily offsets and appends one record to a 60-entry history.
 *
 * Clock readings, weekdays and device readings are parameters. The blocks the
 * inverter driver caches between ticks are passed in as `cache` and handed
 * back, updated, as `cache'`.
 */
module Monitor {
  import opened Wrappers
  import BoundedHistory
  import Sets

  const HistoryCapacity: nat := 60
  const DefaultPeriodMillis: int := 1000

  /** A local weekday as returned by `Date.getDay()`. */
  type Weekday = d: int | 0 <= d <= 6

  /** A wall-clock reading: milliseconds since the epoch and its local weekday. */
  datatype Instant = Instant(millis: int, weekday: Weekday)

  /** Register maps are keyed by the numeric register address. */
  type Address = int
  type Registers = map<Address, int>

  datatype FroniusRegister = FroniusRegister(regs: Registers, siteEnergyDay: real)
  datatype Inverter = Inverter(regs: Registers)
  datatype InverterExtension = InverterExtension(createdAt: Instant, string1Power: real, regs: Registers)
  datatype Storage = Storage(regs: Registers)
  datatype Nameplate = Nameplate(regs: Registers)
  datatype Meter = Meter(regs: Registers)
  datatype GridMeterValues = GridMeterValues(regs: Registers)
  datatype SaiaMeter = SaiaMeter(de1: real)

  /** The blocks the inverter driver holds between ticks (`_symo.froniusRegister`, ...). */
  datatype SymoCache = SymoCache(
    froniusRegister: Option<FroniusRegister>,
    inverter: Option<Inverter>,
    nameplate: Option<Nameplate>,
    inverterExtension: Option<InverterExtension>,
    storage: Option<Storage>,
    meter: Option<Meter>)

  /** The outcome of the four concurrent block reads; `None` is a read that rejected. */
  datatype InverterPoll = InverterPoll(
    froniusRegister: Option<FroniusRegister>,
    inverter: Option<Inverter>,
    inverterExtension: Option<InverterExtension>,
    storage: Option<Storage>)
  {
    predicate Complete() {
      froniusRegister.Some? && inverter.Some? && inverterExtension.Some? && storage.Some?
    }
  }

  /**
   * What the devices deliver during one tick: the inverter poll (consulted only
   * when it is due), the integrated grid meter if one is installed, the
   * inverter's own meter read, and the Saia meter read. For the two reads,
   * `None` is a rejected promise; for the Saia meter it also covers a read that
   * delivered nothing.
   */
  datatype Readings = Readings(
    inverterPoll: InverterPoll,
    gridMeter: Option<GridMeterValues>,
    symoMeter: Option<Meter>,
    saia: Option<SaiaMeter>)

  datatype Calculated = Calculated(pvSouthEnergyDaily: real, saiaDe1Offset: real, froniusSiteDailyOffset: real)

  /** The data from which one monitor record is created. */
  datatype MonitorRecord = MonitorRecord(
    froniusRegister: FroniusRegister,
    inverter: Option<Inverter>,
    nameplate: Option<Nameplate>,
    inverterExtension: Option<InverterExtension>,
    storage: Option<Storage>,
    gridmeter: Option<GridMeterValues>,
    meter: Option<Meter>,
    extPvMeter: seq<SaiaMeter>,
    calculated: Calculated)

  /** Why a tick produced no record. `NoPreviousPoll` escapes the tick; the others are caught and logged. */
  datatype TickFailure = NoPreviousPoll | InverterReadFailed | MissingPreviousBlock | MeterReadFailed | NoSiteEnergy

  datatype TickOutcome = Recorded(record: MonitorRecord, registersChanged: bool) | Failed(failure: TickFailure)

  // ---------------------------------------------------------------- start-up

  datatype TimeOffset = TimeOffset(sec: int, ms: int)

  /** The `monitor` configuration; an absent or zero period counts as unset. */
  datatype MonitorConfig = MonitorConfig(
    disabled: bool,
    periodMillis: Option<int>,
    timeOffset: Option<TimeOffset>,
    froniusPeriodMillis: Option<int>)

  /** A configured period, or 1000 ms when it is missing or zero (both are falsy). */
  function PeriodOrDefault(p: Option<int>): (r: int)
    ensures r != 0
    ensures p.Some? && p.value != 0 ==> r == p.value
    ensures p.None? || p.value == 0 ==> r == DefaultPeriodMillis
  {
    if p.None? || p.value == 0 then DefaultPeriodMillis else p.value
  }

  /** Start-up aligns the first poll only for a positive target second and a non-negative millisecond. */
  predicate AlignmentConfigured(t: Option<TimeOffset>) {
    t.Some? && t.value.sec > 0 && t.value.ms >= 0
  }

  /** `Math.floor(a / b)` for integers; Dafny's `/` is Euclidean, so a negative divisor is turned around. */
  function FloorDiv(a: int, b: int): int
    requires b != 0
  {
    if b > 0 then a / b else (-a) / (-b)
  }

  /** `dt - Math.floor(dt / p) * p`: the delay until the next aligned instant, reduced modulo the period. */
  function AlignmentDelay(dt: int, p: int): int
    requires p != 0
  {
    dt - FloorDiv(dt, p) * p
  }

  /**
   * For a positive period the reduced delay is the remainder of `dt` modulo
   * the period, so it lies in `[0, p)`; for a negative period it lies in `(p, 0]`.
   */
  lemma AlignmentDelayInPeriod(dt: int, p: int)
    requires p != 0
    ensures p > 0 ==> AlignmentDelay(dt, p) == dt % p && 0 <= AlignmentDelay(dt, p) < p
    ensures p < 0 ==> AlignmentDelay(dt, p) == -((-dt) % (-p)) && p < AlignmentDelay(dt, p) <= 0
  {
    if p > 0 {
      assert dt == (dt / p) * p + dt % p;
    } else {
      var n, m := -dt, -p;
      var q := n / m;
      assert n == q * m + n % m;
      assert q * p == -(q * m);
      assert AlignmentDelay(dt, p) == dt - q * p;
    }
  }

  // ---------------------------------------------------------------- one tick

  predicate DayChanged(last: Instant, now: Instant) {
    last.weekday != now.weekday
  }

  /** The inverter blocks are due once strictly more than their period has passed since the last inverter poll. */
  predicate PollDue(last: Instant, now: Instant, froniusPeriodMillis: int) {
    now.millis - last.millis > froniusPeriodMillis
  }

  /**
   * The PV-south daily energy after reading a new inverter extension block:
   * `power * dt / 1000 / 3600` Wh is added when the block is newer than the
   * previous one, and it starts the total afresh when the two blocks were taken
   * on different weekdays.
   */
  function PvSouthStep(total: real, previous: Option<InverterExtension>, current: InverterExtension): (r: real)
    ensures previous.None? ==> r == total
    ensures previous.Some? && current.createdAt.millis <= previous.value.createdAt.millis ==> r == total
    ensures previous.Some? && current.createdAt.millis > previous.value.createdAt.millis ==>
              var de := EnergyIncrement(current.string1Power, current.createdAt.millis - previous.value.createdAt.millis);
              r == if current.createdAt.weekday != previous.value.createdAt.weekday then de else total + de
  {
    if previous.None? then total
    else
      var dt := current.createdAt.millis - previous.value.createdAt.millis;
      if dt > 0 then
        var de := EnergyIncrement(current.string1Power, dt);
        if current.createdAt.weekday != previous.value.createdAt.weekday then de else total + de
      else total
  }

  /** Energy in Wh of `power` W over `dt` ms. */
  function EnergyIncrement(power: real, dt: int): real {
    power * (dt as real) / 1000.0 / 3600.0
  }

  /** With non-negative power the daily PV energy never becomes negative and grows within a day. */
  lemma PvSouthStepMonotone(total: real, previous: Option<InverterExtension>, current: InverterExtension)
    requires total >= 0.0 && current.string1Power >= 0.0
    ensures PvSouthStep(total, previous, current) >= 0.0
    ensures previous.Some? && current.createdAt.weekday == previous.value.createdAt.weekday ==>
              PvSouthStep(total, previous, current) >= total
  {
    if previous.Some? {
      var dt := current.createdAt.millis - previous.value.createdAt.millis;
      if dt > 0 {
        assert current.string1Power * (dt as real) >= 0.0;
      }
    }
  }

  /** Counter-decrease clamp: a baseline above the current counter is reset to zero. */
  function Clamp(offset: real, counter: real): (r: real)
    ensures (r == offset && offset <= counter) || r == 0.0
  {
    if offset > counter then 0.0 else offset
  }

  /**
   * The record's calculated values: on a day change both baselines restart at
   * the current counters; otherwise they are carried over; a baseline that
   * exceeds its counter becomes zero.
   */
  function CorrectOffsets(dayChanged: bool, previous: Calculated, pvSouth: real, de1: real, siteEnergyDay: real): (c: Calculated)
    ensures c.pvSouthEnergyDaily == pvSouth
    ensures dayChanged ==> c.saiaDe1Offset == de1 && c.froniusSiteDailyOffset == siteEnergyDay
    ensures !dayChanged ==> c.saiaDe1Offset == (if previous.saiaDe1Offset <= de1 then previous.saiaDe1Offset else 0.0)
    ensures !dayChanged ==>
              c.froniusSiteDailyOffset == (if previous.froniusSiteDailyOffset <= siteEnergyDay then previous.froniusSiteDailyOffset else 0.0)
    ensures (c.saiaDe1Offset <= de1 || c.saiaDe1Offset == 0.0)
    ensures (c.froniusSiteDailyOffset <= siteEnergyDay || c.froniusSiteDailyOffset == 0.0)
  {
    var saia := if dayChanged then de1 else previous.saiaDe1Offset;
    var site := if dayChanged then siteEnergyDay else previous.froniusSiteDailyOffset;
    Calculated(pvSouth, Clamp(saia, de1), Clamp(site, siteEnergyDay))
  }

  /**
   * The site-energy baselines of successive ticks, starting from `previous`,
   * for the counters `counters` and the day-change flags `dayChanges`.
   */
  function SiteOffsets(previous: real, dayChanges: seq<bool>, counters: seq<real>): (r: seq<real>)
    requires |dayChanges| == |counters|
    ensures |r| == |counters|
    decreases |counters|
  {
    if counters == [] then []
    else
      var o := Clamp(if dayChanges[0] then counters[0] else previous, counters[0]);
      [o] + SiteOffsets(o, dayChanges[1..], counters[1..])
  }

  /**
   * After a day change, while the day stays the same and the counter does not
   * decrease, the baseline stays at the counter of the day-change tick, so the
   * daily delta starts at zero and follows the counter.
   */
  lemma {:induction false} BaselineFixedWithinDay(previous: real, dayChanges: seq<bool>, counters: seq<real>, i: nat)
    requires |dayChanges| == |counters| && i < |counters|
    requires dayChanges[0]
    requires forall k :: 0 < k < |dayChanges| ==> !dayChanges[k]
    requires forall k :: 0 < k < |counters| ==> counters[k - 1] <= counters[k]
    ensures SiteOffsets(previous, dayChanges, counters)[i] == counters[0]
    ensures counters[i] - SiteOffsets(previous, dayChanges, counters)[i] >= 0.0
    decreases i
  {
    if i > 0 {
      var o := counters[0];
      assert SiteOffsets(previous, dayChanges, counters) == [o] + SiteOffsets(o, dayChanges[1..], counters[1..]);
      CarriedBaseline(o, dayChanges[1..], counters[1..], i - 1);
    }
  }

  /** Without day changes a baseline at or below a non-decreasing counter is carried forward unchanged. */
  lemma {:induction false} CarriedBaseline(o: real, dayChanges: seq<bool>, counters: seq<real>, i: nat)
    requires |dayChanges| == |counters| && i < |counters|
    requires forall k :: 0 <= k < |dayChanges| ==> !dayChanges[k]
    requires |counters| > 0 ==> o <= counters[0]
    requires forall k :: 0 < k < |counters| ==> counters[k - 1] <= counters[k]
    ensures SiteOffsets(o, dayChanges, counters)[i] == o
    ensures o <= counters[i]
    decreases i
  {
    assert SiteOffsets(o, dayChanges, counters) == [o] + SiteOffsets(o, dayChanges[1..], counters[1..]);
    if i > 0 {
      CarriedBaseline(o, dayChanges[1..], counters[1..], i - 1);
    }
  }

  /**
   * The calculated values stored by successive recorded ticks, each one
   * `CorrectOffsets` of the one before: the day-change flags, the daily PV
   * energy, the saia counter and the site-energy counter of each tick.
   */
  function CalculatedRun(previous: Calculated, dayChanges: seq<bool>, pvSouth: seq<real>, de1: seq<real>, counters: seq<real>): (r: seq<Calculated>)
    requires |dayChanges| == |pvSouth| == |de1| == |counters|
    ensures |r| == |counters|
    decreases |counters|
  {
    if counters == [] then []
    else
      var c := CorrectOffsets(dayChanges[0], previous, pvSouth[0], de1[0], counters[0]);
      [c] + CalculatedRun(c, dayChanges[1..], pvSouth[1..], de1[1..], counters[1..])
  }

  /** The site-energy baselines of a run of ticks are `SiteOffsets` of its counters, whatever the other readings. */
  lemma {:induction false} RunSiteOffsets(previous: Calculated, dayChanges: seq<bool>, pvSouth: seq<real>, de1: seq<real>, counters: seq<real>)
    requires |dayChanges| == |pvSouth| == |de1| == |counters|
    ensures forall i :: 0 <= i < |counters| ==>
              CalculatedRun(previous, dayChanges, pvSouth, de1, counters)[i].froniusSiteDailyOffset ==
              SiteOffsets(previous.froniusSiteDailyOffset, dayChanges, counters)[i]
    decreases |counters|
  {
    if counters != [] {
      var c := CorrectOffsets(dayChanges[0], previous, pvSouth[0], de1[0], counters[0]);
      RunSiteOffsets(c, dayChanges[1..], pvSouth[1..], de1[1..], counters[1..]);
      var run := CalculatedRun(previous, dayChanges, pvSouth, de1, counters);
      var offsets := SiteOffsets(previous.froniusSiteDailyOffset, dayChanges, counters);
      assert run == [c] + CalculatedRun(c, dayChanges[1..], pvSouth[1..], de1[1..], counters[1..]);
      assert offsets == [c.froniusSiteDailyOffset] + SiteOffsets(c.froniusSiteDailyOffset, dayChanges[1..], counters[1..]);
    }
  }

  /** A counter that falls below the stored baseline resets the baseline to zero, so the delta is the raw counter. */
  lemma CounterDecreaseResetsBaseline(previous: Calculated, pvSouth: real, de1: real, siteEnergyDay: real)
    requires previous.froniusSiteDailyOffset > siteEnergyDay
    ensures CorrectOffsets(false, previous, pvSouth, de1, siteEnergyDay).froniusSiteDailyOffset == 0.0
    ensures siteEnergyDay - CorrectOffsets(false, previous, pvSouth, de1, siteEnergyDay).froniusSiteDailyOffset == siteEnergyDay
  {
  }

  // ---------------------------------------------------------------- diagnostic register diffs

  datatype BlockKind = FroniusRegisterBlock | InverterBlock | InverterExtensionBlock | StorageBlock

  /** The address filter of each diff loop, written as the negation of the loop's `continue` condition. */
  predicate Admits(kind: BlockKind, addr: Address) {
    match kind
    case FroniusRegisterBlock => !(addr < 500 || addr > 510)
    case InverterBlock => !(addr < 40072 || addr == 40100 || addr == 40102 || addr >= 40110)
    case InverterExtensionBlock => !(addr < 11 || addr == 25 || addr > 48)
    case StorageBlock => !(addr != 9 && addr == 12)
  }

  /** The four filters as ranges. */
  lemma AdmittedRanges(addr: Address)
    ensures Admits(FroniusRegisterBlock, addr) <==> 500 <= addr <= 510
    ensures Admits(InverterBlock, addr) <==> 40072 <= addr < 40110 && addr != 40100 && addr != 40102
    ensures Admits(InverterExtensionBlock, addr) <==> 11 <= addr <= 48 && addr != 25
    ensures Admits(StorageBlock, addr) <==> addr != 12
  {
  }

  /** The value at `addr`, or `None` for JavaScript's `undefined`. */
  function Lookup(regs: Registers, addr: Address): Option<int> {
    if addr in regs then Some(regs[addr]) else None
  }

  /** A diff loop either runs through (reporting whether something changed) or dereferences a missing previous block. */
  datatype DiffResult = Fault | Diff(changed: bool)

  /**
   * The diff over the keys `keys`, admitted by the filter of `kind`: without a
   * previous block, any admitted key faults; otherwise a change is reported
   * iff some admitted key has a different value (or presence) in the two maps.
   */
  function BlockDiff(keys: set<Address>, kind: BlockKind, previous: Option<Registers>, current: Registers): DiffResult {
    if previous.None? then
      if exists a :: a in keys && Admits(kind, a) then Fault else Diff(false)
    else
      Diff(exists a :: a in keys && Admits(kind, a) && Lookup(previous.value, a) != Lookup(current, a))
  }

  /** Changing a register the filter does not admit never changes the diff. */
  lemma UnadmittedChangesIgnored(keys: set<Address>, kind: BlockKind, previous: Option<Registers>,
                                 current: Registers, addr: Address, v: int)
    requires !Admits(kind, addr) && addr in keys
    ensures BlockDiff(keys, kind, previous, current[addr := v]) == BlockDiff(keys, kind, previous, current)
  {
    if previous.Some? {
      var c' := current[addr := v];
      assert forall a :: a in keys && Admits(kind, a) ==> Lookup(c', a) == Lookup(current, a);
    }
  }

  /** One diff loop: walks the keys, flags a change, and fails on a missing previous block. */
  method DiffBlock(keys: set<Address>, kind: BlockKind, previous: Option<Registers>, current: Registers)
    returns (r: DiffResult)
    ensures r == BlockDiff(keys, kind, previous, current)
  {
    var rest := keys;
    var done: set<Address> := {};
    var changed := false;
    while rest != {}
      invariant rest + done == keys && rest !! done
      invariant previous.None? ==> !changed && forall a :: a in done ==> !Admits(kind, a)
      invariant previous.Some? ==> (changed <==> exists a :: a in done && Admits(kind, a) && Lookup(previous.value, a) != Lookup(current, a))
      decreases rest
    {
      Sets.NonEmptyHasMember(rest);
      var addr :| addr in rest;
      rest, done := rest - {addr}, done + {addr};
      if Admits(kind, addr) {
        if previous.None? {
          return Fault;
        }
        if Lookup(previous.value, addr) != Lookup(current, addr) {
          changed := true;
        }
      }
    }
    return Diff(changed);
  }

  function RegsOf<B>(block: Option<B>, regs: B -> Registers): Option<Registers> {
    if block.None? then None else Some(regs(block.value))
  }

  /**
   * The fronius-register diff as the source writes it: it walks the keys of
   * the fronius register block but compares the inverter's old and new maps.
   */
  function FroniusRegisterDiffAsWritten(froReg: FroniusRegister, previousInverter: Option<Inverter>, inverter: Inverter): (r: DiffResult)
    ensures previousInverter.Some? ==>
              (r == Diff(true) <==> exists a :: a in froReg.regs && 500 <= a <= 510 &&
                                       Lookup(previousInverter.value.regs, a) != Lookup(inverter.regs, a))
  {
    BlockDiff(froReg.regs.Keys, FroniusRegisterBlock, RegsOf(previousInverter, (i: Inverter) => i.regs), inverter.regs)
  }

  /** The fronius-register diff as intended: old and new fronius register blocks. */
  function FroniusRegisterDiff(previous: Option<FroniusRegister>, current: FroniusRegister): (r: DiffResult)
    ensures previous.Some? ==>
              (r == Diff(true) <==> exists a :: a in current.regs && 500 <= a <= 510 &&
                                       Lookup(previous.value.regs, a) != Some(current.regs[a]))
  {
    BlockDiff(current.regs.Keys, FroniusRegisterBlock, RegsOf(previous, (f: FroniusRegister) => f.regs), current.regs)
  }

  /** A change of fronius register 500 with an unchanged inverter block goes unnoticed by the loop as written. */
  lemma FroniusRegisterDiffMissesChange()
    ensures var before := FroniusRegister(map[500 := 1], 0.0);
            var after := FroniusRegister(map[500 := 2], 0.0);
            var inv := Inverter(map[]);
            FroniusRegisterDiffAsWritten(after, Some(inv), inv) == Diff(false) &&
            FroniusRegisterDiff(Some(before), after) == Diff(true)
  {
    var before := FroniusRegister(map[500 := 1], 0.0);
    var after := FroniusRegister(map[500 := 2], 0.0);
    assert 500 in after.regs && Lookup(before.regs, 500) != Lookup(after.regs, 500);
  }

  /**
   * The change flag of the first diff loop as intended: some admitted fronius
   * register differs from the previous fronius register block, and without a
   * previous block every admitted register counts as new.
   */
  function FroniusRegisterChanged(previous: Option<FroniusRegister>, current: FroniusRegister): (b: bool)
    ensures b <==> exists a :: a in current.regs && 500 <= a <= 510 &&
                             (previous.None? || Lookup(previous.value.regs, a) != Some(current.regs[a]))
    ensures previous.Some? ==> (b <==> FroniusRegisterDiff(previous, current) == Diff(true))
  {
    var before := if previous.Some? then previous.value.regs else map[];
    assert forall a :: previous.None? ==> Lookup(before, a) == None;
    BlockDiff(current.regs.Keys, FroniusRegisterBlock, Some(before), current.regs).changed
  }

  /**
   * The four diffs of one inverter poll against the previously cached blocks.
   * The first loop dereferences the previous inverter block (as the source
   * does), so it faults exactly when that block is missing and an admitted
   * fronius register is present; its flag is the intended fronius-register
   * comparison. The first fault wins, otherwise the flags are or-ed.
   */
  function PollDiff(cache: SymoCache, fro: FroniusRegister, inv: Inverter, ext: InverterExtension, sto: Storage): (r: DiffResult)
    ensures r == Fault <==>
              || (cache.inverter.None? && exists a :: a in fro.regs && 500 <= a <= 510)
              || (cache.inverter.None? && exists a :: a in inv.regs && Admits(InverterBlock, a))
              || (cache.inverterExtension.None? && exists a :: a in ext.regs && Admits(InverterExtensionBlock, a))
              || (cache.storage.None? && exists a :: a in sto.regs && a != 12)
    ensures cache.inverter.Some? && cache.inverterExtension.Some? && cache.storage.Some? ==> r.Diff?
    ensures r.Diff? ==>
              (r.changed <==>
                 || FroniusRegisterChanged(cache.froniusRegister, fro)
                 || (cache.inverter.Some? && exists a :: a in inv.regs && Admits(InverterBlock, a) &&
                                                        Lookup(cache.inverter.value.regs, a) != Some(inv.regs[a]))
                 || (cache.inverterExtension.Some? && exists a :: a in ext.regs && Admits(InverterExtensionBlock, a) &&
                                                                 Lookup(cache.inverterExtension.value.regs, a) != Some(ext.regs[a]))
                 || (cache.storage.Some? && exists a :: a in sto.regs && a != 12 &&
                                                       Lookup(cache.storage.value.regs, a) != Some(sto.regs[a])))
  {
    var d1 := FroniusRegisterDiffAsWritten(fro, cache.inverter, inv);
    var d2 := BlockDiff(inv.regs.Keys, InverterBlock, RegsOf(cache.inverter, (i: Inverter) => i.regs), inv.regs);
    var d3 := BlockDiff(ext.regs.Keys, InverterExtensionBlock, RegsOf(cache.inverterExtension, (e: InverterExtension) => e.regs), ext.regs);
    var d4 := BlockDiff(sto.regs.Keys, StorageBlock, RegsOf(cache.storage, (s: Storage) => s.regs), sto.regs);
    if d1.Fault? || d2.Fault? || d3.Fault? || d4.Fault? then Fault
    else Diff(FroniusRegisterChanged(cache.froniusRegister, fro) || d2.changed || d3.changed || d4.changed)
  }

  /** The cache after the inverter poll: each block whose read succeeded replaces the cached one. */
  function AfterPoll(cache: SymoCache, poll: InverterPoll): (c: SymoCache)
    ensures c.nameplate == cache.nameplate && c.meter == cache.meter
    ensures poll.Complete() ==> c.froniusRegister == poll.froniusRegister && c.inverter == poll.inverter &&
                                c.inverterExtension == poll.inverterExtension && c.storage == poll.storage
  {
    cache.(froniusRegister := if poll.froniusRegister.Some? then poll.froniusRegister else cache.froniusRegister,
           inverter := if poll.inverter.Some? then poll.inverter else cache.inverter,
           inverterExtension := if poll.inverterExtension.Some? then poll.inverterExtension else cache.inverterExtension,
           storage := if poll.storage.Some? then poll.storage else cache.storage)
  }

  /** The tick got past the inverter poll: nothing was due, or all four reads succeeded and all diffs ran through. */
  predicate PastInverterPoll(due: bool, cache: SymoCache, poll: InverterPoll) {
    !due || (poll.Complete() &&
             !PollDiff(cache, poll.froniusRegister.value, poll.inverter.value, poll.inverterExtension.value, poll.storage.value).Fault?)
  }

  /** The metering reads of the tick succeeded: the Saia meter, and the inverter's meter when no grid meter exists. */
  predicate MetersRead(r: Readings) {
    r.saia.Some? && (r.gridMeter.Some? || r.symoMeter.Some?)
  }

  // ---------------------------------------------------------------- the scheduler

  datatype Timer = NoTimer | Interval(periodMillis: int)

  class Monitor {
    const disabled: bool
    const periodMillis: int
    const froniusPeriodMillis: int
    const timeOffset: Option<TimeOffset>

    /** The repeating tick (`_timer`). */
    var timer: Timer
    /** Alignment timeouts scheduled by `Start` that have not fired yet. */
    var pendingAlignments: nat
    var history: seq<MonitorRecord>
    var lastFroniusPoll: Option<Instant>
    var lastCalculated: Calculated
    var pvSouthEnergyDaily: real

    ghost predicate Valid()
      reads this
    {
      periodMillis != 0 && froniusPeriodMillis != 0 && |history| <= HistoryCapacity
    }

    constructor (config: MonitorConfig)
      ensures Valid()
      ensures disabled == config.disabled && timeOffset == config.timeOffset
      ensures periodMillis == PeriodOrDefault(config.periodMillis)
      ensures froniusPeriodMillis == PeriodOrDefault(config.froniusPeriodMillis)
      ensures timer == NoTimer && pendingAlignments == 0 && history == []
      ensures lastFroniusPoll == None && lastCalculated == Calculated(0.0, 0.0, 0.0) && pvSouthEnergyDaily == 0.0
    {
      disabled := config.disabled;
      timeOffset := config.timeOffset;
      periodMillis := PeriodOrDefault(config.periodMillis);
      froniusPeriodMillis := PeriodOrDefault(config.froniusPeriodMillis);
      timer := NoTimer;
      pendingAlignments := 0;
      history := [];
      lastFroniusPoll := None;
      lastCalculated := Calculated(0.0, 0.0, 0.0);
      pvSouthEnergyDaily := 0.0;
    }

    /**
     * `start`: a disabled monitor does nothing; with an alignment offset a
     * timeout of the reduced delay is scheduled (`rawDelay` is the distance
     * from now to the target second of the next minute); otherwise the
     * repeating tick is armed at once.
     */
    method Start(rawDelay: int) returns (delay: Option<int>)
      requires Valid()
      modifies this
      ensures Valid()
      ensures history == old(history) && lastFroniusPoll == old(lastFroniusPoll)
      ensures lastCalculated == old(lastCalculated) && pvSouthEnergyDaily == old(pvSouthEnergyDaily)
      ensures disabled ==> delay == None && timer == old(timer) && pendingAlignments == old(pendingAlignments)
      ensures !disabled && AlignmentConfigured(timeOffset) ==>
                delay == Some(AlignmentDelay(rawDelay, froniusPeriodMillis)) &&
                timer == old(timer) && pendingAlignments == old(pendingAlignments) + 1
      ensures !disabled && !AlignmentConfigured(timeOffset) ==>
                delay == None && timer == Interval(periodMillis) && pendingAlignments == old(pendingAlignments)
    {
      delay := None;
      if disabled {
        return;
      }
      if AlignmentConfigured(timeOffset) {
        var dt := rawDelay;
        dt := dt - FloorDiv(dt, froniusPeriodMillis) * froniusPeriodMillis;
        pendingAlignments := pendingAlignments + 1;
        delay := Some(dt);
      } else {
        timer := Interval(periodMillis);
      }
    }

    /** The alignment timeout fires: the poll baseline becomes `now` and the repeating tick is armed. */
    method FireAlignment(now: Instant)
      requires Valid() && pendingAlignments > 0
      modifies this
      ensures Valid()
      ensures lastFroniusPoll == Some(now) && timer == Interval(periodMillis)
      ensures pendingAlignments == old(pendingAlignments) - 1
      ensures history == old(history) && lastCalculated == old(lastCalculated) && pvSouthEnergyDaily == old(pvSouthEnergyDaily)
    {
      lastFroniusPoll := Some(now);
      pendingAlignments := pendingAlignments - 1;
      timer := Interval(periodMillis);
    }

    /** `stop` clears the repeating tick if there is one; when there is none it changes nothing. */
    method Stop()
      modifies this
      ensures timer == NoTimer
      ensures old(timer) == NoTimer ==> unchanged(this)
      ensures pendingAlignments == old(pendingAlignments) && history == old(history)
      ensures lastFroniusPoll == old(lastFroniusPoll) && lastCalculated == old(lastCalculated)
      ensures pvSouthEnergyDaily == old(pvSouthEnergyDaily)
    {
      if timer != NoTimer {
        timer := NoTimer;
      }
    }

    /** `latest`: the newest record, or none exactly when the history is empty. */
    function Latest(): (r: Option<MonitorRecord>)
      reads this
      ensures r.None? <==> history == []
      ensures r.Some? ==> r.value == history[|history| - 1]
    {
      if |history| > 0 then Some(history[|history| - 1]) else None
    }

    /** One `handleTimerEvent`. */
    method Tick(now: Instant, cache: SymoCache, readings: Readings) returns (outcome: TickOutcome, cache': SymoCache)
      requires Valid()
      modifies this
      ensures Valid()
      ensures timer == old(timer) && pendingAlignments == old(pendingAlignments)
      // no poll baseline: `_lastFroniusPoll.getDay()` throws before anything happens
      ensures old(lastFroniusPoll).None? ==>
                outcome == Failed(NoPreviousPoll) && cache' == cache && lastFroniusPoll == old(lastFroniusPoll) &&
                pvSouthEnergyDaily == old(pvSouthEnergyDaily)
      // poll gating
      ensures old(lastFroniusPoll).Some? ==>
                lastFroniusPoll == if PollDue(old(lastFroniusPoll).value, now, froniusPeriodMillis)
                                   then Some(now) else old(lastFroniusPoll)
      // PV-south energy
      ensures old(lastFroniusPoll).Some? ==>
                pvSouthEnergyDaily ==
                  if PollDue(old(lastFroniusPoll).value, now, froniusPeriodMillis) && readings.inverterPoll.Complete()
                  then PvSouthStep(old(pvSouthEnergyDaily), cache.inverterExtension, readings.inverterPoll.inverterExtension.value)
                  else old(pvSouthEnergyDaily)
      // where the tick stops
      ensures old(lastFroniusPoll).Some? ==>
                var due := PollDue(old(lastFroniusPoll).value, now, froniusPeriodMillis);
                var poll := readings.inverterPoll;
                && (due && !poll.Complete() ==> outcome == Failed(InverterReadFailed))
                && (due && !PastInverterPoll(due, cache, poll) && poll.Complete() ==> outcome == Failed(MissingPreviousBlock))
                && (PastInverterPoll(due, cache, poll) && !MetersRead(readings) ==> outcome == Failed(MeterReadFailed))
                && (PastInverterPoll(due, cache, poll) && MetersRead(readings) ==>
                      (outcome.Recorded? <==> cache'.froniusRegister.Some?) &&
                      (outcome.Failed? ==> outcome == Failed(NoSiteEnergy)))
      // the device cache
      ensures old(lastFroniusPoll).Some? ==>
                var due := PollDue(old(lastFroniusPoll).value, now, froniusPeriodMillis);
                var polled := if due then AfterPoll(cache, readings.inverterPoll) else cache;
                cache' == if PastInverterPoll(due, cache, readings.inverterPoll) && MetersRead(readings) && readings.gridMeter.None?
                          then polled.(meter := readings.symoMeter) else polled
      // the record
      ensures outcome.Recorded? ==>
                var r := outcome.record;
                && old(lastFroniusPoll).Some?
                && Some(r.froniusRegister) == cache'.froniusRegister && r.inverter == cache'.inverter
                && r.nameplate == cache'.nameplate && r.inverterExtension == cache'.inverterExtension
                && r.storage == cache'.storage
                && r.gridmeter == readings.gridMeter
                && r.meter == (if readings.gridMeter.Some? then None else readings.symoMeter)
                && (r.gridmeter.Some? <==> r.meter.None?)
                && r.extPvMeter == [readings.saia.value]
                && r.calculated == CorrectOffsets(DayChanged(old(lastFroniusPoll).value, now), old(lastCalculated),
                                                  pvSouthEnergyDaily, readings.saia.value.de1, r.froniusRegister.siteEnergyDay)
                && (outcome.registersChanged <==>
                      PollDue(old(lastFroniusPoll).value, now, froniusPeriodMillis) &&
                      PollDiff(cache, readings.inverterPoll.froniusRegister.value, readings.inverterPoll.inverter.value,
                               readings.inverterPoll.inverterExtension.value, readings.inverterPoll.storage.value) == Diff(true))
      // the history and the stored offsets
      ensures outcome.Recorded? ==>
                history == BoundedHistory.Push(old(history), outcome.record, HistoryCapacity) &&
                lastCalculated == outcome.record.calculated
      ensures outcome.Failed? ==> history == old(history) && lastCalculated == old(lastCalculated)
    {
      cache' := cache;
      if lastFroniusPoll.None? {
        return Failed(NoPreviousPoll), cache';
      }
      var last := lastFroniusPoll.value;
      var dayHasChanged := DayChanged(last, now);
      var hasChanged := false;
      if PollDue(last, now, froniusPeriodMillis) {
        lastFroniusPoll := Some(now);
        var poll := readings.inverterPoll;
        cache' := AfterPoll(cache, poll);
        if !poll.Complete() {
          return Failed(InverterReadFailed), cache';
        }
        var fro, inv, ext, sto := poll.froniusRegister.value, poll.inverter.value, poll.inverterExtension.value, poll.storage.value;
        pvSouthEnergyDaily := PvSouthStep(pvSouthEnergyDaily, cache.inverterExtension, ext);
        // the first loop reads the previous inverter block; its flag is the intended comparison
        var d := DiffBlock(fro.regs.Keys, FroniusRegisterBlock, RegsOf(cache.inverter, (i: Inverter) => i.regs), inv.regs);
        if d.Fault? {
          return Failed(MissingPreviousBlock), cache';
        }
        hasChanged := hasChanged || FroniusRegisterChanged(cache.froniusRegister, fro);
        d := DiffBlock(inv.regs.Keys, InverterBlock, RegsOf(cache.inverter, (i: Inverter) => i.regs), inv.regs);
        if d.Fault? {
          return Failed(MissingPreviousBlock), cache';
        }
        hasChanged := hasChanged || d.changed;
        d := DiffBlock(ext.regs.Keys, InverterExtensionBlock, RegsOf(cache.inverterExtension, (e: InverterExtension) => e.regs), ext.regs);
        if d.Fault? {
          return Failed(MissingPreviousBlock), cache';
        }
        hasChanged := hasChanged || d.changed;
        d := DiffBlock(sto.regs.Keys, StorageBlock, RegsOf(cache.storage, (s: Storage) => s.regs), sto.regs);
        if d.Fault? {
          return Failed(MissingPreviousBlock), cache';
        }
        hasChanged := hasChanged || d.changed;
      }

      if !MetersRead(readings) {
        return Failed(MeterReadFailed), cache';
      }
      if readings.gridMeter.None? {
        cache' := cache'.(meter := readings.symoMeter);
      }
      var saia := readings.saia.value;
      if cache'.froniusRegister.None? {
        return Failed(NoSiteEnergy), cache';
      }
      var froReg := cache'.froniusRegister.value;
      var calculated := CorrectOffsets(dayHasChanged, lastCalculated, pvSouthEnergyDaily, saia.de1, froReg.siteEnergyDay);
      lastCalculated := calculated;
      var record := MonitorRecord(
        froReg, cache'.inverter, cache'.nameplate, cache'.inverterExtension, cache'.storage,
        readings.gridMeter, if readings.gridMeter.Some? then None else cache'.meter,
        [saia], calculated);
      history := history + [record];
      if |history| > HistoryCapacity {
        history := history[1..];
      }
      outcome := Recorded(record, hasChanged);
    }
  }
}
