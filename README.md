# Fronius monitor and client data cache, modelled in Dafny

This project models two stateful components of a Raspberry-Pi photovoltaic
and heat-pump monitor.

**The server-side monitor** (`Monitor` in `monitor.dfy`) runs on every timer tick.
- It decides whether the inverter blocks of the Fronius Symo are due.
- It accumulates the PV-south daily energy from the inverter extension block.
- It runs four address-filtered diagnostic register diffs.
- It picks either the Fronius grid meter or the inverter's own meter.
- It corrects the daily counter baselines: they reset on a day change and are clamped to zero when they exceed the counter.
- It appends the record to a 60-entry history.

Around the tick sit:
- the start-up alignment delay, reduced modulo the poll period;
- `latest`;
- `stop`.

Device reads, clock readings and weekdays are parameters of `Tick`. The device cache (`SymoCache`) is passed in and returned.

**The browser-side data service** (`DataService` in `data_service.dfy` and `DataQueries` in `data_queries.dfy`) has four parts.
- **URL builders.** The generic one lists the query object's keys after `?` or `&`. The heat-pump one spells out its flags and keeps only the ids `0..0xffff`. Each builder has a parse-back lemma: the parameters are recovered from the URL.
- **The heat-pump snapshot merge.** It classifies logset and non-logset ids on a clearing call, overwrites complete values and updates simple values of known ids only.
- **Two subscriber lists that count references.** The first observer arms the one-second timer. The last observer to leave disarms it and empties the buffer.
- **Two 60-entry buffers**, fed by the response handlers.

HTTP and timers are replaced by explicit calls:
- `Subscribe…` and `Unsubscribe…` for a subscription and its teardown;
- `RefreshMonitorRequests` and `FroniusMeterRequest` for the URLs a refresh asks for;
- `On…Response` for an arriving answer.

`BoundedHistory.Push` is the push-then-`splice(0, 1)` buffer shared by both sides, with lemmas that it keeps exactly the newest 60 entries in arrival order.

The model follows the code as written, including some behaviour the code does not advertise:
- **No tick without alignment.** `_lastFroniusPoll` is only set by the alignment timeout of `start`. Without a configured alignment, every tick throws at `getDay()` (monitor.ts line 96) before doing anything. The model's `Tick` then returns `Failed(NoPreviousPoll)` and changes nothing.
- **Unconditional Saia read.** Line 211 reads `saiaMeter.de1` unconditionally, so a missing Saia reading aborts the tick. A stored record therefore always has exactly one `extPvMeter` entry.
- **A missing previous block.** Each diff loop reads a previous block: the fronius-register loop reads the previous *inverter* block (line 139), the other three their own. Without that block, a loop throws inside the `try` as soon as it meets an admitted address. The model returns `Failed(MissingPreviousBlock)`. A missing previous fronius register block therefore never throws.
- **Timeouts survive `stop`.** `stop` clears only the repeating timer; an alignment timeout that is still pending fires later.
- **The find test and id 0.** `find(i => i === +id)` returns the id itself, so id 0 is falsy and always lands in `nonLogsetIds`.
- **Tearing down an unregistered observer.** `indexOf` gives -1 and `splice(-1, 1)` removes the last observer. `RemoveUnregistered` states this.
- **Early monitor responses abort.** A monitor response whose item has a heat-pump part, arriving before the first heat-pump snapshot, makes `handleNibe1155Values` throw. Nobody is notified and nothing is buffered. An item without a heat-pump part is delivered and buffered as usual.
- **Late responses are still buffered.** A meter or monitor response that arrives after the last teardown is still pushed, so a buffer can be non-empty without observers.
- **The default config does not disable.** The fall-back configuration `{ enabled: false }` (monitor.ts line 44) does not disable the monitor, because `start` tests `disabled`.

The fronius-register diff loop walks the fronius register keys but compares the inverter's maps. The model states this as written in `FroniusRegisterDiffAsWritten`; see Findings.

## Model

| member | source | states |
|---|---|---|
| Monitor.PeriodOrDefault | rpi-atmega324-modbus-gateway-min/software/rpi-ts-froniusmeter/server/src/monitor.ts:45-46 | a missing or zero period becomes 1000 ms, any other period is kept; the result is never zero |
| Monitor.AlignmentDelayInPeriod | rpi-atmega324-modbus-gateway-min/software/rpi-ts-froniusmeter/server/src/monitor.ts:62 | `dt - floor(dt/p)*p` with JavaScript floor equals `dt mod p` and lies in `[0, p)` for a positive period, and in `(p, 0]` for a negative one |
| Monitor.PvSouthStep | rpi-atmega324-modbus-gateway-min/software/rpi-ts-froniusmeter/server/src/monitor.ts:116-121 | the increment `power*dt/1000/3600` is applied only when a previous block exists and `dt > 0`; it replaces the total when the two weekdays differ and is added otherwise |
| Monitor.PvSouthStepMonotone | rpi-atmega324-modbus-gateway-min/software/rpi-ts-froniusmeter/server/src/monitor.ts:116-121 | with non-negative power the daily energy stays non-negative and never decreases within one day |
| Monitor.Clamp | rpi-atmega324-modbus-gateway-min/software/rpi-ts-froniusmeter/server/src/monitor.ts:211-216 | a corrected baseline either equals its pre-clamp value, which is then at most the counter, or is 0 |
| Monitor.CorrectOffsets | rpi-atmega324-modbus-gateway-min/software/rpi-ts-froniusmeter/server/src/monitor.ts:201-216 | on a day change both baselines are the current raw counters (`de1`, `siteEnergyDay`); otherwise the previous baselines are carried over; either way a baseline above its counter becomes 0, and the PV energy is copied |
| Monitor.SiteOffsets | rpi-atmega324-modbus-gateway-min/software/rpi-ts-froniusmeter/server/src/monitor.ts:207-217 | the baselines of successive ticks form one value per tick |
| Monitor.RunSiteOffsets | rpi-atmega324-modbus-gateway-min/software/rpi-ts-froniusmeter/server/src/monitor.ts:201-217 | in a run of ticks where each stored `calculated` is `CorrectOffsets` of the one before, the site baselines are exactly `SiteOffsets` of the site counters, whatever the PV and Saia readings |
| Monitor.BaselineFixedWithinDay | rpi-atmega324-modbus-gateway-min/software/rpi-ts-froniusmeter/server/src/monitor.ts:207-217 | after a day change, while the day stays and the counter does not decrease, every later baseline is the counter of the day-change tick, so the daily delta is non-negative |
| Monitor.CarriedBaseline | rpi-atmega324-modbus-gateway-min/software/rpi-ts-froniusmeter/server/src/monitor.ts:203-217 | without day changes a baseline at or below a non-decreasing counter is carried forward unchanged through every tick |
| Monitor.CounterDecreaseResetsBaseline | rpi-atmega324-modbus-gateway-min/software/rpi-ts-froniusmeter/server/src/monitor.ts:214-216 | a site counter below the stored baseline resets the baseline to 0, so the daily delta is the raw counter |
| Monitor.AdmittedRanges | rpi-atmega324-modbus-gateway-min/software/rpi-ts-froniusmeter/server/src/monitor.ts:134-177 | the four `continue` filters admit exactly 500..510, 40072..40109 without 40100 and 40102, 11..48 without 25, and every address but 12 |
| Monitor.UnadmittedChangesIgnored | rpi-atmega324-modbus-gateway-min/software/rpi-ts-froniusmeter/server/src/monitor.ts:145-177 | changing a register that the filter does not admit never changes a diff's result |
| Monitor.DiffBlock | rpi-atmega324-modbus-gateway-min/software/rpi-ts-froniusmeter/server/src/monitor.ts:145-177 | the loop flags a change iff some admitted key has a different value between the old and new block, and fails when an admitted key meets a missing old block |
| Monitor.FroniusRegisterDiffAsWritten | rpi-atmega324-modbus-gateway-min/software/rpi-ts-froniusmeter/server/src/monitor.ts:134-144 | the loop as written flags a change iff some fronius-register key in 500..510 has different values in the old and new INVERTER maps |
| Monitor.FroniusRegisterDiff | rpi-atmega324-modbus-gateway-min/software/rpi-ts-froniusmeter/server/src/monitor.ts:134-144 | the intended diff flags a change iff some key in 500..510 of the new fronius register block differs from the old fronius register block |
| Monitor.FroniusRegisterChanged | rpi-atmega324-modbus-gateway-min/software/rpi-ts-froniusmeter/server/src/monitor.ts:134-144 | the intended flag of the first loop: some admitted fronius register is new or differs from the previous fronius register block; with a previous block it agrees with `FroniusRegisterDiff` |
| Monitor.PollDiff | rpi-atmega324-modbus-gateway-min/software/rpi-ts-froniusmeter/server/src/monitor.ts:134-177 | the four loops of one poll fail exactly when the previous inverter block is missing and an admitted fronius-register or inverter key is present, or the previous extension or storage block is missing and an admitted key of its own is present; with those three previous blocks present the poll yields a flag; the flag is set iff a fronius register changed (`FroniusRegisterChanged`) or some admitted inverter, extension or storage register differs from its previous block |
| Monitor.FroniusRegisterDiffMissesChange | rpi-atmega324-modbus-gateway-min/software/rpi-ts-froniusmeter/server/src/monitor.ts:138-139 | register 500 changing from 1 to 2 with an unchanged inverter is reported unchanged by the loop as written and changed by the intended diff |
| Monitor.AfterPoll | rpi-atmega324-modbus-gateway-min/software/rpi-ts-froniusmeter/server/src/monitor.ts:102-114 | the inverter poll replaces the four cached inverter blocks when all reads succeed and leaves nameplate and meter alone |
| Monitor.Monitor.constructor | rpi-atmega324-modbus-gateway-min/software/rpi-ts-froniusmeter/server/src/monitor.ts:43-49 | periods default to 1000 ms; no poll baseline, zero offsets, zero PV energy, empty history, no timer |
| Monitor.Monitor.Start | rpi-atmega324-modbus-gateway-min/software/rpi-ts-froniusmeter/server/src/monitor.ts:51-75 | disabled: nothing; alignment only when `sec > 0 && ms >= 0`, with the delay reduced modulo the fronius period; otherwise the repeating tick is armed at once |
| Monitor.Monitor.FireAlignment | rpi-atmega324-modbus-gateway-min/software/rpi-ts-froniusmeter/server/src/monitor.ts:65-70 | the alignment timeout sets the poll baseline to now and arms the repeating tick |
| Monitor.Monitor.Stop | rpi-atmega324-modbus-gateway-min/software/rpi-ts-froniusmeter/server/src/monitor.ts:78-85 | afterwards no repeating tick is armed; if none was armed nothing changes, so a second stop changes nothing |
| Monitor.Monitor.Latest | rpi-atmega324-modbus-gateway-min/software/rpi-ts-froniusmeter/server/src/monitor.ts:87-89 | the last history record, and none exactly when the history is empty |
| Monitor.Monitor.Tick | rpi-atmega324-modbus-gateway-min/software/rpi-ts-froniusmeter/server/src/monitor.ts:91-238 | the poll baseline moves to now iff more than the fronius period has passed; the PV energy output; every failure stage; a missing previous inverter block fails the first diff loop and a missing extension or storage block its own loop; `registersChanged` is `PollDiff`'s flag; exactly one of gridmeter and meter is set, chosen by the grid meter; `extPvMeter` holds the Saia reading; the stored offsets equal the record's corrected values; the history is the old one pushed with the record, capacity 60; a failed tick leaves history and offsets alone |
| BoundedHistory.Push | rpi-atmega324-modbus-gateway-min/software/rpi-ts-froniusmeter/server/src/monitor.ts:228-231 | the new element is last; the buffer grows by one below capacity and stays at most the capacity; at capacity the oldest entry is dropped |
| BoundedHistory.PushAllKeepsNewest | rpi-atmega324-modbus-gateway-min/software/rpi-ts-froniusmeter/server/src/monitor.ts:228-231 | after any sequence of pushes the buffer holds exactly the newest `cap` elements of everything seen, in arrival order |
| BoundedHistory.FullAfterEnoughPushes | rpi-atmega324-modbus-gateway-min/software/rpi-ts-froniusmeter/ngx/src/app/services/data.service.ts:190-193 | after at least 60 pushes the buffer is exactly the last 60 values pushed |
| DataQueries.QueryStringShape | rpi-atmega324-modbus-gateway-min/software/rpi-ts-froniusmeter/ngx/src/app/services/data.service.ts:58-63 | the query string adds exactly one separator per key and nothing else; it is empty iff there are no keys and opens with `?` for the first part and `&` otherwise |
| DataQueries.QueryUri | rpi-atmega324-modbus-gateway-min/software/rpi-ts-froniusmeter/ngx/src/app/services/data.service.ts:57-63 | the URL starts with the base path; it is the bare path exactly when there are no keys, and otherwise continues with `?` |
| DataQueries.QueryRoundTrip | rpi-atmega324-modbus-gateway-min/software/rpi-ts-froniusmeter/ngx/src/app/services/data.service.ts:57-63 | splitting what follows the path at `?` and `&` gives back exactly the keys in their order (keys without `&`) |
| DataQueries.FroniusSymoUri | rpi-atmega324-modbus-gateway-min/software/rpi-ts-froniusmeter/ngx/src/app/services/data.service.ts:43-65 | the fronius-symo URL is `/data/froniussymo` followed by the names of the query's keys, read back in their order |
| DataQueries.MonitorDataUri | rpi-atmega324-modbus-gateway-min/software/rpi-ts-froniusmeter/ngx/src/app/services/data.service.ts:89-98 | the monitor URL is the bare path without a `latest` key and `?latest` with one, whatever its value |
| DataQueries.DecimalRoundTrip | rpi-atmega324-modbus-gateway-min/software/rpi-ts-froniusmeter/ngx/src/app/services/data.service.ts:80 | the decimal rendering of an id reads back as the id |
| DataQueries.InRange | rpi-atmega324-modbus-gateway-min/software/rpi-ts-froniusmeter/ngx/src/app/services/data.service.ts:77-82 | an id is kept iff it is in the input and lies in `0..0xffff` |
| DataQueries.InRangeAppend | rpi-atmega324-modbus-gateway-min/software/rpi-ts-froniusmeter/ngx/src/app/services/data.service.ts:77-82 | filtering distributes over concatenation, so the kept ids stay in input order |
| DataQueries.IdSuffix | rpi-atmega324-modbus-gateway-min/software/rpi-ts-froniusmeter/ngx/src/app/services/data.service.ts:77-82 | the `&id=` text is empty exactly when no id lies in `0..0xffff`, and otherwise starts with `&` |
| DataQueries.IdSuffixIsQuery | rpi-atmega324-modbus-gateway-min/software/rpi-ts-froniusmeter/ngx/src/app/services/data.service.ts:77-82 | the appended `&id=` text is the query string of one `id=` parameter per in-range id, in input order |
| DataQueries.NibeParams | rpi-atmega324-modbus-gateway-min/software/rpi-ts-froniusmeter/ngx/src/app/services/data.service.ts:72-82 | `completeValues=true` comes with `simpleValues=false` and vice versa, true iff the query asks for complete values; `controller` is `true` or `false`; then one parameter per admitted id |
| DataQueries.NibeUriIsQuery | rpi-atmega324-modbus-gateway-min/software/rpi-ts-froniusmeter/ngx/src/app/services/data.service.ts:72-82 | the string the statements build is the generic query URL of those parameters |
| DataQueries.NibeRoundTrip | rpi-atmega324-modbus-gateway-min/software/rpi-ts-froniusmeter/ngx/src/app/services/data.service.ts:72-82 | the heat-pump URL reads back as exactly those parameters |
| DataQueries.NibeUri | rpi-atmega324-modbus-gateway-min/software/rpi-ts-froniusmeter/ngx/src/app/services/data.service.ts:72-82 | with no query object the URL asks for simple values and no controller: `?completeValues=false&simpleValues=true&controller=false` |
| DataQueries.NibeUriPath | rpi-atmega324-modbus-gateway-min/software/rpi-ts-froniusmeter/ngx/src/app/services/data.service.ts:72-76 | the heat-pump URL is the server's `/data/nibe1155` path followed by `?` |
| DataQueries.IdParamsReadBack | rpi-atmega324-modbus-gateway-min/software/rpi-ts-froniusmeter/ngx/src/app/services/data.service.ts:77-82 | each `id=` parameter reads back as the number it was rendered from |
| DataQueries.NibeIdsReadBack | rpi-atmega324-modbus-gateway-min/software/rpi-ts-froniusmeter/ngx/src/app/services/data.service.ts:72-82 | the ids read back from the heat-pump URL's parameters after the three flags are exactly the in-range ids, in input order |
| DataQueries.InitialNibeRequest | rpi-atmega324-modbus-gateway-min/software/rpi-ts-froniusmeter/ngx/src/app/services/data.service.ts:219-220 | the first snapshot request asks for complete values, no simple values and the controller, with no ids |
| DataService.Find | rpi-atmega324-modbus-gateway-min/software/rpi-ts-froniusmeter/ngx/src/app/services/data.service.ts:123 | `find` yields an element iff the id is a logset id, and the element is the id itself |
| DataService.FindFalsy | rpi-atmega324-modbus-gateway-min/software/rpi-ts-froniusmeter/ngx/src/app/services/data.service.ts:123 | the `find` test is falsy iff the id is absent from the logset ids or is 0 |
| DataService.NonLogsetIds | rpi-atmega324-modbus-gateway-min/software/rpi-ts-froniusmeter/ngx/src/app/services/data.service.ts:120-127 | the classified ids are in ascending order, and an id is listed iff it is a complete-values key and is 0 or not a logset id |
| DataService.WithSimpleValues | rpi-atmega324-modbus-gateway-min/software/rpi-ts-froniusmeter/ngx/src/app/services/data.service.ts:145-158 | the ids stay the same, an unknown simple id creates no entry, other entries are untouched, and known ones take the new raw value and time |
| DataService.OverwriteValues | rpi-atmega324-modbus-gateway-min/software/rpi-ts-froniusmeter/ngx/src/app/services/data.service.ts:136-144 | the loop's result is the old values overridden by every complete value |
| DataService.ApplySimpleValues | rpi-atmega324-modbus-gateway-min/software/rpi-ts-froniusmeter/ngx/src/app/services/data.service.ts:145-158 | the loop's result is `WithSimpleValues` of its inputs |
| DataService.Refreshed | rpi-atmega324-modbus-gateway-min/software/rpi-ts-froniusmeter/ngx/src/app/services/data.service.ts:132-158 | the refresh time is now; the controller is replaced only when one is given; the id lists are kept; the ids are the old ones and the complete ones; complete values win; a simple value for a known id (also one just completed) sets its raw value and time, while its id and name stay those of the complete or old value |
| DataService.ClearedRefreshValid | rpi-atmega324-modbus-gateway-min/software/rpi-ts-froniusmeter/ngx/src/app/services/data.service.ts:106-158 | after a clearing call every non-logset id has a value, is 0 or not a logset id, and they are sorted |
| DataService.RefreshKeepsValid | rpi-atmega324-modbus-gateway-min/software/rpi-ts-froniusmeter/ngx/src/app/services/data.service.ts:132-158 | a call without clearing keeps that invariant, because it only adds values |
| DataService.IndexOf | rpi-atmega324-modbus-gateway-min/software/rpi-ts-froniusmeter/ngx/src/app/services/data.service.ts:176 | -1 iff the observer is absent; otherwise the first index holding it |
| DataService.RemoveRegistered | rpi-atmega324-modbus-gateway-min/software/rpi-ts-froniusmeter/ngx/src/app/services/data.service.ts:176 | the teardown of a registered observer removes its first registration and keeps the others in order |
| DataService.RemoveUnregistered | rpi-atmega324-modbus-gateway-min/software/rpi-ts-froniusmeter/ngx/src/app/services/data.service.ts:176 | the teardown of an unregistered observer removes the last observer |
| DataService.SubscribeThenUnsubscribe | rpi-atmega324-modbus-gateway-min/software/rpi-ts-froniusmeter/ngx/src/app/services/data.service.ts:171-176 | subscribing a new observer and tearing it down restores the observer list |
| DataService.DataService.constructor | rpi-atmega324-modbus-gateway-min/software/rpi-ts-froniusmeter/ngx/src/app/services/data.service.ts:32-37 | the server URI depends on development mode; no snapshot, no observers, empty buffers, no timers |
| DataService.DataService.HandleNibe1155Values | rpi-atmega324-modbus-gateway-min/software/rpi-ts-froniusmeter/ngx/src/app/services/data.service.ts:104-159 | a missing argument changes nothing; a clearing call builds a fresh snapshot with copied logset ids and classified non-logset ids; without clearing the id lists are kept; without a snapshot a non-clearing call throws and changes nothing; the buffers and observers are untouched |
| DataService.DataService.SubscribeFroniusMeter | rpi-atmega324-modbus-gateway-min/software/rpi-ts-froniusmeter/ngx/src/app/services/data.service.ts:168-174 | the observer is appended; the timer is armed exactly when the list was empty, and is armed afterwards |
| DataService.DataService.UnsubscribeFroniusMeter | rpi-atmega324-modbus-gateway-min/software/rpi-ts-froniusmeter/ngx/src/app/services/data.service.ts:175-182 | one observer is removed (if any); when none is left the timer is disarmed and the buffer emptied, otherwise both are kept |
| DataService.DataService.OnFroniusMeterResponse | rpi-atmega324-modbus-gateway-min/software/rpi-ts-froniusmeter/ngx/src/app/services/data.service.ts:185-198 | every observer receives the sample, or null on an error; a sample is pushed onto the 60-entry buffer; an error buffers nothing |
| DataService.DataService.RefreshMonitorRequests | rpi-atmega324-modbus-gateway-min/software/rpi-ts-froniusmeter/ngx/src/app/services/data.service.ts:218-227 | a refresh asks for the heat-pump snapshot only while there is none, and always for the monitor data, last |
| DataService.DataService.SubscribeMonitor | rpi-atmega324-modbus-gateway-min/software/rpi-ts-froniusmeter/ngx/src/app/services/data.service.ts:201-207 | the observer is appended; the first observer arms the timer and triggers one refresh at once |
| DataService.DataService.UnsubscribeMonitor | rpi-atmega324-modbus-gateway-min/software/rpi-ts-froniusmeter/ngx/src/app/services/data.service.ts:208-215 | one observer is removed (if any); when none is left the timer is disarmed and the buffer emptied |
| DataService.DataService.OnMonitorResponse | rpi-atmega324-modbus-gateway-min/software/rpi-ts-froniusmeter/ngx/src/app/services/data.service.ts:227-243 | an error or a body that is not a one-element array notifies null and changes nothing; a null item or a throwing heat-pump merge notifies nobody and buffers nothing; otherwise the heat-pump part is merged without clearing, every observer receives the record and it is pushed onto the 60-entry buffer |

`DataService.DataService.Valid` is kept by every method:
- each timer is armed exactly while its list has observers;
- both buffers hold at most 60 entries;
- the snapshot's non-logset ids are sorted, have values, and are 0 or not logset ids.

`Monitor.Monitor.Valid` keeps the history at most 60 long.

## Left out

- Register keys are modelled as numeric addresses. The parsing of the key strings (`+a.substr(1, n)`) is left out, and so is the behaviour for keys that do not parse (NaN addresses).
- Device communication, `Promise.all`, and the Modbus transports are left out. Each read is a parameter whose `None` stands for a rejected read (or a null Saia result).
- `MonitorRecord.create`, `MonitorRecord.createFromRawData`, `Nibe1155Value.createInstance` and `setRawValue` are not part of this model:
  - records are kept as the data they are built from;
  - `setRawValue` is modelled as replacing the raw value and its time.
- `Statistics.handleMonitorRecord` is not part of this model.
- Clock and timers:
  - `Date` is replaced by milliseconds and weekday parameters.
  - The `setSeconds`/`setMilliseconds` construction of the alignment target is left out; `Start` takes the raw delay and models only the modulo reduction.
  - The 200 ms promise of `stop` is left out.
  - `setTimeout`/`setInterval` become `FireAlignment`, explicit ticks and the `Timer`/`Interval` fields.
  - A second `start` that leaks an interval is not distinguished from the first.
- `Monitor.Monitor.FireAlignment`:
  - The source follows the timeout immediately with a tick; here the caller performs that `Tick`.
  - The timeout callback's baseline clock reading is the `now` of that call.
- Monitor tick ordering: a device reading that changes during the `await`s is not modelled.
- `Monitor.Monitor.Tick`: when the Saia read fails but the inverter's meter read succeeds, the source's device object may still take the new meter block; the model's returned cache keeps the old one.
- HTTP is replaced by the `On…Response` methods; concurrency between overlapping requests is left out. The heat-pump response of a refresh is handled by the caller with `HandleNibe1155Values(v, true, now)`, its error path only logs.
- Observers are identified by integers. `o.next(...)` is modelled as the returned list of notified observers and payload, so synchronous re-entry from an observer's `next` is left out.
- `setHeatPumpMode` (an HTTP post with no logic) and the getters `getFroniusMeterValues` and `nibe1155` are left out; the model's fields are readable directly.
- `handleNibe1155LogsetIds` is left out: it is private, never called, and builds a local object that it discards.
- Object keys of heat-pump values are modelled as integers. Non-integer keys are left out.
- `DataService.NonLogsetIds`: enumerates the keys in ascending order. JavaScript does so only for array-index keys (non-negative integers); negative keys come after them, in insertion order, which the model does not track and orders first.
- `DataQueries.InRange`: ids are integers. A fractional id such as 1.5 passes the source's `0..0xffff` test and is rendered as `&id=1.5`; the model cannot express it.
- Debug logging and `console.log` output are left out.
- `isDevMode()` becomes the constructor parameter `devMode`.
- The configuration's numbers are integers. Rounding of fractional `sec` and `ms` and fractional periods is left out; a negative `froniusPeriodMillis` is covered by `Monitor.AlignmentDelayInPeriod`.
- main.ts (start-up, CSV history file) and server.ts (Express routing) are not part of this model.
- `DataService.OverwriteValues`: aliasing is left out. The source stores freshly created value objects that later `setRawValue` calls mutate in place; the model replaces values.
- `Monitor.SiteOffsets`: its own contract states only the length. What it promises is proved in `Monitor.BaselineFixedWithinDay` and `Monitor.CarriedBaseline`. `Monitor.RunSiteOffsets` ties it to successive `CorrectOffsets` results.

## Findings

| source | as written | input that shows it | evidently intended | confidence | as-written member | corrected member |
|---|---|---|---|---|---|---|
| rpi-atmega324-modbus-gateway-min/software/rpi-ts-froniusmeter/server/src/monitor.ts:138-139 | the fronius-register loop walks `froReg.regs` but compares `inv.regs[a]` with `oldInv.regs[a]` | fronius register 500 goes from 1 to 2 while the inverter block is unchanged: the loop reports no change | compare the new fronius register block with the previous one | not executed | Monitor.FroniusRegisterDiffMissesChange | Monitor.FroniusRegisterDiff |

`Monitor.Monitor.Tick` keeps the first loop's failure as written: it fails when the previous inverter block is missing. Its `registersChanged` flag uses the corrected comparison, `Monitor.FroniusRegisterChanged`. When the previous fronius register block is missing, that flag counts every admitted fronius register as changed. In the source, `hasChanged` only steers debug output.
