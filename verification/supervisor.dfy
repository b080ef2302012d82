/**
 * The supervisor core (supervisor.c): the bounded adapter registry, the
 * safe-mode decision, firmware self-validation, the boot-counter auto-clear
 * and one pass of the super-loop.
 *
 * The callbacks of the adapters, the command handlers, the OTA partition
 * query and the tick clock are outside the model. What the supervisor asks of
 * them is returned as a trace of `Call`s; what they answer is passed in
 * (`PassInputs`, `OtaReport`). The persisted boot counter of the config store
 * is a field of the scheduler, since the supervisor both reads and writes it.
 *
 * Every state-changing method is specified by a function on the `State` value
 * of the scheduler; the properties of those functions are proved in
 * supervisor_properties.dfy.
 */
module Supervisor {
  import opened Common
  import opened SupervisorApi
  import EventBits

  /** Kconfig settings the code depends on, and the FreeRTOS tick rate. */
  datatype Config = Config(
    maxAdapters: nat,        // CONFIG_SUPERVISOR_MAX_ADAPTERS
    safeModeThreshold: U32,  // CONFIG_SUPERVISOR_SAFE_MODE_THRESHOLD
    stableTimeS: nat,        // CONFIG_SUPERVISOR_SAFE_MODE_STABLE_TIME_S
    tickRateHz: nat)         // configTICK_RATE_HZ

  datatype EspErr = EspOk | EspErrNoMem | EspErrInvalidArg

  /** A dequeued command job: the resolved command and its owned argument string. */
  datatype Job = Job(commandId: string, args: Option<string>)

  /** esp_ota_img_states_t */
  datatype OtaImgState = ImgNew | ImgPendingVerify | ImgValid | ImgInvalid | ImgAborted | ImgUndefined

  /**
   * What the OTA layer answers during one firmware validation: the running
   * partition's state (None when esp_ota_get_state_partition fails) and
   * whether esp_ota_mark_app_valid_cancel_rollback succeeds.
   */
  datatype OtaReport = OtaReport(state: Option<OtaImgState>, markValidOk: bool)

  /** A callback an adapter may provide. */
  datatype Hook = Init | OnEvent(bits: bv32) | OnInterval(stage: Stage)

  /** What the supervisor asks of code outside the model, in order. */
  datatype Call =
    | AdapterCall(index: nat, hook: Hook)   // registered_adapters[index]->hook(...)
    | RunHandler(job: Job)                  // job->cmnd->handler(job->args_json_str)
    | RegisterTeleGroup(index: nat)         // tele_register_group(adapter->tele_group)
    | RegisterCmndGroup(index: nat)         // cmnd_register_group(adapter->cmnd_group)
    | OtaValidation                         // supervisor_validate_firmware queries the OTA layer

  /** supervisor_intervals_ms[] */
  function IntervalMs(s: Stage): nat
  {
    match s
    case Interval1S => 1000
    case Interval2S => 2000
    case Interval5S => 5000
    case Interval10S => 10000
    case Interval30S => 30000
    case Interval60S => 60000
    case Interval5M => 5 * 60 * 1000
    case Interval10M => 10 * 60 * 1000
    case Interval2H => 2 * 60 * 60 * 1000
    case Interval12H => 12 * 60 * 60 * 1000
  }

  /** pdMS_TO_TICKS: computed in 64 bits, then cast to TickType_t. */
  function MsToTicks(ms: nat, tickRateHz: nat): U32
  {
    (ms * tickRateHz / 1000) % U32Modulus
  }

  /** The unsigned tick difference `now - last`, which wraps around. */
  function Elapsed(now: U32, last: U32): (e: U32)
    ensures last <= now ==> e == now - last
    ensures now < last ==> e == U32Modulus - last + now
  {
    (now - last) % U32Modulus
  }

  /** A stage is due when the ticks since it last fired reach its period. */
  predicate Due(c: Config, s: Stage, now: U32, last: U32)
  {
    Elapsed(now, last) >= MsToTicks(IntervalMs(s), c.tickRateHz)
  }

  /**
   * supervisor_validate_firmware: the flag is set when the state query fails,
   * when the image is not pending verification, or when marking it valid
   * succeeds; otherwise it is left as it was.
   */
  function ValidatedAfter(validated: bool, ota: OtaReport): (r: bool)
    ensures r <==> validated || !(ota.state == Some(ImgPendingVerify) && !ota.markValidOk)
  {
    if ota.state.None? then true
    else if ota.state.value != ImgPendingVerify then true
    else if !ota.markValidOk then validated
    else true
  }

  /** The boot counter safe_mode_check persists: one more after an abnormal reset (uint32_t). */
  function CounterAfterReset(counter: U32, abnormalReset: bool): (r: U32)
    ensures !abnormalReset ==> r == counter
    ensures abnormalReset && counter + 1 < U32Modulus ==> r == counter + 1
  {
    if abnormalReset then (counter + 1) % U32Modulus else counter
  }

  /** onboard_led_handler: the new state of the onboard LED. */
  function OnboardLedNext(state: LogicState, current: bool): (next: bool)
    ensures state == StateToggle ==> next == !current
    ensures state == StateOn ==> next
    ensures state == StateOff ==> !next
  {
    if state == StateToggle then !current else state == StateOn
  }

  // ---------------------------------------------------------------------------
  // The scheduler as a value, and what each step does to it

  datatype State = State(
    adapters: seq<Adapter>,     // registered_adapters[0 .. adapter_count)
    events: bv32,               // the event group
    lastStage: seq<U32>,        // supervisor_task's last_stage[]
    bootCounter: U32,           // config_get()->boot_counter
    safeMode: bool,             // safe_mode_active
    firmwareValidated: bool)    // firmware_validated

  datatype Effect = Effect(after: State, calls: seq<Call>)

  /** Which adapters a fan-out of `h` reaches, before any stage-level gating. */
  predicate Receives(a: Adapter, h: Hook, safeMode: bool)
  {
    match h
    case Init => (safeMode ==> a.enableInSafeMode) && a.hasInit
    case OnEvent(_) => a.hasOnEvent
    case OnInterval(_) => a.hasOnInterval
  }

  /** The calls of one loop `for (i = 0; i < adapter_count; i++)` forwarding `h`. */
  function Broadcast(adapters: seq<Adapter>, h: Hook, safeMode: bool): seq<Call>
  {
    if adapters == [] then []
    else
      var k := |adapters| - 1;
      Broadcast(adapters[..k], h, safeMode)
        + (if Receives(adapters[k], h, safeMode) then [AdapterCall(k, h)] else [])
  }

  /** The calls supervisor_register_adapter makes for the adapter stored at `index`. */
  function GroupRegistrations(a: Adapter, index: nat): seq<Call>
  {
    (if a.hasTeleGroup then [RegisterTeleGroup(index)] else [])
      + (if a.hasCmndGroup then [RegisterCmndGroup(index)] else [])
  }

  /** safe_mode_check together with the assignment to safe_mode_active. */
  function SafeModeStep(c: Config, v: State, abnormalReset: bool): State
  {
    var counter := CounterAfterReset(v.bootCounter, abnormalReset);
    v.(bootCounter := counter, safeMode := counter >= c.safeModeThreshold)
  }

  /** The firmware validation supervisor_platform_init runs in safe mode only. */
  function SafeValidationStep(v: State, ota: OtaReport): Effect
  {
    if v.safeMode then Effect(v.(firmwareValidated := ValidatedAfter(v.firmwareValidated, ota)), [OtaValidation])
    else Effect(v, [])
  }

  /** supervisor_platform_init, without the task creation. */
  function PlatformInitStep(c: Config, v: State, abnormalReset: bool, ota: OtaReport): Effect
  {
    var checked := SafeModeStep(c, v, abnormalReset);
    var validated := SafeValidationStep(checked, ota);
    var w := validated.after;
    Effect(w.(events := w.events | EventBits.PlatformInitialized),
           validated.calls + Broadcast(w.adapters, Init, w.safeMode))
  }

  /** What the super-loop receives from the world during one pass. */
  datatype PassInputs = PassInputs(
    job: Option<Job>,      // what xQueueReceive returned within its timeout
    racing: bv32,          // bits other tasks set between the read and the clear of the event group
    now: U32,              // xTaskGetTickCount() after the event fan-out
    uptimeUs: nat,         // esp_timer_get_time()
    ota: OtaReport)        // the OTA layer's answers if firmware validation runs

  /** Lines 196-204: run at most one job, then signal its completion. */
  function JobStep(v: State, job: Option<Job>): Effect
  {
    match job
    case None => Effect(v, [])
    case Some(j) => Effect(v.(events := v.events | EventBits.CmndCompleted), [RunHandler(j)])
  }

  lemma ClearIsMask(bits: bv32, racing: bv32)
    ensures (bits | racing) & !bits == racing & !bits
  {
  }

  lemma MaskClears(bits: bv32, racing: bv32)
    ensures (racing & !bits) & bits == 0
  {
  }

  lemma MaskKeeps(bits: bv32, racing: bv32)
    ensures bits | (racing & !bits) == bits | racing
  {
  }

  /**
   * The event group after xEventGroupClearBits(bits) when `racing` was set by
   * other tasks after the snapshot `bits` was read.
   */
  function ClearSnapshot(bits: bv32, racing: bv32): (r: bv32)
    ensures r & bits == 0                    // every snapshot bit is cleared
    ensures r == racing & !bits              // what remains is exactly the later bits
    ensures bits | r == bits | racing        // no bit is lost: delivered or still pending
  {
    ClearIsMask(bits, racing);
    MaskClears(bits, racing);
    MaskKeeps(bits, racing);
    (bits | racing) & !bits
  }

  /** Lines 206-216: snapshot the event bits, clear exactly those, broadcast the snapshot. */
  function EventStep(v: State, racing: bv32): Effect
  {
    var bits := v.events;
    if bits == 0 then Effect(v.(events := racing), [])
    else Effect(v.(events := ClearSnapshot(bits, racing)), Broadcast(v.adapters, OnEvent(bits), v.safeMode))
  }

  /** supervisor_on_interval: the core's own work bound to a stage. */
  function IntervalHook(c: Config, v: State, s: Stage, uptimeUs: nat, ota: OtaReport): Effect
  {
    var validation :=
      if s == Interval10S && !v.firmwareValidated
      then Effect(v.(firmwareValidated := ValidatedAfter(v.firmwareValidated, ota)), [OtaValidation])
      else Effect(v, []);
    var w := validation.after;
    if s == Interval5S && w.bootCounter > 0 && uptimeUs / 1000000 > c.stableTimeS
    then Effect(w.(bootCounter := 0), validation.calls)
    else validation
  }

  /** Lines 221-238 for the stage with index k. */
  function StageStep(c: Config, v: State, now: U32, uptimeUs: nat, ota: OtaReport, k: nat): (e: Effect)
    requires k < StageCount == |v.lastStage|
  {
    var s := StageAt(k);
    if !Due(c, s, now, v.lastStage[k]) then Effect(v, [])
    else
      var hooked := IntervalHook(c, v, s, uptimeUs, ota);
      var w := hooked.after.(lastStage := hooked.after.lastStage[k := now]);
      Effect(w, hooked.calls + (if w.safeMode then [] else Broadcast(w.adapters, OnInterval(s), w.safeMode)))
  }

  /** Lines 220-239 for the stages with index below k, in ascending order. */
  function Intervals(c: Config, v: State, now: U32, uptimeUs: nat, ota: OtaReport, k: nat): (e: Effect)
    requires k <= StageCount == |v.lastStage|
    ensures |e.after.lastStage| == StageCount
    ensures e.after.adapters == v.adapters && e.after.events == v.events && e.after.safeMode == v.safeMode
  {
    if k == 0 then Effect(v, [])
    else
      var before := Intervals(c, v, now, uptimeUs, ota, k - 1);
      var step := StageStep(c, before.after, now, uptimeUs, ota, k - 1);
      Effect(step.after, before.calls + step.calls)
  }

  /** One pass of the super-loop in supervisor_task. */
  function PassStep(c: Config, v: State, inp: PassInputs): Effect
    requires |v.lastStage| == StageCount
  {
    var job := JobStep(v, inp.job);
    var fanned := EventStep(job.after, inp.racing);
    var timed := Intervals(c, fanned.after, inp.now, inp.uptimeUs, inp.ota, StageCount);
    Effect(timed.after, job.calls + fanned.calls + timed.calls)
  }

  // ---------------------------------------------------------------------------
  // The module state of supervisor.c

  class Scheduler {
    const cfg: Config
    /** registered_adapters[]: the adapters, NULL where unused */
    const registry: array<Option<Adapter>>
    /** adapter_count */
    var count: nat
    var safeModeActive: bool
    var firmwareValidated: bool
    /** whether supervisor_event_group has been created (the handle is non-NULL) */
    var groupCreated: bool
    /** the bits of supervisor_event_group */
    var events: bv32
    /** the config store's boot_counter */
    var bootCounter: U32
    /** last_stage[], local to supervisor_task and kept across passes */
    const lastStage: array<U32>

    ghost predicate Valid()
      reads this`count, registry
    {
      // adapter_count is a uint8_t: beyond 255 adapters it would wrap, which is not modelled
      && cfg.maxAdapters < 256
      && registry.Length == cfg.maxAdapters
      && count <= cfg.maxAdapters
      && lastStage.Length == StageCount
      && forall i :: 0 <= i < count ==> registry[i].Some?
    }

    /** The registered adapters, in registration order. */
    ghost function Adapters(): seq<Adapter>
      reads this`count, registry
      requires Valid()
    {
      var n := count;
      var live := registry[..n];
      seq(n, i requires 0 <= i < n => live[i].value)
    }

    ghost function Model(): State
      reads this`count, this`events, this`bootCounter, this`safeModeActive, this`firmwareValidated
      reads registry, lastStage
      requires Valid()
    {
      State(Adapters(), events, lastStage[..], bootCounter, safeModeActive, firmwareValidated)
    }

    /**
     * The static state of supervisor.c at boot: no adapters, no event group
     * yet (the handle is NULL, so no bits), both flags false; `storedCounter`
     * is the boot counter the config store holds at boot.
     */
    constructor (c: Config, storedCounter: U32)
      requires c.maxAdapters < 256
      ensures Valid() && cfg == c && !groupCreated
      ensures Model() == State([], 0, seq(StageCount, _ => 0), storedCounter, false, false)
    {
      cfg := c;
      registry := new Option<Adapter>[c.maxAdapters](_ => None);
      lastStage := new U32[StageCount](_ => 0);
      count := 0;
      safeModeActive := false;
      firmwareValidated := false;
      groupCreated := false;
      events := 0;
      bootCounter := storedCounter;
    }

    /** The event group's creation in supervisor_init: only while the handle is NULL, and empty. */
    method CreateEventGroup()
      requires Valid()
      modifies this`groupCreated, this`events
      ensures Valid() && groupCreated
      ensures old(groupCreated) ==> events == old(events)
      ensures !old(groupCreated) ==> events == 0
    {
      if !groupCreated {
        groupCreated := true;
        events := 0;
      }
    }

    /** supervisor_register_adapter */
    method RegisterAdapter(a: Option<Adapter>) returns (r: EspErr, calls: seq<Call>)
      requires Valid()
      modifies this`count, registry
      ensures Valid()
      ensures old(count) >= cfg.maxAdapters ==>
        r == EspErrNoMem && count == old(count) && registry[..] == old(registry[..]) && calls == []
      ensures old(count) < cfg.maxAdapters && a.None? ==>
        r == EspErrInvalidArg && count == old(count) && registry[..] == old(registry[..]) && calls == []
      ensures old(count) < cfg.maxAdapters && a.Some? ==>
        && r == EspOk
        && count == old(count) + 1
        && Adapters() == old(Adapters()) + [a.value]
        && (forall j :: count <= j < registry.Length ==> registry[j] == old(registry[j]))
        && calls == GroupRegistrations(a.value, old(count))
    {
      if count >= cfg.maxAdapters {
        return EspErrNoMem, [];
      }
      if a.None? {
        return EspErrInvalidArg, [];
      }
      registry[count] := a;
      count := count + 1;
      calls := [];
      if a.value.hasTeleGroup {
        calls := calls + [RegisterTeleGroup(count - 1)];
      }
      if a.value.hasCmndGroup {
        calls := calls + [RegisterCmndGroup(count - 1)];
      }
      r := EspOk;
    }

    /** supervisor_get_adapters: the registered adapters followed by a NULL sentinel. */
    method GetAdapters() returns (view: seq<Option<Adapter>>)
      requires Valid()
      ensures |view| == count + 1 && view[count] == None
      ensures forall i :: 0 <= i < count ==> view[i] == Some(Adapters()[i])
    {
      view := [];
      var i := 0;
      while i < count
        invariant 0 <= i <= count
        invariant |view| == i
        invariant forall j :: 0 <= j < i ==> view[j] == Some(Adapters()[j])
      {
        view := view + [registry[i]];
        i := i + 1;
      }
      view := view + [None];
    }

    /** supervisor_notify_event: the bits are dropped while there is no event group. */
    method NotifyEvent(bits: bv32)
      requires Valid()
      modifies this`events
      ensures Valid()
      ensures groupCreated ==> events == old(events) | bits
      ensures !groupCreated ==> events == old(events)
    {
      if groupCreated {
        events := events | bits;
      }
    }

    /** The loops that forward `h` to every registered adapter that takes it. */
    method Forward(h: Hook) returns (calls: seq<Call>)
      requires Valid()
      ensures calls == Broadcast(Adapters(), h, safeModeActive)
    {
      calls := [];
      var i := 0;
      while i < count
        invariant 0 <= i <= count
        invariant calls == Broadcast(Adapters()[..i], h, safeModeActive)
      {
        assert Adapters()[..i + 1][..i] == Adapters()[..i];
        var a := registry[i].value;
        var skip := h.Init? && safeModeActive && !a.enableInSafeMode;
        if !skip {
          var present := match h
            case Init => a.hasInit
            case OnEvent(_) => a.hasOnEvent
            case OnInterval(_) => a.hasOnInterval;
          if present {
            calls := calls + [AdapterCall(i, h)];
          }
        }
        i := i + 1;
      }
      assert Adapters()[..count] == Adapters();
    }

    /** safe_mode_check, storing its answer in safe_mode_active. */
    method CheckSafeMode(abnormalReset: bool)
      requires Valid()
      modifies this`bootCounter, this`safeModeActive
      ensures Valid()
      ensures Model() == SafeModeStep(cfg, old(Model()), abnormalReset)
    {
      var counter := bootCounter;
      if abnormalReset {
        counter := (counter + 1) % U32Modulus;
        bootCounter := counter;   // config_set_boot_counter
      }
      safeModeActive := counter >= cfg.safeModeThreshold;
    }

    /** supervisor_validate_firmware */
    method ValidateFirmware(ota: OtaReport)
      requires Valid()
      modifies this`firmwareValidated
      ensures Valid()
      ensures firmwareValidated == ValidatedAfter(old(firmwareValidated), ota)
    {
      if ota.state.None? {
        firmwareValidated := true;
        return;
      }
      if ota.state.value != ImgPendingVerify {
        firmwareValidated := true;
        return;
      }
      if !ota.markValidOk {
        return;
      }
      firmwareValidated := true;
    }

    /** supervisor_platform_init; the supervisor task it creates is started by StartTask. */
    method PlatformInit(abnormalReset: bool, ota: OtaReport) returns (r: EspErr, calls: seq<Call>)
      requires Valid()
      modifies this`bootCounter, this`safeModeActive, this`firmwareValidated, this`events
      ensures Valid() && r == EspOk
      ensures calls == PlatformInitStep(cfg, old(Model()), abnormalReset, ota).calls
      ensures groupCreated ==> Model() == PlatformInitStep(cfg, old(Model()), abnormalReset, ota).after
      ensures !groupCreated ==> Model() == PlatformInitStep(cfg, old(Model()), abnormalReset, ota).after.(events := old(events))
    {
      CheckSafeMode(abnormalReset);
      calls := ValidateIfSafe(ota);
      var inits := Forward(Init);
      calls := calls + inits;
      ghost var before := Model();
      NotifyEvent(EventBits.PlatformInitialized);
      assert Model() == before.(events := events);
      r := EspOk;
    }

    method ValidateIfSafe(ota: OtaReport) returns (calls: seq<Call>)
      requires Valid()
      modifies this`firmwareValidated
      ensures Valid()
      ensures Effect(Model(), calls) == SafeValidationStep(old(Model()), ota)
    {
      calls := [];
      if safeModeActive {
        ValidateFirmware(ota);
        calls := [OtaValidation];
      }
    }

    /**
     * The start of supervisor_task: every stage counts from the current tick.
     * The task reads the tick count once per stage; the model takes one
     * reading `now` for all ten, as if no tick passed during that loop.
     */
    method StartTask(now: U32)
      requires Valid()
      modifies lastStage
      ensures Valid()
      ensures lastStage[..] == seq(StageCount, _ => now)
    {
      for i := 0 to StageCount
        invariant forall j :: 0 <= j < i ==> lastStage[j] == now
      {
        lastStage[i] := now;
      }
    }

    method RunJob(job: Option<Job>) returns (calls: seq<Call>)
      requires Valid()
      modifies this`events
      ensures Valid()
      ensures groupCreated ==> Effect(Model(), calls) == JobStep(old(Model()), job)
      ensures !groupCreated ==> Effect(Model(), calls) == Effect(old(Model()), JobStep(old(Model()), job).calls)
    {
      calls := [];
      if job.Some? {
        calls := [RunHandler(job.value)];
        NotifyEvent(EventBits.CmndCompleted);
      }
    }

    /** The event forwarding of supervisor_task, which reads and clears the group without a NULL check. */
    method FanOutEvents(racing: bv32) returns (calls: seq<Call>)
      requires Valid() && groupCreated
      modifies this`events
      ensures Valid()
      ensures Effect(Model(), calls) == EventStep(old(Model()), racing)
    {
      var bits := events;             // xEventGroupGetBits
      calls := [];
      if bits == 0 {
        events := racing;             // producers running meanwhile; nothing to clear
      } else {
        events := ClearSnapshot(bits, racing);   // xEventGroupClearBits(bits)
        calls := Forward(OnEvent(bits));
      }
    }

    /** supervisor_on_interval */
    method OnIntervalHook(s: Stage, uptimeUs: nat, ota: OtaReport) returns (calls: seq<Call>)
      requires Valid()
      modifies this`firmwareValidated, this`bootCounter
      ensures Valid()
      ensures Effect(Model(), calls) == IntervalHook(cfg, old(Model()), s, uptimeUs, ota)
    {
      calls := [];
      if s == Interval10S && !firmwareValidated {
        ValidateFirmware(ota);
        calls := [OtaValidation];
      }
      if s == Interval5S && bootCounter > 0 && uptimeUs / 1000000 > cfg.stableTimeS {
        bootCounter := 0;             // safe_mode_clear
      }
    }

    /** The body of the stage loop, for the stage with index k. */
    method RunStage(k: nat, now: U32, uptimeUs: nat, ota: OtaReport) returns (calls: seq<Call>)
      requires Valid() && k < StageCount
      modifies this`firmwareValidated, this`bootCounter, lastStage
      ensures Valid()
      ensures Effect(Model(), calls) == StageStep(cfg, old(Model()), now, uptimeUs, ota, k)
    {
      var s := StageAt(k);
      calls := [];
      if Elapsed(now, lastStage[k]) >= MsToTicks(IntervalMs(s), cfg.tickRateHz) {
        calls := OnIntervalHook(s, uptimeUs, ota);
        lastStage[k] := now;
        if !safeModeActive {
          var forwarded := Forward(OnInterval(s));
          calls := calls + forwarded;
        }
      }
    }

    method RunIntervals(now: U32, uptimeUs: nat, ota: OtaReport) returns (calls: seq<Call>)
      requires Valid()
      modifies this`firmwareValidated, this`bootCounter, lastStage
      ensures Valid()
      ensures Effect(Model(), calls) == Intervals(cfg, old(Model()), now, uptimeUs, ota, StageCount)
    {
      calls := [];
      for stage := 0 to StageCount
        invariant Valid()
        invariant Effect(Model(), calls) == Intervals(cfg, old(Model()), now, uptimeUs, ota, stage)
      {
        var more := RunStage(stage, now, uptimeUs, ota);
        calls := calls + more;
      }
    }

    /** One iteration of the super-loop, which needs the event group supervisor_init created. */
    method Pass(inp: PassInputs) returns (calls: seq<Call>)
      requires Valid() && groupCreated
      modifies this`events, this`firmwareValidated, this`bootCounter, lastStage
      ensures Valid()
      ensures Effect(Model(), calls) == PassStep(cfg, old(Model()), inp)
    {
      var ran := RunJob(inp.job);
      var fanned := FanOutEvents(inp.racing);
      var timed := RunIntervals(inp.now, inp.uptimeUs, inp.ota);
      calls := ran + fanned + timed;
    }
  }
}
