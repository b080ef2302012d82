/**
 * What the supervisor's steps promise, proved about the functions that
 * specify the Scheduler's methods.
 */
module SupervisorProperties {
  import opened Common
  import opened SupervisorApi
  import opened Supervisor
  import EventBits

  // ---------------------------------------------------------------------------
  // Fan-out loops

  /** A forwarding loop calls exactly the registered adapters that take the hook. */
  lemma {:induction false} BroadcastMembership(adapters: seq<Adapter>, h: Hook, safeMode: bool, c: Call)
    ensures c in Broadcast(adapters, h, safeMode) <==>
      c.AdapterCall? && c.index < |adapters| && c.hook == h && Receives(adapters[c.index], h, safeMode)
  {
    if adapters != [] {
      var k := |adapters| - 1;
      BroadcastMembership(adapters[..k], h, safeMode, c);
      if c.AdapterCall? && c.index < k {
        assert adapters[..k][c.index] == adapters[c.index];
      }
    }
  }

  /** Calls of hook `h` to adapters below `n`, in strictly ascending adapter order. */
  predicate InRegistrationOrder(calls: seq<Call>, n: nat, h: Hook)
  {
    && (forall i :: 0 <= i < |calls| ==> calls[i].AdapterCall? && calls[i].index < n && calls[i].hook == h)
    && (forall i, j :: 0 <= i < j < |calls| ==> calls[i].index < calls[j].index)
  }

  /** A forwarding loop calls adapters in registration order, each at most once. */
  lemma {:induction false} BroadcastInOrder(adapters: seq<Adapter>, h: Hook, safeMode: bool)
    ensures InRegistrationOrder(Broadcast(adapters, h, safeMode), |adapters|, h)
  {
    if adapters != [] {
      var k := |adapters| - 1;
      BroadcastInOrder(adapters[..k], h, safeMode);
    }
  }

  /** Only Init is gated by safe mode: every other hook reaches the same adapters either way. */
  lemma {:induction false} BroadcastIgnoresSafeMode(adapters: seq<Adapter>, h: Hook)
    requires !h.Init?
    ensures Broadcast(adapters, h, true) == Broadcast(adapters, h, false)
  {
    if adapters != [] {
      BroadcastIgnoresSafeMode(adapters[..|adapters| - 1], h);
    }
  }

  // ---------------------------------------------------------------------------
  // Event fan-out

  /**
   * A zero snapshot calls nobody. Otherwise every adapter with on_event gets
   * the identical snapshot, in registration order, whether or not safe mode
   * is on.
   */
  lemma EventFanOut(v: State, racing: bv32, e: Effect)
    requires e == EventStep(v, racing)
    ensures v.events == 0 ==> e.calls == []
    ensures forall c :: c in e.calls <==>
      v.events != 0 && c.AdapterCall? && c.index < |v.adapters|
      && c.hook == OnEvent(v.events) && v.adapters[c.index].hasOnEvent
    ensures InRegistrationOrder(e.calls, |v.adapters|, OnEvent(v.events))
    ensures e.calls == EventStep(v.(safeMode := !v.safeMode), racing).calls
    ensures e.after == v.(events := e.after.events)
  {
    if v.events != 0 {
      EventCalls(v, e.calls);
    }
  }

  /**
   * The clear removes the snapshot bits and nothing else: a bit set by
   * another task after the snapshot was read is still pending afterwards.
   */
  lemma EventClearsSnapshotOnly(v: State, racing: bv32, e: Effect)
    requires e == EventStep(v, racing)
    ensures e.after.events == racing & !v.events
  {
    if v.events == 0 {
      NothingToClear(v.events, racing);
    }
  }

  /** No bit is lost: each is either in the snapshot handed to the adapters or still pending. */
  lemma EventKeepsEveryBit(v: State, racing: bv32, e: Effect)
    requires e == EventStep(v, racing)
    ensures v.events | e.after.events == v.events | racing
  {
    if v.events == 0 {
      NothingToClear(v.events, racing);
    }
  }

  lemma NothingToClear(bits: bv32, racing: bv32)
    requires bits == 0
    ensures racing & !bits == racing
    ensures bits | racing == racing
  {
  }

  lemma EventCalls(v: State, calls: seq<Call>)
    requires v.events != 0 && calls == Broadcast(v.adapters, OnEvent(v.events), v.safeMode)
    ensures forall c :: c in calls <==>
      c.AdapterCall? && c.index < |v.adapters| && c.hook == OnEvent(v.events) && v.adapters[c.index].hasOnEvent
    ensures InRegistrationOrder(calls, |v.adapters|, OnEvent(v.events))
    ensures calls == Broadcast(v.adapters, OnEvent(v.events), !v.safeMode)
  {
    BroadcastInOrder(v.adapters, OnEvent(v.events), v.safeMode);
    BroadcastIgnoresSafeMode(v.adapters, OnEvent(v.events));
    forall c | true
      ensures c in Broadcast(v.adapters, OnEvent(v.events), v.safeMode) <==>
        c.AdapterCall? && c.index < |v.adapters| && c.hook == OnEvent(v.events) && v.adapters[c.index].hasOnEvent
    {
      BroadcastMembership(v.adapters, OnEvent(v.events), v.safeMode, c);
    }
  }

  // ---------------------------------------------------------------------------
  // Interval stages

  /** A due stage has its last tick set to `now`; every other stage keeps its own. */
  lemma {:induction false} IntervalsLastStage(c: Config, v: State, now: U32, uptimeUs: nat, ota: OtaReport, k: nat)
    requires k <= StageCount == |v.lastStage|
    ensures forall j :: 0 <= j < StageCount ==>
      Intervals(c, v, now, uptimeUs, ota, k).after.lastStage[j] == if j < k && Due(c, StageAt(j), now, v.lastStage[j]) then now else v.lastStage[j]
  {
    if k > 0 {
      IntervalsLastStage(c, v, now, uptimeUs, ota, k - 1);
    }
  }

  /** How one stage's calls are made up: the core's own validation, then the adapters. */
  lemma StageCalls(c: Config, v: State, now: U32, uptimeUs: nat, ota: OtaReport, k: nat, call: Call)
    requires k < StageCount == |v.lastStage|
    ensures call in StageStep(c, v, now, uptimeUs, ota, k).calls <==>
      && Due(c, StageAt(k), now, v.lastStage[k])
      && (|| (call == OtaValidation && StageAt(k) == Interval10S && !v.firmwareValidated)
          || (&& call.AdapterCall? && call.index < |v.adapters| && call.hook == OnInterval(StageAt(k))
              && !v.safeMode && v.adapters[call.index].hasOnInterval))
  {
    BroadcastMembership(v.adapters, OnInterval(StageAt(k)), v.safeMode, call);
  }

  /**
   * The calls of the stage loop: an adapter's on_interval is called for a
   * stage exactly when the stage is due, safe mode is off and the adapter
   * has on_interval; the only other call is the 10 s firmware validation.
   */
  lemma {:induction false} IntervalsCalls(c: Config, v: State, now: U32, uptimeUs: nat, ota: OtaReport, k: nat, call: Call)
    requires k <= StageCount == |v.lastStage|
    ensures call in Intervals(c, v, now, uptimeUs, ota, k).calls <==>
        || (&& call == OtaValidation && StageIndex(Interval10S) < k && !v.firmwareValidated
            && Due(c, Interval10S, now, v.lastStage[StageIndex(Interval10S)]))
        || (&& call.AdapterCall? && call.hook.OnInterval?
            && StageIndex(call.hook.stage) < k
            && Due(c, call.hook.stage, now, v.lastStage[StageIndex(call.hook.stage)])
            && !v.safeMode && call.index < |v.adapters| && v.adapters[call.index].hasOnInterval)
  {
    if k > 0 {
      IntervalsCalls(c, v, now, uptimeUs, ota, k - 1, call);
      LaterStageCalls(c, v, now, uptimeUs, ota, k - 1, call);
    }
  }

  /** The calls stage k makes after the stages before it, in terms of the state before the loop. */
  lemma LaterStageCalls(c: Config, v: State, now: U32, uptimeUs: nat, ota: OtaReport, k: nat, call: Call)
    requires k < StageCount == |v.lastStage|
    ensures var before := Intervals(c, v, now, uptimeUs, ota, k);
      call in StageStep(c, before.after, now, uptimeUs, ota, k).calls <==>
        || (&& call == OtaValidation && StageIndex(Interval10S) == k && !v.firmwareValidated
            && Due(c, Interval10S, now, v.lastStage[k]))
        || (&& call.AdapterCall? && call.hook.OnInterval? && StageIndex(call.hook.stage) == k
            && Due(c, call.hook.stage, now, v.lastStage[k])
            && !v.safeMode && call.index < |v.adapters| && v.adapters[call.index].hasOnInterval)
  {
    var before := Intervals(c, v, now, uptimeUs, ota, k);
    IntervalsLastStage(c, v, now, uptimeUs, ota, k);
    IntervalsValidation(c, v, now, uptimeUs, ota, k);
    assert before.after.lastStage[k] == v.lastStage[k];
    StageCalls(c, before.after, now, uptimeUs, ota, k, call);
    if call.AdapterCall? && call.hook.OnInterval? {
      assert StageAt(StageIndex(call.hook.stage)) == call.hook.stage;
    }
  }

  /** Stages run in ascending order, and within a stage adapters in registration order. */
  predicate StageOrdered(calls: seq<Call>)
  {
    forall i, j :: (0 <= i < j < |calls| && calls[i].AdapterCall? && calls[j].AdapterCall?
                    && calls[i].hook.OnInterval? && calls[j].hook.OnInterval?) ==>
        || StageIndex(calls[i].hook.stage) < StageIndex(calls[j].hook.stage)
        || (calls[i].hook.stage == calls[j].hook.stage && calls[i].index < calls[j].index)
  }

  /** Every on_interval call of one stage is for that stage, in registration order. */
  lemma StageInOrder(c: Config, v: State, now: U32, uptimeUs: nat, ota: OtaReport, k: nat, calls: seq<Call>)
    requires k < StageCount == |v.lastStage|
    requires calls == StageStep(c, v, now, uptimeUs, ota, k).calls
    ensures
      && StageOrdered(calls)
      && forall i :: 0 <= i < |calls| && calls[i].AdapterCall? ==> calls[i].hook == OnInterval(StageAt(k))
  {
    var s := StageAt(k);
    if Due(c, s, now, v.lastStage[k]) {
      var hooked := IntervalHook(c, v, s, uptimeUs, ota);
      BroadcastInOrder(v.adapters, OnInterval(s), v.safeMode);
      assert forall i :: 0 <= i < |hooked.calls| ==> hooked.calls[i] == OtaValidation;
    }
  }

  /** Ordered calls of earlier stages followed by ordered calls of a later stage are ordered. */
  lemma AppendStage(earlier: seq<Call>, later: seq<Call>, k: nat)
    requires k < StageCount
    requires StageOrdered(earlier) && StageOrdered(later)
    requires forall i :: 0 <= i < |earlier| && earlier[i].AdapterCall? && earlier[i].hook.OnInterval? ==>
      StageIndex(earlier[i].hook.stage) < k
    requires forall i :: 0 <= i < |later| && later[i].AdapterCall? ==> later[i].hook == OnInterval(StageAt(k))
    ensures StageOrdered(earlier + later)
  {
    var calls := earlier + later;
    forall i, j | 0 <= i < j < |calls| && calls[i].AdapterCall? && calls[j].AdapterCall?
      && calls[i].hook.OnInterval? && calls[j].hook.OnInterval?
      ensures || StageIndex(calls[i].hook.stage) < StageIndex(calls[j].hook.stage)
              || (calls[i].hook.stage == calls[j].hook.stage && calls[i].index < calls[j].index)
    {
      if i >= |earlier| {
        assert calls[i] == later[i - |earlier|] && calls[j] == later[j - |earlier|];
      } else if j < |earlier| {
        assert calls[i] == earlier[i] && calls[j] == earlier[j];
      }
    }
  }

  /** Stages are run in ascending order, each forwarding to adapters in registration order. */
  lemma {:induction false} IntervalsInOrder(c: Config, v: State, now: U32, uptimeUs: nat, ota: OtaReport, k: nat, calls: seq<Call>)
    requires k <= StageCount == |v.lastStage|
    requires calls == Intervals(c, v, now, uptimeUs, ota, k).calls
    ensures
      && StageOrdered(calls)
      && forall i :: 0 <= i < |calls| && calls[i].AdapterCall? && calls[i].hook.OnInterval? ==>
           StageIndex(calls[i].hook.stage) < k
  {
    if k > 0 {
      var before := Intervals(c, v, now, uptimeUs, ota, k - 1);
      var step := StageStep(c, before.after, now, uptimeUs, ota, k - 1);
      IntervalsInOrder(c, v, now, uptimeUs, ota, k - 1, before.calls);
      StageInOrder(c, before.after, now, uptimeUs, ota, k - 1, step.calls);
      AppendStage(before.calls, step.calls, k - 1);
      forall i | 0 <= i < |calls| && calls[i].AdapterCall? && calls[i].hook.OnInterval?
        ensures StageIndex(calls[i].hook.stage) < k
      {
        if i >= |before.calls| {
          assert calls[i] == step.calls[i - |before.calls|];
        }
      }
    }
  }

  /**
   * Validation is retried at the 10 s stage only while the flag is false, and
   * the flag ends as the validation leaves it.
   */
  lemma {:induction false} IntervalsValidation(c: Config, v: State, now: U32, uptimeUs: nat, ota: OtaReport, k: nat)
    requires k <= StageCount == |v.lastStage|
    ensures Intervals(c, v, now, uptimeUs, ota, k).after.firmwareValidated ==
        if StageIndex(Interval10S) < k && !v.firmwareValidated
           && Due(c, Interval10S, now, v.lastStage[StageIndex(Interval10S)])
        then ValidatedAfter(false, ota)
        else v.firmwareValidated
  {
    if k > 0 {
      IntervalsValidation(c, v, now, uptimeUs, ota, k - 1);
      IntervalsLastStage(c, v, now, uptimeUs, ota, k - 1);
      var before := Intervals(c, v, now, uptimeUs, ota, k - 1);
      assert before.after.lastStage[k - 1] == v.lastStage[k - 1];
      StageValidation(c, before.after, now, uptimeUs, ota, k - 1);
    }
  }

  /** One stage validates the firmware only when it is the due 10 s stage and the firmware is not yet validated. */
  lemma StageValidation(c: Config, w: State, now: U32, uptimeUs: nat, ota: OtaReport, k: nat)
    requires k < StageCount == |w.lastStage|
    ensures StageStep(c, w, now, uptimeUs, ota, k).after.firmwareValidated ==
      if StageIndex(Interval10S) == k && !w.firmwareValidated && Due(c, Interval10S, now, w.lastStage[k])
      then ValidatedAfter(false, ota)
      else w.firmwareValidated
  {
    assert StageAt(k) == Interval10S <==> StageIndex(Interval10S) == k;
  }

  /**
   * The boot counter is cleared only by a due 5 s stage, only when it is
   * positive and the uptime in whole seconds exceeds the stable time;
   * otherwise it keeps its value.
   */
  lemma {:induction false} IntervalsBootClear(c: Config, v: State, now: U32, uptimeUs: nat, ota: OtaReport, k: nat)
    requires k <= StageCount == |v.lastStage|
    ensures Intervals(c, v, now, uptimeUs, ota, k).after.bootCounter ==
        if StageIndex(Interval5S) < k && Due(c, Interval5S, now, v.lastStage[StageIndex(Interval5S)])
           && v.bootCounter > 0 && uptimeUs / 1000000 > c.stableTimeS
        then 0
        else v.bootCounter
  {
    if k > 0 {
      IntervalsBootClear(c, v, now, uptimeUs, ota, k - 1);
      IntervalsLastStage(c, v, now, uptimeUs, ota, k - 1);
      var before := Intervals(c, v, now, uptimeUs, ota, k - 1);
      assert before.after.lastStage[k - 1] == v.lastStage[k - 1];
      StageBootClear(c, before.after, now, uptimeUs, ota, k - 1);
    }
  }

  /** One stage clears the boot counter only when it is the due 5 s stage, the counter is positive and the system is stable. */
  lemma StageBootClear(c: Config, w: State, now: U32, uptimeUs: nat, ota: OtaReport, k: nat)
    requires k < StageCount == |w.lastStage|
    ensures StageStep(c, w, now, uptimeUs, ota, k).after.bootCounter ==
      if StageIndex(Interval5S) == k && Due(c, Interval5S, now, w.lastStage[k])
         && w.bootCounter > 0 && uptimeUs / 1000000 > c.stableTimeS
      then 0
      else w.bootCounter
  {
    assert StageAt(k) == Interval5S <==> StageIndex(Interval5S) == k;
  }

  // ---------------------------------------------------------------------------
  // One pass of the super-loop

  /**
   * A dequeued job's handler runs exactly once, before anything else in the
   * pass; with no job no handler runs.
   */
  lemma PassRunsJobOnce(c: Config, v: State, inp: PassInputs, e: Effect)
    requires |v.lastStage| == StageCount && e == PassStep(c, v, inp)
    ensures
      && (inp.job.Some? ==> |e.calls| > 0 && e.calls[0] == RunHandler(inp.job.value))
      && (forall i :: 0 <= i < |e.calls| && e.calls[i].RunHandler? ==> i == 0 && inp.job.Some?)
  {
    var job := JobStep(v, inp.job);
    var fanned := EventStep(job.after, inp.racing);
    var timed := Intervals(c, fanned.after, inp.now, inp.uptimeUs, inp.ota, StageCount);
    EventFanOut(job.after, inp.racing, fanned);
    forall i | 0 <= i < |e.calls| && e.calls[i].RunHandler?
      ensures i == 0 && inp.job.Some?
    {
      if i >= |job.calls| + |fanned.calls| {
        var call := timed.calls[i - |job.calls| - |fanned.calls|];
        IntervalsCalls(c, fanned.after, inp.now, inp.uptimeUs, inp.ota, StageCount, call);
      }
    }
  }

  /**
   * The completion bit of a job run in this pass is in the snapshot the same
   * pass hands to every adapter with on_event.
   */
  lemma PassCompletionSeen(c: Config, v: State, inp: PassInputs, i: nat)
    requires |v.lastStage| == StageCount
    requires inp.job.Some? && i < |v.adapters| && v.adapters[i].hasOnEvent
    ensures AdapterCall(i, OnEvent(v.events | EventBits.CmndCompleted)) in PassStep(c, v, inp).calls
  {
    var job := JobStep(v, inp.job);
    var fanned := EventStep(job.after, inp.racing);
    assert job.after.events == v.events | EventBits.CmndCompleted != 0;
    EventFanOut(job.after, inp.racing, fanned);
  }

  /**
   * Which stages fire in a pass, where the pass leaves each stage's last
   * tick, and that a pass changes neither the registry nor safe mode.
   */
  lemma PassStages(c: Config, v: State, inp: PassInputs, e: Effect)
    requires |v.lastStage| == StageCount && e == PassStep(c, v, inp)
    ensures
      && e.after.adapters == v.adapters && e.after.safeMode == v.safeMode
      && |e.after.lastStage| == StageCount
      && (forall j :: 0 <= j < StageCount ==>
            e.after.lastStage[j] == if Due(c, StageAt(j), inp.now, v.lastStage[j]) then inp.now else v.lastStage[j])
      && StageOrdered(e.calls)
      && (v.safeMode ==> forall call :: call in e.calls ==> !(call.AdapterCall? && call.hook.OnInterval?))
  {
    var job := JobStep(v, inp.job);
    var fanned := EventStep(job.after, inp.racing);
    var timed := Intervals(c, fanned.after, inp.now, inp.uptimeUs, inp.ota, StageCount);
    EventFanOut(job.after, inp.racing, fanned);
    IntervalsLastStage(c, fanned.after, inp.now, inp.uptimeUs, inp.ota, StageCount);
    IntervalsInOrder(c, fanned.after, inp.now, inp.uptimeUs, inp.ota, StageCount, timed.calls);
    forall i | 0 <= i < |e.calls| && e.calls[i].AdapterCall? && e.calls[i].hook.OnInterval?
      ensures i >= |job.calls| + |fanned.calls| && e.calls[i] == timed.calls[i - |job.calls| - |fanned.calls|]
      ensures v.safeMode ==> false
    {
      if i >= |job.calls| + |fanned.calls| {
        IntervalsCalls(c, fanned.after, inp.now, inp.uptimeUs, inp.ota, StageCount, e.calls[i]);
      }
    }
  }

  /**
   * The core's own interval work in a pass: firmware validation retried at
   * the 10 s stage while unvalidated, and the boot-counter clear at the 5 s
   * stage after stable operation.
   */
  lemma PassHousekeeping(c: Config, v: State, inp: PassInputs, e: Effect)
    requires |v.lastStage| == StageCount && e == PassStep(c, v, inp)
    ensures
      && e.after.firmwareValidated ==
           (if !v.firmwareValidated && Due(c, Interval10S, inp.now, v.lastStage[3])
            then ValidatedAfter(false, inp.ota) else v.firmwareValidated)
      && e.after.bootCounter ==
           (if Due(c, Interval5S, inp.now, v.lastStage[2]) && v.bootCounter > 0
               && inp.uptimeUs / 1000000 > c.stableTimeS
            then 0 else v.bootCounter)
      && (OtaValidation in e.calls <==> !v.firmwareValidated && Due(c, Interval10S, inp.now, v.lastStage[3]))
  {
    var job := JobStep(v, inp.job);
    var fanned := EventStep(job.after, inp.racing);
    EventFanOut(job.after, inp.racing, fanned);
    IntervalsValidation(c, fanned.after, inp.now, inp.uptimeUs, inp.ota, StageCount);
    IntervalsBootClear(c, fanned.after, inp.now, inp.uptimeUs, inp.ota, StageCount);
    IntervalsCalls(c, fanned.after, inp.now, inp.uptimeUs, inp.ota, StageCount, OtaValidation);
  }

  // ---------------------------------------------------------------------------
  // Boot

  /**
   * Platform init decides safe mode once from the boot counter, validates the
   * firmware only in safe mode, and sets PLATFORM_INITIALIZED.
   */
  lemma PlatformInitState(c: Config, v: State, abnormalReset: bool, ota: OtaReport, e: Effect, counter: U32)
    requires e == PlatformInitStep(c, v, abnormalReset, ota)
    requires counter == CounterAfterReset(v.bootCounter, abnormalReset)
    ensures e.after.bootCounter == counter
    ensures e.after.safeMode <==> counter >= c.safeModeThreshold
    ensures e.after.events == v.events | EventBits.PlatformInitialized
    ensures e.after.adapters == v.adapters && e.after.lastStage == v.lastStage
    ensures e.after.firmwareValidated ==
      if e.after.safeMode then ValidatedAfter(v.firmwareValidated, ota) else v.firmwareValidated
  {
  }

  /**
   * In safe mode the firmware is validated before any adapter init; then the
   * adapters with an init callback are initialised in registration order,
   * in safe mode only those enabled for it.
   */
  lemma PlatformInitCalls(c: Config, v: State, abnormalReset: bool, ota: OtaReport, e: Effect, safe: bool)
    requires e == PlatformInitStep(c, v, abnormalReset, ota) && safe == e.after.safeMode
    ensures safe ==> e.calls[0] == OtaValidation && e.calls[1..] == Broadcast(v.adapters, Init, true)
    ensures !safe ==> e.calls == Broadcast(v.adapters, Init, false)
    ensures OtaValidation in e.calls <==> safe
    ensures forall i: nat :: AdapterCall(i, Init) in e.calls <==>
      i < |v.adapters| && v.adapters[i].hasInit && (safe ==> v.adapters[i].enableInSafeMode)
    ensures InRegistrationOrder(if safe then e.calls[1..] else e.calls, |v.adapters|, Init)
  {
    var inits := Broadcast(v.adapters, Init, safe);
    var pre := if safe then [OtaValidation] else [];
    assert e.calls == pre + inits;
    assert (if safe then e.calls[1..] else e.calls) == inits;
    BroadcastInOrder(v.adapters, Init, safe);
    BroadcastMembership(v.adapters, Init, safe, OtaValidation);
    forall i: nat ensures AdapterCall(i, Init) in e.calls <==>
      i < |v.adapters| && v.adapters[i].hasInit && (safe ==> v.adapters[i].enableInSafeMode)
    {
      BroadcastMembership(v.adapters, Init, safe, AdapterCall(i, Init));
    }
  }

  /**
   * An adapter whose enable_in_safe_mode is false, the value a designated
   * initialiser leaves it at, gets no init in safe mode.
   */
  lemma DefaultAdapterSkippedInSafeMode(adapters: seq<Adapter>, i: nat)
    requires i < |adapters| && !adapters[i].enableInSafeMode
    ensures AdapterCall(i, Init) !in Broadcast(adapters, Init, true)
  {
    BroadcastMembership(adapters, Init, true, AdapterCall(i, Init));
  }

  /** The boot counter and the safe-mode decision over successive boots with no clear in between. */
  function Boots(c: Config, v: State, resets: seq<bool>): State
  {
    if resets == [] then v else SafeModeStep(c, Boots(c, v, resets[..|resets| - 1]), resets[|resets| - 1])
  }

  /** The number of abnormal resets in a run of boots. */
  function Crashes(resets: seq<bool>): nat
  {
    if resets == [] then 0 else Crashes(resets[..|resets| - 1]) + (if resets[|resets| - 1] then 1 else 0)
  }

  /**
   * A run of boots raises the boot counter by exactly its number of abnormal
   * resets (short of wrapping), and safe mode is active after the last of
   * them exactly when the counter has reached the threshold.
   */
  lemma {:induction false} CrashLoop(c: Config, v: State, resets: seq<bool>)
    requires v.bootCounter + |resets| < U32Modulus
    ensures Crashes(resets) <= |resets|
    ensures Boots(c, v, resets).bootCounter == v.bootCounter + Crashes(resets)
    ensures resets != [] ==>
      (Boots(c, v, resets).safeMode <==> v.bootCounter + Crashes(resets) >= c.safeModeThreshold)
  {
    if resets != [] {
      CrashLoop(c, v, resets[..|resets| - 1]);
    }
  }

  /** After the counter has been cleared, a normal boot does not enter safe mode. */
  lemma ClearedCounterBootsNormally(c: Config, v: State)
    requires v.bootCounter == 0 && c.safeModeThreshold > 0
    ensures !SafeModeStep(c, v, false).safeMode
    ensures SafeModeStep(c, v, true).safeMode <==> c.safeModeThreshold == 1
  {
  }

  /** The interval stages are declared in ascending period order. */
  lemma StagesAscending(i: nat, j: nat)
    requires i < j < StageCount
    ensures IntervalMs(StageAt(i)) < IntervalMs(StageAt(j))
  {
  }
}
