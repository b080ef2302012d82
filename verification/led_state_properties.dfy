/** What the brightness state machine, the handler and the callbacks of led.c guarantee. */
module LedStateProperties {
  import opened Common
  import opened LedParse
  import opened LedPack
  import opened SupervisorApi
  import opened Led
  import opened LedTableProperties
  import Ha

  // ---------------------------------------------------------------------------
  // Setting a level

  /**
   * led_set_brightness as the getters see it: on a configured LED of an
   * initialised adapter the level reads back and the LED is on exactly when
   * it is non-zero; no other LED changes; anything else is refused unchanged.
   */
  lemma SetReadsBack(v: LedState, idx: Byte, b: Byte, j: int)
    ensures var e := SetStep(v, idx, b);
      && |e.after.leds| == |v.leds|
      && (Settable(v, idx) ==>
            BrightnessOf(e.after.leds, idx) == b && (IsOn(e.after.leds, idx) <==> b > 0)
            && e.after.dirty && e.hw == [SetDuty(v.leds[idx].channel, b)])
      && (j != idx ==> BrightnessOf(e.after.leds, j) == BrightnessOf(v.leds, j)
                       && NameOf(e.after.leds, j) == NameOf(v.leds, j))
      && (!Settable(v, idx) ==> e.after == v && e.hw == [])
  {
    var e := SetStep(v, idx, b);
    if Settable(v, idx) {
      assert InTable(e.after.leds, j) <==> InTable(v.leds, j);
    }
  }

  /** led_fade_to leaves the same state as led_set_brightness; only the driver request differs. */
  lemma FadeLikeSet(v: LedState, idx: Byte, target: Byte, durationMs: U32)
    ensures FadeStep(v, idx, target, durationMs).after == SetStep(v, idx, target).after
    ensures |FadeStep(v, idx, target, durationMs).hw| == |SetStep(v, idx, target).hw|
  {
  }

  /**
   * An LED whose last_brightness is the level turn_on would come back to:
   * its current level while on, a non-zero one while off.
   */
  predicate Resumable(led: LedConfig)
  {
    if led.brightness > 0 then led.lastBrightness == led.brightness else led.lastBrightness > 0
  }

  predicate AllResumable(leds: seq<LedConfig>)
  {
    forall i :: 0 <= i < |leds| ==> Resumable(leds[i])
  }

  /** Every configured LED starts resumable: off, last brightness 255. */
  lemma ParsedResumable(before: seq<LedConfig>, list: string, pinCount: nat, i: nat)
    requires |before| >= 1
    requires i < |Configured(list, pinCount, |before| - 1)|
    ensures Resumable(ParsedTable(before, list, pinCount)[i])
  {
    ParsedSlot(before, list, pinCount, i);
  }

  /** set, fade, turn_on, turn_off and toggle keep every LED resumable. */
  lemma SetKeepsResumable(v: LedState, idx: Byte, b: Byte, target: Byte, durationMs: U32)
    requires AllResumable(v.leds)
    ensures AllResumable(SetStep(v, idx, b).after.leds)
    ensures AllResumable(FadeStep(v, idx, target, durationMs).after.leds)
    ensures AllResumable(TurnOnStep(v, idx).after.leds)
    ensures AllResumable(TurnOffStep(v, idx).after.leds)
    ensures AllResumable(ToggleStep(v, idx).after.leds)
  {
    forall c: Byte
      ensures AllResumable(SetStep(v, idx, c).after.leds)
    {
      var after := SetStep(v, idx, c).after.leds;
      forall i | 0 <= i < |after|
        ensures Resumable(after[i])
      {
        assert Resumable(v.leds[i]);
      }
    }
    if Settable(v, idx) {
      assert TurnOnStep(v, idx) == SetStep(v, idx, OnLevel(v.leds[idx]));
    }
  }

  /** turn_off then turn_on brings a resumable LED back to the level it had, or to its last one. */
  lemma OffThenOn(v: LedState, idx: Byte)
    requires Settable(v, idx) && Resumable(v.leds[idx])
    ensures var back := TurnOnStep(TurnOffStep(v, idx).after, idx).after;
      BrightnessOf(back.leds, idx) == OnLevel(v.leds[idx])
      && (IsOn(v.leds, idx) ==> back.leds == v.leds)
  {
    var off := TurnOffStep(v, idx).after;
    assert off.leds[idx] == v.leds[idx].(brightness := 0);
    assert Settable(off, idx);
  }

  /** A toggle switches a configured LED between on and off. */
  lemma ToggleFlips(v: LedState, idx: Byte)
    requires Settable(v, idx)
    ensures IsOn(ToggleStep(v, idx).after.leds, idx) <==> !IsOn(v.leds, idx)
  {
    SetReadsBack(v, idx, 0, idx);
    SetReadsBack(v, idx, OnLevel(v.leds[idx]), idx);
  }

  /** Two toggles give a resumable LED back its level. */
  lemma ToggleTwice(v: LedState, idx: Byte)
    requires Settable(v, idx) && Resumable(v.leds[idx])
    ensures ToggleStep(ToggleStep(v, idx).after, idx).after.leds == v.leds
  {
    var once := ToggleStep(v, idx).after;
    assert Settable(once, idx);
    if IsOn(v.leds, idx) {
      assert once.leds[idx] == v.leds[idx].(brightness := 0);
      assert !IsOn(once.leds, idx);
    } else {
      assert once.leds[idx] == v.leds[idx].(brightness := v.leds[idx].lastBrightness);
      assert IsOn(once.leds, idx);
      assert once.leds[idx := Lit(once.leds[idx], 0)] == v.leds;
    }
  }

  /** Before led_adapter_init, or after shutdown, every setter is refused and no name is found. */
  lemma UninitializedRefuses(v: LedState, idx: Byte, b: Byte, durationMs: U32, name: Option<string>, sanitize: string -> string)
    requires !v.initialized
    ensures SetStep(v, idx, b) == LedEffect(v, [])
    ensures FadeStep(v, idx, b, durationMs) == LedEffect(v, [])
    ensures TurnOnStep(v, idx) == LedEffect(v, []) && TurnOffStep(v, idx) == LedEffect(v, [])
    ensures FindIndex(v, name, sanitize) == -1
  {
  }

  // ---------------------------------------------------------------------------
  // The handler

  /** Handling one more item is one more ItemStep. */
  lemma HandleSnoc(v: LedState, items: seq<Item>, it: Item, sanitize: string -> string)
    requires Shaped(v)
    ensures var x := HandleAll(v, items, sanitize);
      var step := ItemStep(x.after, it, sanitize);
      HandleAll(v, items + [it], sanitize) == LedEffect(step.after, x.hw + step.hw)
  {
    assert (items + [it])[..|items|] == items;
  }

  /**
   * An item whose key names no LED (or whose number is out of range) is
   * skipped, and the items after it are still handled.
   */
  lemma {:induction false} SkippedItem(v: LedState, before: seq<Item>, it: Item, after: seq<Item>, sanitize: string -> string)
    requires Shaped(v)
    requires var x := HandleAll(v, before, sanitize).after;
      FindIndex(x, it.key, sanitize) < 0 || (it.value.Number? && !(0 <= it.value.valueint <= 255))
    ensures HandleAll(v, before + [it] + after, sanitize) == HandleAll(v, before + after, sanitize)
    decreases |after|
  {
    if after == [] {
      assert before + [it] + after == before + [it];
      assert before + after == before;
      HandleSnoc(v, before, it, sanitize);
      var x := HandleAll(v, before, sanitize);
      assert x.hw + [] == x.hw;
    } else {
      var after', last := after[..|after| - 1], after[|after| - 1];
      assert before + [it] + after == (before + [it] + after') + [last];
      assert before + after == (before + after') + [last];
      SkippedItem(v, before, it, after', sanitize);
      HandleSnoc(v, before + [it] + after', last, sanitize);
      HandleSnoc(v, before + after', last, sanitize);
    }
  }

  /** What one handled item does to the LED its key names. */
  lemma ItemEffect(v: LedState, it: Item, sanitize: string -> string)
    requires Shaped(v)
    ensures var idx := FindIndex(v, it.key, sanitize);
      var after := ItemStep(v, it, sanitize).after;
      && (idx >= 0 ==> Settable(v, idx) && it.key.Some? && sanitize(v.leds[idx].name) == it.key.value)
      && (idx >= 0 && it.value.Number? && 0 <= it.value.valueint <= 255 ==>
            BrightnessOf(after.leds, idx) == it.value.valueint)
      && (idx >= 0 && it.value == Other(StateToggle) ==> (IsOn(after.leds, idx) <==> !IsOn(v.leds, idx)))
      && (idx >= 0 && it.value == Other(StateOn) ==> BrightnessOf(after.leds, idx) == OnLevel(v.leds[idx]))
      && (idx >= 0 && it.value == Other(StateOff) ==> !IsOn(after.leds, idx))
      && (idx < 0 ==> after == v)
  {
    var idx := FindIndex(v, it.key, sanitize);
    if idx >= 0 {
      assert idx < NamedCount(v.leds) && InTable(v.leds, idx);
      match it.value
      case Number(n) =>
        if 0 <= n <= 255 {
          SetReadsBack(v, idx, n, idx);
        }
      case Other(s) =>
        if s == StateToggle {
          ToggleFlips(v, idx);
        } else {
          SetReadsBack(v, idx, 0, idx);
          SetReadsBack(v, idx, OnLevel(v.leds[idx]), idx);
        }
    }
  }

  // ---------------------------------------------------------------------------
  // Saving and restoring

  /** After led_save_state the last-saved pair is the table's packed state; a second save writes nothing. */
  lemma SaveSyncs(v: LedState)
    ensures var s := SaveStep(v).after;
      && s.leds == v.leds
      && s.lastSaved == Packed(v.leds, Brightness) && s.lastSavedLast == Packed(v.leds, LastBrightness)
      && SaveStep(s) == LedEffect(s, [])
    ensures SaveStep(v).hw != [] <==> (v.lastSaved, v.lastSavedLast) != (Packed(v.leds, Brightness), Packed(v.leds, LastBrightness))
  {
  }

  /** Unpacking one field leaves the other field's packed value alone. */
  lemma PackedOtherField(leds: seq<LedConfig>, f: Field, g: Field, packed: nat)
    requires f != g
    ensures Packed(Unpacked(leds, g, packed), f) == Packed(leds, f)
  {
    var u := Unpacked(leds, g, packed);
    UnpackedCount(leds, g, packed);
    var n := PackedCount(leds);
    forall i | 0 <= i < n
      ensures FieldOf(u[i], f) == FieldOf(leds[i], f)
    {
      match g
      case Brightness =>
      case LastBrightness =>
    }
    assert FieldBytes(u[..n], f) == FieldBytes(leds[..n], f);
  }

  /** Restoring what led_save_state just wrote gives the table back. */
  lemma SaveThenRestore(v: LedState)
    ensures var s := SaveStep(v).after;
      RestoreStep(v, s.lastSaved, s.lastSavedLast).leds == v.leds
  {
    UnpackOfPack(v.leds, Brightness);
    PackedOtherField(v.leds, LastBrightness, Brightness, Packed(v.leds, Brightness));
    UnpackOfPack(v.leds, LastBrightness);
  }

  /**
   * A stored pair the table's LEDs can hold (no bits beyond the last packed
   * LED) is what a save right after the restore finds: it writes nothing.
   */
  lemma RestoreThenSaveQuiet(v: LedState, saved: U64, savedLast: U64)
    requires saved < Pow256(PackedCount(v.leds)) && savedLast < Pow256(PackedCount(v.leds))
    ensures SaveStep(RestoreStep(v, saved, savedLast)).hw == []
  {
    var u := Unpacked(v.leds, Brightness, saved);
    UnpackedCount(v.leds, Brightness, saved);
    PackOfUnpack(v.leds, Brightness, saved);
    PackedOtherField(u, Brightness, LastBrightness, savedLast);
    PackOfUnpack(u, LastBrightness, savedLast);
  }

  /** led_adapter_on_interval writes only at the 5 s stage with unsaved changes, and leaves the pair in sync then. */
  lemma IntervalSaves(v: LedState, stage: Stage)
    ensures var e := OnIntervalStep(v, stage);
      && e.after.leds == v.leds
      && (e.hw != [] ==> stage == Interval5S && v.dirty && |e.hw| == 1)
      && (stage == Interval5S && v.dirty ==>
            e.after.lastSaved == Packed(v.leds, Brightness) && e.after.lastSavedLast == Packed(v.leds, LastBrightness))
      && (stage != Interval5S || !v.dirty ==> e.after == v)
  {
  }

  // ---------------------------------------------------------------------------
  // Init and shutdown

  /**
   * led_adapter_init with a working timer: the configured LEDs in their
   * slots, their brightness restored from the stored value (the first eight),
   * each channel configured once in slot order with that duty, the adapter
   * initialised.
   */
  lemma InitConfiguresChannels(v: LedState, list: string, pinCount: nat, saved: U64, savedLast: U64, i: nat)
    requires Shaped(v) && !v.initialized
    requires i < |Configured(list, pinCount, |v.leds| - 1)|
    ensures var e := InitStep(v, list, pinCount, true, saved, savedLast);
      var cfg := Configured(list, pinCount, |v.leds| - 1);
      && e.after.initialized
      && |e.hw| == 2 + |cfg| && e.hw[0] == TimerConfig && e.hw[1] == FadeInstall
      && e.hw[2 + i] == ChannelConfig(cfg[i].gpio, i, if i < PackSlots then ByteAt(saved, i) else 0)
  {
    var parsed := v.(leds := ParsedTable(v.leds, list, pinCount));
    ParsedSlot(v.leds, list, pinCount, i);
    StartConfiguresChannels(parsed, saved, savedLast, i);
    var started := StartStep(parsed, saved, savedLast);
    var e := InitStep(v, list, pinCount, true, saved, savedLast);
    assert e.hw == [TimerConfig] + started.hw && e.after == started.after;
    assert e.hw[2 + i] == started.hw[1 + i];
  }

  /** The part of init after the timer: the fade service, then one channel per LED with its restored duty. */
  lemma StartConfiguresChannels(v: LedState, saved: U64, savedLast: U64, i: nat)
    requires i < LiveCount(v.leds)
    ensures var e := StartStep(v, saved, savedLast);
      && e.after.initialized && |e.hw| == 1 + LiveCount(v.leds) && e.hw[0] == FadeInstall
      && e.hw[1 + i] == ChannelConfig(v.leds[i].gpio, v.leds[i].channel,
                                      if i < PackSlots then ByteAt(saved, i) else v.leds[i].brightness)
  {
    RestoredSlot(v.leds, saved, savedLast, i);
  }

  /** A second led_adapter_init does nothing. */
  lemma InitOnce(v: LedState, list: string, pinCount: nat, timerOk: bool, saved: U64, savedLast: U64)
    requires Shaped(v)
    ensures var e := InitStep(v, list, pinCount, timerOk, saved, savedLast);
      timerOk ==> InitStep(e.after, list, pinCount, timerOk, saved, savedLast) == LedEffect(e.after, [])
  {
  }

  /** led_restore_state changes only the two brightness fields, of the first eight LEDs. */
  lemma RestoredSlot(leds: seq<LedConfig>, saved: U64, savedLast: U64, i: nat)
    requires i < LiveCount(leds)
    ensures var r := Unpacked(Unpacked(leds, Brightness, saved), LastBrightness, savedLast);
      && LiveCount(r) == LiveCount(leds)
      && r[i].gpio == leds[i].gpio && r[i].channel == leds[i].channel && r[i].name == leds[i].name
      && r[i].brightness == (if i < PackSlots then ByteAt(saved, i) else leds[i].brightness)
  {
    var u := Unpacked(leds, Brightness, saved);
    UnpackedCount(leds, Brightness, saved);
    UnpackedCount(u, LastBrightness, savedLast);
  }

  /** A failing timer leaves the table parsed but the adapter uninitialised, so init can be retried. */
  lemma InitTimerFails(v: LedState, list: string, pinCount: nat, saved: U64, savedLast: U64)
    requires Shaped(v) && !v.initialized
    ensures var e := InitStep(v, list, pinCount, false, saved, savedLast);
      && !e.after.initialized && e.hw == [TimerConfig]
      && e.after.leds == ParsedTable(v.leds, list, pinCount)
      && InitRegistration(v, e.after, Ha.HaState([], false, false)) == Ha.HaState([], false, false)
  {
  }

  /** Init registers one light per configured LED, in slot order, under the group key. */
  lemma InitRegistersLights(v: LedState, list: string, pinCount: nat, saved: U64, savedLast: U64, i: nat)
    requires Shaped(v) && !v.initialized
    requires i < |Configured(list, pinCount, |v.leds| - 1)|
    ensures var after := InitStep(v, list, pinCount, true, saved, savedLast).after;
      var lights := LightEntities(after.leds);
      && |lights| == |Configured(list, pinCount, |v.leds| - 1)|
      && lights[i] == LightEntity(Configured(list, pinCount, |v.leds| - 1)[i].name)
  {
    var parsed := ParsedTable(v.leds, list, pinCount);
    ParsedSlot(v.leds, list, pinCount, i);
    RestoredSlot(parsed, saved, savedLast, i);
  }

  /**
   * led_adapter_shutdown: the state saved, every LED's duty set to zero in
   * slot order, the fade service released, the adapter uninitialised with
   * its table kept; a second shutdown does nothing.
   */
  lemma ShutdownSavesAndSwitchesOff(v: LedState)
    requires v.initialized
    ensures var e := ShutdownStep(v);
      && !e.after.initialized && e.after.leds == v.leds
      && e.after.lastSaved == Packed(v.leds, Brightness) && e.after.lastSavedLast == Packed(v.leds, LastBrightness)
      && |e.hw| == |SaveStep(v).hw| + LiveCount(v.leds) + 1
      && e.hw[|e.hw| - 1] == FadeUninstall
      && (forall i :: 0 <= i < LiveCount(v.leds) ==> e.hw[|SaveStep(v).hw| + i] == SetDuty(v.leds[i].channel, 0))
      && ShutdownStep(e.after) == LedEffect(e.after, [])
  {
  }
}
