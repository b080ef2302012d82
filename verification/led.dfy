/**
 * The PWM LED adapter (led.c): the table of configured LEDs, its
 * brightness state machine, the persisted copy of the state, the command
 * handler and the adapter callbacks. The LEDC driver and the configuration
 * store are outside: what the adapter asks of them is returned as a trace
 * of HwCall values, and what it reads from them comes in as parameters.
 */
module Led {
  import opened Common
  import opened LedParse
  import opened LedPack
  import opened SupervisorApi
  import Ha

  /** The key of the adapter's command and telemetry group, and the parent key of its entities. */
  const GroupKey: string := "pwm_led"

  /** The full duty turn_on falls back to. */
  const FullDuty: Byte := 255

  /** A request to the LEDC driver or the configuration store. */
  datatype HwCall =
    | TimerConfig                                        // ledc_timer_config: 8 bit, LEDC_TIMER_0
    | FadeInstall                                        // ledc_fade_func_install
    | ChannelConfig(gpio: int, channel: int, duty: Byte) // ledc_channel_config
    | SetDuty(channel: int, duty: Byte)                  // ledc_set_duty, then ledc_update_duty
    | StartFade(channel: int, target: Byte, durationMs: U32) // ledc_set_fade_with_time, ledc_fade_start
    | FadeUninstall                                      // ledc_fade_func_uninstall
    | StoreState(state: U64, lastState: U64)             // config_set_led_state, config_set_led_last_state

  /** The module state of led.c. */
  datatype LedState = LedState(
    leds: seq<LedConfig>,   // leds[], the last slot being the sentinel slot
    initialized: bool,      // led_initialized
    dirty: bool,            // state_dirty
    lastSaved: U64,         // last_saved_state
    lastSavedLast: U64)     // last_saved_last_state

  datatype LedEffect = LedEffect(after: LedState, hw: seq<HwCall>)

  /**
   * The table holds at least its sentinel slot, and LED_ADAPTER_MAX_LEDS
   * (|leds| - 1) fits the int8_t that led_find_by_name returns.
   */
  predicate Shaped(v: LedState)
  {
    1 <= |v.leds| <= 128
  }

  /** The sentinel slot holds GPIO_NUM_NC once parse_gpio_list has run. */
  predicate Terminated(leds: seq<LedConfig>)
  {
    |leds| >= 1 && leds[|leds| - 1].gpio == GpioNumNc
  }

  /** The index guard of the accessors: below LED_ADAPTER_MAX_LEDS and not a sentinel. */
  predicate InTable(leds: seq<LedConfig>, idx: int)
  {
    0 <= idx && idx + 1 < |leds| && leds[idx].gpio != GpioNumNc
  }

  /** The guard of led_set_brightness, led_fade_to and led_turn_on. */
  predicate Settable(v: LedState, idx: int)
  {
    v.initialized && InTable(v.leds, idx)
  }

  // ---------------------------------------------------------------------------
  // Getters

  /** led_get_brightness */
  function BrightnessOf(leds: seq<LedConfig>, idx: int): (b: Byte)
    ensures !InTable(leds, idx) ==> b == 0
  {
    if InTable(leds, idx) then leds[idx].brightness else 0
  }

  /** led_is_on */
  predicate IsOn(leds: seq<LedConfig>, idx: int)
  {
    BrightnessOf(leds, idx) > 0
  }

  /** led_get_name: None for NULL. */
  function NameOf(leds: seq<LedConfig>, idx: int): (r: Option<string>)
    ensures r.Some? <==> InTable(leds, idx)
  {
    if InTable(leds, idx) then Some(leds[idx].name) else None
  }

  /** The LEDs whose names the accessors expose: the slots before the first sentinel, at most LED_ADAPTER_MAX_LEDS. */
  function NamedCount(leds: seq<LedConfig>): (n: nat)
    ensures n <= LiveCount(leds) && (|leds| >= 1 ==> n < |leds|)
    ensures forall i :: 0 <= i < n ==> InTable(leds, i)
  {
    if |leds| == 0 then 0 else Min(|leds| - 1, LiveCount(leds))
  }

  // ---------------------------------------------------------------------------
  // The brightness state machine

  /** The LED at `idx` set to `b`: last_brightness follows every non-zero level. */
  function Lit(led: LedConfig, b: Byte): (r: LedConfig)
    ensures r.brightness == b
    ensures r.lastBrightness == (if b > 0 then b else led.lastBrightness)
    ensures r.gpio == led.gpio && r.channel == led.channel && r.name == led.name
  {
    led.(brightness := b, lastBrightness := if b > 0 then b else led.lastBrightness)
  }

  /** led_set_brightness */
  function SetStep(v: LedState, idx: Byte, b: Byte): LedEffect
  {
    if !Settable(v, idx) then LedEffect(v, [])
    else LedEffect(v.(leds := v.leds[idx := Lit(v.leds[idx], b)], dirty := true), [SetDuty(v.leds[idx].channel, b)])
  }

  /** led_fade_to: the same state change, the driver fading instead of stepping. */
  function FadeStep(v: LedState, idx: Byte, target: Byte, durationMs: U32): LedEffect
  {
    if !Settable(v, idx) then LedEffect(v, [])
    else LedEffect(v.(leds := v.leds[idx := Lit(v.leds[idx], target)], dirty := true),
                   [StartFade(v.leds[idx].channel, target, durationMs)])
  }

  /** The level led_turn_on restores: the last non-zero one, or full when there is none. */
  function OnLevel(led: LedConfig): (b: Byte)
    ensures b > 0
  {
    if led.lastBrightness == 0 then FullDuty else led.lastBrightness
  }

  /** led_turn_on */
  function TurnOnStep(v: LedState, idx: Byte): LedEffect
  {
    if !Settable(v, idx) then LedEffect(v, []) else SetStep(v, idx, OnLevel(v.leds[idx]))
  }

  /** led_turn_off */
  function TurnOffStep(v: LedState, idx: Byte): LedEffect
  {
    SetStep(v, idx, 0)
  }

  /** The toggle of led_handler. */
  function ToggleStep(v: LedState, idx: Byte): LedEffect
  {
    if IsOn(v.leds, idx) then TurnOffStep(v, idx) else TurnOnStep(v, idx)
  }

  // ---------------------------------------------------------------------------
  // Lookup by name

  /**
   * The search of led_find_by_name from slot `i`: the first slot, before
   * the first sentinel and below LED_ADAPTER_MAX_LEDS, whose sanitized name
   * is `name`, or -1.
   */
  function MatchFrom(leds: seq<LedConfig>, name: string, sanitize: string -> string, i: nat): (r: int)
    requires i <= LiveCount(leds)
    ensures r == -1 || (i <= r < NamedCount(leds) && sanitize(leds[r].name) == name)
    ensures r == -1 ==> forall j :: i <= j < NamedCount(leds) ==> sanitize(leds[j].name) != name
    ensures r != -1 ==> forall j :: i <= j < r ==> sanitize(leds[j].name) != name
    decreases |leds| - i
  {
    if i + 1 >= |leds| || leds[i].gpio == GpioNumNc then -1
    else if sanitize(leds[i].name) == name then i
    else MatchFrom(leds, name, sanitize, i + 1)
  }

  /** led_find_by_name: -1 for a NULL name or before initialisation. */
  function FindIndex(v: LedState, name: Option<string>, sanitize: string -> string): int
  {
    if name.None? || !v.initialized then -1 else MatchFrom(v.leds, name.value, sanitize, 0)
  }

  // ---------------------------------------------------------------------------
  // The command handler

  /** A parsed JSON value: a number (cJSON's valueint), or anything else, classified. */
  datatype JsonValue = Number(valueint: int) | Other(state: LogicState)

  /** A member of the parsed JSON object; its key is None when the root is not an object. */
  datatype Item = Item(key: Option<string>, value: JsonValue)

  /** One item of led_handler. */
  function ItemStep(v: LedState, it: Item, sanitize: string -> string): LedEffect
    requires Shaped(v)
  {
    var idx := FindIndex(v, it.key, sanitize);
    if idx < 0 then LedEffect(v, [])
    else match it.value
      case Number(n) => if 0 <= n <= 255 then SetStep(v, idx, n) else LedEffect(v, [])
      case Other(s) =>
        if s == StateToggle then ToggleStep(v, idx)
        else if s == StateOn then TurnOnStep(v, idx)
        else TurnOffStep(v, idx)
  }

  /** The items items[0 .. |items|) handled in order. */
  function HandleAll(v: LedState, items: seq<Item>, sanitize: string -> string): (e: LedEffect)
    requires Shaped(v)
    ensures Shaped(e.after) && |e.after.leds| == |v.leds|
  {
    if items == [] then LedEffect(v, [])
    else
      var before := HandleAll(v, items[..|items| - 1], sanitize);
      var step := ItemStep(before.after, items[|items| - 1], sanitize);
      LedEffect(step.after, before.hw + step.hw)
  }

  /** led_handler: an argument that does not parse changes nothing. */
  function HandlerStep(v: LedState, parsed: Option<seq<Item>>, sanitize: string -> string): LedEffect
    requires Shaped(v)
  {
    match parsed
    case None => LedEffect(v, [])
    case Some(items) => HandleAll(v, items, sanitize)
  }

  // ---------------------------------------------------------------------------
  // Persistence

  /** led_save_state: the packed pair is written only when it differs from the last one written. */
  function SaveStep(v: LedState): LedEffect
  {
    var current := Packed(v.leds, Brightness);
    var currentLast := Packed(v.leds, LastBrightness);
    if current != v.lastSaved || currentLast != v.lastSavedLast then
      LedEffect(v.(lastSaved := current, lastSavedLast := currentLast, dirty := false),
                [StoreState(current, currentLast)])
    else LedEffect(v, [])
  }

  /** led_restore_state, `saved` and `savedLast` being the stored pair. */
  function RestoreStep(v: LedState, saved: U64, savedLast: U64): LedState
  {
    v.(leds := Unpacked(Unpacked(v.leds, Brightness, saved), LastBrightness, savedLast),
       lastSaved := saved, lastSavedLast := savedLast)
  }

  /** led_adapter_on_interval */
  function OnIntervalStep(v: LedState, stage: Stage): LedEffect
  {
    if stage == Interval5S && v.dirty then SaveStep(v) else LedEffect(v, [])
  }

  // ---------------------------------------------------------------------------
  // Init and shutdown

  /** led_init_channel for every LED before the sentinel. */
  function ChannelConfigs(leds: seq<LedConfig>): (hw: seq<HwCall>)
    ensures |hw| == LiveCount(leds)
  {
    seq(LiveCount(leds), i requires 0 <= i < LiveCount(leds) =>
      ChannelConfig(leds[i].gpio, leds[i].channel, leds[i].brightness))
  }

  /** The duty of every LED before the sentinel set to zero. */
  function DutyOff(leds: seq<LedConfig>): (hw: seq<HwCall>)
    ensures |hw| == LiveCount(leds)
  {
    seq(LiveCount(leds), i requires 0 <= i < LiveCount(leds) => SetDuty(leds[i].channel, 0))
  }

  /** The light entity led_ha_register_entities registers for an LED. */
  function LightEntity(name: string): Ha.EntityConfig
  {
    Ha.EntityConfig(Ha.Light, Some(name), None, None, Some(GroupKey), None, None, None)
  }

  /** led_ha_register_entities: one light per named LED, in slot order. */
  function LightEntities(leds: seq<LedConfig>): (es: seq<Ha.EntityConfig>)
    ensures |es| == NamedCount(leds)
  {
    seq(NamedCount(leds), i requires 0 <= i < NamedCount(leds) => LightEntity(leds[i].name))
  }

  /**
   * led_adapter_init, `timerOk` being the outcome of ledc_timer_config and
   * (saved, savedLast) the stored pair. The table is parsed even when the
   * timer fails; the adapter then stays uninitialised.
   */
  function InitStep(v: LedState, list: string, pinCount: nat, timerOk: bool, saved: U64, savedLast: U64): LedEffect
    requires Shaped(v)
  {
    if v.initialized then LedEffect(v, [])
    else
      var parsed := v.(leds := ParsedTable(v.leds, list, pinCount));
      if !timerOk then LedEffect(parsed, [TimerConfig])
      else
        var started := StartStep(parsed, saved, savedLast);
        LedEffect(started.after, [TimerConfig] + started.hw)
  }

  /** The part of led_adapter_init after the timer is configured. */
  function StartStep(v: LedState, saved: U64, savedLast: U64): LedEffect
  {
    var restored := RestoreStep(v, saved, savedLast);
    LedEffect(restored.(initialized := true), [FadeInstall] + ChannelConfigs(restored.leds))
  }

  /** The registry of entities after led_adapter_init. */
  function InitRegistration(v: LedState, after: LedState, ha: Ha.HaState): Ha.HaState
  {
    if !v.initialized && after.initialized then Ha.RegisterAll(ha, LightEntities(after.leds)) else ha
  }

  /** led_adapter_shutdown: save, switch every LED off, release the fade service. */
  function ShutdownStep(v: LedState): LedEffect
  {
    if !v.initialized then LedEffect(v, [])
    else
      var saved := SaveStep(v);
      LedEffect(saved.after.(initialized := false), saved.hw + DutyOff(v.leds) + [FadeUninstall])
  }

  /**
   * When the parse loop stops after entries[..t] with at most maxLeds
   * accepted, having run out of entries or filled the table, it has accepted
   * the first maxLeds entries Configured takes from the whole list.
   */
  lemma ParsedPrefix(entries: seq<Entry>, t: nat, pinCount: nat, maxLeds: nat)
    requires t <= |entries| && |Accepted(entries, t, pinCount)| <= maxLeds
    requires t == |entries| || |Accepted(entries, t, pinCount)| == maxLeds
    ensures var es := Accepted(entries, |entries|, pinCount);
      Accepted(entries, t, pinCount) == es[..Min(maxLeds, |es|)]
  {
    AcceptedPrefix(entries, t, |entries|, pinCount);
  }

  /** ConfiguredLeds puts the j-th entry in slot j. */
  lemma {:induction false} SlotsOfTaken(es: seq<Entry>)
    ensures forall j :: 0 <= j < |es| ==> ConfiguredLeds(es)[j] == ConfiguredLed(j, es[j])
  {
    if es != [] {
      SlotsOfTaken(es[..|es| - 1]);
    }
  }

  /** A table whose leading slots hold the configured LEDs and whose other slots are unused is the parsed table. */
  lemma ParsedSlots(before: seq<LedConfig>, after: seq<LedConfig>, list: string, pinCount: nat, slots: seq<LedConfig>)
    requires |before| >= 1 && |after| == |before|
    requires slots == Configured(list, pinCount, |before| - 1)
    requires forall j :: 0 <= j < |slots| ==> after[j] == slots[j]
    requires forall j :: |slots| <= j < |after| ==> after[j] == before[j].(gpio := GpioNumNc)
    ensures after == ParsedTable(before, list, pinCount)
    ensures Terminated(after)
  {
  }

  // ---------------------------------------------------------------------------
  // The module state of led.c

  /** A zero-initialised slot of leds[]. */
  const ZeroSlot: LedConfig := LedConfig(0, 0, 0, 0, "")

  class LedAdapter {
    /** LED_ADAPTER_MAX_LEDS (LEDC_CHANNEL_MAX) */
    const maxLeds: nat
    /** SOC_GPIO_PIN_COUNT */
    const pinCount: nat
    /** leds[], with its sentinel slot */
    const leds: array<LedConfig>
    var initialized: bool
    var lastSavedState: U64
    var lastSavedLastState: U64
    var stateDirty: bool

    ghost predicate Valid()
      reads this`initialized, this`stateDirty, leds
    {
      && leds.Length == maxLeds + 1
      && maxLeds < 128
      && ((initialized || stateDirty) ==> leds[maxLeds].gpio == GpioNumNc)
    }

    ghost function Model(): LedState
      reads this`initialized, this`stateDirty, this`lastSavedState, this`lastSavedLastState, leds
    {
      LedState(leds[..], initialized, stateDirty, lastSavedState, lastSavedLastState)
    }

    constructor (maxLeds: nat, pinCount: nat)
      requires maxLeds < 128
      ensures this.maxLeds == maxLeds && this.pinCount == pinCount
      ensures Valid() && Shaped(Model())
      ensures Model() == LedState(seq(maxLeds + 1, _ => ZeroSlot), false, false, 0, 0)
    {
      this.maxLeds := maxLeds;
      this.pinCount := pinCount;
      leds := new LedConfig[maxLeds + 1](_ => ZeroSlot);
      initialized := false;
      lastSavedState := 0;
      lastSavedLastState := 0;
      stateDirty := false;
    }

    /** The first loop of parse_gpio_list: every slot, the sentinel slot included, marked unused. */
    method MarkAllUnused()
      modifies leds
      ensures forall j :: 0 <= j < leds.Length ==> leds[j] == old(leds[j]).(gpio := GpioNumNc)
    {
      for i := 0 to leds.Length
        invariant forall j :: 0 <= j < i ==> leds[j] == old(leds[j]).(gpio := GpioNumNc)
        invariant forall j :: i <= j < leds.Length ==> leds[j] == old(leds[j])
      {
        leds[i] := leds[i].(gpio := GpioNumNc);
      }
    }

    /** parse_gpio_list */
    method ParseGpioList(list: string)
      requires Valid()
      modifies leds
      ensures leds[..] == ParsedTable(old(leds[..]), list, pinCount)
      ensures Terminated(leds[..])
    {
      MarkAllUnused();
      var entries := Entries(Tokens(list));
      ghost var taken, t := TakeEntries(entries);
      ParsedPrefix(entries, t, pinCount, maxLeds);
      SlotsOfTaken(taken);
      ParsedSlots(old(leds[..]), leds[..], list, pinCount, ConfiguredLeds(taken));
    }

    /**
     * The token loop of parse_gpio_list: each entry whose gpio is in range
     * fills the next slot, until the entries run out or the table is full.
     * `taken` is what it took from entries[..t].
     */
    method TakeEntries(entries: seq<Entry>) returns (ghost taken: seq<Entry>, ghost t: nat)
      requires Valid()
      modifies leds
      ensures t <= |entries| && taken == Accepted(entries, t, pinCount) && |taken| <= maxLeds
      ensures t == |entries| || |taken| == maxLeds
      ensures forall j {:trigger leds[j]} :: 0 <= j < |taken| ==> leds[j] == ConfiguredLed(j, taken[j])
      ensures forall j :: |taken| <= j < leds.Length ==> leds[j] == old(leds[j])
    {
      var i := 0;
      var index := 0;
      taken := [];
      while i < |entries| && index < maxLeds
        invariant 0 <= i <= |entries|
        invariant taken == Accepted(entries, i, pinCount)
        invariant index == |taken| <= maxLeds
        invariant forall j {:trigger leds[j]} :: 0 <= j < index ==> leds[j] == ConfiguredLed(j, taken[j])
        invariant forall j :: index <= j < leds.Length ==> leds[j] == old(leds[j])
      {
        var e := entries[i];
        if 0 <= e.gpio < pinCount {
          leds[index] := ConfiguredLed(index, e);
          taken := taken + [e];
          index := index + 1;
        } else {
          assert taken + [] == taken;
        }
        i := i + 1;
      }
      t := i;
    }

    /** led_pack_<field> */
    method PackField(f: Field) returns (packed: U64)
      requires Valid() && Terminated(leds[..])
      ensures packed == Packed(leds[..], f)
    {
      var acc := 0;
      var i := 0;
      while i < PackSlots && leds[i].gpio != GpioNumNc
        invariant 0 <= i <= maxLeds && i <= PackSlots
        invariant forall j :: 0 <= j < i ==> leds[j].gpio != GpioNumNc
        invariant acc == PackBytes(FieldBytes(leds[..i], f))
      {
        // the fields do not overlap, so OR-ing the shifted byte adds it
        assert FieldBytes(leds[..i + 1], f) == FieldBytes(leds[..i], f) + [FieldOf(leds[i], f)];
        PackSnoc(FieldBytes(leds[..i], f), FieldOf(leds[i], f));
        acc := acc + FieldOf(leds[i], f) * Pow256(i);
        i := i + 1;
      }
      PackedCountAt(leds[..], i);
      assert leds[..][..i] == leds[..i];
      assert acc == Packed(leds[..], f);
      packed := acc;
    }

    /** led_unpack_<field> */
    method UnpackField(f: Field, packed: U64)
      requires Valid() && Terminated(leds[..])
      modifies leds
      ensures leds[..] == Unpacked(old(leds[..]), f, packed)
    {
      var i := 0;
      while i < PackSlots && leds[i].gpio != GpioNumNc
        invariant 0 <= i <= maxLeds && i <= PackSlots
        invariant forall j :: 0 <= j < i ==> leds[j] == WithField(old(leds[j]), f, ByteAt(packed, j))
        invariant forall j :: 0 <= j < i ==> old(leds[j]).gpio != GpioNumNc
        invariant forall j :: i <= j < leds.Length ==> leds[j] == old(leds[j])
      {
        leds[i] := WithField(leds[i], f, ByteAt(packed, i));
        i := i + 1;
      }
      assert i == PackedCount(old(leds[..]));
    }

    /** led_save_state */
    method SaveState() returns (hw: seq<HwCall>)
      requires Valid() && Terminated(leds[..])
      modifies this`lastSavedState, this`lastSavedLastState, this`stateDirty
      ensures Valid()
      ensures LedEffect(Model(), hw) == SaveStep(old(Model()))
    {
      var current := PackField(Brightness);
      var currentLast := PackField(LastBrightness);
      hw := [];
      if current != lastSavedState || currentLast != lastSavedLastState {
        hw := [StoreState(current, currentLast)];
        lastSavedState := current;
        lastSavedLastState := currentLast;
        stateDirty := false;
      }
    }

    /** led_restore_state */
    method RestoreState(saved: U64, savedLast: U64)
      requires Valid() && Terminated(leds[..])
      modifies leds, this`lastSavedState, this`lastSavedLastState
      ensures Valid() && Terminated(leds[..])
      ensures Model() == RestoreStep(old(Model()), saved, savedLast)
    {
      UnpackField(Brightness, saved);
      UnpackField(LastBrightness, savedLast);
      lastSavedState := saved;
      lastSavedLastState := savedLast;
    }

    /** led_init_channel for each LED up to the sentinel. */
    method InitChannels() returns (hw: seq<HwCall>)
      requires Valid() && Terminated(leds[..])
      ensures hw == ChannelConfigs(leds[..])
    {
      hw := [];
      var i := 0;
      while leds[i].gpio != GpioNumNc
        invariant 0 <= i <= maxLeds
        invariant forall j :: 0 <= j < i ==> leds[j].gpio != GpioNumNc
        invariant |hw| == i
        invariant forall j :: 0 <= j < i ==> hw[j] == ChannelConfig(leds[j].gpio, leds[j].channel, leds[j].brightness)
        decreases maxLeds - i
      {
        hw := hw + [ChannelConfig(leds[i].gpio, leds[i].channel, leds[i].brightness)];
        i := i + 1;
      }
      assert i == LiveCount(leds[..]);
    }

    /** The duty of each LED up to the sentinel set to zero. */
    method SwitchAllOff() returns (hw: seq<HwCall>)
      requires Valid() && Terminated(leds[..])
      ensures hw == DutyOff(leds[..])
    {
      hw := [];
      var i := 0;
      while leds[i].gpio != GpioNumNc
        invariant 0 <= i <= maxLeds
        invariant forall j :: 0 <= j < i ==> leds[j].gpio != GpioNumNc
        invariant |hw| == i
        invariant forall j :: 0 <= j < i ==> hw[j] == SetDuty(leds[j].channel, 0)
        decreases maxLeds - i
      {
        hw := hw + [SetDuty(leds[i].channel, 0)];
        i := i + 1;
      }
      assert i == LiveCount(leds[..]);
    }

    /** led_ha_register_entities */
    method RegisterLights(ha: Ha.Registry)
      requires Valid() && ha.Valid()
      modifies ha`count, ha.entities
      ensures ha.Valid()
      ensures ha.Model() == Ha.RegisterAll(old(ha.Model()), LightEntities(leds[..]))
    {
      ghost var lights := LightEntities(leds[..]);
      var i := 0;
      while true
        invariant 0 <= i <= NamedCount(leds[..])
        invariant ha.Valid()
        invariant ha.Model() == Ha.RegisterAll(old(ha.Model()), lights[..i])
        decreases maxLeds - i
      {
        var name := NameOf(leds[..], i);
        if name.None? {
          break;
        }
        ha.RegisterEntity(Some(LightEntity(name.value)));
        assert lights[..i + 1][..i] == lights[..i];
        i := i + 1;
      }
      assert lights[..i] == lights;
    }

    /** led_adapter_init */
    method Init(list: string, timerOk: bool, saved: U64, savedLast: U64, ha: Ha.Registry) returns (hw: seq<HwCall>)
      requires Valid() && ha.Valid()
      modifies leds, this`initialized, this`lastSavedState, this`lastSavedLastState, ha`count, ha.entities
      ensures Valid() && ha.Valid()
      ensures LedEffect(Model(), hw) == InitStep(old(Model()), list, pinCount, timerOk, saved, savedLast)
      ensures ha.Model() == InitRegistration(old(Model()), Model(), old(ha.Model()))
    {
      if initialized {
        return [];
      }
      ParseGpioList(list);
      hw := [TimerConfig];
      if !timerOk {
        return;
      }
      var started := Start(saved, savedLast, ha);
      hw := hw + started;
    }

    /** led_adapter_init once the timer is configured: restore, configure the channels, register the lights. */
    method Start(saved: U64, savedLast: U64, ha: Ha.Registry) returns (hw: seq<HwCall>)
      requires Valid() && Terminated(leds[..]) && ha.Valid()
      modifies leds, this`initialized, this`lastSavedState, this`lastSavedLastState, ha`count, ha.entities
      ensures Valid() && ha.Valid()
      ensures LedEffect(Model(), hw) == StartStep(old(Model()), saved, savedLast)
      ensures ha.Model() == Ha.RegisterAll(old(ha.Model()), LightEntities(leds[..]))
    {
      RestoreState(saved, savedLast);
      var channels := InitChannels();
      hw := [FadeInstall] + channels;
      initialized := true;
      RegisterLights(ha);
    }

    /** led_adapter_shutdown */
    method Shutdown() returns (hw: seq<HwCall>)
      requires Valid()
      modifies this`initialized, this`lastSavedState, this`lastSavedLastState, this`stateDirty
      ensures Valid()
      ensures LedEffect(Model(), hw) == ShutdownStep(old(Model()))
    {
      if !initialized {
        return [];
      }
      hw := SaveState();
      var off := SwitchAllOff();
      hw := hw + off + [FadeUninstall];
      initialized := false;
    }

    /** led_set_brightness */
    method SetBrightness(idx: Byte, b: Byte) returns (hw: seq<HwCall>)
      requires Valid()
      modifies leds, this`stateDirty
      ensures Valid()
      ensures LedEffect(Model(), hw) == SetStep(old(Model()), idx, b)
    {
      if !initialized || idx >= maxLeds || leds[idx].gpio == GpioNumNc {
        return [];
      }
      if b > 0 {
        leds[idx] := leds[idx].(lastBrightness := b);
      }
      leds[idx] := leds[idx].(brightness := b);
      hw := [SetDuty(leds[idx].channel, b)];
      stateDirty := true;
    }

    /** led_fade_to */
    method FadeTo(idx: Byte, target: Byte, durationMs: U32) returns (hw: seq<HwCall>)
      requires Valid()
      modifies leds, this`stateDirty
      ensures Valid()
      ensures LedEffect(Model(), hw) == FadeStep(old(Model()), idx, target, durationMs)
    {
      if !initialized || idx >= maxLeds || leds[idx].gpio == GpioNumNc {
        return [];
      }
      if target > 0 {
        leds[idx] := leds[idx].(lastBrightness := target);
      }
      leds[idx] := leds[idx].(brightness := target);
      hw := [StartFade(leds[idx].channel, target, durationMs)];
      stateDirty := true;
    }

    /** led_turn_on */
    method TurnOn(idx: Byte) returns (hw: seq<HwCall>)
      requires Valid()
      modifies leds, this`stateDirty
      ensures Valid()
      ensures LedEffect(Model(), hw) == TurnOnStep(old(Model()), idx)
    {
      if !initialized || idx >= maxLeds || leds[idx].gpio == GpioNumNc {
        return [];
      }
      var level := leds[idx].lastBrightness;
      if level == 0 {
        level := FullDuty;
      }
      hw := SetBrightness(idx, level);
    }

    /** led_turn_off */
    method TurnOff(idx: Byte) returns (hw: seq<HwCall>)
      requires Valid()
      modifies leds, this`stateDirty
      ensures Valid()
      ensures LedEffect(Model(), hw) == TurnOffStep(old(Model()), idx)
    {
      hw := SetBrightness(idx, 0);
    }

    /** led_find_by_name */
    method FindByName(name: Option<string>, sanitize: string -> string) returns (r: int)
      requires Valid()
      ensures r == FindIndex(Model(), name, sanitize)
    {
      if name.None? || !initialized {
        return -1;
      }
      var i := 0;
      while i < maxLeds
        invariant 0 <= i <= maxLeds && i <= LiveCount(leds[..])
        invariant MatchFrom(leds[..], name.value, sanitize, i) == MatchFrom(leds[..], name.value, sanitize, 0)
      {
        if leds[i].gpio == GpioNumNc {
          break;
        }
        if sanitize(leds[i].name) == name.value {
          return i;
        }
        i := i + 1;
      }
      return -1;
    }

    /** One item of led_handler. */
    method HandleItem(it: Item, sanitize: string -> string) returns (hw: seq<HwCall>)
      requires Valid()
      modifies leds, this`stateDirty
      ensures Valid()
      ensures LedEffect(Model(), hw) == ItemStep(old(Model()), it, sanitize)
    {
      var idx := FindByName(it.key, sanitize);
      if idx < 0 {
        return [];
      }
      match it.value {
        case Number(n) =>
          if 0 <= n <= 255 {
            hw := SetBrightness(idx, n);
          } else {
            hw := [];
          }
        case Other(state) =>
          if state == StateToggle {
            if IsOn(leds[..], idx) {
              hw := TurnOff(idx);
            } else {
              hw := TurnOn(idx);
            }
          } else if state == StateOn {
            hw := TurnOn(idx);
          } else {
            hw := TurnOff(idx);
          }
      }
    }

    /** led_handler, `parsed` being cJSON_Parse's result as a list of members. */
    method Handle(parsed: Option<seq<Item>>, sanitize: string -> string) returns (hw: seq<HwCall>)
      requires Valid()
      modifies leds, this`stateDirty
      ensures Valid()
      ensures LedEffect(Model(), hw) == HandlerStep(old(Model()), parsed, sanitize)
    {
      hw := [];
      if parsed.None? {
        return;
      }
      var items := parsed.value;
      ghost var start := Model();
      for k := 0 to |items|
        invariant Valid()
        invariant LedEffect(Model(), hw) == HandleAll(start, items[..k], sanitize)
      {
        var step := HandleItem(items[k], sanitize);
        assert items[..k + 1][..k] == items[..k];
        hw := hw + step;
      }
      assert items[..|items|] == items;
    }

    /** led_adapter_on_interval */
    method OnInterval(stage: Stage) returns (hw: seq<HwCall>)
      requires Valid()
      modifies this`lastSavedState, this`lastSavedLastState, this`stateDirty
      ensures Valid()
      ensures LedEffect(Model(), hw) == OnIntervalStep(old(Model()), stage)
    {
      hw := [];
      if stage == Interval5S && stateDirty {
        hw := SaveState();
      }
    }
  }
}
