# Cikon supervisor core, PWM LED adapter and Home Assistant discovery in Dafny

This project models three parts of the Cikon ESP32 firmware framework and proves
what they promise.

- **The supervisor** (`supervisor.c`, `supervisor.h`, `bits_helper.h`) is the
  platform core. It keeps a bounded registry of platform adapters. At boot it
  decides safe mode from a persisted boot counter and self-validates an OTA
  image. It then runs one super-loop in its own task. Each pass of the loop:
  - runs at most one queued command job;
  - hands a snapshot of the event group to every adapter with `on_event`;
  - fires the ten interval stages (1 s … 12 h) whose period has elapsed.

  Each due stage first does the core's own work: it retries firmware
  validation at 10 s and clears the boot counter at 5 s once the system has
  been up longer than the stable time. Outside safe mode it then forwards the
  stage to every adapter with `on_interval`.
- **The PWM LED adapter** (`led.c`) covers:
  - parsing the configured `gpio[:name],...` list into a table with a
    sentinel slot;
  - brightness control with a remembered last non-zero level;
  - packing the brightness fields into two `uint64_t` values, which it saves
    to the configuration store only when they change;
  - the JSON command handler and the adapter callbacks (init, shutdown,
    the 5 s save).
- **Home Assistant discovery** (`ha.c`) covers:
  - a registry of at most 32 named entities;
  - six default entities, registered once;
  - one retained publication per entity on each discovery round, either a
    payload or an empty "remove" message;
  - the `has_sent_full_dev` flag, which decides which payload carries the
    full device block.

Modelling choices:

- State that the C code updates in place is a Dafny `class` with the same
  fields, or arrays where the code has arrays. These are `Supervisor.Scheduler`,
  `Led.LedAdapter` and `Ha.Registry`.
- Each method is proved against a function on a value of that state (`SetStep`,
  `PassStep`, `PublishFirst`, …). Lemmas in the `*Properties` modules prove
  what the code promises about those functions.
- Calls into code outside the model are returned as a trace of values. These
  are the adapters' callbacks, the LEDC driver, the configuration store and
  MQTT publish.
- What such code answers is passed in as a parameter. This covers reset
  reasons, OTA partition state, tick counts, uptime, the JSON parser's result,
  `sanitize` and the stored LED state.

## Model

Source paths are relative to the repository root.

| member | source | states |
|---|---|---|
| SupervisorApi.StageIndex | components/cikon_supervisor/include/supervisor.h:18-30 | every stage has an index below SUPERVISOR_INTERVAL_COUNT |
| SupervisorApi.StageAt | components/cikon_supervisor/supervisor.c:220-223 | the cast of a loop index back to a stage is the inverse of the stage's index |
| Supervisor.Elapsed | components/cikon_supervisor/supervisor.c:219-221 | the tick difference now - last is exact without wrap and wraps modulo 2^32 when the tick count has overflowed |
| Supervisor.ValidatedAfter | components/cikon_supervisor/supervisor.c:137-167 | firmware counts as validated after a validation unless the image is pending verification and marking it valid fails; a validated flag stays set |
| Supervisor.CounterAfterReset | components/cikon_supervisor/supervisor.c:100-112 | only an abnormal reset raises the persisted boot counter, by one |
| Supervisor.OnboardLedNext | components/cikon_supervisor/supervisor.c:348-360 | toggle inverts the onboard LED, on switches it on, any other argument switches it off |
| Supervisor.ClearSnapshot | components/cikon_supervisor/supervisor.c:207-209 | clearing the snapshot bits removes all of them, keeps exactly the bits other tasks set afterwards, and loses no bit |
| Supervisor.Intervals | components/cikon_supervisor/supervisor.c:218-239 | the stage loop changes neither the registry, nor the event group, nor safe mode |
| Supervisor.Scheduler.constructor | components/cikon_supervisor/supervisor.c:20-29 | an empty registry, no event group yet and so no bits, every last-stage tick 0, both flags false, the stored boot counter |
| Supervisor.Scheduler.CreateEventGroup | components/cikon_supervisor/supervisor.c:261-265 | the group exists afterwards; it is created empty only when there was none, and an existing group keeps its bits |
| Supervisor.Scheduler.RegisterAdapter | components/cikon_supervisor/supervisor.c:58-80 | a full registry gives ESP_ERR_NO_MEM and a NULL adapter gives ESP_ERR_INVALID_ARG, both changing nothing; otherwise the adapter is appended, the other slots are untouched and its tele/cmnd groups are registered |
| Supervisor.Scheduler.GetAdapters | components/cikon_supervisor/supervisor.c:82-93 | the registered adapters in order, then a NULL sentinel |
| Supervisor.Scheduler.NotifyEvent | components/cikon_supervisor/supervisor.c:52-56 | the bits are OR-ed into the event group once it exists and dropped before |
| Supervisor.Scheduler.Forward | components/cikon_supervisor/supervisor.c:211-215 | a forwarding loop makes the calls of Broadcast (see BroadcastMembership, BroadcastInOrder) |
| Supervisor.Scheduler.CheckSafeMode | components/cikon_supervisor/supervisor.c:100-125 | the boot counter and safe mode become those of SafeModeStep (see CrashLoop, PlatformInitState) |
| Supervisor.Scheduler.ValidateFirmware | components/cikon_supervisor/supervisor.c:137-167 | the validated flag becomes ValidatedAfter of the OTA layer's answers |
| Supervisor.Scheduler.PlatformInit | components/cikon_supervisor/supervisor.c:281-312 | returns ESP_OK; the new state and the calls are PlatformInitStep's, except that PLATFORM_INITIALIZED is dropped when there is no event group (see PlatformInitState, PlatformInitCalls) |
| Supervisor.Scheduler.ValidateIfSafe | components/cikon_supervisor/supervisor.c:288-291 | firmware is validated only in safe mode |
| Supervisor.Scheduler.StartTask | components/cikon_supervisor/supervisor.c:187-190 | every stage starts counting from the current tick, read once for all ten |
| Supervisor.Scheduler.RunJob | components/cikon_supervisor/supervisor.c:196-204 | the job's handler runs and CMND_COMPLETED is signalled, or dropped when there is no event group (see PassRunsJobOnce) |
| Supervisor.Scheduler.FanOutEvents | components/cikon_supervisor/supervisor.c:206-216 | once the event group exists, which the unguarded read and clear need, the new event group and the calls are EventStep's (see EventFanOut, EventClearsSnapshotOnly) |
| Supervisor.Scheduler.OnIntervalHook | components/cikon_supervisor/supervisor.c:169-181 | the core's validation and boot-counter work for one stage, as IntervalHook states |
| Supervisor.Scheduler.RunStage | components/cikon_supervisor/supervisor.c:221-238 | one stage of the loop, as StageStep states (see StageCalls) |
| Supervisor.Scheduler.RunIntervals | components/cikon_supervisor/supervisor.c:218-239 | all ten stages in order, as Intervals states (see IntervalsCalls, IntervalsInOrder) |
| Supervisor.Scheduler.Pass | components/cikon_supervisor/supervisor.c:195-239 | once the event group exists, one pass of the super-loop, as PassStep states (see PassStages, PassHousekeeping) |
| SupervisorProperties.BroadcastMembership | components/cikon_supervisor/supervisor.c:211-215 | an adapter is called iff it is registered and takes the hook |
| SupervisorProperties.BroadcastInOrder | components/cikon_supervisor/supervisor.c:233-237 | forwarding calls adapters in strictly ascending registration order, each at most once |
| SupervisorProperties.BroadcastIgnoresSafeMode | components/cikon_supervisor/supervisor.c:293-303 | only init is gated per adapter by safe mode; every other hook reaches the same adapters either way |
| SupervisorProperties.EventFanOut | components/cikon_supervisor/supervisor.c:206-216 | a zero snapshot calls nobody; otherwise exactly the adapters with on_event get the same snapshot, in order, whatever the safe mode; only the event group changes |
| SupervisorProperties.EventClearsSnapshotOnly | components/cikon_supervisor/supervisor.c:207-209 | afterwards the event group holds exactly the bits set by other tasks that were not in the snapshot |
| SupervisorProperties.EventKeepsEveryBit | components/cikon_supervisor/supervisor.c:207-213 | every bit is either delivered in the snapshot or still pending |
| SupervisorProperties.EventCalls | components/cikon_supervisor/supervisor.c:211-215 | the on_event calls of a non-zero snapshot are exactly the adapters with on_event, in order, independent of safe mode |
| SupervisorProperties.IntervalsLastStage | components/cikon_supervisor/supervisor.c:220-225 | a due stage has its last tick set to now; every other stage keeps its own |
| SupervisorProperties.StageCalls | components/cikon_supervisor/supervisor.c:221-238 | a stage calls something iff it is due: the 10 s validation while unvalidated, and on_interval of each adapter that has it when safe mode is off |
| SupervisorProperties.IntervalsCalls | components/cikon_supervisor/supervisor.c:218-239 | an adapter's on_interval is called for a stage iff the stage is due, safe mode is off and the adapter has on_interval; the only other call is the 10 s validation |
| SupervisorProperties.LaterStageCalls | components/cikon_supervisor/supervisor.c:220-238 | what stage k calls after the earlier stages depends only on the state before the loop |
| SupervisorProperties.StageInOrder | components/cikon_supervisor/supervisor.c:233-237 | one stage's adapter calls are all for that stage, in registration order |
| SupervisorProperties.AppendStage | components/cikon_supervisor/supervisor.c:220 | calls of earlier stages followed by calls of a later stage keep stage order |
| SupervisorProperties.IntervalsInOrder | components/cikon_supervisor/supervisor.c:220-239 | stages run in ascending order, adapters within a stage in registration order |
| SupervisorProperties.IntervalsValidation | components/cikon_supervisor/supervisor.c:171-173 | validation is retried at a due 10 s stage only while unvalidated, and the flag ends as that validation leaves it |
| SupervisorProperties.StageValidation | components/cikon_supervisor/supervisor.c:171-173 | a single stage validates only when it is the due 10 s stage and the firmware is unvalidated |
| SupervisorProperties.IntervalsBootClear | components/cikon_supervisor/supervisor.c:175-180 | the boot counter is cleared only at a due 5 s stage when it is positive and uptime in whole seconds exceeds the stable time; otherwise it is kept |
| SupervisorProperties.StageBootClear | components/cikon_supervisor/supervisor.c:177-179 | a single stage clears the counter under exactly those conditions |
| SupervisorProperties.PassRunsJobOnce | components/cikon_supervisor/supervisor.c:196-204 | a dequeued job's handler runs exactly once and first; with no job no handler runs |
| SupervisorProperties.PassCompletionSeen | components/cikon_supervisor/supervisor.c:200-213 | the completion bit of a job run in a pass reaches every adapter with on_event in that same pass |
| SupervisorProperties.PassStages | components/cikon_supervisor/supervisor.c:218-239 | which stages fire and their new last ticks; the registry and safe mode are unchanged; calls are stage-ordered; in safe mode no on_interval is called |
| SupervisorProperties.PassHousekeeping | components/cikon_supervisor/supervisor.c:169-181 | in a pass the validated flag and boot counter change only by the 10 s retry and the 5 s clear; validation is called iff unvalidated at a due 10 s stage |
| SupervisorProperties.PlatformInitState | components/cikon_supervisor/supervisor.c:281-312 | safe mode iff the counter after this reset reaches the threshold; validation only in safe mode; PLATFORM_INITIALIZED set; registry and stages unchanged |
| SupervisorProperties.PlatformInitCalls | components/cikon_supervisor/supervisor.c:285-303 | in safe mode validation comes before any init; init is called on exactly the adapters with init, and in safe mode only those enabled for it, in order |
| SupervisorProperties.DefaultAdapterSkippedInSafeMode | components/cikon_supervisor/supervisor.c:295-298 | an adapter whose enable_in_safe_mode is false (the default a designated initialiser leaves) gets no init in safe mode |
| SupervisorProperties.CrashLoop | components/cikon_supervisor/supervisor.c:100-125 | over a run of boots the counter rises by exactly the number of abnormal resets, and safe mode holds after the last one iff the counter reached the threshold |
| SupervisorProperties.ClearedCounterBootsNormally | components/cikon_supervisor/supervisor.c:127-128 | after the counter is cleared, a normal boot does not enter safe mode (an abnormal one does only with threshold 1) |
| SupervisorProperties.StagesAscending | components/cikon_supervisor/supervisor.c:36-46 | the stage periods ascend with their index |
| LedParse.FieldLength | components/cikon_supervisor_adapters/cikon_supervisor_adapters_led/led.c:40 | a field runs up to the first comma or the end |
| LedParse.Tokens | components/cikon_supervisor_adapters/cikon_supervisor_adapters_led/led.c:40-78 | every token strtok returns is non-empty and comma-free (see TokensOfJoin) |
| LedParse.DigitRun | components/cikon_supervisor_adapters/cikon_supervisor_adapters_led/led.c:55-58 | the leading digits atoi reads: all digits, followed by a non-digit or the end |
| LedParse.SkipSpace | components/cikon_supervisor_adapters/cikon_supervisor_adapters_led/led.c:55-58 | what atoi reads from is a suffix of the input that does not start with white space |
| LedParse.Decimal | components/cikon_supervisor_adapters/cikon_supervisor_adapters_led/led.c:72 | "%d" of a natural number is a non-empty string of digits (see AtoiOfDecimal) |
| LedParse.ColonAt | components/cikon_supervisor_adapters/cikon_supervisor_adapters_led/led.c:49 | strchr finds the first ':' or reports that there is none |
| LedParse.LedName | components/cikon_supervisor_adapters/cikon_supervisor_adapters_led/led.c:67-75 | a name has at most 15 characters, the 16-entry buffer less its terminator |
| LedParse.LedNameShape | components/cikon_supervisor_adapters/cikon_supervisor_adapters_led/led.c:67-75 | a non-empty configured name is kept up to 15 characters; without one the name starts with "led", and is exactly "led" followed by the index in decimal whenever the index has at most 12 digits |
| LedParse.DecimalLength | components/cikon_supervisor_adapters/cikon_supervisor_adapters_led/led.c:72 | a number below 10^k has at most k decimal digits, so "led%d" fits the name buffer |
| LedParse.Configured | components/cikon_supervisor_adapters/cikon_supervisor_adapters_led/led.c:48-79 | at most LED_ADAPTER_MAX_LEDS LEDs are configured (see ParseFillsTable) |
| LedParse.AcceptedPrefix | components/cikon_supervisor_adapters/cikon_supervisor_adapters_led/led.c:48-79 | what the loop has accepted earlier is a prefix of what it accepts later |
| LedParse.LiveCount | components/cikon_supervisor_adapters/cikon_supervisor_adapters_led/led.c:202 | the loops over leds[] visit exactly the slots before the first GPIO_NUM_NC |
| LedPack.PackBytes | components/cikon_supervisor_adapters/cikon_supervisor_adapters_led/led.c:90-97 | the packed bytes fit below 256^n (see ByteAtPack, PackOfBytes) |
| LedPack.PackSnoc | components/cikon_supervisor_adapters/cikon_supervisor_adapters_led/led.c:93-95 | one more iteration of the pack loop adds the next byte at weight 256^i |
| LedPack.PackedCount | components/cikon_supervisor_adapters/cikon_supervisor_adapters_led/led.c:93 | the pack and unpack loops visit at most eight LEDs, all before the sentinel |
| LedPack.PackedCountAt | components/cikon_supervisor_adapters/cikon_supervisor_adapters_led/led.c:93 | a loop that stops at eight or at the first sentinel has visited PackedCount LEDs |
| LedPack.Packed | components/cikon_supervisor_adapters/cikon_supervisor_adapters_led/led.c:90-97 | the packed field fits a uint64_t |
| LedPack.Unpacked | components/cikon_supervisor_adapters/cikon_supervisor_adapters_led/led.c:101-106 | unpacking leaves the table length unchanged (see UnpackOfPack, PackOfUnpack) |
| Led.BrightnessOf | components/cikon_supervisor_adapters/cikon_supervisor_adapters_led/led.c:260-265 | an index out of range or on a sentinel reads brightness 0 |
| Led.NameOf | components/cikon_supervisor_adapters/cikon_supervisor_adapters_led/led.c:303-308 | a name is returned iff the index is in range and not a sentinel |
| Led.NamedCount | components/cikon_supervisor_adapters/cikon_supervisor_adapters_led/led.c:165-175 | the LEDs whose names the accessors expose are all before the sentinel and below LED_ADAPTER_MAX_LEDS |
| Led.Lit | components/cikon_supervisor_adapters/cikon_supervisor_adapters_led/led.c:234-238 | setting a level sets the brightness, keeps gpio, channel and name, and remembers the level as last brightness only when it is non-zero |
| Led.OnLevel | components/cikon_supervisor_adapters/cikon_supervisor_adapters_led/led.c:273-276 | turn_on always restores a non-zero level |
| Led.MatchFrom | components/cikon_supervisor_adapters/cikon_supervisor_adapters_led/led.c:289-300 | the first LED before the sentinel whose sanitized name matches, or -1 when none does |
| Led.HandleAll | components/cikon_supervisor_adapters/cikon_supervisor_adapters_led/led.c:334-370 | handling items keeps the table's shape |
| Led.ChannelConfigs | components/cikon_supervisor_adapters/cikon_supervisor_adapters_led/led.c:202-204 | one channel configuration per LED before the sentinel |
| Led.DutyOff | components/cikon_supervisor_adapters/cikon_supervisor_adapters_led/led.c:218-221 | one duty update per LED before the sentinel |
| Led.LightEntities | components/cikon_supervisor_adapters/cikon_supervisor_adapters_led/led.c:165-175 | one light entity per named LED |
| Led.ParsedPrefix | components/cikon_supervisor_adapters/cikon_supervisor_adapters_led/led.c:48 | when the loop stops on running out of tokens or filling the table, it has taken the first LED_ADAPTER_MAX_LEDS accepted entries |
| Led.SlotsOfTaken | components/cikon_supervisor_adapters/cikon_supervisor_adapters_led/led.c:62-76 | the i-th accepted entry fills slot i |
| Led.ParsedSlots | components/cikon_supervisor_adapters/cikon_supervisor_adapters_led/led.c:44-79 | a table of configured leading slots and unused other slots is the parsed table, and it ends in a sentinel |
| Led.LedAdapter.constructor | components/cikon_supervisor_adapters/cikon_supervisor_adapters_led/led.c:30-34 | a zero-initialised table of LED_ADAPTER_MAX_LEDS + 1 slots, uninitialised, not dirty, nothing saved |
| Led.LedAdapter.MarkAllUnused | components/cikon_supervisor_adapters/cikon_supervisor_adapters_led/led.c:44-46 | every slot, the sentinel included, gets GPIO_NUM_NC and keeps its other fields |
| Led.LedAdapter.ParseGpioList | components/cikon_supervisor_adapters/cikon_supervisor_adapters_led/led.c:36-82 | the table becomes ParsedTable of the list and ends in a sentinel (see ParseFillsTable) |
| Led.LedAdapter.TakeEntries | components/cikon_supervisor_adapters/cikon_supervisor_adapters_led/led.c:48-79 | the accepted entries fill the leading slots in order, at most LED_ADAPTER_MAX_LEDS of them; the loop stops only when tokens run out or the table is full; other slots are untouched |
| Led.LedAdapter.PackField | components/cikon_supervisor_adapters/cikon_supervisor_adapters_led/led.c:90-97 | the loop returns Packed of the table (see UnpackOfPack) |
| Led.LedAdapter.UnpackField | components/cikon_supervisor_adapters/cikon_supervisor_adapters_led/led.c:101-106 | the table becomes Unpacked of the value (see PackOfUnpack) |
| Led.LedAdapter.SaveState | components/cikon_supervisor_adapters/cikon_supervisor_adapters_led/led.c:113-127 | as SaveStep: see SaveSyncs |
| Led.LedAdapter.RestoreState | components/cikon_supervisor_adapters/cikon_supervisor_adapters_led/led.c:129-142 | as RestoreStep: see SaveThenRestore, RestoreThenSaveQuiet |
| Led.LedAdapter.InitChannels | components/cikon_supervisor_adapters/cikon_supervisor_adapters_led/led.c:202-204 | one channel configuration per LED before the sentinel, with the restored duty |
| Led.LedAdapter.SwitchAllOff | components/cikon_supervisor_adapters/cikon_supervisor_adapters_led/led.c:218-221 | the duty of each LED before the sentinel is set to 0 |
| Led.LedAdapter.RegisterLights | components/cikon_supervisor_adapters/cikon_supervisor_adapters_led/led.c:165-175 | one HA light per named LED is registered, in slot order, with parent key "pwm_led" |
| Led.LedAdapter.Init | components/cikon_supervisor_adapters/cikon_supervisor_adapters_led/led.c:177-209 | as InitStep and InitRegistration: see InitConfiguresChannels, InitOnce, InitTimerFails, InitRegistersLights |
| Led.LedAdapter.Start | components/cikon_supervisor_adapters/cikon_supervisor_adapters_led/led.c:198-207 | as StartStep: see StartConfiguresChannels |
| Led.LedAdapter.Shutdown | components/cikon_supervisor_adapters/cikon_supervisor_adapters_led/led.c:211-226 | as ShutdownStep: see ShutdownSavesAndSwitchesOff |
| Led.LedAdapter.SetBrightness | components/cikon_supervisor_adapters/cikon_supervisor_adapters_led/led.c:228-242 | as SetStep: see SetReadsBack |
| Led.LedAdapter.FadeTo | components/cikon_supervisor_adapters/cikon_supervisor_adapters_led/led.c:244-258 | as FadeStep: see FadeLikeSet |
| Led.LedAdapter.TurnOn | components/cikon_supervisor_adapters/cikon_supervisor_adapters_led/led.c:267-278 | as TurnOnStep: see OffThenOn |
| Led.LedAdapter.TurnOff | components/cikon_supervisor_adapters/cikon_supervisor_adapters_led/led.c:280 | as TurnOffStep: see OffThenOn |
| Led.LedAdapter.FindByName | components/cikon_supervisor_adapters/cikon_supervisor_adapters_led/led.c:284-301 | returns FindIndex: the first matching LED, or -1 (see MatchFrom, UninitializedRefuses) |
| Led.LedAdapter.HandleItem | components/cikon_supervisor_adapters/cikon_supervisor_adapters_led/led.c:336-369 | as ItemStep: see ItemEffect |
| Led.LedAdapter.Handle | components/cikon_supervisor_adapters/cikon_supervisor_adapters_led/led.c:327-373 | as HandlerStep: see HandleSnoc, SkippedItem |
| Led.LedAdapter.OnInterval | components/cikon_supervisor_adapters/cikon_supervisor_adapters_led/led.c:375-380 | as OnIntervalStep: see IntervalSaves |
| LedTableProperties.AcceptedInRange | components/cikon_supervisor_adapters/cikon_supervisor_adapters_led/led.c:61 | every accepted gpio lies in [0, SOC_GPIO_PIN_COUNT) |
| LedTableProperties.AcceptedAll | components/cikon_supervisor_adapters/cikon_supervisor_adapters_led/led.c:61-77 | when every gpio is in range, every entry is accepted, in order |
| LedTableProperties.ParseFillsTable | components/cikon_supervisor_adapters/cikon_supervisor_adapters_led/led.c:44-79 | the parsed table: k ≤ LED_ADAPTER_MAX_LEDS slots with gpio in range, channel = index, brightness 0, last brightness 255 and a name that fits; the other slots are unused; the table ends in a sentinel |
| LedTableProperties.ParsedSlot | components/cikon_supervisor_adapters/cikon_supervisor_adapters_led/led.c:62-65 | slot i of the parsed table is the i-th configured LED, on channel i, off, with last brightness 255 |
| LedTableProperties.LiveCountIs | components/cikon_supervisor_adapters/cikon_supervisor_adapters_led/led.c:202 | the first sentinel's index is the number of live LEDs |
| LedTableProperties.RenderAll | components/cikon_supervisor_adapters/cikon_supervisor_adapters_led/led.c:36-82 | a list of entries written back as "gpio[:name]" tokens |
| LedTableProperties.DigitsOfDecimal | components/cikon_supervisor_adapters/cikon_supervisor_adapters_led/led.c:55-58 | reading the digits of "%d" gives the number back |
| LedTableProperties.DigitRunOfDigits | components/cikon_supervisor_adapters/cikon_supervisor_adapters_led/led.c:55-58 | atoi reads a string of digits to its end |
| LedTableProperties.AtoiOfDecimal | components/cikon_supervisor_adapters/cikon_supervisor_adapters_led/led.c:55-58 | atoi of "%d" of a natural number is that number |
| LedTableProperties.ParseRendered | components/cikon_supervisor_adapters/cikon_supervisor_adapters_led/led.c:49-59 | a written "gpio[:name]" token parses back to the same gpio and name |
| LedTableProperties.ParseNamed | components/cikon_supervisor_adapters/cikon_supervisor_adapters_led/led.c:53-56 | "gpio:name" parses to the gpio and the name after the colon |
| LedTableProperties.ParseBare | components/cikon_supervisor_adapters/cikon_supervisor_adapters_led/led.c:57-58 | a bare number parses to that gpio without a name |
| LedTableProperties.NoColonInDecimal | components/cikon_supervisor_adapters/cikon_supervisor_adapters_led/led.c:49 | a decimal number has no colon for strchr to find |
| LedTableProperties.ColonAtIs | components/cikon_supervisor_adapters/cikon_supervisor_adapters_led/led.c:49 | strchr finds the first colon |
| LedTableProperties.NoColon | components/cikon_supervisor_adapters/cikon_supervisor_adapters_led/led.c:49 | strchr finds no colon in a colon-free token |
| LedTableProperties.RenderedIsToken | components/cikon_supervisor_adapters/cikon_supervisor_adapters_led/led.c:40 | a written entry is a non-empty, comma-free token |
| LedTableProperties.TokensOfJoin | components/cikon_supervisor_adapters/cikon_supervisor_adapters_led/led.c:40-78 | strtok splits a comma-joined list of tokens back into the same tokens |
| LedTableProperties.FieldOfToken | components/cikon_supervisor_adapters/cikon_supervisor_adapters_led/led.c:40 | a comma-free token followed by a comma or the end is one field |
| LedTableProperties.EntriesOfTokens | components/cikon_supervisor_adapters/cikon_supervisor_adapters_led/led.c:49-59 | tokens that each parse to an entry give those entries, in order |
| LedTableProperties.ParseWrittenList | components/cikon_supervisor_adapters/cikon_supervisor_adapters_led/led.c:36-82 | a written list of in-range entries configures exactly its first LED_ADAPTER_MAX_LEDS entries |
| LedTableProperties.ByteAtPack | components/cikon_supervisor_adapters/cikon_supervisor_adapters_led/led.c:101-104 | byte i of a packed value is the i-th packed byte, or 0 beyond them |
| LedTableProperties.PackOfBytes | components/cikon_supervisor_adapters/cikon_supervisor_adapters_led/led.c:90-106 | packing the bytes of a value below 256^k gives the value back |
| LedTableProperties.LiveCountOfGpios | components/cikon_supervisor_adapters/cikon_supervisor_adapters_led/led.c:93 | tables with the same gpios have the same live count |
| LedTableProperties.UnpackedCount | components/cikon_supervisor_adapters/cikon_supervisor_adapters_led/led.c:101-106 | unpacking touches no gpio, so the loops visit the same LEDs afterwards |
| LedTableProperties.PackedByte | components/cikon_supervisor_adapters/cikon_supervisor_adapters_led/led.c:90-97 | byte i of the packed field is LED i's field for the visited LEDs and 0 above |
| LedTableProperties.UnpackOfPack | components/cikon_supervisor_adapters/cikon_supervisor_adapters_led/led.c:90-106 | unpacking a packed field restores the table exactly |
| LedTableProperties.PackOfUnpack | components/cikon_supervisor_adapters/cikon_supervisor_adapters_led/led.c:90-106 | packing after unpacking a value that fits the visited LEDs gives the value back |
| LedStateProperties.SetReadsBack | components/cikon_supervisor_adapters/cikon_supervisor_adapters_led/led.c:228-242 | an accepted set reads back as that brightness, is on iff it is non-zero, marks the state dirty and makes one duty update; other LEDs are untouched; a refused set changes nothing |
| LedStateProperties.FadeLikeSet | components/cikon_supervisor_adapters/cikon_supervisor_adapters_led/led.c:244-258 | a fade changes the state exactly as a set does, with one driver request instead |
| LedStateProperties.ParsedResumable | components/cikon_supervisor_adapters/cikon_supervisor_adapters_led/led.c:64-65 | a freshly parsed LED is resumable: its last brightness equals its level while lit and is non-zero while off |
| LedStateProperties.SetKeepsResumable | components/cikon_supervisor_adapters/cikon_supervisor_adapters_led/led.c:234-238 | set, fade, on, off and toggle keep every LED resumable |
| LedStateProperties.OffThenOn | components/cikon_supervisor_adapters/cikon_supervisor_adapters_led/led.c:267-280 | off then on restores the level turn_on chooses, and an LED that was on gets exactly its old level back |
| LedStateProperties.ToggleFlips | components/cikon_supervisor_adapters/cikon_supervisor_adapters_led/led.c:354-360 | toggle turns an on LED off and an off LED on |
| LedStateProperties.ToggleTwice | components/cikon_supervisor_adapters/cikon_supervisor_adapters_led/led.c:354-360 | toggling twice restores the table |
| LedStateProperties.UninitializedRefuses | components/cikon_supervisor_adapters/cikon_supervisor_adapters_led/led.c:229-231 | before init, set, fade, on and off change nothing and call nothing, and find returns -1 |
| LedStateProperties.HandleSnoc | components/cikon_supervisor_adapters/cikon_supervisor_adapters_led/led.c:335-370 | items are handled one after another, each on the state the previous left |
| LedStateProperties.SkippedItem | components/cikon_supervisor_adapters/cikon_supervisor_adapters_led/led.c:336-351 | an item with an unknown LED or an out-of-range number has no effect at all |
| LedStateProperties.ItemEffect | components/cikon_supervisor_adapters/cikon_supervisor_adapters_led/led.c:336-369 | a found LED is the one whose sanitized name is the key; a number 0-255 sets it, toggle flips it, on restores OnLevel, anything else switches it off; an unknown key changes nothing |
| LedStateProperties.SaveSyncs | components/cikon_supervisor_adapters/cikon_supervisor_adapters_led/led.c:113-127 | after a save the last saved pair is the packed table, and a second save writes nothing; a save writes iff the pair differs from the last saved one |
| LedStateProperties.PackedOtherField | components/cikon_supervisor_adapters/cikon_supervisor_adapters_led/led.c:134-135 | unpacking one field leaves the packing of the other unchanged |
| LedStateProperties.SaveThenRestore | components/cikon_supervisor_adapters/cikon_supervisor_adapters_led/led.c:113-142 | restoring what a save stored gives back the table |
| LedStateProperties.RestoreThenSaveQuiet | components/cikon_supervisor_adapters/cikon_supervisor_adapters_led/led.c:129-142 | right after a restore of a pair that fits the visited LEDs, a save writes nothing |
| LedStateProperties.IntervalSaves | components/cikon_supervisor_adapters/cikon_supervisor_adapters_led/led.c:375-380 | only a 5 s stage with a dirty state saves, syncing the last saved pair with the table; any other stage changes nothing |
| LedStateProperties.InitConfiguresChannels | components/cikon_supervisor_adapters/cikon_supervisor_adapters_led/led.c:177-209 | init configures the timer, installs fades, then configures channel i of each configured LED with its restored duty, and marks the adapter initialised |
| LedStateProperties.StartConfiguresChannels | components/cikon_supervisor_adapters/cikon_supervisor_adapters_led/led.c:198-206 | after the timer: fade install, then one channel configuration per live LED with the restored brightness |
| LedStateProperties.InitOnce | components/cikon_supervisor_adapters/cikon_supervisor_adapters_led/led.c:181-183 | a second init after a successful one changes nothing |
| LedStateProperties.RestoredSlot | components/cikon_supervisor_adapters/cikon_supervisor_adapters_led/led.c:129-142 | restoring sets the brightness of the first eight LEDs from the stored value and keeps gpio, channel and name |
| LedStateProperties.InitTimerFails | components/cikon_supervisor_adapters/cikon_supervisor_adapters_led/led.c:185-196 | when the timer fails, the table is parsed but the adapter stays uninitialised, registers nothing and makes only the timer request |
| LedStateProperties.InitRegistersLights | components/cikon_supervisor_adapters/cikon_supervisor_adapters_led/led.c:165-175 | after init, light i is the light of configured LED i's name |
| LedStateProperties.ShutdownSavesAndSwitchesOff | components/cikon_supervisor_adapters/cikon_supervisor_adapters_led/led.c:211-226 | shutdown saves, sets every live LED's duty to 0, uninstalls fades last and leaves the adapter uninitialised; a second shutdown does nothing |
| Ha.Entity | components/cikon_mqtt/ha.c:153-160 | a compound literal with a type and a name, no builder and no parent key |
| Ha.TypeStr | components/cikon_mqtt/ha.c:23-36 | sensor, switch, button and light have their strings; "unknown" exactly for the sentinel type and HA_BINARY_SENSOR |
| Ha.RegisterStep | components/cikon_mqtt/ha.c:128-140 | an entity is appended iff there is room and it has a name; otherwise nothing changes |
| Ha.RegisterAll | components/cikon_mqtt/ha.c:128-140 | registering never changes the two flags |
| Ha.RegisterAllNext | components/cikon_mqtt/ha.c:128-140 | registering one more entity is one more RegisterStep |
| Ha.DefaultEntities | components/cikon_mqtt/ha.c:149-165 | there are six default entities |
| Ha.DefaultsStep | components/cikon_mqtt/ha.c:142-166 | after register_default_entities the defaults are registered and the registry stays within bounds |
| Ha.RegisterAllKeepsWellFormed | components/cikon_mqtt/ha.c:128-140 | the registry never exceeds MAX_ENTITIES |
| Ha.ConfigUrl | components/cikon_mqtt/ha.c:57-59 | the config URL has at most 31 characters and is "http://" followed by the IP when that fits |
| Ha.BuilderFor | components/cikon_mqtt/ha.c:226-234 | a custom builder wins; a light gets the light builder with its parent key; no builder runs iff there is no custom one and the type is not switch, button or light |
| Ha.UniqueId | components/cikon_mqtt/ha.c:177 | the unique id has at most 63 characters (see UniqueIdShape) |
| Ha.Topic | components/cikon_mqtt/ha.c:178-179 | the topic has at most 127 characters, and is exactly "<prefix>/<type>/<unique id>/config" when that fits (see TopicInjective) |
| Ha.ValueTemplate | components/cikon_mqtt/ha.c:203-208 | the value template has at most 127 characters |
| Ha.EntityPublication | components/cikon_mqtt/ha.c:168-246 | the message goes to the entity's topic; its payload is empty iff the round removes; otherwise it names the entity under its unique id, carries ValueTemplate of the sanitized name, runs the chosen builder, gives the client id as "ids", and has the full device block, with ConfigUrl as "cu", iff none was sent before |
| Ha.PublishFirst | components/cikon_mqtt/ha.c:251-253 | publishing k entities makes k messages and leaves the flag as the last publication set it |
| Ha.PublishNext | components/cikon_mqtt/ha.c:251-253 | the publications of k entities are those of k-1 followed by the k-th entity's |
| Ha.Registry.constructor | components/cikon_mqtt/ha.c:16-21 | an empty registry with both flags false |
| Ha.Registry.RegisterEntity | components/cikon_mqtt/ha.c:128-140 | as RegisterStep: see RegisterRefuses, RegisterAllAppends |
| Ha.Registry.RegisterDefaults | components/cikon_mqtt/ha.c:142-166 | as DefaultsStep: see DefaultsOnce, DefaultsAppended |
| Ha.Registry.RegisterSix | components/cikon_mqtt/ha.c:149-165 | six registrations in order, as RegisterAll |
| Ha.Registry.PublishEntity | components/cikon_mqtt/ha.c:168-246 | one publication, as EntityPublication; afterwards has_sent_full_dev is false after an empty payload and true after any other |
| Ha.Registry.PublishDiscovery | components/cikon_mqtt/ha.c:248-254 | as DiscoveryStep: see DiscoveryCoversRegistry |
| Ha.Registry.PublishAll | components/cikon_mqtt/ha.c:251-253 | the loop's publications are PublishFirst of all registered entities: see OnePublicationPerEntity, FullDeviceOnce |
| HaProperties.RegisterAllAppends | components/cikon_mqtt/ha.c:128-140 | registration keeps existing entities in place, never exceeds 32, and appends named entities in order while there is room |
| HaProperties.RegisterRefuses | components/cikon_mqtt/ha.c:129-137 | a full registry, a NULL config or a missing name changes nothing |
| HaProperties.DefaultsOnce | components/cikon_mqtt/ha.c:144-147 | the defaults are registered once: a second call changes nothing |
| HaProperties.DefaultsAppended | components/cikon_mqtt/ha.c:149-165 | with room for them, the six named defaults follow the registered entities in order, Temperature first and Onboard Led a switch |
| HaProperties.PublishedAt | components/cikon_mqtt/ha.c:251-253 | the i-th publication of a round is entity i's message under the flag the round has reached |
| HaProperties.OnePublicationPerEntity | components/cikon_mqtt/ha.c:168-253 | one publication per entity, in registry order, on its topic, empty iff removing, otherwise naming it under its unique id with its builder |
| HaProperties.FullDeviceOnce | components/cikon_mqtt/ha.c:38-61 | in a full round only the first payload carries the full device block, and only if none was sent since the last reset; afterwards the flag is set |
| HaProperties.RemoveThenRepublish | components/cikon_mqtt/ha.c:183-189 | a removal round resets the flag, so the next full round sends the full device block again |
| HaProperties.DiscoveryCoversRegistry | components/cikon_mqtt/ha.c:248-254 | discovery registers the defaults and publishes every registered entity on its topic, in order |
| HaProperties.UniqueIdInjective | components/cikon_mqtt/ha.c:177 | distinct sanitized names give distinct unique ids, as long as the 64-entry buffer cuts neither |
| HaProperties.TopicInjective | components/cikon_mqtt/ha.c:178-179 | distinct unique ids give distinct topics of one type, as long as the 128-entry buffer cuts neither |
| HaProperties.UniqueIdShape | components/cikon_mqtt/ha.c:177 | the unique id is at most six characters of the client id, "_" and the sanitized name |
| HaProperties.ValueTemplateShape | components/cikon_mqtt/ha.c:203-207 | the value template is "{{ value_json.<parent>.<name> }}" or "{{ value_json.<name> }}", and distinct names give distinct templates, as long as the 127-character cut affects neither |

## Left out

Where the code and its header or documentation disagree, the model follows
the code:

- In safe mode the stage loop skips on_interval for every adapter, including
  those with enable_in_safe_mode (supervisor.c:227-230). The header describes
  the flag as enabling an adapter in safe mode; in the code it only gates
  init.
- Event forwarding reads the event group and then clears the bits it read, in
  two calls (supervisor.c:207-209), not atomically. Bits other tasks set in
  between are a parameter (`racing`). Those not in the snapshot survive the
  clear; the others are cleared but were delivered with the snapshot.
- Firmware validation is retried at every due 10 s stage while unvalidated,
  not only at boot.
- `components/cikon_mqtt/include/ha.h` declares a different entity enum and a
  different `ha_register_entity` signature. `ha.c` uses `metadata.h`, and so
  does the model.

Left out of the supervisor:

- I/O, FreeRTOS and ESP-IDF calls are traces or parameters. This covers
  logging, the command queue, the task itself and its timing, the reset
  reason, the OTA layer, the uptime clock and the config store's NVS writes.
- Supervisor.Scheduler.NotifyEvent: the event group has 32 bits in the model,
  while FreeRTOS keeps bits 24-31 for itself and xEventGroupSetBits refuses
  them (bits_helper.h:34 leaves bits 9-23 free); a request for those bits is
  not modelled as an error.
- Supervisor.Scheduler.constructor: it requires that
  CONFIG_SUPERVISOR_MAX_ADAPTERS is below 256. adapter_count is a uint8_t
  (supervisor.c:23), so with a larger setting the count wraps from 255 to 0
  before the capacity check at supervisor.c:59 can refuse. The 256th
  registration then returns ESP_OK, the registry looks empty, and the next
  registration overwrites slot 0. The model does not cover that setting.
- Supervisor.Scheduler.StartTask: the task reads the tick count once per stage
  (supervisor.c:188-190); the model takes one reading for all ten stages.
- Supervisor.Scheduler.FanOutEvents and Supervisor.Scheduler.Pass require
  that the event group exists, because supervisor_task reads and clears it
  without a NULL check (supervisor.c:206-208); what the firmware does with a
  NULL handle there is not modelled.
- supervisor_init, apart from its creation of the event group
  (Scheduler.CreateEventGroup), the telemetry appenders and the other core command
  handlers are not part of this model. Only onboard_led_handler's decision is
  modelled.
- An adapter callback that notifies events from inside the loop is not
  modelled. Callbacks have no effect back on the supervisor.
- Supervisor.CounterAfterReset: the contract does not state the wrap of a
  counter at 0xFFFFFFFF to 0. The body models it.
- SupervisorProperties.CrashLoop: it requires that the counter does not wrap
  during the run.

Left out of the LED adapter:

- The driver, the configuration store, logging and the telemetry appender
  are left out. Driver and store requests are a trace of `HwCall`s, and the
  values read back are parameters.
- The registration of the command and telemetry groups is left out.
- LED_ADAPTER_MAX_LEDS (LEDC_CHANNEL_MAX) and SOC_GPIO_PIN_COUNT are
  parameters of the adapter.
- `sanitize` and json_str_as_logic_state are parameters.
- cJSON_Parse is a parameter: an `Option` list of members, each with an
  optional key and a number or a classified value.
- atoi is modelled on unbounded integers; overflow of very long digit runs is
  not modelled.
- The OR of shifted bytes in the pack loop is modelled as a sum, which is
  equal because the bytes do not overlap.
- led_get_brightness and led_get_name do not check initialisation, and nor
  does the model. Before parse_gpio_list runs, the zero-initialised table
  shows gpio 0 in every slot.
- A save that finds nothing changed leaves the dirty flag set, as the code
  does (led.c:118-126).
- Restoring a stored pair whose brightness and last brightness disagree can
  leave an LED lit with a different last brightness. Lemmas about resuming
  a level (`Resumable`) therefore hold for parsed and set tables, not for
  arbitrary restored ones.
- LedStateProperties.FadeLikeSet: it states that a fade requests the driver
  once, as a set does, but not the request's content. The content is
  StartFade, fixed by FadeStep.

Strings:

- Strings are sequences of characters, and every C buffer bound is counted
  in characters: the 15-character LED name (led.c:67-68), `%.6s` and the
  64-entry unique id (ha.c:177), the 128-entry topic and value template
  (ha.c:172-179, 203-208) and the 32-entry config URL (ha.c:56-57). The C
  code counts bytes, so the model agrees with it only for ASCII text. A name
  with multi-byte UTF-8 characters is cut later in the model than in the
  firmware (for example `Küche_Lampe_Links`: the firmware keeps 15 bytes,
  `Küche_Lampe_Li`; the model keeps 15 characters, `Küche_Lampe_Lin`).
  The same holds for the cuts that UniqueIdInjective and TopicInjective
  reason about. A cut in the middle of a multi-byte character is not
  modelled.

Left out of HA discovery:

- The JSON text of a payload is not modelled. A payload is the record of the
  fields ha.c computes, and the builders' own fields are not modelled: a
  builder is named by which one runs.
- Custom builders are opaque values.
- The MQTT client, logging and cJSON memory handling are left out.
  mqtt_get_config() is a parameter.
- default_registered is set before the six registrations, so it stays set
  even when the full registry refuses some of them.
- HaProperties.UniqueIdInjective: it requires that the 64-entry buffer cuts
  neither id. Long sanitized names that differ only past the cut give the
  same id, and so the same topic.
- HaProperties.TopicInjective: it requires that the 128-entry buffer cuts
  neither topic, for the same reason.
