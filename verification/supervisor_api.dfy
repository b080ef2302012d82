/** The public types of the supervisor (supervisor.h). */
module SupervisorApi {

  /** supervisor_interval_stage_t, in declaration order. */
  datatype Stage =
    | Interval1S | Interval2S | Interval5S | Interval10S | Interval30S
    | Interval60S | Interval5M | Interval10M | Interval2H | Interval12H

  /** SUPERVISOR_INTERVAL_COUNT */
  const StageCount: nat := 10

  /** The enum value of a stage. */
  function StageIndex(s: Stage): (i: nat)
    ensures i < StageCount
  {
    match s
    case Interval1S => 0
    case Interval2S => 1
    case Interval5S => 2
    case Interval10S => 3
    case Interval30S => 4
    case Interval60S => 5
    case Interval5M => 6
    case Interval10M => 7
    case Interval2H => 8
    case Interval12H => 9
  }

  /** The cast (supervisor_interval_stage_t)i of the scheduler loop. */
  function StageAt(i: nat): (s: Stage)
    requires i < StageCount
    ensures StageIndex(s) == i
  {
    if i == 0 then Interval1S
    else if i == 1 then Interval2S
    else if i == 2 then Interval5S
    else if i == 3 then Interval10S
    else if i == 4 then Interval30S
    else if i == 5 then Interval60S
    else if i == 6 then Interval5M
    else if i == 7 then Interval10M
    else if i == 8 then Interval2H
    else Interval12H
  }

  /**
   * supervisor_platform_adapter_t. The callbacks are code the supervisor
   * cannot see: the record says only which of them are present (non-NULL).
   * `id` stands for the adapter's address; the metadata field is opaque.
   */
  datatype Adapter = Adapter(
    id: nat,
    enableInSafeMode: bool,
    hasInit: bool,
    hasShutdown: bool,
    hasOnEvent: bool,
    hasOnInterval: bool,
    hasTeleGroup: bool,
    hasCmndGroup: bool)
}

/** Event group bit allocation (bits_helper.h). */
module EventBits {
  const CmndCompleted: bv32 := 1          // BIT0
  const PlatformInitialized: bv32 := 2    // BIT1
  const InetTimeSynced: bv32 := 16        // BIT4
  const InetStaReady: bv32 := 32          // BIT5
  const InetApReady: bv32 := 64           // BIT6
  const EspnowNetworkReady: bv32 := 256   // BIT8
}
