/**
 * The persisted form of the LED state (led.c, LED_PACK_FIELD and
 * LED_UNPACK_FIELD): one 8-bit field of each of the first eight LEDs in a
 * uint64_t, LED i in bits 8i .. 8i+7.
 */
module LedPack {
  import opened Common
  import opened LedParse

  /** The number of LEDs one uint64_t holds. */
  const PackSlots: nat := 8

  /** 256^i: the weight of byte i. */
  function Pow256(i: nat): (p: nat)
    ensures p >= 1
  {
    if i == 0 then 1 else 256 * Pow256(i - 1)
  }

  /**
   * The packed value of bytes bs[0], bs[1], ... with bs[0] lowest. Their
   * fields do not overlap, so the code's OR of shifted bytes is their sum.
   */
  function PackBytes(bs: seq<Byte>): (p: nat)
    ensures p < Pow256(|bs|)
  {
    if bs == [] then 0 else bs[0] + 256 * PackBytes(bs[1..])
  }

  /** (packed >> (i * 8)) & 0xFF */
  function ByteAt(packed: nat, i: nat): Byte
  {
    (packed / Pow256(i)) % 256
  }

  /** Eight bytes fill a uint64_t exactly. */
  lemma Pow256Slots()
    ensures Pow256(PackSlots) == U64Modulus
  {
  }

  lemma {:induction false} Pow256Monotone(i: nat, j: nat)
    requires i <= j
    ensures Pow256(i) <= Pow256(j)
    ensures j == PackSlots ==> Pow256(j) == U64Modulus
    decreases j
  {
    if j == PackSlots {
      Pow256Slots();
    }
    if i < j {
      Pow256Monotone(i, j - 1);
    }
  }

  /** Appending a byte adds it at the next weight. */
  lemma {:induction false} PackSnoc(bs: seq<Byte>, b: Byte)
    ensures PackBytes(bs + [b]) == PackBytes(bs) + b * Pow256(|bs|)
  {
    if bs != [] {
      var rest := bs[1..];
      assert (bs + [b])[1..] == rest + [b];
      assert (bs + [b])[0] == bs[0];
      PackSnoc(rest, b);
      var x := PackBytes(rest);
      var w := Pow256(|rest|);
      assert PackBytes(rest + [b]) == x + b * w;
      assert PackBytes(bs + [b]) == bs[0] + 256 * (x + b * w);
      assert PackBytes(bs) == bs[0] + 256 * x;
      assert Pow256(|bs|) == 256 * w;
      ShiftedSum(bs[0], x, b, w);
    }
  }

  /** a + 256(x + bw) == (a + 256x) + b(256w) */
  lemma ShiftedSum(a: int, x: int, b: int, w: int)
    ensures a + 256 * (x + b * w) == (a + 256 * x) + b * (256 * w)
  {
  }

  // ---------------------------------------------------------------------------
  // One field of the LED table

  /** The two persisted fields of led_config_t. */
  datatype Field = Brightness | LastBrightness

  function FieldOf(led: LedConfig, f: Field): Byte
  {
    match f
    case Brightness => led.brightness
    case LastBrightness => led.lastBrightness
  }

  function WithField(led: LedConfig, f: Field, b: Byte): (r: LedConfig)
    ensures FieldOf(r, f) == b
  {
    match f
    case Brightness => led.(brightness := b)
    case LastBrightness => led.(lastBrightness := b)
  }

  /** The field `f` of each LED of `leds`, in order. */
  function FieldBytes(leds: seq<LedConfig>, f: Field): (bs: seq<Byte>)
    ensures |bs| == |leds| && forall i :: 0 <= i < |bs| ==> bs[i] == FieldOf(leds[i], f)
  {
    seq(|leds|, i requires 0 <= i < |leds| => FieldOf(leds[i], f))
  }

  /** The LEDs the pack and unpack loops visit: at most eight, up to the first sentinel. */
  function PackedCount(leds: seq<LedConfig>): (n: nat)
    ensures n <= PackSlots && n <= LiveCount(leds)
  {
    Min(PackSlots, LiveCount(leds))
  }

  /** A loop over the table that stops at the eighth LED or the first sentinel visits PackedCount LEDs. */
  lemma PackedCountAt(leds: seq<LedConfig>, i: nat)
    requires i <= PackSlots && i <= |leds| && forall j :: 0 <= j < i ==> leds[j].gpio != GpioNumNc
    requires i == PackSlots || (i < |leds| && leds[i].gpio == GpioNumNc)
    ensures PackedCount(leds) == i
  {
  }

  /** led_pack_<field>: LED i's field in byte i; it fits the uint64_t. */
  function Packed(leds: seq<LedConfig>, f: Field): (p: nat)
    ensures p < U64Modulus
  {
    var n := PackedCount(leds);
    Pow256Monotone(n, PackSlots);
    PackBytes(FieldBytes(leds[..n], f))
  }

  /** leds[] after led_unpack_<field>(packed). */
  function Unpacked(leds: seq<LedConfig>, f: Field, packed: nat): (r: seq<LedConfig>)
    ensures |r| == |leds|
  {
    seq(|leds|, i requires 0 <= i < |leds| =>
      if i < PackedCount(leds) then WithField(leds[i], f, ByteAt(packed, i)) else leds[i])
  }
}
