/**
 * The LED adapter's configuration list (led.c, parse_gpio_list): the
 * Kconfig string "gpio[:name],gpio[:name],..." split with strtok, each
 * field's number read with atoi, names cut to the 16-byte name buffer.
 */
module LedParse {
  import opened Common

  /** GPIO_NUM_NC: the gpio value that marks an unused slot. */
  const GpioNumNc: int := -1

  /** The usable length of led_config_t.name (char[16] with its terminator). */
  const NameMax: nat := 15

  /** led_config_t */
  datatype LedConfig = LedConfig(gpio: int, channel: int, brightness: Byte, lastBrightness: Byte, name: string)

  // ---------------------------------------------------------------------------
  // strtok(str, ",")

  /** The length of the field at the start of `s`: everything up to the first comma. */
  function FieldLength(s: string): (n: nat)
    ensures n <= |s|
    ensures forall i :: 0 <= i < n ==> s[i] != ','
    ensures n == |s| || s[n] == ','
  {
    if s == [] || s[0] == ',' then 0 else 1 + FieldLength(s[1..])
  }

  /** A strtok token: a non-empty run of characters without a comma. */
  predicate IsToken(t: string)
  {
    t != [] && forall i :: 0 <= i < |t| ==> t[i] != ','
  }

  /** The tokens strtok returns, in order: commas separate, empty fields vanish. */
  function Tokens(s: string): (ts: seq<string>)
    ensures forall i :: 0 <= i < |ts| ==> IsToken(ts[i])
    decreases |s|
  {
    if s == [] then []
    else if s[0] == ',' then Tokens(s[1..])
    else
      var n := FieldLength(s);
      [s[..n]] + Tokens(s[n..])
  }

  /** Tokens written back as a configuration list. */
  function Join(ts: seq<string>): string
  {
    if ts == [] then ""
    else if |ts| == 1 then ts[0]
    else ts[0] + "," + Join(ts[1..])
  }

  // ---------------------------------------------------------------------------
  // atoi

  predicate IsSpace(c: char)
  {
    c == ' ' || c == '\t' || c == '\n' || c == '\U{B}' || c == '\U{C}' || c == '\r'
  }

  predicate IsDigit(c: char)
  {
    '0' <= c <= '9'
  }

  /** The number of decimal digits at the start of `s`. */
  function DigitRun(s: string): (n: nat)
    ensures n <= |s|
    ensures forall i :: 0 <= i < n ==> IsDigit(s[i])
    ensures n == |s| || !IsDigit(s[n])
  {
    if s != [] && IsDigit(s[0]) then 1 + DigitRun(s[1..]) else 0
  }

  /** The value of a string of decimal digits. */
  function DigitsValue(d: string): nat
    requires forall i :: 0 <= i < |d| ==> IsDigit(d[i])
  {
    if d == [] then 0
    else
      var last := d[|d| - 1];
      assert IsDigit(last);
      DigitsValue(d[..|d| - 1]) * 10 + (last as int - '0' as int)
  }

  /** `s` without its leading white space. */
  function SkipSpace(s: string): (t: string)
    ensures |t| <= |s| && t == s[|s| - |t|..]
    ensures t == [] || !IsSpace(t[0])
  {
    if s != [] && IsSpace(s[0]) then SkipSpace(s[1..]) else s
  }

  /**
   * atoi: white space, an optional sign, then as many digits as follow;
   * anything else ends the number, and no digits give 0.
   */
  function Atoi(s: string): int
  {
    var t := SkipSpace(s);
    var negative := t != [] && t[0] == '-';
    var body := if t != [] && (t[0] == '-' || t[0] == '+') then t[1..] else t;
    var magnitude: int := DigitsValue(body[..DigitRun(body)]);
    if negative then -magnitude else magnitude
  }

  /** The decimal representation printf's "%d" gives a natural number. */
  function Decimal(n: nat): (d: string)
    ensures d != [] && forall i :: 0 <= i < |d| ==> IsDigit(d[i])
  {
    var digit := ['0' + (n % 10) as char];
    if n < 10 then digit else Decimal(n / 10) + digit
  }

  // ---------------------------------------------------------------------------
  // One configuration entry

  /** The position of the first ':' in `t`, as strchr finds it. */
  function ColonAt(t: string): (r: Option<nat>)
    ensures r.Some? ==> r.value < |t| && t[r.value] == ':' && forall i :: 0 <= i < r.value ==> t[i] != ':'
    ensures r.None? ==> forall i :: 0 <= i < |t| ==> t[i] != ':'
  {
    if t == [] then None
    else if t[0] == ':' then Some(0)
    else match ColonAt(t[1..])
      case None => None
      case Some(k) => Some(k + 1)
  }

  /** A token's gpio number and, when it has a colon, the name after it. */
  datatype Entry = Entry(gpio: int, name: Option<string>)

  function ParseToken(t: string): (e: Entry)
  {
    match ColonAt(t)
    case None => Entry(Atoi(t), None)
    case Some(k) => Entry(Atoi(t[..k]), Some(t[k + 1..]))
  }

  /** The name given to the LED at `index`: the configured one, or "led<index>". */
  function LedName(index: nat, name: Option<string>): (r: string)
    ensures |r| <= NameMax
  {
    if name.Some? && |name.value| > 0 then Truncate(name.value, NameMax)
    else Truncate("led" + Decimal(index), NameMax)
  }

  /** 10^k */
  function Pow10(k: nat): (p: nat)
    ensures p >= 1
  {
    if k == 0 then 1 else 10 * Pow10(k - 1)
  }

  /** A number below 10^k has at most k decimal digits. */
  lemma {:induction false} DecimalLength(n: nat, k: nat)
    requires 1 <= k && n < Pow10(k)
    ensures |Decimal(n)| <= k
  {
    if n >= 10 {
      assert n / 10 < Pow10(k - 1);
      DecimalLength(n / 10, k - 1);
    }
  }

  /**
   * A configured name is kept up to NameMax characters; without one the LED
   * is called "led" followed by its index in decimal, which fits whenever
   * the index has at most NameMax - 3 digits.
   */
  lemma LedNameShape(index: nat, name: Option<string>)
    ensures var r := LedName(index, name);
      && (name.Some? && name.value != [] ==> |r| == Min(|name.value|, NameMax) && r == name.value[..|r|])
      && (!(name.Some? && name.value != []) ==> |r| > 3 && r[..3] == "led")
      && (!(name.Some? && name.value != []) && index < Pow10(NameMax - 3) ==> r == "led" + Decimal(index))
  {
    if !(name.Some? && name.value != []) {
      var full := "led" + Decimal(index);
      assert full[..3] == "led";
      if index < Pow10(NameMax - 3) {
        DecimalLength(index, NameMax - 3);
      }
    }
  }

  /** The slot an accepted entry fills: channel = index, off, last brightness full. */
  function ConfiguredLed(index: nat, e: Entry): LedConfig
  {
    LedConfig(e.gpio, index, 0, 255, LedName(index, e.name))
  }

  /** The entry of each token, in order. */
  function Entries(tokens: seq<string>): (es: seq<Entry>)
    ensures |es| == |tokens|
  {
    if tokens == [] then [] else [ParseToken(tokens[0])] + Entries(tokens[1..])
  }

  /** The entries among es[..n] whose gpio lies in [0, pinCount), in order. */
  function Accepted(es: seq<Entry>, n: nat, pinCount: nat): (r: seq<Entry>)
    requires n <= |es|
    ensures |r| <= n
  {
    if n == 0 then []
    else Accepted(es, n - 1, pinCount) + (if 0 <= es[n - 1].gpio < pinCount then [es[n - 1]] else [])
  }

  /**
   * The LEDs parse_gpio_list configures from `list`: the first maxLeds
   * entries in range, the i-th of them in slot i.
   */
  function Configured(list: string, pinCount: nat, maxLeds: nat): (leds: seq<LedConfig>)
    ensures |leds| <= maxLeds
  {
    var entries := Entries(Tokens(list));
    var es := Accepted(entries, |entries|, pinCount);
    ConfiguredLeds(es[..Min(maxLeds, |es|)])
  }

  /** The slots the entries `es` fill, the i-th entry in slot i. */
  function ConfiguredLeds(es: seq<Entry>): (leds: seq<LedConfig>)
    ensures |leds| == |es|
  {
    if es == [] then [] else ConfiguredLeds(es[..|es| - 1]) + [ConfiguredLed(|es| - 1, es[|es| - 1])]
  }

  /** What the loop has accepted after fewer entries is a prefix of what it accepts after more. */
  lemma {:induction false} AcceptedPrefix(es: seq<Entry>, i: nat, j: nat, pinCount: nat)
    requires i <= j <= |es|
    ensures |Accepted(es, i, pinCount)| <= |Accepted(es, j, pinCount)|
    ensures Accepted(es, i, pinCount) == Accepted(es, j, pinCount)[..|Accepted(es, i, pinCount)|]
    decreases j - i
  {
    if i < j {
      AcceptedPrefix(es, i, j - 1, pinCount);
      var a := Accepted(es, j - 1, pinCount);
      assert Accepted(es, j, pinCount)[..|a|] == a;
    }
  }

  // ---------------------------------------------------------------------------
  // The table

  /** The number of slots before the first GPIO_NUM_NC: the loops over leds[] stop there. */
  function LiveCount(leds: seq<LedConfig>): (n: nat)
    ensures n <= |leds|
    ensures forall i :: 0 <= i < n ==> leds[i].gpio != GpioNumNc
    ensures n == |leds| || leds[n].gpio == GpioNumNc
  {
    if leds == [] || leds[0].gpio == GpioNumNc then 0 else 1 + LiveCount(leds[1..])
  }

  /**
   * leds[] after parse_gpio_list, `before` being the table before it and
   * |before| - 1 the number of LEDs it holds (the last slot is the sentinel):
   * every gpio is first set to GPIO_NUM_NC, then the configured LEDs fill the
   * leading slots; the other fields of the remaining slots are left as they were.
   */
  function ParsedTable(before: seq<LedConfig>, list: string, pinCount: nat): (t: seq<LedConfig>)
    requires |before| >= 1
    ensures |t| == |before|
  {
    var cfg := Configured(list, pinCount, |before| - 1);
    seq(|before|, i requires 0 <= i < |before| => if i < |cfg| then cfg[i] else before[i].(gpio := GpioNumNc))
  }
}
