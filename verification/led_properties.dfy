/** What parse_gpio_list and the pack/unpack pair of led.c guarantee. */
module LedTableProperties {
  import opened Common
  import opened LedParse
  import opened LedPack
  import opened Led

  // ---------------------------------------------------------------------------
  // The configuration list

  /** Every entry the loop accepts has its gpio in [0, pinCount). */
  lemma {:induction false} AcceptedInRange(es: seq<Entry>, n: nat, pinCount: nat)
    requires n <= |es|
    ensures forall i :: 0 <= i < |Accepted(es, n, pinCount)| ==> 0 <= Accepted(es, n, pinCount)[i].gpio < pinCount
  {
    if n > 0 {
      AcceptedInRange(es, n - 1, pinCount);
    }
  }

  /** A list whose entries are all in range is accepted whole. */
  lemma {:induction false} AcceptedAll(es: seq<Entry>, n: nat, pinCount: nat)
    requires n <= |es|
    requires forall i :: 0 <= i < |es| ==> 0 <= es[i].gpio < pinCount
    ensures Accepted(es, n, pinCount) == es[..n]
  {
    if n > 0 {
      AcceptedAll(es, n - 1, pinCount);
      assert es[..n] == es[..n - 1] + [es[n - 1]];
    }
  }

  /**
   * The table parse_gpio_list leaves: the k configured LEDs in slots
   * 0 .. k-1 (k at most LED_ADAPTER_MAX_LEDS), each on an existing pin, on
   * channel = slot, off, with last brightness 255 and a name of at most 15
   * characters; every later slot, the sentinel slot included, unused.
   */
  lemma ParseFillsTable(before: seq<LedConfig>, list: string, pinCount: nat)
    requires |before| >= 1
    ensures var t := ParsedTable(before, list, pinCount);
      var k := |Configured(list, pinCount, |before| - 1)|;
      && k <= |before| - 1
      && (forall j :: 0 <= j < k ==>
            0 <= t[j].gpio < pinCount && t[j].channel == j && t[j].brightness == 0
            && t[j].lastBrightness == 255 && |t[j].name| <= NameMax)
      && (forall j :: k <= j < |t| ==> t[j] == before[j].(gpio := GpioNumNc))
      && LiveCount(t) == k && NamedCount(t) == k && Terminated(t)
  {
    var t := ParsedTable(before, list, pinCount);
    var entries := Entries(Tokens(list));
    var es := Accepted(entries, |entries|, pinCount);
    var taken := es[..Min(|before| - 1, |es|)];
    var k := |taken|;
    AcceptedInRange(entries, |entries|, pinCount);
    SlotsOfTaken(taken);
    forall j | 0 <= j < k
      ensures t[j] == ConfiguredLed(j, taken[j]) && 0 <= t[j].gpio < pinCount
    {
    }
    LiveCountIs(t, k);
  }

  /** Slot i of the parsed table, for one configured LED i. */
  lemma ParsedSlot(before: seq<LedConfig>, list: string, pinCount: nat, i: nat)
    requires |before| >= 1
    requires i < |Configured(list, pinCount, |before| - 1)|
    ensures var t := ParsedTable(before, list, pinCount);
      var cfg := Configured(list, pinCount, |before| - 1);
      && LiveCount(t) == |cfg| && NamedCount(t) == |cfg| && t[i] == cfg[i]
      && cfg[i].channel == i && cfg[i].brightness == 0 && cfg[i].lastBrightness == 255
  {
    ParseFillsTable(before, list, pinCount);
  }

  /** LiveCount is the first unused slot. */
  lemma LiveCountIs(t: seq<LedConfig>, k: nat)
    requires k < |t| && t[k].gpio == GpioNumNc
    requires forall j :: 0 <= j < k ==> t[j].gpio != GpioNumNc
    ensures LiveCount(t) == k
  {
  }

  // ---------------------------------------------------------------------------
  // The list written back

  /** An entry written as "gpio" or "gpio:name". */
  function Render(e: Entry): (s: string)
    requires e.gpio >= 0
  {
    Decimal(e.gpio) + (if e.name.Some? then ":" + e.name.value else "")
  }

  /** An entry that survives being written out: non-negative gpio, no comma in its name. */
  predicate Writable(e: Entry)
  {
    e.gpio >= 0 && (e.name.Some? ==> forall i :: 0 <= i < |e.name.value| ==> e.name.value[i] != ',')
  }

  /** The entries written as a configuration list. */
  function RenderAll(es: seq<Entry>): (ts: seq<string>)
    requires forall i :: 0 <= i < |es| ==> Writable(es[i])
    ensures |ts| == |es| && forall i :: 0 <= i < |es| ==> Writable(es[i]) && ts[i] == Render(es[i])
  {
    if es == [] then [] else assert Writable(es[0]); [Render(es[0])] + RenderAll(es[1..])
  }

  /** The decimal digits of n read back by DigitsValue are n. */
  lemma {:induction false} DigitsOfDecimal(n: nat)
    ensures DigitsValue(Decimal(n)) == n
  {
    var d := Decimal(n);
    var digit := ['0' + (n % 10) as char];
    if n >= 10 {
      DigitsOfDecimal(n / 10);
      assert d[..|d| - 1] == Decimal(n / 10);
    }
    assert d[|d| - 1] == digit[0];
  }

  /** A string of digits is one digit run. */
  lemma {:induction false} DigitRunOfDigits(d: string)
    requires forall i :: 0 <= i < |d| ==> IsDigit(d[i])
    ensures DigitRun(d) == |d|
  {
    if d != [] {
      DigitRunOfDigits(d[1..]);
    }
  }

  /** atoi of a decimal number gives the number back. */
  lemma AtoiOfDecimal(n: nat)
    ensures Atoi(Decimal(n)) == n
  {
    var d := Decimal(n);
    assert !IsSpace(d[0]);
    assert SkipSpace(d) == d;
    DigitRunOfDigits(d);
    assert d[..|d|] == d;
    DigitsOfDecimal(n);
  }

  /** A rendered entry parses back to itself. */
  lemma ParseRendered(e: Entry)
    requires Writable(e)
    ensures ParseToken(Render(e)) == e
  {
    if e.name.Some? {
      ParseNamed(e.gpio, e.name.value);
    } else {
      ParseBare(e.gpio);
      assert Render(e) == Decimal(e.gpio) + "";
      assert Decimal(e.gpio) + "" == Decimal(e.gpio);
    }
  }

  /** A decimal number followed by a colon and a name parses as that number and name. */
  lemma ParseNamed(n: nat, name: string)
    ensures ParseToken(Decimal(n) + (":" + name)) == Entry(n, Some(name))
  {
    var d := Decimal(n);
    var t := d + (":" + name);
    AtoiOfDecimal(n);
    NoColonInDecimal(n);
    assert t[|d|] == ':';
    ColonAtIs(t, |d|);
    assert t[..|d|] == d;
    assert t[|d| + 1..] == name;
  }

  /** A decimal number alone parses as that number without a name. */
  lemma ParseBare(n: nat)
    ensures ParseToken(Decimal(n)) == Entry(n, None)
  {
    AtoiOfDecimal(n);
    NoColonInDecimal(n);
    NoColon(Decimal(n));
  }

  lemma NoColonInDecimal(n: nat)
    ensures forall i :: 0 <= i < |Decimal(n)| ==> Decimal(n)[i] != ':'
  {
    var d := Decimal(n);
    forall i | 0 <= i < |d| ensures d[i] != ':' { assert IsDigit(d[i]); }
  }

  lemma ColonAtIs(t: string, k: nat)
    requires k < |t| && t[k] == ':' && forall i :: 0 <= i < k ==> t[i] != ':'
    ensures ColonAt(t) == Some(k)
  {
    match ColonAt(t)
    case None =>
    case Some(j) =>
  }

  lemma NoColon(t: string)
    requires forall i :: 0 <= i < |t| ==> t[i] != ':'
    ensures ColonAt(t) == None
  {
  }

  /** A rendered entry is one strtok token. */
  lemma RenderedIsToken(e: Entry)
    requires Writable(e)
    ensures IsToken(Render(e))
  {
    var d := Decimal(e.gpio);
    var t := Render(e);
    forall i | 0 <= i < |t|
      ensures t[i] != ','
    {
      if i < |d| {
        assert t[i] == d[i] && IsDigit(d[i]);
      } else if i > |d| {
        assert t[i] == e.name.value[i - |d| - 1];
      }
    }
  }

  /** strtok splits a list written with single commas back into its tokens. */
  lemma {:induction false} TokensOfJoin(ts: seq<string>)
    requires forall i :: 0 <= i < |ts| ==> IsToken(ts[i])
    ensures Tokens(Join(ts)) == ts
    decreases |ts|
  {
    if |ts| == 1 {
      FieldOfToken(ts[0], "");
      assert ts[0][..|ts[0]|] == ts[0] && ts[0][|ts[0]|..] == "";
    } else if |ts| > 1 {
      var s := Join(ts);
      var rest := Join(ts[1..]);
      assert s == ts[0] + ("," + rest);
      FieldOfToken(ts[0], "," + rest);
      assert s[..|ts[0]|] == ts[0];
      assert s[|ts[0]|..] == "," + rest;
      assert ("," + rest)[1..] == rest;
      TokensOfJoin(ts[1..]);
      assert ts == [ts[0]] + ts[1..];
    }
  }

  /** The field at the start of token + rest, rest empty or starting with a comma, is the token. */
  lemma {:induction false} FieldOfToken(t: string, rest: string)
    requires forall i :: 0 <= i < |t| ==> t[i] != ','
    requires rest == [] || rest[0] == ','
    ensures FieldLength(t + rest) == |t|
    decreases |t|
  {
    if t != [] {
      assert (t + rest)[1..] == t[1..] + rest;
      FieldOfToken(t[1..], rest);
    } else {
      assert t + rest == rest;
    }
  }

  lemma {:induction false} EntriesOfTokens(ts: seq<string>, es: seq<Entry>)
    requires |ts| == |es| && forall i :: 0 <= i < |es| ==> ParseToken(ts[i]) == es[i]
    ensures Entries(ts) == es
  {
    if ts != [] {
      EntriesOfTokens(ts[1..], es[1..]);
    }
  }

  /**
   * The round trip of the configuration list: writing entries that are all
   * in range as "gpio[:name]" joined by commas, parse_gpio_list configures
   * the first LED_ADAPTER_MAX_LEDS of them, in order.
   */
  lemma ParseWrittenList(es: seq<Entry>, pinCount: nat, maxLeds: nat)
    requires forall i :: 0 <= i < |es| ==> Writable(es[i]) && es[i].gpio < pinCount
    ensures Configured(Join(RenderAll(es)), pinCount, maxLeds) == ConfiguredLeds(es[..Min(maxLeds, |es|)])
  {
    var ts := RenderAll(es);
    forall i | 0 <= i < |ts|
      ensures IsToken(ts[i]) && ParseToken(ts[i]) == es[i]
    {
      RenderedIsToken(es[i]);
      ParseRendered(es[i]);
    }
    TokensOfJoin(ts);
    EntriesOfTokens(ts, es);
    AcceptedAll(es, |es|, pinCount);
    assert es[..|es|] == es;
  }

  // ---------------------------------------------------------------------------
  // Packing

  /** p == d * c + r with 0 <= r < d: c and r are p's quotient and remainder. */
  lemma DivUnique(p: int, d: int, c: int, r: int)
    requires d > 0 && 0 <= r < d && p == d * c + r
    ensures p / d == c && p % d == r
  {
    var q := p / d;
    assert d * q + p % d == p;
    assert d * (c - q) == p % d - r;
    if c > q {
      MulAtLeast(d, c - q);
    } else if c < q {
      MulAtLeast(d, q - c);
    }
  }

  lemma MulAtLeast(d: int, k: int)
    requires d > 0 && k >= 1
    ensures d * k >= d
  {
    assert d * k == d * (k - 1) + d;
    assert d * (k - 1) >= 0;
  }

  /** Shifting right by one byte and then by q bytes is shifting by q + 1. */
  lemma DivDiv(p: nat, q: nat)
    requires q >= 1
    ensures p / (256 * q) == (p / 256) / q
  {
    var a := p / 256;
    var c := a / q;
    var r := 256 * (a % q) + p % 256;
    assert p == 256 * a + p % 256;
    assert a == q * c + a % q;
    assert p == (256 * q) * c + r;
    DivUnique(p, 256 * q, c, r);
  }

  /** Byte i of packed bytes is the i-th of them, and 0 past the last. */
  lemma {:induction false} ByteAtPack(bs: seq<Byte>, i: nat)
    ensures ByteAt(PackBytes(bs), i) == if i < |bs| then bs[i] else 0
  {
    var p := PackBytes(bs);
    if bs == [] {
      DivUnique(0, Pow256(i), 0, 0);
    } else {
      DivUnique(p, 256, PackBytes(bs[1..]), bs[0]);
      if i > 0 {
        DivDiv(p, Pow256(i - 1));
        ByteAtPack(bs[1..], i - 1);
      }
    }
  }

  /** The bytes of a value below 256^k packed back give the value. */
  lemma {:induction false} PackOfBytes(p: nat, k: nat)
    requires p < Pow256(k)
    ensures PackBytes(seq(k, i requires 0 <= i => ByteAt(p, i))) == p
  {
    var bs := seq(k, i requires 0 <= i => ByteAt(p, i));
    if k == 0 {
      assert bs == [];
    } else {
      var q := p / 256;
      DivUnique(p, 256, q, p % 256);
      assert q < Pow256(k - 1);
      var rest := seq(k - 1, i requires 0 <= i => ByteAt(q, i));
      forall i | 0 <= i < k - 1
        ensures bs[1..][i] == rest[i]
      {
        DivDiv(p, Pow256(i));
      }
      assert bs[1..] == rest;
      PackOfBytes(q, k - 1);
    }
  }

  /** Tables with the same gpios have the same live count. */
  lemma {:induction false} LiveCountOfGpios(a: seq<LedConfig>, b: seq<LedConfig>)
    requires |a| == |b| && forall i :: 0 <= i < |a| ==> a[i].gpio == b[i].gpio
    ensures LiveCount(a) == LiveCount(b)
  {
    if a != [] {
      LiveCountOfGpios(a[1..], b[1..]);
    }
  }

  /** Unpacking keeps every gpio, so it visits the same LEDs. */
  lemma UnpackedCount(leds: seq<LedConfig>, f: Field, packed: nat)
    ensures PackedCount(Unpacked(leds, f, packed)) == PackedCount(leds)
    ensures LiveCount(Unpacked(leds, f, packed)) == LiveCount(leds)
  {
    var u := Unpacked(leds, f, packed);
    forall i | 0 <= i < |leds|
      ensures u[i].gpio == leds[i].gpio
    {
      match f
      case Brightness =>
      case LastBrightness =>
    }
    LiveCountOfGpios(u, leds);
  }

  /** Byte i of the packed field is LED i's field, for each LED the loop visits, and 0 beyond. */
  lemma PackedByte(leds: seq<LedConfig>, f: Field, i: nat)
    ensures ByteAt(Packed(leds, f), i) == if i < PackedCount(leds) then FieldOf(leds[i], f) else 0
  {
    ByteAtPack(FieldBytes(leds[..PackedCount(leds)], f), i);
  }

  /** Restoring a state just saved gives the table back. */
  lemma UnpackOfPack(leds: seq<LedConfig>, f: Field)
    ensures Unpacked(leds, f, Packed(leds, f)) == leds
  {
    var u := Unpacked(leds, f, Packed(leds, f));
    forall i | 0 <= i < |leds|
      ensures u[i] == leds[i]
    {
      if i < PackedCount(leds) {
        PackedByte(leds, f, i);
        match f
        case Brightness =>
        case LastBrightness =>
      }
    }
  }

  /** Saving a state just restored gives the stored value back, when the table's LEDs hold all of it. */
  lemma PackOfUnpack(leds: seq<LedConfig>, f: Field, packed: nat)
    requires packed < Pow256(PackedCount(leds))
    ensures Packed(Unpacked(leds, f, packed), f) == packed
  {
    var u := Unpacked(leds, f, packed);
    var n := PackedCount(leds);
    UnpackedCount(leds, f, packed);
    assert FieldBytes(u[..n], f) == seq(n, i requires 0 <= i => ByteAt(packed, i));
    PackOfBytes(packed, n);
  }
}
