/**
 * The firmware's global state and the operations that change it:
 * loadSettings, saveSettings, the serial command interpreter doSerial, and
 * the measuring part of one pass of `loop`.
 *
 * The load cell (an HX711) is reduced to its live offset and scale; its
 * readings (`get_units`, `get_value`) and the offset that `tare` measures
 * are parameters. EEPROM address 0 is the field `stored`.
 */
module Controller {
  import opened CTypes
  import opened Calibration
  import opened Averaging
  import opened Operand
  import opened Gauge

  datatype Option<T> = None | Some(value: T)

  const KEY_HELP: byte := '?' as int
  const KEY_TARE: byte := 'z' as int
  const KEY_SAVE: byte := 's' as int
  const KEY_LOAD: byte := 'l' as int
  const KEY_DEFAULTS: byte := 'd' as int
  const KEY_CALIBRATE: byte := 'c' as int
  const KEY_REEL: byte := 'r' as int

  /** A byte that is neither an operand edit nor one of the seven command keys. */
  predicate IsUnknown(c: byte)
  {
    c != BACKSPACE && !IsDigit(c) &&
    c !in {KEY_HELP, KEY_TARE, KEY_SAVE, KEY_LOAD, KEY_DEFAULTS, KEY_CALIBRATE, KEY_REEL}
  }

  /** Everything doSerial can change, as one value. */
  datatype Snapshot = Snapshot(
    config: Config,
    sensorOffset: i32,
    sensorScale: real,
    stored: Config,
    enteredValue: int,
    filterFirst: bool)

  /** The record and load cell state after `loadSettings(defaults)`. */
  function LoadInto(s: Snapshot, defaults: bool): (t: Snapshot)
    ensures t.config == Loaded(s.stored, defaults)
    ensures t.sensorOffset == ToI32(t.config.offset) && t.sensorScale == t.config.scale
    ensures t.stored == s.stored && t.enteredValue == s.enteredValue && t.filterFirst == s.filterFirst
  {
    var c := Loaded(s.stored, defaults);
    s.(config := c, sensorOffset := ToI32(c.offset), sensorScale := c.scale)
  }

  /**
   * What one call of doSerial does to the state: `received` is the byte
   * read (`None` when none is waiting), `tareOffset` the offset the load
   * cell measures when tared and `raw` its reading `get_value(10)`.
   */
  function Step(s: Snapshot, received: Option<byte>, tareOffset: i32, raw: real): (t: Snapshot)
    requires 0 <= s.enteredValue
    requires received == Some(KEY_CALIBRATE) ==> s.enteredValue != 0
    ensures 0 <= t.enteredValue
    // Only `s` writes EEPROM.
    ensures t.stored != s.stored ==> received == Some(KEY_SAVE)
    // Only `z` and `c` reset the filter, and nothing clears the reset.
    ensures t.filterFirst != s.filterFirst ==> received in {Some(KEY_TARE), Some(KEY_CALIBRATE)}
    ensures s.filterFirst ==> t.filterFirst
    // The live calibration changes only on `z`, `c`, `l` and `d`.
    ensures t.sensorOffset != s.sensorOffset ==> received in {Some(KEY_TARE), Some(KEY_LOAD), Some(KEY_DEFAULTS)}
    ensures t.sensorScale != s.sensorScale ==> received in {Some(KEY_CALIBRATE), Some(KEY_LOAD), Some(KEY_DEFAULTS)}
    // The record changes only on `z`, `s`, `l`, `d` and `r`.
    ensures t.config != s.config ==>
      received in {Some(KEY_TARE), Some(KEY_SAVE), Some(KEY_LOAD), Some(KEY_DEFAULTS), Some(KEY_REEL)}
  {
    match received
    case None => s
    case Some(c) =>
      if c == BACKSPACE then s.(enteredValue := DropDigit(s.enteredValue))
      else if IsDigit(c) then s.(enteredValue := PushDigit(s.enteredValue, DigitValue(c)))
      else if c == KEY_TARE then
        s.(config := s.config.(offset := ToU32(tareOffset)), sensorOffset := tareOffset, filterFirst := true)
      else if c == KEY_SAVE then
        var saved := Saved(s.config, s.sensorOffset, s.sensorScale);
        s.(config := saved, stored := saved)
      else if c == KEY_LOAD then LoadInto(s, false)
      else if c == KEY_DEFAULTS then LoadInto(s, true)
      else if c == KEY_CALIBRATE then
        s.(sensorScale := raw / s.enteredValue as real, filterFirst := true, enteredValue := 0)
      else if c == KEY_REEL then
        s.(config := s.config.(reel := ToU16(s.enteredValue)), enteredValue := 0)
      else s
  }

  /** No byte, `?` and unrecognised bytes change nothing. */
  lemma IdleBytes(s: Snapshot, received: Option<byte>, tareOffset: i32, raw: real)
    requires 0 <= s.enteredValue
    requires received.None? || received == Some(KEY_HELP) || (received.Some? && IsUnknown(received.value))
    ensures Step(s, received, tareOffset, raw) == s
  {
  }

  /** Backspace and digits edit the operand and change nothing else. */
  lemma EditBytes(s: Snapshot, c: byte, tareOffset: i32, raw: real)
    requires 0 <= s.enteredValue
    requires c == BACKSPACE || IsDigit(c)
    ensures var t := Step(s, Some(c), tareOffset, raw);
      && t.(enteredValue := s.enteredValue) == s
      && (c == BACKSPACE ==> t.enteredValue * 10 <= s.enteredValue < t.enteredValue * 10 + 10)
      && (IsDigit(c) ==> t.enteredValue / 10 == s.enteredValue && t.enteredValue % 10 == DigitValue(c))
  {
  }

  /** Of the command bytes, only `c` and `r` clear the operand; the others keep it. */
  lemma CommandOperand(s: Snapshot, c: byte, tareOffset: i32, raw: real)
    requires 0 <= s.enteredValue
    requires c != BACKSPACE && !IsDigit(c)
    requires c == KEY_CALIBRATE ==> s.enteredValue != 0
    ensures Step(s, Some(c), tareOffset, raw).enteredValue ==
      if c == KEY_CALIBRATE || c == KEY_REEL then 0 else s.enteredValue
  {
  }

  /**
   * `z` makes the tared offset live, records it in `config` so that pushing
   * the record back restores it, and resets the filter; the rest is kept.
   */
  lemma TareEffect(s: Snapshot, tareOffset: i32, raw: real)
    requires 0 <= s.enteredValue
    ensures var t := Step(s, Some(KEY_TARE), tareOffset, raw);
      && t.sensorOffset == tareOffset
      && ToI32(t.config.offset) == tareOffset
      && t.filterFirst
      && t.config.(offset := s.config.offset) == s.config
      && t.(config := s.config, sensorOffset := s.sensorOffset, filterFirst := s.filterFirst) == s
  {
    I32RoundTrip(tareOffset);
  }

  /**
   * `c` sets the live scale so that the raw reading `raw` converts to the
   * operand (the known weight), resets the filter and clears the operand.
   */
  lemma CalibrateEffect(s: Snapshot, tareOffset: i32, raw: real)
    requires 0 < s.enteredValue
    ensures var t := Step(s, Some(KEY_CALIBRATE), tareOffset, raw);
      && t.sensorScale * s.enteredValue as real == raw
      && t.filterFirst && t.enteredValue == 0
      && t.(sensorScale := s.sensorScale, filterFirst := s.filterFirst, enteredValue := s.enteredValue) == s
  {
  }

  /**
   * `r` stores the operand in the `uint16_t` reel weight (unchanged when it
   * fits) and clears the operand; the other record fields and the rest of
   * the state are kept.
   */
  lemma ReelEffect(s: Snapshot, tareOffset: i32, raw: real)
    requires 0 <= s.enteredValue
    ensures var t := Step(s, Some(KEY_REEL), tareOffset, raw);
      && t.config.reel == ToU16(s.enteredValue)
      && (s.enteredValue < 0x1_0000 ==> t.config.reel == s.enteredValue)
      && t.enteredValue == 0
      && t.config.(reel := s.config.reel) == s.config
      && t.(config := s.config, enteredValue := s.enteredValue) == s
  {
  }

  /** `d` installs the default record and pushes it to the load cell, whatever the state. */
  lemma DefaultsEffect(s: Snapshot, tareOffset: i32, raw: real)
    requires 0 <= s.enteredValue
    ensures var t := Step(s, Some(KEY_DEFAULTS), tareOffset, raw);
      && t.config == DEFAULTS
      && t.sensorOffset == 59000 && t.sensorScale == 407.12
      && t.stored == s.stored && t.enteredValue == s.enteredValue && t.filterFirst == s.filterFirst
  {
  }

  /**
   * `s` then `l`: the load gives back the offset and scale that were live
   * before the save, the reel weight is kept, and EEPROM holds the record.
   */
  lemma SaveThenLoad(s: Snapshot, tareOffset: i32, raw: real)
    requires 0 <= s.enteredValue
    ensures var saved := Step(s, Some(KEY_SAVE), tareOffset, raw);
      var t := Step(saved, Some(KEY_LOAD), tareOffset, raw);
      && t.sensorOffset == s.sensorOffset && t.sensorScale == s.sensorScale
      && t.config.reel == s.config.reel
      && t.stored == t.config == saved.config
      && t.enteredValue == s.enteredValue && t.filterFirst == s.filterFirst
  {
    SaveLoadRoundTrip(s.config, s.sensorOffset, s.sensorScale);
  }

  /** The state after feeding doSerial the editing bytes `cs`, one per call. */
  function Feed(s: Snapshot, cs: seq<byte>): (t: Snapshot)
    requires 0 <= s.enteredValue && AllEdits(cs)
    ensures 0 <= t.enteredValue
    decreases cs
  {
    if cs == [] then s else Feed(Step(s, Some(cs[0]), 0, 0.0), cs[1..])
  }

  /** Feeding editing bytes changes only the operand, to what `Typed` says. */
  lemma {:induction false} FeedIsTyped(s: Snapshot, cs: seq<byte>)
    requires 0 <= s.enteredValue && AllEdits(cs)
    ensures Feed(s, cs) == s.(enteredValue := Typed(s.enteredValue, cs))
    decreases cs
  {
    if cs != [] {
      var next := Step(s, Some(cs[0]), 0, 0.0);
      FeedIsTyped(next, cs[1..]);
    }
  }

  /**
   * Typing digits after a cleared operand and then `r` sets the reel weight
   * to their value, reduced to 16 bits.
   */
  lemma TypedReelWeight(s: Snapshot, ds: seq<byte>, tareOffset: i32, raw: real)
    requires s.enteredValue == 0
    requires forall i :: 0 <= i < |ds| ==> IsDigit(ds[i])
    ensures AllEdits(ds)
    ensures Step(Feed(s, ds), Some(KEY_REEL), tareOffset, raw).config.reel == ToU16(Decimal(ds))
    ensures Decimal(ds) < 0x1_0000 ==> Step(Feed(s, ds), Some(KEY_REEL), tareOffset, raw).config.reel == Decimal(ds)
  {
    TypedFromZero(ds);
    FeedIsTyped(s, ds);
  }

  class FilamentScale {
    /** The calibration record `config`. */
    var config: Config
    /** The load cell's live offset (a `long` in the driver). */
    var sensorOffset: i32
    /** The load cell's live scale. */
    var sensorScale: real
    /** The record at EEPROM address 0. */
    var stored: Config
    /** doSerial's function-static operand `enteredValue`. */
    var enteredValue: int
    /** The moving-average filter: `data`, `p` and `first`. */
    const filter: MovingAverage

    ghost predicate Valid()
      reads this, filter, filter.data
    {
      filter.Valid() && 0 <= enteredValue <= INT_MAX
    }

    ghost function State(): Snapshot
      reads this, filter
    {
      Snapshot(config, sensorOffset, sensorScale, stored, enteredValue, filter.first)
    }

    /**
     * Power-up with `eeprom` at address 0: the zero-initialised globals and
     * the `loadSettings(false)` of `setup`.
     */
    constructor (eeprom: Config)
      ensures Valid() && fresh(filter) && fresh(filter.data)
      ensures stored == eeprom && config == Loaded(eeprom, false)
      ensures sensorOffset == ToI32(config.offset) && sensorScale == config.scale
      ensures enteredValue == 0 && filter.first
    {
      stored := eeprom;
      config := Loaded(eeprom, false);
      sensorOffset := ToI32(Loaded(eeprom, false).offset);
      sensorScale := Loaded(eeprom, false).scale;
      enteredValue := 0;
      filter := new MovingAverage();
    }

    /**
     * loadSettings: read the record at address 0, fall back to the defaults
     * when asked to or when its version is not 2, and push the record's
     * scale and offset to the load cell.
     */
    method LoadSettings(defaults: bool)
      requires Valid()
      modifies this
      ensures Valid()
      ensures config == Loaded(stored, defaults)
      ensures sensorScale == config.scale && sensorOffset == ToI32(config.offset)
      ensures stored == old(stored) && enteredValue == old(enteredValue)
    {
      config := stored;
      if defaults || config.version != VERSION {
        config := config.(version := VERSION, offset := 59000, scale := 407.12, reel := 240);
      }
      sensorScale := config.scale;
      sensorOffset := ToI32(config.offset);
    }

    /**
     * saveSettings: capture the load cell's live offset and scale into the
     * record, reassert version 2, and write the record to address 0.
     */
    method SaveSettings()
      requires Valid()
      modifies this
      ensures Valid()
      ensures config == Saved(old(config), sensorOffset, sensorScale) && stored == config
      ensures sensorOffset == old(sensorOffset) && sensorScale == old(sensorScale)
      ensures enteredValue == old(enteredValue)
    {
      config := config.(version := VERSION);
      config := config.(offset := ToU32(sensorOffset));
      config := config.(scale := sensorScale);
      stored := config;
    }

    /**
     * doSerial: consume at most one byte (`None` when none is waiting).
     * `tareOffset` is the offset the load cell measures when it is tared
     * and `raw` its 10-sample reading `get_value(10)`; each is used only by
     * its own command.
     */
    method DoSerial(received: Option<byte>, tareOffset: i32, raw: real)
      requires Valid()
      requires received.Some? && IsDigit(received.value) ==>
        PushDigit(enteredValue, DigitValue(received.value)) <= INT_MAX
      requires received == Some(KEY_CALIBRATE) ==> enteredValue != 0
      modifies this, filter`first
      ensures Valid()
      ensures State() == Step(old(State()), received, tareOffset, raw)
    {
      if received.None? {
        return;
      }
      var c := received.value;

      if c == BACKSPACE {
        enteredValue := DropDigit(enteredValue);
        return;
      }

      if IsDigit(c) {
        enteredValue := PushDigit(enteredValue, DigitValue(c));
        return;
      }

      if c == KEY_HELP {
      } else if c == KEY_TARE {
        sensorOffset := tareOffset;
        config := config.(offset := ToU32(sensorOffset));
        filter.first := true;
      } else if c == KEY_SAVE {
        SaveSettings();
      } else if c == KEY_LOAD {
        LoadSettings(false);
      } else if c == KEY_DEFAULTS {
        LoadSettings(true);
      } else if c == KEY_CALIBRATE {
        var value := raw / enteredValue as real;
        sensorScale := value;
        filter.first := true;
        enteredValue := 0;
      } else if c == KEY_REEL {
        config := config.(reel := ToU16(enteredValue));
        enteredValue := 0;
      }
    }

    /**
     * The measuring part of one pass of `loop`: average the reading
     * `units` (from `get_units(1)`), subtract the reel weight, size the
     * bar, then handle serial input.
     */
    method Loop(units: real, received: Option<byte>, tareOffset: i32, raw: real) returns (barLength: int)
      requires Valid()
      requires received.Some? && IsDigit(received.value) ==>
        PushDigit(enteredValue, DigitValue(received.value)) <= INT_MAX
      requires received == Some(KEY_CALIBRATE) ==> enteredValue != 0
      modifies this, filter, filter.data
      ensures Valid()
      ensures filter.history == if old(filter.first) then [units] else old(filter.history) + [units]
      ensures barLength == BarLength(Smoothed(filter.history) - old(config).reel as real)
      ensures 0 <= barLength <= BAR_W
      ensures State() == Step(old(State()).(filterFirst := false), received, tareOffset, raw)
    {
      var grams := filter.Average(units);
      var filamentGrams := grams - config.reel as real;
      barLength := BarLength(filamentGrams);
      DoSerial(received, tareOffset, raw);
    }
  }

  /**
   * The 's' command followed by a power cycle: the restarted firmware's load
   * cell has the offset and scale that were live before the save, and the
   * reel weight is kept.
   */
  method SaveThenRestart(device: FilamentScale) returns (restarted: FilamentScale)
    requires device.Valid()
    modifies device, device.filter
    ensures restarted.Valid() && fresh(restarted)
    ensures restarted.sensorOffset == old(device.sensorOffset)
    ensures restarted.sensorScale == old(device.sensorScale)
    ensures restarted.config.reel == old(device.config.reel)
  {
    device.DoSerial(Some(KEY_SAVE), 0, 0.0);
    SaveLoadRoundTrip(old(device.config), old(device.sensorOffset), old(device.sensorScale));
    restarted := new FilamentScale(device.stored);
  }
}
