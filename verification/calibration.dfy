/**
 * The calibration record `config` and the two pure rules behind
 * loadSettings and saveSettings: which record a load produces, and which
 * record a save writes.
 */
module Calibration {
  import opened CTypes

  /** The format tag that marks a valid persisted record. */
  const VERSION: byte := 2

  /**
   * The record `config` {Version, Offset, Reel, Scale}; Scale is a C double,
   * which on AVR has the width of the driver's `float` scale, so pushing it
   * to the load cell and reading it back loses nothing.
   */
  datatype Config = Config(version: byte, offset: u32, reel: u16, scale: real)

  /** The hard-coded defaults: offset 59000, scale 407.12, reel weight 240. */
  const DEFAULTS: Config := Config(VERSION, 59000, 240, 407.12)

  /**
   * The record loadSettings leaves in `config`, given what EEPROM address 0
   * holds and whether defaults were asked for.
   */
  function Loaded(stored: Config, defaults: bool): (c: Config)
    ensures c.version == VERSION
    ensures c == DEFAULTS || c == stored
    ensures defaults ==> c == DEFAULTS
    ensures stored.version != VERSION ==> c == DEFAULTS
    ensures !defaults && stored.version == VERSION ==> c == stored
  {
    if defaults || stored.version != VERSION then DEFAULTS else stored
  }

  /**
   * The record saveSettings writes: the current record with the format tag
   * reasserted and the load cell's live offset and scale captured into it.
   */
  function Saved(c: Config, liveOffset: i32, liveScale: real): (s: Config)
    ensures s.version == VERSION
    ensures ToI32(s.offset) == liveOffset && s.scale == liveScale
    ensures s.reel == c.reel
  {
    I32RoundTrip(liveOffset);
    Config(VERSION, ToU32(liveOffset), c.reel, liveScale)
  }

  /**
   * Saving and then loading without defaults (a power cycle) gives back the
   * saved record, and pushing it to the load cell restores the offset and
   * scale that were live at save time, with the reel weight kept.
   */
  lemma SaveLoadRoundTrip(c: Config, liveOffset: i32, liveScale: real)
    ensures var s := Saved(c, liveOffset, liveScale);
      && Loaded(s, false) == s
      && ToI32(Loaded(s, false).offset) == liveOffset
      && Loaded(s, false).scale == liveScale
      && Loaded(s, false).reel == c.reel
  {
    var s := Saved(c, liveOffset, liveScale);
    assert s.version == VERSION;
  }

  /**
   * Loading, saving straight away and loading again (`l` or `d`, then `s`,
   * then `l`) leaves the record as the first load left it: the save captures
   * the offset and scale the load pushed to the load cell.
   */
  lemma LoadSaveLoad(stored: Config, defaults: bool)
    ensures var c := Loaded(stored, defaults);
      && Saved(c, ToI32(c.offset), c.scale) == c
      && Loaded(Saved(c, ToI32(c.offset), c.scale), false) == c
  {
    var c := Loaded(stored, defaults);
    U32RoundTrip(c.offset);
  }
}
