# Filament scale: a verified model of the firmware core

This project models the firmware of a filament scale: an Arduino reads a
load cell (HX711) under a filament spool, smooths the reading with a
five-slot moving average, and draws the remaining filament and a fill bar
on an OLED. Over the serial line an operator types a number and a command
letter to tare, calibrate, set the empty-reel weight, and save, load or
reset the calibration record in EEPROM.

What is modelled, one module each:

- `CTypes` (`ctypes.dfy`): the C integer types of the record and of the
  driver's offset (`uint16_t`, `uint32_t`, `long`) and the conversions
  between them. The model assumes an AVR Arduino, where C's `int` is 16
  bits: the code uses `EEPROM.get`/`put` without `EEPROM.begin`/`commit`,
  which is the AVR EEPROM interface. The source does not name its board.
- `Calibration` (`calibration.dfy`): the record `config`
  {Version, Offset, Reel, Scale}, the defaults, and the two rules behind
  `loadSettings` and `saveSettings` as functions (`Loaded`, `Saved`), with
  the save-then-load round trip.
- `Averaging` (`averaging.dfy`): `averager` as the class `MovingAverage`
  over an `array<real>` of N = 5 slots with `p` and `first`. A ghost
  `history` holds the readings since the last seeding. `Window(history)`
  says which reading each slot holds. `Smoothed(history)` is the mean the
  filter returns.
- `Operand` (`operand.dfy`): the digit accumulator `enteredValue`: append
  a digit, drop a digit on backspace, and what a run of such bytes leaves.
- `Gauge` (`gauge.dfy`): the bar length in `loop`: the weight mapped onto
  124 pixels against 1000 g, rounded, truncated as C converts float to
  `int`, and clamped into [0, 124].
- `Controller` (`controller.dfy`): the globals as the class
  `FilamentScale` (record, load cell offset and scale, EEPROM record,
  operand, filter) with `LoadSettings`, `SaveSettings`, `DoSerial` (one
  byte per call) and the measuring part of `Loop`. The pure transition
  `Step` says what one byte does to all of that state. `DoSerial` and
  `Loop` are proved against it, and lemmas give the effect of each key.

Inputs from hardware are parameters. `get_units(1)` is the `units`
argument of `Loop`. `get_value(10)` is `raw`, the offset measured by `tare`
is `tareOffset`, and a waiting serial byte is `received` (`None` when
`Serial.available()` is 0). EEPROM address 0 is the field `stored`.

Details of the code that the model keeps:

- The operand is cleared only by `c` and `r` (src/main.cpp:194 and 203).
  `?`, `z`, `s`, `l`, `d` and unknown bytes keep it.
- The operand is a signed C `int`. As long as no digit overflows `int`,
  it never goes negative; the model requires that no digit does and keeps
  `0 <= enteredValue <= 32767` as an invariant.
- `loadSettings` always reads EEPROM into `config` first. When defaults
  apply, it then overwrites all four fields.

## Model

| member | source | states |
|---|---|---|
| CTypes.ToU16 | src/main.cpp:199 | storing the operand in the `uint16_t` Reel field keeps it when below 65536 and otherwise reduces it modulo 2^16 |
| CTypes.ToU32 | src/main.cpp:67 | a `long` offset stored in the `uint32_t` Offset field keeps a non-negative value and shifts a negative one up by 2^32 |
| CTypes.ToI32 | src/main.cpp:59 | pushing the `uint32_t` Offset back as a `long` gives the value congruent to it modulo 2^32 |
| CTypes.I32RoundTrip | src/main.cpp:59-67 | a live offset survives being captured into the record and pushed back |
| CTypes.U32RoundTrip | src/main.cpp:59-67 | a stored offset survives being pushed to the load cell and captured again |
| Calibration.Loaded | src/main.cpp:43-60 | a load always yields version 2; it is the defaults {59000, 407.12, 240} when defaults are asked for or the stored version is not 2, and the stored record otherwise; no other shape is possible |
| Calibration.Saved | src/main.cpp:62-73 | the saved record has version 2, the live offset (recoverable exactly), the live scale and the old reel weight |
| Calibration.SaveLoadRoundTrip | src/main.cpp:43-73 | loading (without defaults) what was just saved reproduces the record, and the load cell gets back the offset and scale that were live at save time, with the reel weight kept |
| Calibration.LoadSaveLoad | src/main.cpp:43-73 | loading (`l` or `d`), saving straight away and loading again leaves the record as the first load left it, because the save captures exactly what the load pushed to the load cell |
| Averaging.Window | src/main.cpp:95-110 | the buffer's contents after the readings since seeding always have N = 5 slots |
| Averaging.Slot | src/main.cpp:100-110 | each slot holds one of the readings since seeding |
| Averaging.WindowSeed | src/main.cpp:97-105 | seeding with v puts v in every slot |
| Averaging.SlotStep | src/main.cpp:106-110 | a later reading lands in slot (number of readings) mod 5 and every other slot keeps its reading |
| Averaging.WindowStep | src/main.cpp:106-110 | a later reading overwrites exactly one slot, the one at the write index |
| Averaging.WindowEarly | src/main.cpp:97-110 | before the buffer wraps it holds the readings so far followed by copies of the seed |
| Averaging.LateSlot | src/main.cpp:106-110 | once the buffer has wrapped, each slot holds the reading at its rotated position among the last five |
| Averaging.WindowLate | src/main.cpp:106-110 | once the buffer has wrapped it holds exactly the last five readings, rotated to the write index |
| Averaging.Smoothed | src/main.cpp:95-118 | what the filter returns after a run of readings is the mean of the five slots, and it never leaves the range of the readings since seeding |
| Averaging.SeedMean | src/main.cpp:97-118 | the first call after a reset returns exactly its reading |
| Averaging.WarmStartMean | src/main.cpp:95-118 | until the buffer wraps, the result is the mean of the readings with the seed counted once more per slot not yet overwritten (the warm start) |
| Averaging.SteadyMean | src/main.cpp:106-118 | once five readings have followed the seed's slot, the result is the mean of the last five readings |
| Averaging.MovingAverage.constructor | src/main.cpp:17-20 | the filter starts unseeded with `p = 0` and zeroed slots |
| Averaging.MovingAverage.Average | src/main.cpp:95-119 | a first call fills all slots with the reading, sets `p = 1`, clears `first` and returns the reading; a later call changes only `data[p]`, advances `p` to `(p + 1) % 5`; every call returns the slot sum over 5, which is `Smoothed` of the readings since seeding; `0 <= p < 5` is kept |
| Averaging.MovingAverage.Mean | src/main.cpp:112-118 | the summing loop returns the sum of the five slots divided by five |
| Operand.DigitValue | src/main.cpp:144 | a digit byte's value `c - '0'` is below 10 |
| Operand.PushDigit | src/main.cpp:142-146 | after a digit the operand's last decimal digit is that digit and the rest is the old operand |
| Operand.DropDigit | src/main.cpp:134-140 | after backspace the operand is the old one with its last decimal digit removed |
| Operand.Typed | src/main.cpp:134-146 | the operand after a run of digit and backspace bytes; each byte adds at most one decimal digit, so n bytes keep it below (v + 1) * 10^n |
| Operand.BackspaceUndoesDigit | src/main.cpp:134-146 | backspace right after a digit restores the operand |
| Operand.TypedDigits | src/main.cpp:142-146 | typing digits after operand v gives v shifted left by their count plus their decimal value |
| Operand.TypedFromZero | src/main.cpp:142-146 | from a cleared operand, typing digits yields their decimal value ("123" gives 123) |
| Operand.TypedAppend | src/main.cpp:134-146 | editing bytes compose: typing more continues from what the earlier bytes left |
| Operand.DigitThenBackspace | src/main.cpp:134-146 | a digit followed by backspace leaves the operand as if neither was typed ("12" then backspace gives 1) |
| Gauge.Truncate | src/main.cpp:237 | float-to-`int` conversion truncates toward zero |
| Gauge.Clamp | src/main.cpp:238-245 | a negative length becomes 0, one above 124 becomes 124, one in range is unchanged |
| Gauge.BarLength | src/main.cpp:237-245 | the bar length is always within [0, 124] |
| Gauge.EmptyBar | src/main.cpp:237-245 | no filament or a negative net weight shows an empty bar |
| Gauge.FullBar | src/main.cpp:237-245 | 1000 g or more shows a full bar |
| Gauge.BarRoundsToNearest | src/main.cpp:237 | within capacity the bar is the exact fill rounded to the nearest pixel |
| Gauge.BarMonotonic | src/main.cpp:237-245 | more filament never shortens the bar |
| Controller.LoadInto | src/main.cpp:43-60 | after `loadSettings` the record is `Loaded` of EEPROM and the load cell's offset and scale equal the record's; EEPROM, operand and filter flag are untouched |
| Controller.Step | src/main.cpp:121-206 | what one call of `doSerial` does to the whole state; the operand stays non-negative, only `s` writes EEPROM, only `z` and `c` reset the filter and nothing clears that reset, the live offset and scale change only on `z`/`c`, `l` and `d`, and the record changes only on `z`, `s`, `l`, `d` and `r` |
| Controller.IdleBytes | src/main.cpp:121-206 | no waiting byte, `?` and unrecognised bytes leave the whole state unchanged |
| Controller.EditBytes | src/main.cpp:134-146 | backspace and digits change only the operand: backspace drops its last digit, a digit is appended |
| Controller.CommandOperand | src/main.cpp:150-206 | of the command bytes only `c` and `r` clear the operand; every other non-digit byte keeps it |
| Controller.TareEffect | src/main.cpp:157-166 | `z` makes the tared offset live, stores it in the record so that pushing the record back restores it, resets the filter, and keeps everything else |
| Controller.CalibrateEffect | src/main.cpp:182-196 | `c` sets the live scale so that scale times the operand equals the raw reading, resets the filter, clears the operand, and keeps everything else |
| Controller.ReelEffect | src/main.cpp:197-205 | `r` stores the operand in the `uint16_t` reel weight (modulo 2^16, so unchanged when it fits), clears the operand, and keeps the record's other fields and the rest of the state |
| Controller.DefaultsEffect | src/main.cpp:177-181 | `d` installs the default record {59000, 407.12, 240} and pushes it to the load cell whatever the prior state |
| Controller.SaveThenLoad | src/main.cpp:167-176 | `s` then `l` gives back the offset and scale live before the save, keeps the reel weight and leaves EEPROM equal to the record |
| Controller.Feed | src/main.cpp:134-146 | a run of digit and backspace bytes never makes the operand negative |
| Controller.FeedIsTyped | src/main.cpp:134-146 | a run of digit and backspace bytes changes only the operand, to the value `Typed` gives |
| Controller.TypedReelWeight | src/main.cpp:142-146 | typing digits after a cleared operand and then `r` sets the reel weight to their decimal value modulo 2^16, exactly that value when it fits |
| Controller.FilamentScale.constructor | src/main.cpp:84 | power-up loads the EEPROM record (defaults unless version 2), pushes it to the load cell, with a cleared operand and an unseeded filter |
| Controller.FilamentScale.LoadSettings | src/main.cpp:43-60 | the record becomes `Loaded(stored, defaults)` and the load cell's scale and offset equal the record's afterwards; EEPROM and operand are untouched |
| Controller.FilamentScale.SaveSettings | src/main.cpp:62-73 | the record becomes `Saved` of the live offset and scale and is written to EEPROM; the load cell is untouched |
| Controller.FilamentScale.DoSerial | src/main.cpp:121-207 | the whole new state (record, live offset and scale, EEPROM, operand, filter flag) is `Step` of the old state and the byte, whose per-key effects the lemmas above state; the operand stays within `int` |
| Controller.FilamentScale.Loop | src/main.cpp:209-253 | one pass feeds the reading to the filter, returns a bar length within [0, 124] computed from the smoothed weight minus the reel weight, and leaves the rest of the state as `Step` of the serial byte gives it |
| Controller.SaveThenRestart | src/main.cpp:62-84 | `s` followed by a power cycle restores the live offset and scale and keeps the reel weight |

## Left out

- Display output (`display.*`, fonts, OLED buffer) and the text-centring estimate `ceil(log10(abs(distance)))`: drawing and transcendental floating-point maths, undefined at a distance of 0.
- The weight-to-length conversion through `M_PI`, density and diameter: floating-point numerics. `Loop` keeps only `filamentGrams = grams - Reel` and the bar.
- Serial echo and `printConfig`: output only. Serial input is the one byte given to each `DoSerial` call.
- The HX711 driver (how `get_units`, `get_value` and `tare` compute their values) is not part of this model. Its readings are parameters, and its state is the live offset (a 32-bit `long`) and scale.
- EEPROM byte layout and struct padding: the stored record is a `Config` value. An erased EEPROM whose bytes happen to carry version 2 and a NaN scale is not representable.
- `setup()` hardware initialisation. The `FilamentScale` constructor keeps only the zero-initialised globals and the `loadSettings(false)` call.
- Floating-point rounding: readings, scales and means are `real`. Nothing is claimed about `float` or `double` behaviour.
- Controller.FilamentScale.DoSerial: requires a non-zero operand for `c`. The source divides by it (src/main.cpp:184) and would set an infinite or NaN scale, which `real` cannot represent.
- Controller.FilamentScale.DoSerial: requires that a digit does not push the operand past 32767. The source's `int` overflow there (src/main.cpp:144) is undefined behaviour.
- Controller.FilamentScale.Loop: carries the same two requirements, for its call to `DoSerial`.
- Gauge.BarLength: does not model the undefined float-to-`int` conversion of a pre-clamp value outside the `int` range (a weight beyond about ±264 kg). The model truncates any value and then clamps it.
- Controller.FilamentScale.DoSerial: rests on a 16-bit `int`. With a 32-bit `int` (a 32-bit board), the operand could reach 2^31 - 1 before overflowing, and `r` would then store it modulo 2^16 through `ToU16`, which a 16-bit operand never reaches.
- Calibration.LoadSaveLoad: rests on `double` and `float` having the same width, as they do on AVR. On a 32-bit board `double` is 64 bits while the driver's scale is a `float`, so `set_scale` would narrow the record's Scale (407.12 among others) and `s` would save the narrowed value.
- CTypes.ToI32: takes the implementation-defined `uint32_t`-to-`long` conversion to wrap around, as GCC does.
