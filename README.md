# m4arch keyboard backlight core, in Dafny

m4arch controls the RGB keyboard backlight of a laptop through Linux sysfs attribute files.
This project models the driver layer behind its CLI and GUI. That layer has four parts:

- **Brightness policy.** Stepping the level up (clamped to the device maximum) or down
  (floored at zero). The snapshot of level, maximum, percentage and on/off.
  `calculate_percent` computes in 16 bits and then casts to `u8`.
- **Attribute codecs.** Each driver reads a level as trimmed text parsed as `u8`, and writes
  it as its decimal spelling. It reads a colour as whitespace-separated tokens: at least
  three are required, the first three are r, g, b and later tokens are ignored. It writes a
  colour as `"r g b"`.
- **Drivers.** The Tuxedo vendor driver and the generic LED-class driver share this code
  and differ only in three attribute paths. Both are one `Drivers.Backend` value that
  holds those paths.
- **Discovery and facade.** The vendor driver is chosen if its brightness attribute exists.
  Otherwise the generic driver is chosen if its brightness attribute exists. Otherwise no
  driver is found. Every public call discovers a driver afresh and delegates to it. If
  discovery fails, the call returns the not-found I/O error before touching any file.

The attribute files are a `map<string, string>` from path to text. It is held in the
`Attributes.FileSystem` class, and writes replace one entry in place. The set of paths the
process may write is a constant of the file system.

The operating-system behaviour the model assumes is written down, not derived:
- `Attributes.Read`: `fs::read_to_string` gives the text of an existing path. A missing path
  is a `NotFound` I/O error.
- `Attributes.WriteStatus`: `fs::write` succeeds exactly on the writable paths. A refused
  write is `PermissionDenied` for an existing file and `NotFound` for a missing one.

Every state-changing operation has a pure partner function that gives its result and the
files it leaves behind (a `Drivers.Effect`). Examples are `Drivers.WriteEffect`,
`Brightness.IncreaseEffect` and `Brightness.DecreaseEffect`. Each method's `ensures` ties
the method to that partner. Lemmas about the partner state the round trips and the
"nothing else changes" properties.

Modules, in dependency order:

- `prelude.dfy`: `u8`/`u16`, `min`/`max`, `as u8`, `Option`.
- `errors.dfy`: the part of `std::io::Error` that is used, and `M4ArchError` with its `Result`.
- `text.dfy`: Rust's `str::trim`, `str::split_whitespace`, `u8::from_str` and `u8::to_string`.
- `attributes.dfy`: the attribute files.
- `colors.dfy`: `Rgb`.
- `drivers.dfy`: the two drivers.
- `brightness.dfy`: the shared brightness methods.
- `service.dfy`: discovery and the facade.

## Model

| member | source | states |
|---|---|---|
| Prelude.TruncateToU8 | crates/m4arch-core/src/keyboard/brightness.rs:61 | `as u8` keeps the low eight bits; values below 256 pass unchanged |
| Errors.FromIoKeepsCondition | crates/m4arch-core/src/error.rs:7 | every I/O error converts to `Io` carrying the original error; distinct I/O errors stay distinct; none becomes `InvalidValue` or `PermissionDenied` |
| Errors.DisplayIdentifiesKind | crates/m4arch-core/src/error.rs:4-14 | a displayed error starts with "IO error: " exactly when it is `Io`, followed by the I/O error's own text; "Invalid value" and "Permission denied (are you root?)" differ |
| Colors.RgbEqualityIsChannelwise | crates/m4arch-core/src/keyboard/rgb.rs:3-8 | two colours are equal iff all three channels are; each channel lies in 0..255 |
| Text.TrimKeepsInfix | crates/m4arch-service/src/tuxedo.rs:21 | `trim` keeps the infix after the leading whitespace, followed only by whitespace, with no whitespace at either end |
| Text.TrimFramed | crates/m4arch-service/src/tuxedo.rs:21 | trimming whitespace-framed text whose ends are not whitespace gives exactly that text |
| Text.SplitWhitespace | crates/m4arch-service/src/tuxedo.rs:43 | every token of `split_whitespace` is non-empty and contains no whitespace |
| Text.SplitSkipsWhitespace | crates/m4arch-service/src/tuxedo.rs:43 | `split_whitespace` ignores a whitespace prefix of any length and mix |
| Text.SplitWordThenSeparator | crates/m4arch-service/src/tuxedo.rs:43 | a word followed by any non-empty run of whitespace becomes one token, and splitting continues after the run |
| Text.SplitJoinWith | crates/m4arch-service/src/tuxedo.rs:43 | splitting words laid out with any non-empty whitespace separators gives back the words, in order |
| Text.JoinWithEdges | crates/m4arch-service/src/tuxedo.rs:43 | words laid out with separators neither start nor end with whitespace |
| Text.SplitFramedJoin | crates/m4arch-service/src/tuxedo.rs:43 | `trim` then `split_whitespace` of words laid out with any separators, framed by any whitespace, gives the words back |
| Text.Decimal | crates/m4arch-service/src/tuxedo.rs:35 | `to_string` produces a canonical spelling: digits only, no leading zero, and no whitespace |
| Text.DecimalValue | crates/m4arch-service/src/tuxedo.rs:35 | the digits `to_string` writes have the number's value |
| Text.CanonicalIsDecimal | crates/m4arch-service/src/tuxedo.rs:35 | every canonical digit string is the `to_string` of its value, so `to_string` is onto the canonical spellings |
| Text.ParseU8 | crates/m4arch-service/src/tuxedo.rs:22 | `u8::from_str` accepts only an optional '+' followed by at least one digit, so a lone '+' is refused |
| Text.ParseDecimal | crates/m4arch-service/src/tuxedo.rs:35 | parsing what `to_string` wrote gives the number back |
| Text.ParseCanonical | crates/m4arch-service/src/tuxedo.rs:22 | on canonical spellings, parse then `to_string` is the identity |
| Text.ParseIgnoresZeroAndPlus | crates/m4arch-service/src/tuxedo.rs:22 | a leading '+' or a leading zero does not change the parsed value |
| Text.ParseSamples | crates/m4arch-service/src/tuxedo.rs:22 | "255", "+7" and "007" are accepted; "256", "-1", "", "+" and "1 2" are refused |
| Attributes.Written | crates/m4arch-service/src/tuxedo.rs:35 | a successful write puts the text at the path; a refused one changes nothing; no other path changes |
| Attributes.ReadAfterWrite | crates/m4arch-service/src/tuxedo.rs:34-37 | after a successful write, reading that path gives the text written; after a refused one, it reads as before; reads of other paths never change |
| Attributes.FileSystem.ReadToString | crates/m4arch-service/src/tuxedo.rs:19 | reading returns what `Attributes.Read` specifies and changes nothing |
| Attributes.FileSystem.Write | crates/m4arch-service/src/tuxedo.rs:35 | the write's result and the new files are those `WriteStatus` and `Written` specify |
| Drivers.KnownBackendsDistinctPaths | crates/m4arch-service/src/tuxedo.rs:9-14 | each driver's three paths are distinct, and the two drivers' brightness paths differ |
| Drivers.ParseLevel | crates/m4arch-service/src/tuxedo.rs:18-24 | the level is read exactly when the trimmed text is a `u8`, and is that number; anything else, blank text included, is `InvalidValue` |
| Drivers.ParseRgb | crates/m4arch-service/src/tuxedo.rs:41-51 | a colour is read exactly when the trimmed text has three or more whitespace-separated tokens whose first three are `u8`s; they become r, g, b in that order; anything else is `InvalidValue` |
| Drivers.ParseChannels | crates/m4arch-service/src/tuxedo.rs:44-50 | a colour exactly when there are at least three tokens and the first three parse; tokens 0, 1, 2 become r, g, b; fewer tokens or a bad token is `InvalidValue` |
| Drivers.ParseChannelsFirstThree | crates/m4arch-service/src/tuxedo.rs:47-50 | tokens after the third do not affect the colour read |
| Drivers.LevelRoundTrip | crates/m4arch-service/src/tuxedo.rs:34-37 | the decimal text `set_brightness` writes, with any whitespace around it, reads back as the level |
| Drivers.ParseRgbReadsFirstThreeTokens | crates/m4arch-service/src/tuxedo.rs:43-50 | text of words separated by any whitespace runs and framed by any whitespace reads as its first three words; further words are ignored |
| Drivers.FormatRgbJoinsChannels | crates/m4arch-service/src/tuxedo.rs:54 | the colour text is the three channel spellings separated by single spaces |
| Drivers.RgbRoundTrip | crates/m4arch-service/src/tuxedo.rs:53-57 | the text `set_rgb` writes, with any whitespace around it, parses back to the same colour |
| Drivers.FormattedRgbParses | crates/m4arch-service/src/sysfs/keyboard.rs:51-53 | the text `set_rgb` writes parses back to the same colour |
| Drivers.SampleChannels | crates/m4arch-service/src/tuxedo.rs:47-50 | the tokens "10", "20", "30" give the colour (10, 20, 30) |
| Drivers.ParseRgbThreeTokens | crates/m4arch-service/src/tuxedo.rs:41-51 | "10 20 30" reads as (10, 20, 30) |
| Drivers.ParseRgbFourTokens | crates/m4arch-service/src/sysfs/keyboard.rs:41-48 | "10 20 30 40" reads as (10, 20, 30): the fourth token is ignored |
| Drivers.ParseRgbTwoTokens | crates/m4arch-service/src/tuxedo.rs:44-46 | "10 20" is `InvalidValue` |
| Drivers.ParseRgbBadToken | crates/m4arch-service/src/tuxedo.rs:47-49 | "abc 1 2" is `InvalidValue` |
| Drivers.ParseRgbMixedSeparators | crates/m4arch-service/src/sysfs/keyboard.rs:41-48 | `"10  20\n30"`, with a double space and then a newline between the tokens, reads as (10, 20, 30) |
| Drivers.ParseLevelBlank | crates/m4arch-service/src/tuxedo.rs:18-24 | blank text (a space and a newline) is `InvalidValue`, not level 0 |
| Drivers.ParseLevelPadded | crates/m4arch-service/src/sysfs/keyboard.rs:16-22 | "042" followed by a newline reads as 42 |
| Drivers.SampleDigits | crates/m4arch-service/src/tuxedo.rs:22 | "042" parses as the `u8` 42 |
| Drivers.ReadLevel | crates/m4arch-service/src/sysfs/keyboard.rs:16-30 | a missing attribute is the `Io` error `NotFound`; an existing one gives `ParseLevel` of its text; so an error is `Io` exactly when the file is missing and `InvalidValue` otherwise |
| Drivers.ReadRgb | crates/m4arch-service/src/sysfs/keyboard.rs:39-49 | a missing attribute is the `Io` error `NotFound`; an existing one gives `ParseRgb` of its text, a whole colour or `InvalidValue` |
| Drivers.WriteEffect | crates/m4arch-service/src/tuxedo.rs:34-37 | a write succeeds iff the path is writable; success replaces exactly that entry; a failure leaves the files unchanged and passes the `fs::write` error on unchanged inside `Io`: permission denied for an existing file, not found for a missing one |
| Drivers.SetThenGetBrightness | crates/m4arch-service/src/sysfs/keyboard.rs:32-35 | after `set_brightness(l)`, `get_brightness` gives `l`; the maximum and colour attributes read as before |
| Drivers.SetThenGetRgb | crates/m4arch-service/src/sysfs/keyboard.rs:51-54 | after `set_rgb(c)`, `get_rgb` gives `c`; both level attributes read as before |
| Drivers.BackendsAgreeUnderRenaming | crates/m4arch-service/src/sysfs/keyboard.rs:9-11 | two drivers over files that correspond under the path renaming read the same values, and the same writes return the same result, error included, and keep the files corresponding |
| Drivers.ReadLevelFile | crates/m4arch-service/src/tuxedo.rs:18-32 | the read-then-parse of one level attribute returns `ReadLevel` and changes nothing |
| Drivers.GetBrightness | crates/m4arch-service/src/tuxedo.rs:18-24 | returns the brightness attribute as `ReadLevel` reads it, with no change to the files |
| Drivers.GetMaxBrightness | crates/m4arch-service/src/tuxedo.rs:26-32 | returns the maximum attribute as `ReadLevel` reads it, with no change to the files |
| Drivers.SetBrightness | crates/m4arch-service/src/tuxedo.rs:34-37 | result and new files are `WriteEffect` of the level's decimal at the brightness path |
| Drivers.GetRgb | crates/m4arch-service/src/tuxedo.rs:41-51 | returns the colour attribute as `ReadRgb` reads it, with no change to the files |
| Drivers.SetRgb | crates/m4arch-service/src/tuxedo.rs:53-57 | result and new files are `WriteEffect` of `"r g b"` at the colour path |
| Brightness.CalculatePercent | crates/m4arch-core/src/keyboard/brightness.rs:57-63 | a zero maximum gives 0; for a level within the maximum the percentage is `floor(current*100/max)`, at most 100; the 16-bit product cannot overflow |
| Brightness.PercentFullExactlyAtMax | crates/m4arch-core/src/keyboard/brightness.rs:61 | within range, the percentage is 100 iff the level equals the maximum |
| Brightness.PercentMonotone | crates/m4arch-core/src/keyboard/brightness.rs:61 | within range, a higher level never gives a lower percentage |
| Brightness.PercentWrapsAboveMax | crates/m4arch-core/src/keyboard/brightness.rs:61 | for a non-zero maximum the percentage is the quotient modulo 256, with no clamping: (255, 1) gives 156 |
| Brightness.PercentSamples | crates/m4arch-core/src/keyboard/brightness.rs:69-81 | the unit-test values: (0,255)→0, (255,255)→100, (128,255)→50, (64,255)→25, (0,0)→0, (10,0)→0 |
| Brightness.SaturatingAdd | crates/m4arch-core/src/keyboard/brightness.rs:17 | `saturating_add` never wraps: the result is at least each operand, at most their sum, and below 255 only when it is the exact sum |
| Brightness.SaturatingSub | crates/m4arch-core/src/keyboard/brightness.rs:23 | `saturating_sub` never wraps: the result is at most the minuend, at least the exact difference, and positive only when it is the exact difference |
| Brightness.IncreasedLevel | crates/m4arch-core/src/keyboard/brightness.rs:17 | the increased level is `min(current + step, max)` with no wrap; it is never above the maximum, never below a level that was within it, and equals the maximum when the level was above it |
| Brightness.DecreasedLevel | crates/m4arch-core/src/keyboard/brightness.rs:23 | the decreased level is `max(current - step, 0)`: never above the level, and strictly below it when both are positive |
| Brightness.StepsCancel | crates/m4arch-core/src/keyboard/brightness.rs:14-25 | a decrease followed by an increase of the same step returns to the level when neither step is cut off |
| Brightness.IncreaseEffect | crates/m4arch-core/src/keyboard/brightness.rs:14-19 | a failed read of the level or the maximum is returned unchanged and nothing is written; once both reads succeed, the decimal of `min(current + step, max)` is written at the brightness path and the write's own result is returned; only the brightness attribute can change |
| Brightness.DecreaseEffect | crates/m4arch-core/src/keyboard/brightness.rs:21-25 | a failed read of the level is returned unchanged and nothing is written; once the read succeeds, the decimal of `max(current - step, 0)` is written at the brightness path and the write's own result is returned; only the brightness attribute can change |
| Brightness.IncreaseStaysWithinMax | crates/m4arch-core/src/keyboard/brightness.rs:14-19 | after a successful increase the level reads back as `min(current + step, max)`; the maximum and colour read as before |
| Brightness.DecreaseFloorsAtZero | crates/m4arch-core/src/keyboard/brightness.rs:21-25 | after a successful decrease the level reads back as `max(current - step, 0)`; the maximum and colour read as before |
| Brightness.DecreaseIgnoresMax | crates/m4arch-core/src/keyboard/brightness.rs:21-25 | a decrease never reads the maximum: files that differ only in the maximum attribute give the same result and the same change |
| Brightness.ReadInfo | crates/m4arch-core/src/keyboard/brightness.rs:27-38 | the snapshot succeeds iff both reads do; the first failed read's error is returned; the snapshot holds the values read, the derived percentage, and `isOn` iff the level is positive |
| Brightness.ConsistentInfoBounds | crates/m4arch-core/src/keyboard/brightness.rs:41-55 | in a snapshot a positive percentage means the backlight is on; within range the percentage is at most 100 and is 100 only at the maximum |
| Brightness.SetThenInfo | crates/m4arch-core/src/keyboard/brightness.rs:27-38 | after writing a level, the snapshot shows that level with the maximum that was there |
| Brightness.IncreaseBrightness | crates/m4arch-core/src/keyboard/brightness.rs:14-19 | result and new files are those `IncreaseEffect` specifies |
| Brightness.DecreaseBrightness | crates/m4arch-core/src/keyboard/brightness.rs:21-25 | result and new files are those `DecreaseEffect` specifies |
| Brightness.GetBrightnessInfo | crates/m4arch-core/src/keyboard/brightness.rs:27-38 | returns the snapshot `ReadInfo` specifies, changing nothing |
| Service.GetKeyboard | crates/m4arch-service/src/lib.rs:15-30 | the vendor driver if its brightness attribute exists, even when the generic one also exists; otherwise the generic driver if its brightness attribute exists; none exactly when neither exists; the chosen driver's brightness attribute exists |
| Service.DiscoveryProbesOnlyBrightness | crates/m4arch-service/src/lib.rs:17-26 | discovery depends only on whether the two brightness attributes exist |
| Service.Controller | crates/m4arch-service/src/lib.rs:34-41 | no driver gives `Io` with kind `NotFound` and "No supported keyboard driver found"; otherwise the discovered driver |
| Service.WritesKeepDiscovery | crates/m4arch-service/src/lib.rs:15-30 | writing the brightness or the colour through the discovered driver does not change which driver is discovered |
| Service.FacadeBrightnessRoundTrip | crates/m4arch-service/src/lib.rs:43-53 | after a successful `set_brightness(l)`, the next call finds the same driver and reads `l` |
| Service.FacadeRgbRoundTrip | crates/m4arch-service/src/lib.rs:67-74 | after a successful `set_rgb_color`, the next call finds the same driver and reads the same colour |
| Service.DetectKeyboard | crates/m4arch-service/src/lib.rs:15-30 | the two existence probes, in priority order, give `GetKeyboard` |
| Service.GetController | crates/m4arch-service/src/lib.rs:34-41 | returns `Controller` of the current files |
| Service.GetBrightness | crates/m4arch-service/src/lib.rs:43-45 | the not-found error without reading, or the discovered driver's brightness read unchanged |
| Service.GetMaxBrightness | crates/m4arch-service/src/lib.rs:47-49 | the not-found error without reading, or the discovered driver's maximum read unchanged |
| Service.SetBrightness | crates/m4arch-service/src/lib.rs:51-53 | the not-found error with no file changed, or the discovered driver's write effect |
| Service.IncreaseBrightness | crates/m4arch-service/src/lib.rs:55-57 | the not-found error with no file changed, or the discovered driver's `IncreaseEffect` |
| Service.DecreaseBrightness | crates/m4arch-service/src/lib.rs:59-61 | the not-found error with no file changed, or the discovered driver's `DecreaseEffect` |
| Service.GetBrightnessInfo | crates/m4arch-service/src/lib.rs:63-65 | the not-found error, or the discovered driver's snapshot unchanged |
| Service.GetRgbColor | crates/m4arch-service/src/lib.rs:67-70 | the not-found error, or the driver's colour error unchanged, or `(r, g, b)` of the colour read, in that order |
| Service.SetRgbColor | crates/m4arch-service/src/lib.rs:72-74 | the not-found error with no file changed, or the effect of writing `Rgb { r, g, b }` through the discovered driver |

## Left out

- The GUI (`crates/m4arch-gui`) and the CLI (`crates/m4arch-cli`) are not part of this model. They are presentation code and thin callers of the facade.
- `fs::read_to_string`, `fs::write` and `Path::exists` are lookups, updates and membership in a map. Symbolic links, directories and attribute files whose contents the kernel computes are not modelled.
- A read fails only for a missing path. An existing but unreadable attribute, which the real system can report as `PermissionDenied`, is not modelled.
- A write fails when the path is not in a fixed writable set. That set stands in for file permissions; the real failure depends on the kernel and the process's privileges.
- The operating-system message texts of the I/O errors are taken to be Rust's `Display` texts for error codes 2 and 13. The source does not fix them.
- Another process can change the attribute files between two reads, which could tear a `brightness_info` snapshot. This model has one sequential process, so it does not capture that.
- The `systemd` and `udev` modules declared in `crates/m4arch-service/src/lib.rs` are not part of this model.
- `crates/m4arch-core/src/keyboard/mod.rs` only re-exports, and is not modelled.
- `Box<dyn KeyboardController>` dynamic dispatch is replaced by the `Drivers.Backend` datatype. It holds the three paths, which are all the two drivers differ in.
- `M4ArchError::PermissionDenied` is declared and displayed. Nothing in the core constructs it, and nothing in the model does either.
- The trait signatures `KeyboardBrightness` and `KeyboardRgb` are not separate declarations. Their operations are the `Drivers` and `Brightness` methods over a `Backend`.
- `Rgb` is `Copy`. The model's `Colors.Rgb` is an immutable value, so a call can never change its caller's colour; no lemma states this separately.
- `Drivers.ParseRgbReadsFirstThreeTokens` covers text that is words separated by whitespace runs and framed by whitespace. That is every text with at least one token. Text with no token at all is covered by the `ParseRgb` contract, since it has fewer than three tokens; no lemma lays it out separately.
