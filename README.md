# SMPTE timecode: tokenizer, validation, display and framerate descriptors

A Dafny model of the core of the `timecode` Rust crate: how a string
`HH:MM:SS<sep>FF` is tokenized into an unvalidated record, how that record is
validated against one of the marker framerates `NDF30`, `NDF2398` and `DF2997`
(minutes, then seconds, then the drop-frame window, then the frame bound, with
a separator mismatch reported only as a warning), how a validated `Timecode`
is displayed, how `FromStr` composes the two steps, and the framerate
descriptors of `src/framerates.rs` (compile-time `NDF<N>` / `DF<N>`, runtime
`DynFramerate`, and the conversions between them).

Modules, one per source file plus two helpers:

- `Wrappers` (wrappers.dfy): `Option` and `Result`.
- `Decimal` (decimal.dfy): decimal digit strings. `ParseUnsigned` is Rust's
  `from_str_radix(s, 10)` for an unsigned type, used for `u8` fields and the
  `u32` framerate string. `ZeroPad2` is the `{:02}` format.
- `Parser` (parser.dfy, `src/parser.rs`): each parser returns the rest of the
  input and a value, or fails. `Layout` is the reference grammar: a record
  written with 2 or 3 digits per field. The lemmas prove that `unvalidated`
  accepts exactly these layouts.
- `Timecodes` (timecode.dfy, `src/lib.rs`): the marker framerates of
  `framerate_impl!`, the error and warning enums, `Timecode` with its
  accessors and `Display` (`ToString`).
- `Validate` (validate.dfy, `src/validate.rs`): the checks as pure functions
  and `SmpteValid`, the rules stated on their own. The `WarningContainer`
  class models both container impls: `collects` is true for the `Vec` impl and
  false for `()`. `FramerateValidate` is the `&mut` threading method, and
  `ValidateTc` / `ValidateWithWarnings` are the two public entry points.
- `TimecodeFromStr` (fromstr.dfy, `src/lib.rs`): `FromStr for Timecode` and
  its round trips with `Display`.
- `Framerates` (framerates.dfy, `src/framerates.rs`): `ConstFramerate` with
  the `NDF`/`DF` variants, and `DynFramerate`, a subset type whose invariant
  is "drop frame implies a multiple of 30". Panicking constructors have
  preconditions.

The crate holds two generations of the framerate API. `src/lib.rs` uses
zero-sized markers with a static `to_sep`, and the validator uses those.
`src/framerates.rs` has a `&self`-based trait with aliases of the same names.
The model keeps them as two unrelated modules (`Timecodes.Framerate` and
`Framerates`). `NDF50` is modelled as written: it is an alias of `NDF<25>`.

Facts of the code that the model keeps:

- The frames field, like the others, is a `u8` (src/lib.rs:115-121,
  src/parser.rs:42-48).
- Every field is 2 or 3 digits and at most 255 (src/parser.rs:61-72,
  src/parser.rs:110-111).
- Validation exists only for the three markers, each with its frame bound
  written into the code: 30, 30 and 24 (src/validate.rs:109-174).
- The validator uses the marker framerates of src/lib.rs:109-113, not the
  descriptors of src/framerates.rs.

## Model

| member | source | states |
|---|---|---|
| `Parser.SepToChar` | src/parser.rs:18-25 | a separator becomes `;` or `:` |
| `Parser.SepFromChar` | src/parser.rs:27-37 | succeeds exactly for `;` and `:`, and gives back a separator whose char is the input |
| `Parser.SepRoundTrip` | src/parser.rs:18-37 | separator → char → separator is the identity |
| `Parser.FromDec` | src/parser.rs:61-64 | on a non-empty digit string it succeeds iff the decimal value is at most 255, and returns that value |
| `Parser.TakeDigits` | src/parser.rs:71 | on success it took between `lo` and `hi` digits, and those digits followed by the rest make up the input |
| `Parser.TcDigits` | src/parser.rs:66-72 | on success at least two characters were consumed |
| `Parser.CharP` | src/parser.rs:83-84 | succeeds iff the input starts with the char, and then consumes exactly that char |
| `Parser.TcSeperator` | src/parser.rs:74-79 | succeeds iff the input starts with `;` or `:`, and consumes it as the matching separator |
| `Parser.DigitsColon` | src/parser.rs:83-84 | the digits-and-colon pair consumes at least three characters |
| `Parser.DigitsSeperator` | src/parser.rs:85 | the digits-and-separator pair consumes at least three characters |
| `Parser.TimecodeNom` | src/parser.rs:81-102 | on success at least 11 characters were consumed |
| `Parser.Unvalidated` | src/parser.rs:154-165 | a success needs at least 11 characters |
| `Parser.FromStr` | src/parser.rs:50-59 | `Ok` iff `unvalidated` gives `Some`, with the same record |
| `Parser.TcDigitsOf` | src/parser.rs:66-72 | a field written in 2 or 3 digits reads back as its value, and fails exactly when the value is above 255 |
| `Parser.TcDigitsShape` | src/parser.rs:66-72 | what a successful field read consumed is the value in 2 or 3 digits, and after only two digits no digit follows (greedy) |
| `Parser.DigitsColonOf` | src/parser.rs:83-84 | digits then `:` read back as the value, or fail when it exceeds 255 |
| `Parser.DigitsSeperatorOf` | src/parser.rs:85 | digits then a separator read back as the value and that separator |
| `Parser.DigitsColonShape` | src/parser.rs:83-84 | a successful digits-and-colon read consumed the value's digits and a `:` |
| `Parser.DigitsSeperatorShape` | src/parser.rs:85 | a successful digits-and-separator read consumed the value's digits and that separator |
| `Parser.TimecodeNomLayout` | src/parser.rs:81-102 | every layout of every record, followed by any rest that does not extend a two-digit frame field, reads back as that record and that rest (no range checks) |
| `Parser.TimecodeNomShape` | src/parser.rs:81-102 | every accepted input is a layout of the returned record followed by the returned rest, and a two-digit frames field is never followed by a digit (greedy) |
| `Parser.UnvalidatedLayout` | src/parser.rs:104-165 | `unvalidated` accepts every layout of every record and returns that record |
| `Parser.UnvalidatedShape` | src/parser.rs:104-165 | whatever `unvalidated` accepts is a layout of the returned record: `:`, `:`, then the recorded separator, and 2–3 digits per field |
| `Parser.UnvalidatedIffNoRest` | src/parser.rs:154-165 | `unvalidated` is `Some` iff `timecode_nom` succeeds with empty rest, with the same record |
| `Parser.HoursOverflowFails` | src/parser.rs:61-72 | a three-digit hour above 255 fails the whole parse |
| `Parser.FramesOverflowFails` | src/parser.rs:66-87 | a three-digit frames field above 255 fails the whole parse, though its first two digits would make a field: no retry with fewer digits |
| `Parser.TrailingRejected` | src/parser.rs:154-165 | a complete timecode followed by text is read by `timecode_nom` and refused by `unvalidated` |
| `Parser.FirstSeparatorsAreColons` | src/parser.rs:81-87 | every accepted input starts with 2 or 3 digits, `:`, 2 or 3 digits, `:` (`LeadingColons`) |
| `Parser.ExamplesAccepted` | src/parser.rs:122-142 | `01:23:12:22` and `01:23:12;22` give (1, 23, 12, 22) with Colon and with Semicolon |
| `Parser.ExampleTrailing` | src/parser.rs:182-186 | `01:23:12;22 ok` parses with rest ` ok` but `unvalidated` gives None |
| `Parser.ExampleHoursTooBig` | src/parser.rs:177-180 | `911:00:00:00` fails |
| `Parser.ExampleMissingSeparator` | src/parser.rs:144-147 | `012312:22` gives None |
| `Parser.ExampleWrongSeparator` | src/parser.rs:188-191 | `123;23;23;00` fails |
| `Parser.ExampleNotATimecode` | src/parser.rs:149-152 | `Not a timecode` gives None |
| `Decimal.ParseUnsigned` | src/parser.rs:62-63 | succeeds iff the input is non-empty and, after skipping one leading `+` if there is one, is all digits with a value below the bound; the result is that value |
| `Decimal.ZeroPad2` | src/lib.rs:127 | `{:02}` gives digits that read back as the value, two of them below 100 and three otherwise |
| `Timecodes.Framerate.ToSep` | src/lib.rs:109-113 | the separator is `;` exactly for DF2997, and `:` for NDF30 and NDF2398 |
| `Timecodes.Framerate.ToStr` | src/lib.rs:110-112 | the names `30`, `23.98` and `29.97` given to `framerate_impl!` |
| `Timecodes.Framerate.RecordedSeperator` | src/lib.rs:109-113 | the tokenizer's separator whose char is the marker's `to_sep` |
| `Timecodes.Timecode.H` | src/lib.rs:139-141 | `h()`; `AccessorsAfterParse` proves it gives the parsed hours |
| `Timecodes.Timecode.M` | src/lib.rs:142-144 | `m()`; `AccessorsAfterParse` proves it gives the parsed minutes |
| `Timecodes.Timecode.S` | src/lib.rs:145-147 | `s()`; `AccessorsAfterParse` proves it gives the parsed seconds |
| `Timecodes.Timecode.F` | src/lib.rs:148-150 | `f()`; `AccessorsAfterParse` proves it gives the parsed frames |
| `Timecodes.Timecode.ToString` | src/lib.rs:123-136 | the text is the layout of the fields with the framerate's separator, each field in `{:02}` width |
| `Timecodes.DisplayTokenizes` | src/lib.rs:123-136 | the tokenizer reads the text back as the fields, with the framerate's separator |
| `Timecodes.DisplayShape` | src/lib.rs:123-136 | when all fields are below 100: 11 characters, `:` at 2 and 5, the framerate separator at 8, and each 2-digit group reads back as its field |
| `Timecodes.DisplayTwoDigits` | src/lib.rs:127-132 | the two-digit text, character by character |
| `Validate.WarningContainer.constructor` | src/validate.rs:44 | a new container is empty, keeps warnings iff it is the `Vec` kind, and satisfies `Valid` (the `()` kind holds nothing) |
| `Validate.WarningContainer.AddWarning` | src/validate.rs:13-21 | `Vec` appends exactly the warning at the end; `()` changes nothing, so `Valid` is kept |
| `Validate.MaxFrame` | src/validate.rs:123-168 | the frame bounds written into the three impls: 30 for NDF30 and DF2997, 24 for NDF2398; `FrameBound` and `ValidatedKeepsRules` use it |
| `Validate.HelperMs` | src/validate.rs:80-90 | passes iff minutes and seconds are below 60 |
| `Validate.HelperSep` | src/validate.rs:92-98 | warns iff the recorded separator's char differs from the framerate's |
| `Validate.HelperDropFrame` | src/validate.rs:100-107 | fails iff minute mod 10 ≠ 0, second 0 and frame < 2 |
| `Validate.Check` | src/validate.rs:109-174 | a marker's verdict is `Ok` iff the fields keep `SmpteValid`, the SMPTE rules stated on their own |
| `Validate.CheckWarnings` | src/validate.rs:118-121 | the only warning handed over is one MismatchSep, exactly when minutes and seconds pass and the separators differ |
| `Validate.FramerateValidate` | src/validate.rs:109-174 | returns `Check`'s verdict and appends exactly `CheckWarnings` to a collecting container; a discarding one stays unchanged |
| `Validate.Validated` | src/validate.rs:27-39 | `Ok` iff `SmpteValid`, then the timecode of exactly h, m, s, f at the framerate; otherwise the first failing check's error |
| `Validate.ValidateTc` | src/validate.rs:27-39 | `validate`, run through the discarding container, gives `Validated` |
| `Validate.ValidateWithWarnings` | src/validate.rs:41-59 | the same verdict and timecode as `validate`; on success the warnings are `[MismatchSep]` iff the separator differs, `[]` otherwise |
| `Validate.ValidateUnchecked` | src/validate.rs:61-77 | under the SMPTE rules (its safety condition) it copies h, m, s, f and agrees with `validate` |
| `Validate.CheckOrder` | src/validate.rs:80-90 | `m >= 60` gives InvalidMin whatever else is wrong, then `s >= 60` gives InvalidSec; any later failure is InvalidFrames; never Unparsed |
| `Validate.DropFrameWindow` | src/validate.rs:100-107 | at second 0 with frame < 2, only DF2997 refuses, and only when minute mod 10 ≠ 0 |
| `Validate.FrameBound` | src/validate.rs:123-170 | frames at or above 30 (24 for NDF2398) give InvalidFrames; below the bound and off second 0, valid minutes and seconds pass |
| `Validate.CheckIgnoresHoursAndSeperator` | src/validate.rs:114-121 | changing hours or separator never changes the verdict |
| `Validate.ValidatedKeepsRules` | src/validate.rs:27-39 | a validated timecode has m < 60, s < 60 and f below the framerate's bound |
| `TimecodeFromStr.FromStr` | src/lib.rs:153-161 | Unparsed iff `unvalidated` gives None; otherwise exactly `validate`'s result |
| `TimecodeFromStr.DisplayRoundTrip` | src/lib.rs:123-161 | every validated timecode parses back from its own text |
| `TimecodeFromStr.ParseDisplayParse` | src/lib.rs:123-161 | parsing a string, displaying it and parsing again gives the same timecode |
| `TimecodeFromStr.DisplayOfParsed` | src/lib.rs:10-17 | a parsed string is displayed back unchanged iff it uses the framerate's separator and `{:02}` widths |
| `TimecodeFromStr.AccessorsAfterParse` | src/lib.rs:138-151 | `h() m() s() f()` return the fields as written in the string |
| `TimecodeFromStr.QuickStartNdf30` | src/lib.rs:10-17 | NDF30 `01:02:00:25` is (1, 2, 0, 25) and displays unchanged |
| `TimecodeFromStr.QuickStartNdf2398` | src/lib.rs:37-39 | `01:02:00:25` is rejected for NDF2398 |
| `TimecodeFromStr.QuickStartDf2997` | src/lib.rs:41-45 | `01:02:00:25` is accepted for DF2997 |
| `TimecodeFromStr.QuickStartDisplayDf` | src/lib.rs:41-45 | that DF2997 timecode displays as `01:02:00;25` |
| `TimecodeFromStr.QuickStartDropWindow` | src/lib.rs:47-49 | `01:02:00;01` is rejected for DF2997 |
| `TimecodeFromStr.QuickStartWarning` | src/lib.rs:33-45 | `validate_with_warnings` of `01:02:00:25` gives no warnings at NDF30; at DF2997 the timecode displays as `01:02:00;25` and the warnings contain MismatchSep |
| `Framerates.IsValidDfCount` | src/framerates.rs:35-37 | a drop-frame count is a multiple of 30; `New`, `TryNewDf`, `NewDf` and `DF::new` rest on it |
| `Framerates.ConstFramerate.ToSep` | src/framerates.rs:65-94 | `;` iff `is_dropframe`, `:` otherwise |
| `Framerates.ConstFramerate.MaxFrame` | src/framerates.rs:70-98 | the const parameter `N`; `FromConstPreserves` carries it into the runtime copy |
| `Framerates.ConstFramerate.IsDropframe` | src/framerates.rs:11-13 | the trait default: `drop_frames` is Some; `SeparatorMarksDropFrame` proves that means `DF<N>` |
| `Framerates.ConstFramerate.DropFrames` | src/framerates.rs:74-102 | None for non-drop; for drop frame the integer quotient of N by 15 |
| `Framerates.ConstFramerate.FrNum` | src/framerates.rs:82-110 | the numerator fits a `u64` |
| `Framerates.ConstFramerate.FrDenom` | src/framerates.rs:86-114 | the denominator is positive |
| `Framerates.NewNdfConst` | src/framerates.rs:46-50 | `NDF::<N>::new()` is non-drop with bound N |
| `Framerates.NewDfConst` | src/framerates.rs:52-63 | `DF::<N>::new()` needs N mod 30 = 0 and is drop frame with bound N |
| `Framerates.RuntimeFramerate.ToSep` | src/framerates.rs:203-208 | `;` iff `is_dropframe`, `:` otherwise |
| `Framerates.RuntimeFramerate.MaxFrame` | src/framerates.rs:210-212 | the stored count; the constructors' ensures fix it to their argument |
| `Framerates.RuntimeFramerate.IsDropframe` | src/framerates.rs:11-13 | the trait default: `drop_frames` is Some; `SeparatorMarksDropFrame` proves that means `is_df` |
| `Framerates.RuntimeFramerate.DropFrames` | src/framerates.rs:214-219 | Some iff drop frame, then count / 15 |
| `Framerates.RuntimeFramerate.FrNum` | src/framerates.rs:225-231 | the numerator fits a `u64` |
| `Framerates.RuntimeFramerate.FrDenom` | src/framerates.rs:233-238 | the denominator is positive |
| `Framerates.New` | src/framerates.rs:167-173 | None iff drop frame with count mod 30 ≠ 0; otherwise exactly those fields |
| `Framerates.TryNewDf` | src/framerates.rs:175-179 | Some iff count mod 30 = 0, then drop frame with that bound |
| `Framerates.NewNdf` | src/framerates.rs:181-188 | always succeeds, equal to `new(count, false)` |
| `Framerates.NewDf` | src/framerates.rs:190-199 | needs count mod 30 = 0 (panics otherwise), then equal to `new(count, true)` |
| `Framerates.FromConst` | src/framerates.rs:117-124 | needs a valid count for `DF<N>` (the unwrap); keeps the bound and the drop-frame flag |
| `Framerates.DynEqConst` | src/framerates.rs:126-133 | `PartialEq`: the const descriptor converted to a runtime one equals the runtime one; `EqualityIsConversion` relates it to `try_into` |
| `Framerates.TryIntoNdf` | src/framerates.rs:135-145 | Ok iff not drop frame and count = N, with `NDF<N>` |
| `Framerates.TryIntoDf` | src/framerates.rs:147-157 | Ok iff drop frame and count = N, with `DF<N>` |
| `Framerates.FromStrInteger` | src/framerates.rs:244-248 | a string that is a `u32` in decimal gives a non-drop framerate of that count; anything else goes on to the float branches |
| `Framerates.DropFramesExact` | src/framerates.rs:214-219 | for drop frame, the dropped count × 15 equals the count, and it is even |
| `Framerates.DropFramesExamples` | src/framerates.rs:100-102 | 2 dropped frames at 30, 4 at 60, none for non-drop |
| `Framerates.ExactRate` | src/framerates.rs:221-238 | num/denom is exactly N, or N·1000/1001 for drop frame, for both kinds |
| `Framerates.SeparatorMarksDropFrame` | src/framerates.rs:4-14 | `is_dropframe` holds exactly for `DF<N>` and for `is_df`, and the separator is `;` for those and `:` otherwise |
| `Framerates.ShorthandsAgree` | src/framerates.rs:175-199 | `try_new_df`, `new_ndf` and `new_df` agree with `new` |
| `Framerates.BadDropFrameCount` | src/framerates.rs:339-349 | 23 is no valid drop-frame count: `try_new_df(23)` is None |
| `Framerates.FromConstPreserves` | src/framerates.rs:117-124 | the runtime copy has the same separator, bound, dropped frames, numerator and denominator |
| `Framerates.ConstDynConst` | src/framerates.rs:351-371 | const → dyn → const of the same kind gives the original at its own N and fails at any other N or kind |
| `Framerates.DynConstDyn` | src/framerates.rs:135-157 | every runtime framerate converts to the const type of its own kind and count, and converts back to itself |
| `Framerates.EqualityIsConversion` | src/framerates.rs:126-133 | dyn equals const iff converting the dyn into that const type succeeds |
| `Framerates.UpcastExamples` | src/framerates.rs:351-361 | `new_ndf(30)` converts to `NDF<30>`, not to `NDF<33>` |
| `Framerates.AliasesAsWritten` | src/framerates.rs:19-31 | the aliases are DF at 30 and 60 (dropping 2 and 4 frames), NDF at 30, 25 and 24 for 23.98; `NDF50` is `NDF<25>`, as written |
| `Framerates.FromStrDecimal` | src/framerates.rs:245-248 | every decimal spelling of a `u32` count, leading zeros allowed, parses to `new_ndf` of that count |
| `Framerates.FromStrPlusSign` | src/framerates.rs:245-248 | a decimal `u32` with one leading `+` also parses to `new_ndf` of that count |
| `Framerates.FromStrExamples` | src/framerates.rs:286-296 | `"25"` is `new_ndf(25)`; `"25.00"` is left to the float branches |

## Left out

- Frame-count arithmetic and conversion: `to_frame_count`, `from_frames`, `+ Frames`, `- Frames`, `convert`, `convert_with_start`, `convert_with_fr`, `convert_to_dyn`, `convert_with_start_dyn` and `new_with_fr`. The tests (tests/integration_handwritten.rs, tests/integration_reference.rs) and the language bindings (src/javascript.rs, src/python.rs, src/java.rs) call them. None of the crate files covered here defines them, so their implementation is not part of this model.
- Timecodes.Timecode: the datatype has no invariant, so the model can build a `Timecode` with any `u8` fields. In the crate the fields are private, and only `validate`, `validate_with_warnings` and `validate_unchecked` build one, each under the SMPTE rules. `Validate.ValidatedKeepsRules` and `Validate.ValidateUnchecked` state those rules for every timecode these three give.
- `FrameCount` is taken to be a `u32`; its definition in the crate root is not part of this model. The width only matters for the range of `DynFramerate` counts, for `FrNum` fitting a `u64`, and for the integer branch of `DynFramerate::from_str`.
- The floating-point branches of `DynFramerate::from_str` and `fr_ratio`: they are `f32`/`f64` heuristics with an epsilon.
- Framerates.FromStrInteger: covers only the integer branch; a string that is no `u32` yields `NotAnInteger` instead of the float branches' verdict.
- Error detail: nom's errors and `ParseIntError` kinds become a bare failure, because every caller only tests for failure.
- Panics (`DF::<N>::new`, `DynFramerate::new_df`, the `unwrap` in `From<&F>`) are preconditions, not modelled failures.
- `Timecode<FR>`'s type parameter is a value field, so the model can hold timecodes of different marker framerates side by side; the type system keeps them apart in the crate.
- `Framerate::to_str` of the markers is modelled (`ToStr`), but the crate states no property of it.
- Language bindings (src/python.rs, src/javascript.rs, src/java.rs), the serde adapters of src/json.rs (they only call `to_string` / `from_str`), and the file reading in the reference tests: glue and I/O.
