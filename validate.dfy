/** Validation of src/validate.rs: an unvalidated record against a marker
    framerate, checked in a fixed order (minutes, seconds, the drop-frame
    window, the frame bound), with a separator mismatch reported only as a
    warning into a container that either keeps or discards it. */
module Validate {
  import opened Wrappers
  import opened Parser
  import opened Timecodes

  /** `WarningContainer`: `collects` picks the implementation, `Vec` (true)
      or `()` (false). The `()` container holds nothing: `Valid` says its `items`
      stay empty, which the constructor establishes and `AddWarning` keeps. */
  class WarningContainer {
    const collects: bool
    var items: seq<TimecodeValidationWarning>

    /** The `()` container never holds anything. */
    ghost predicate Valid()
      reads this
    {
      !collects ==> items == []
    }

    constructor (collects: bool)
      ensures this.collects == collects && items == []
      ensures Valid()
    {
      this.collects := collects;
      items := [];
    }

    /** `add_warning`: `Vec::push`, or nothing at all for `()`. */
    method AddWarning(w: TimecodeValidationWarning)
      requires Valid()
      modifies this
      ensures items == if collects then old(items) + [w] else old(items)
      ensures Valid()
    {
      if collects {
        items := items + [w];
      }
    }
  }

  /** The frames field's exclusive bound for each marker framerate. */
  function MaxFrame(fr: Framerate): nat {
    match fr
    case NDF30 => 30
    case DF2997 => 30
    case NDF2398 => 24
  }

  /** The SMPTE rules a validated timecode keeps, stated on their own: minutes
      and seconds below 60, frames below the bound, and for drop frame no
      frame 0 or 1 at the start of a minute that is not a multiple of ten.
      Hours are not constrained. */
  predicate SmpteValid(fr: Framerate, m: int, s: int, f: int) {
    && m < 60 && s < 60 && f < MaxFrame(fr)
    && (fr == DF2997 ==> !(m % 10 != 0 && s == 0 && f < 2))
  }

  /** `helper_v_ms`: minutes first, then seconds. */
  function HelperMs(m: u8, s: u8): (r: Result<(), TimecodeValidationError>)
    ensures r.Ok? <==> m < 60 && s < 60
  {
    if m >= 60 then Err(InvalidMin)
    else if s >= 60 then Err(InvalidSec)
    else Ok(())
  }

  /** `helper_v_sep`: a mismatch between the framerate's separator and the
      recorded one. */
  function HelperSep(fr: Framerate, seperator: Seperator): (r: Result<(), TimecodeValidationWarning>)
    ensures r.Err? <==> SepToChar(seperator) != fr.ToSep()
  {
    if fr.ToSep() != SepToChar(seperator) then Err(MismatchSep) else Ok(())
  }

  /** `helper_v_drop_frame`: the dropped frame numbers 0 and 1, whatever the
      framerate. */
  function HelperDropFrame(m: u8, s: u8, f: u8): (r: Result<(), TimecodeValidationError>)
    ensures r.Err? <==> m % 10 != 0 && s == 0 && f < 2
  {
    if m % 10 != 0 && s == 0 && f < 2 then Err(InvalidFrames) else Ok(())
  }

  /** The verdict of `FramerateValidation::validate` for each marker. */
  function Check(fr: Framerate, tc: UnvalidatedTC): (r: Result<(), TimecodeValidationError>)
    ensures r.Ok? <==> SmpteValid(fr, tc.m, tc.s, tc.f)
  {
    var _ :- HelperMs(tc.m, tc.s);
    match fr
    case NDF30 => if tc.f >= 30 then Err(InvalidFrames) else Ok(())
    case DF2997 =>
      var _ :- HelperDropFrame(tc.m, tc.s, tc.f);
      if tc.f >= 30 then Err(InvalidFrames) else Ok(())
    case NDF2398 => if tc.f >= 24 then Err(InvalidFrames) else Ok(())
  }

  /** The warnings `FramerateValidation::validate` hands its container: the
      separator mismatch, once minutes and seconds have passed. */
  function CheckWarnings(fr: Framerate, tc: UnvalidatedTC): (r: seq<TimecodeValidationWarning>)
    ensures r == [] || r == [MismatchSep]
    ensures r == [MismatchSep] <==> tc.m < 60 && tc.s < 60 && SepToChar(tc.seperator) != fr.ToSep()
  {
    if HelperMs(tc.m, tc.s).Err? then []
    else match HelperSep(fr, tc.seperator)
      case Err(w) => [w]
      case Ok(_) => []
  }

  /** `FramerateValidation::validate` for the three markers, with the
      container threaded through by reference. */
  method FramerateValidate(fr: Framerate, tc: UnvalidatedTC, warnings: WarningContainer)
    returns (r: Result<(), TimecodeValidationError>)
    requires warnings.Valid()
    modifies warnings
    ensures r == Check(fr, tc)
    ensures warnings.Valid()
    ensures warnings.items == old(warnings.items) + if warnings.collects then CheckWarnings(fr, tc) else []
  {
    r := HelperMs(tc.m, tc.s);
    if r.Err? {
      return;
    }
    var sep := HelperSep(fr, tc.seperator);
    if sep.Err? {
      warnings.AddWarning(sep.error);
    }
    match fr {
      case NDF30 =>
        if tc.f >= 30 {
          return Err(InvalidFrames);
        }
      case DF2997 =>
        r := HelperDropFrame(tc.m, tc.s, tc.f);
        if r.Err? {
          return;
        }
        if tc.f >= 30 {
          return Err(InvalidFrames);
        }
      case NDF2398 =>
        if tc.f >= 24 {
          return Err(InvalidFrames);
        }
    }
    r := Ok(());
  }

  /** What `validate` returns: the fields h, m, s, f copied into a timecode of
      the framerate, or the first error. */
  function Validated(fr: Framerate, tc: UnvalidatedTC): (r: Result<Timecode, TimecodeValidationError>)
    ensures r.Ok? <==> SmpteValid(fr, tc.m, tc.s, tc.f)
    ensures r.Ok? ==> r.value == Timecode(tc.h, tc.m, tc.s, tc.f, fr)
    ensures r.Err? ==> r.error == Check(fr, tc).error
  {
    match Check(fr, tc)
    case Ok(_) => Ok(Timecode(tc.h, tc.m, tc.s, tc.f, fr))
    case Err(e) => Err(e)
  }

  /** `UnvalidatedTC::validate`: validation with the discarding container. */
  method ValidateTc(tc: UnvalidatedTC, fr: Framerate) returns (r: Result<Timecode, TimecodeValidationError>)
    ensures r == Validated(fr, tc)
  {
    var discard := new WarningContainer(false);
    var checked := FramerateValidate(fr, tc, discard);
    match checked {
      case Ok(_) => r := Ok(Timecode(tc.h, tc.m, tc.s, tc.f, fr));
      case Err(e) => r := Err(e);
    }
  }

  /** `UnvalidatedTC::validate_with_warnings`: the same verdict as `validate`,
      and on success the collected warnings, which are `[MismatchSep]` exactly
      when the separator differs from the framerate's. */
  method ValidateWithWarnings(tc: UnvalidatedTC, fr: Framerate)
    returns (r: Result<(Timecode, seq<TimecodeValidationWarning>), TimecodeValidationError>)
    ensures r.Ok? <==> Validated(fr, tc).Ok?
    ensures r.Ok? ==> r.value.0 == Validated(fr, tc).value
    ensures r.Ok? ==> (r.value.1 == [MismatchSep] <==> SepToChar(tc.seperator) != fr.ToSep())
    ensures r.Ok? ==> (r.value.1 == [] <==> SepToChar(tc.seperator) == fr.ToSep())
    ensures r.Err? ==> r.error == Validated(fr, tc).error
  {
    var warnings := new WarningContainer(true);
    var checked := FramerateValidate(fr, tc, warnings);
    match checked {
      case Ok(_) => r := Ok((Timecode(tc.h, tc.m, tc.s, tc.f, fr), warnings.items));
      case Err(e) => r := Err(e);
    }
  }

  /** `validate_unchecked`: no check at all. Its safety condition, that the
      record keeps the SMPTE rules, is the precondition; under it the result
      is the one `validate` gives. */
  function ValidateUnchecked(tc: UnvalidatedTC, fr: Framerate): (t: Timecode)
    requires SmpteValid(fr, tc.m, tc.s, tc.f)
    ensures Validated(fr, tc) == Ok(t)
    ensures t.h == tc.h && t.m == tc.m && t.s == tc.s && t.f == tc.f && t.framerate == fr
  {
    Timecode(tc.h, tc.m, tc.s, tc.f, fr)
  }

  // ---------------------------------------------------------------------
  // Properties of the checks

  /** First failure wins: minutes out of range give `InvalidMin` whatever
      else is wrong, then seconds give `InvalidSec`, both before any frame
      check; every later failure is `InvalidFrames`. */
  lemma CheckOrder(fr: Framerate, tc: UnvalidatedTC)
    ensures tc.m >= 60 ==> Check(fr, tc) == Err(InvalidMin)
    ensures tc.m < 60 && tc.s >= 60 ==> Check(fr, tc) == Err(InvalidSec)
    ensures tc.m < 60 && tc.s < 60 && Check(fr, tc).Err? ==> Check(fr, tc) == Err(InvalidFrames)
    ensures Check(fr, tc) != Err(Unparsed)
  {
  }

  /** The drop-frame window: at second 0 of a minute that is not a multiple of
      ten, frames 0 and 1 are refused for DF2997 and only for it. */
  lemma DropFrameWindow(fr: Framerate, tc: UnvalidatedTC)
    requires tc.m < 60 && tc.s == 0 && tc.f < 2
    ensures Check(fr, tc).Err? <==> fr == DF2997 && tc.m % 10 != 0
    ensures Check(fr, tc).Err? ==> Check(fr, tc) == Err(InvalidFrames)
  {
  }

  /** The frame bound: 30 for NDF30 and DF2997, 24 for NDF2398. */
  lemma FrameBound(fr: Framerate, tc: UnvalidatedTC)
    requires tc.m < 60 && tc.s < 60
    ensures tc.f >= (if fr == NDF2398 then 24 else 30) ==> Check(fr, tc) == Err(InvalidFrames)
    ensures tc.f < (if fr == NDF2398 then 24 else 30) && tc.s != 0 ==> Check(fr, tc) == Ok(())
  {
  }

  /** Neither the hours nor the separator ever decide the verdict. */
  lemma CheckIgnoresHoursAndSeperator(fr: Framerate, tc: UnvalidatedTC, h: u8, sep: Seperator)
    ensures Check(fr, tc.(h := h, seperator := sep)) == Check(fr, tc)
    ensures Validated(fr, tc.(h := h, seperator := sep)).Ok? == Validated(fr, tc).Ok?
  {
  }

  /** Every validated timecode honours the SMPTE rules. */
  lemma ValidatedKeepsRules(fr: Framerate, tc: UnvalidatedTC)
    requires Validated(fr, tc).Ok?
    ensures var t := Validated(fr, tc).value;
      t.m < 60 && t.s < 60 && t.f < MaxFrame(fr) && t.framerate == fr
  {
  }
}
