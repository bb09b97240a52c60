/** `FromStr for Timecode` of src/lib.rs, tokenizer then validator, and how it
    relates to `Display`. */
module TimecodeFromStr {
  import opened Wrappers
  import opened Parser
  import opened Timecodes
  import opened Validate

  /** `Timecode::from_str`: `Unparsed` when the tokenizer refuses, otherwise the
      validator's verdict. */
  function FromStr(fr: Framerate, s: string): (r: Result<Timecode, TimecodeValidationError>)
    ensures r == Err(Unparsed) <==> Unvalidated(s).None?
    ensures Unvalidated(s).Some? ==> r == Validated(fr, Unvalidated(s).value)
  {
    var tc :- match Unvalidated(s) case Some(t) => Ok(t) case None => Err(Unparsed);
    Validated(fr, tc)
  }

  /** Every timecode the validator gives is read back from its own text. */
  lemma DisplayRoundTrip(fr: Framerate, tc: UnvalidatedTC)
    requires Validated(fr, tc).Ok?
    ensures FromStr(fr, Validated(fr, tc).value.ToString()) == Validated(fr, tc)
  {
    var t := Validated(fr, tc).value;
    DisplayTokenizes(t);
    CheckIgnoresHoursAndSeperator(fr, tc, tc.h, fr.RecordedSeperator());
  }

  /** Parsing is idempotent through `Display`: what a string parses to is
      parsed again, unchanged, from its displayed form. */
  lemma ParseDisplayParse(fr: Framerate, s: string)
    requires FromStr(fr, s).Ok?
    ensures FromStr(fr, FromStr(fr, s).value.ToString()) == FromStr(fr, s)
  {
    DisplayRoundTrip(fr, Unvalidated(s).value);
  }

  /** A string that parses is displayed back unchanged exactly when it is
      canonical: every field in its `{:02}` width and the framerate's own
      separator. */
  lemma DisplayOfParsed(fr: Framerate, s: string)
    requires FromStr(fr, s).Ok?
    ensures var u := Unvalidated(s).value;
      FromStr(fr, s).value.ToString() == s
      <==> u.seperator == fr.RecordedSeperator() && s == Layout(u, FromStr(fr, s).value.DisplayWidths())
  {
    var u := Unvalidated(s).value;
    var t := FromStr(fr, s).value;
    assert t.Fields() == u.(seperator := fr.RecordedSeperator());
    if t.ToString() == s {
      DisplayTokenizes(t);
    }
  }

  /** The accessors give the fields as written in the string. */
  lemma AccessorsAfterParse(fr: Framerate, s: string)
    requires FromStr(fr, s).Ok?
    ensures var t := FromStr(fr, s).value; var u := Unvalidated(s).value;
      t.H() == u.h && t.M() == u.m && t.S() == u.s && t.F() == u.f && t.framerate == fr
  {
  }

  /** The documented quick-start example at NDF30. */
  lemma QuickStartNdf30()
    ensures FromStr(NDF30, "01:02:00:25") == Ok(Timecode(1, 2, 0, 25, NDF30))
    ensures Timecode(1, 2, 0, 25, NDF30).ToString() == "01:02:00:25"
  {
    var t := Timecode(1, 2, 0, 25, NDF30);
    DisplayTwoDigits(t);
    assert t.ToString() == "01:02:00:25";
    DisplayTokenizes(t);
    assert t.Fields() == UnvalidatedTC(1, 2, 0, 25, Colon);
  }

  /** `01:02:00:25` is no NDF2398 timecode: its frames reach 24. */
  lemma QuickStartNdf2398()
    ensures FromStr(NDF2398, "01:02:00:25") == Err(InvalidFrames)
  {
    QuickStartNdf30();
  }

  /** At DF2997 `01:02:00:25` is valid. */
  lemma QuickStartDf2997()
    ensures FromStr(DF2997, "01:02:00:25") == Ok(Timecode(1, 2, 0, 25, DF2997))
  {
    QuickStartNdf30();
  }

  /** ... and displayed with `;`. */
  lemma QuickStartDisplayDf()
    ensures Timecode(1, 2, 0, 25, DF2997).ToString() == "01:02:00;25"
  {
    var t := Timecode(1, 2, 0, 25, DF2997);
    DisplayTwoDigits(t);
  }

  /** `01:02:00;01` lies in the drop-frame window. */
  lemma QuickStartDropWindow()
    ensures FromStr(DF2997, "01:02:00;01") == Err(InvalidFrames)
  {
    var t := Timecode(1, 2, 0, 1, DF2997);
    DisplayTwoDigits(t);
    assert t.ToString() == "01:02:00;01";
    DisplayTokenizes(t);
    assert t.Fields() == UnvalidatedTC(1, 2, 0, 1, Semicolon);
  }

  /** The `validate_with_warnings` part of the quick start: `01:02:00:25` has
      no warning at NDF30; at DF2997 it is displayed as `01:02:00;25` and
      warns about its `:`. */
  method QuickStartWarning() returns (ndfWarnings: seq<TimecodeValidationWarning>,
      dfText: string, dfWarnings: seq<TimecodeValidationWarning>)
    ensures ndfWarnings == []
    ensures dfText == "01:02:00;25" && MismatchSep in dfWarnings
  {
    var u := UnvalidatedTC(1, 2, 0, 25, Colon);
    var q := ValidateWithWarnings(u, NDF30);
    ndfWarnings := q.value.1;
    var r := ValidateWithWarnings(u, DF2997);
    QuickStartDisplayDf();
    dfText := r.value.0.ToString();
    dfWarnings := r.value.1;
  }
}
