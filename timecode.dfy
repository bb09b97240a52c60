/** The timecode value of src/lib.rs: the three marker framerates with their
    separators, the validation errors and warnings, the validated `Timecode`
    with its accessors, and its `Display` form `HH:MM:SS<sep>FF`. */
module Timecodes {
  import opened Wrappers
  import opened Decimal
  import opened Parser

  /** The zero-sized marker types of `framerate_impl!`, with the static
      `to_str` and `to_sep` of the `Framerate` trait. */
  datatype Framerate = NDF30 | NDF2398 | DF2997 {
    function ToStr(): string {
      match this
      case NDF30 => "30"
      case NDF2398 => "23.98"
      case DF2997 => "29.97"
    }

    function ToSep(): (c: char)
      ensures c == ';' <==> this == DF2997
      ensures c == ':' <==> this != DF2997
    {
      match this
      case NDF30 => ':'
      case NDF2398 => ':'
      case DF2997 => ';'
    }

    /** The separator as the tokenizer records it. */
    function RecordedSeperator(): (sep: Seperator)
      ensures SepToChar(sep) == ToSep()
    {
      SepFromChar(ToSep()).value
    }
  }

  datatype TimecodeValidationError = InvalidMin | InvalidSec | InvalidFrames | Unparsed

  datatype TimecodeValidationWarning = MismatchSep

  /** A timecode of a given marker framerate: the type parameter `FR` of the
      source is the `framerate` field here. */
  datatype Timecode = Timecode(h: u8, m: u8, s: u8, f: u8, framerate: Framerate) {
    function H(): u8 { h }
    function M(): u8 { m }
    function S(): u8 { s }
    function F(): u8 { f }

    /** The record the tokenizer would read from this timecode's text. */
    function Fields(): UnvalidatedTC {
      UnvalidatedTC(h, m, s, f, framerate.RecordedSeperator())
    }

    /** The minimal widths `{:02}` writes each field with. */
    function DisplayWidths(): (w: Widths)
      ensures w.Valid() && w.Fits(Fields())
    {
      Widths(Width(h), Width(m), Width(s), Width(f))
    }

    /** `Display`: each field zero padded to two digits (three when above 99),
        the framerate's separator before the frames. */
    function ToString(): (r: string)
      ensures r == Layout(Fields(), DisplayWidths())
    {
      var r := ZeroPad2(h) + [':'] + ZeroPad2(m) + [':'] + ZeroPad2(s) + [framerate.ToSep()] + ZeroPad2(f);
      assert r == Layout(Fields(), DisplayWidths());
      r
    }
  }

  /** The width `{:02}` gives a `u8`. */
  function Width(v: u8): (w: nat)
    ensures 2 <= w <= 3 && v < Pow10(w)
    ensures ZeroPad2(v) == PadDec(v, w)
  {
    if v < 100 then 2 else 3
  }

  /** The text of a timecode is read back by the tokenizer as its fields with
      the framerate's separator, whatever separator it was parsed with. */
  lemma DisplayTokenizes(t: Timecode)
    ensures Unvalidated(t.ToString()) == Some(t.Fields())
  {
    UnvalidatedLayout(t.Fields(), t.DisplayWidths());
  }

  /** With every field below 100 the text is eleven characters: two digits per
      field that read back as the field, `:` after hours and minutes, and the
      framerate's separator before the frames. */
  lemma DisplayShape(t: Timecode)
    requires t.h < 100 && t.m < 100 && t.s < 100 && t.f < 100
    ensures var r := t.ToString();
      && |r| == 11 && r[2] == ':' && r[5] == ':' && r[8] == t.framerate.ToSep()
      && AllDigits(r[..2]) && DecValue(r[..2]) == t.h
      && AllDigits(r[3..5]) && DecValue(r[3..5]) == t.m
      && AllDigits(r[6..8]) && DecValue(r[6..8]) == t.s
      && AllDigits(r[9..]) && DecValue(r[9..]) == t.f
  {
    var r := t.ToString();
    assert r[..2] == ZeroPad2(t.h);
    assert r[3..5] == ZeroPad2(t.m);
    assert r[6..8] == ZeroPad2(t.s);
    assert r[9..] == ZeroPad2(t.f);
  }

  /** The text of a timecode whose fields are all below 100, character by
      character. */
  lemma DisplayTwoDigits(t: Timecode)
    requires t.h < 100 && t.m < 100 && t.s < 100 && t.f < 100
    ensures t.ToString() == [DigitChar(t.h / 10), DigitChar(t.h % 10), ':',
      DigitChar(t.m / 10), DigitChar(t.m % 10), ':', DigitChar(t.s / 10), DigitChar(t.s % 10),
      t.framerate.ToSep(), DigitChar(t.f / 10), DigitChar(t.f % 10)]
  {
    LayoutTwoDigits(t.Fields());
  }
}
