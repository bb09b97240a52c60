/** The timecode tokenizer of src/parser.rs: `HH:MM:SS<sep>FF` into an
    unvalidated record. Each parser takes the input and gives back, on success,
    the remaining input and the value read (nom's `IResult`); failure carries no
    detail, since every caller only tests for it. */
module Parser {
  import opened Wrappers
  import opened Decimal

  type u8 = x: int | 0 <= x < 256

  datatype Seperator = Semicolon | Colon

  /** Result of a parser: the rest of the input and the value, or a failure. */
  type IResult<T> = Option<(string, T)>

  /** The record produced by the tokenizer: fields as written, no range checks. */
  datatype UnvalidatedTC = UnvalidatedTC(h: u8, m: u8, s: u8, f: u8, seperator: Seperator)

  /** `Into<char> for Seperator`. */
  function SepToChar(sep: Seperator): (c: char)
    ensures c == ';' || c == ':'
  {
    match sep
    case Semicolon => ';'
    case Colon => ':'
  }

  /** `TryFrom<char> for Seperator`. */
  function SepFromChar(c: char): (r: Result<Seperator, ()>)
    ensures r.Ok? <==> c == ';' || c == ':'
    ensures r.Ok? ==> SepToChar(r.value) == c
  {
    match c
    case ';' => Ok(Semicolon)
    case ':' => Ok(Colon)
    case _ => Err(())
  }

  lemma SepRoundTrip(sep: Seperator)
    ensures SepFromChar(SepToChar(sep)) == Ok(sep)
  {
  }

  /** `from_dec`: `u8::from_str_radix(input, 10)`. On the non-empty digit
      runs `tc_digits` hands it, it fails exactly on a value above 255. */
  function FromDec(input: string): (r: Option<u8>)
    ensures |input| > 0 && AllDigits(input) ==> (r.Some? <==> DecValue(input) < 256)
    ensures |input| > 0 && AllDigits(input) && r.Some? ==> r.value == DecValue(input)
  {
    match ParseUnsigned(input, 256)
    case Some(v) => Some(v)
    case None => None
  }

  /** The number of leading ASCII digits of `input`, but at most `n`. */
  function DigitRun(input: string, n: nat): (k: nat)
    ensures k <= n && k <= |input|
    ensures AllDigits(input[..k])
    ensures k < n && k < |input| ==> !IsDigit(input[k])
  {
    if n == 0 || |input| == 0 || !IsDigit(input[0]) then 0
    else
      var k := 1 + DigitRun(input[1..], n - 1);
      assert input[..k] == [input[0]] + input[1..][..k - 1];
      k
  }

  /** `take_while_m_n(lo, hi, is_digit)`: greedily the longest run of at most
      `hi` digits, failing when it is shorter than `lo`. */
  function TakeDigits(lo: nat, hi: nat, input: string): (r: IResult<string>)
    ensures r.Some? ==> lo <= |r.value.1| <= hi && AllDigits(r.value.1) && input == r.value.1 + r.value.0
  {
    var k := DigitRun(input, hi);
    if k < lo then None
    else
      assert input == input[..k] + input[k..];
      Some((input[k..], input[..k]))
  }

  /** `tc_digits`: two or three digits read as a `u8`. */
  function TcDigits(input: string): (r: IResult<u8>)
    ensures r.Some? ==> |r.value.0| + 2 <= |input|
  {
    var digits :- TakeDigits(2, 3, input);
    var v :- FromDec(digits.1);
    Some((digits.0, v))
  }

  /** nom's `char(c)`. */
  function CharP(c: char, input: string): (r: IResult<char>)
    ensures r.Some? <==> |input| > 0 && input[0] == c
    ensures r.Some? ==> r.value == (input[1..], c)
  {
    if |input| > 0 && input[0] == c then Some((input[1..], c)) else None
  }

  /** `tc_seperator`: one `;` or `:`, converted with the `unwrap` that the
      accepted characters make safe. */
  function TcSeperator(input: string): (r: IResult<Seperator>)
    ensures r.Some? <==> |input| > 0 && (input[0] == ';' || input[0] == ':')
    ensures r.Some? ==> r.value.0 == input[1..] && SepToChar(r.value.1) == input[0]
  {
    if |input| > 0 && (input[0] == ';' || input[0] == ':') then
      Some((input[1..], SepFromChar(input[0]).value))
    else None
  }

  /** `pair(tc_digits, char(':'))`, keeping the digits. */
  function DigitsColon(input: string): (r: IResult<u8>)
    ensures r.Some? ==> |r.value.0| + 3 <= |input|
  {
    var d :- TcDigits(input);
    var c :- CharP(':', d.0);
    Some((c.0, d.1))
  }

  /** `pair(tc_digits, tc_seperator)`. */
  function DigitsSeperator(input: string): (r: IResult<(u8, Seperator)>)
    ensures r.Some? ==> |r.value.0| + 3 <= |input|
  {
    var d :- TcDigits(input);
    var sep :- TcSeperator(d.0);
    Some((sep.0, (d.1, sep.1)))
  }

  /** `timecode_nom`: digits `:` digits `:` digits separator digits; whatever
      follows is returned unread. */
  function TimecodeNom(input: string): (r: IResult<UnvalidatedTC>)
    ensures r.Some? ==> |r.value.0| + 11 <= |input|
  {
    var h :- DigitsColon(input);
    var m :- DigitsColon(h.0);
    var s :- DigitsSeperator(m.0);
    var f :- TcDigits(s.0);
    Some((f.0, UnvalidatedTC(h.1, m.1, s.1.0, f.1, s.1.1)))
  }

  /** `unvalidated`: `timecode_nom` with nothing left over. */
  function Unvalidated(input: string): (r: Option<UnvalidatedTC>)
    ensures r.Some? ==> |input| >= 11
  {
    match TimecodeNom(input)
    case Some((rest, v)) => if rest == [] then Some(v) else None
    case None => None
  }

  /** `FromStr for UnvalidatedTC`. */
  function FromStr(s: string): (r: Result<UnvalidatedTC, ()>)
    ensures r.Ok? <==> Unvalidated(s).Some?
    ensures r.Ok? ==> r.value == Unvalidated(s).value
  {
    match Unvalidated(s)
    case Some(t) => Ok(t)
    case None => Err(())
  }

  // ---------------------------------------------------------------------
  // The grammar as a reference definition: the exact strings the tokenizer
  // accepts are the layouts below, with each field written in two or three
  // digits.

  /** How many digits each field is written with. */
  datatype Widths = Widths(h: nat, m: nat, s: nat, f: nat) {
    predicate Valid() {
      2 <= h <= 3 && 2 <= m <= 3 && 2 <= s <= 3 && 2 <= f <= 3
    }

    /** Every field's value has at most as many digits as its width. */
    predicate Fits(u: UnvalidatedTC) {
      u.h < Pow10(h) && u.m < Pow10(m) && u.s < Pow10(s) && u.f < Pow10(f)
    }
  }

  /** `u` written out with the given widths: `HH:MM:SS<sep>FF`. */
  function Layout(u: UnvalidatedTC, w: Widths): string {
    PadDec(u.h, w.h) + ([':'] + (PadDec(u.m, w.m) + ([':'] + (PadDec(u.s, w.s)
      + ([SepToChar(u.seperator)] + PadDec(u.f, w.f))))))
  }

  /** A layout followed by more input, re-associated to the right. */
  lemma LayoutThen(u: UnvalidatedTC, w: Widths, rest: string)
    ensures Layout(u, w) + rest == PadDec(u.h, w.h) + ([':'] + (PadDec(u.m, w.m) + ([':']
      + (PadDec(u.s, w.s) + ([SepToChar(u.seperator)] + (PadDec(u.f, w.f) + rest))))))
  {
  }

  /** The two-digit layout, character by character. */
  lemma LayoutTwoDigits(u: UnvalidatedTC)
    requires u.h < 100 && u.m < 100 && u.s < 100 && u.f < 100
    ensures Layout(u, Widths(2, 2, 2, 2)) == [DigitChar(u.h / 10), DigitChar(u.h % 10), ':',
      DigitChar(u.m / 10), DigitChar(u.m % 10), ':', DigitChar(u.s / 10), DigitChar(u.s % 10),
      SepToChar(u.seperator), DigitChar(u.f / 10), DigitChar(u.f % 10)]
  {
    PadDecTwo(u.h);
    PadDecTwo(u.m);
    PadDecTwo(u.s);
    PadDecTwo(u.f);
  }

  /** `DigitRun` stops right after a run of digits that ends before the limit. */
  lemma {:induction false} DigitRunOf(d: string, rest: string, n: nat)
    requires AllDigits(d) && |d| <= n
    requires |d| < n && |rest| > 0 ==> !IsDigit(rest[0])
    ensures DigitRun(d + rest, n) == |d|
  {
    if |d| > 0 {
      assert (d + rest)[1..] == d[1..] + rest;
      DigitRunOf(d[1..], rest, n - 1);
    }
  }

  /** `tc_digits` on a field written with `w` digits: the value back, or a
      failure exactly when the value does not fit in a `u8`. */
  lemma TcDigitsOf(v: nat, w: nat, rest: string)
    requires 2 <= w <= 3 && v < Pow10(w)
    requires w == 2 && |rest| > 0 ==> !IsDigit(rest[0])
    ensures TcDigits(PadDec(v, w) + rest) == if v < 256 then Some((rest, v)) else None
  {
    var input := PadDec(v, w) + rest;
    DigitRunOf(PadDec(v, w), rest, 3);
    assert input[..w] == PadDec(v, w);
    assert input[w..] == rest;
    ParseUnsignedPadDec(v, w, 256);
  }

  /** What a successful `tc_digits` consumed: the value written in two or three
      digits, and when only two, no third digit follows. */
  lemma TcDigitsShape(input: string) returns (w: nat)
    requires TcDigits(input).Some?
    ensures 2 <= w <= 3 && TcDigits(input).value.1 < Pow10(w)
    ensures input == PadDec(TcDigits(input).value.1, w) + TcDigits(input).value.0
    ensures var rest := TcDigits(input).value.0;
      w == 2 && |rest| > 0 ==> !IsDigit(rest[0])
  {
    var k := DigitRun(input, 3);
    var digits := input[..k];
    w := k;
    PadDecValue(digits);
    DecValueBound(digits);
    assert ParseUnsigned(digits, 256).value == DecValue(digits);
    assert input == digits + input[k..];
  }

  lemma DigitsColonOf(v: nat, w: nat, rest: string)
    requires 2 <= w <= 3 && v < Pow10(w)
    ensures DigitsColon(PadDec(v, w) + ([':'] + rest)) == if v < 256 then Some((rest, v)) else None
  {
    TcDigitsOf(v, w, [':'] + rest);
    assert ([':'] + rest)[1..] == rest;
  }

  lemma DigitsSeperatorOf(v: nat, w: nat, sep: Seperator, rest: string)
    requires 2 <= w <= 3 && v < Pow10(w)
    ensures DigitsSeperator(PadDec(v, w) + ([SepToChar(sep)] + rest))
      == if v < 256 then Some((rest, (v, sep))) else None
  {
    TcDigitsOf(v, w, [SepToChar(sep)] + rest);
    assert ([SepToChar(sep)] + rest)[1..] == rest;
  }

  /** Every layout of every record is read back as that record: in particular
      no range is checked (minutes 99 are returned as they are). */
  lemma TimecodeNomLayout(u: UnvalidatedTC, w: Widths, rest: string)
    requires w.Valid() && w.Fits(u)
    requires w.f == 2 && |rest| > 0 ==> !IsDigit(rest[0])
    ensures TimecodeNom(Layout(u, w) + rest) == Some((rest, u))
  {
    var r3 := PadDec(u.f, w.f) + rest;
    var r2 := PadDec(u.s, w.s) + ([SepToChar(u.seperator)] + r3);
    var r1 := PadDec(u.m, w.m) + ([':'] + r2);
    LayoutThen(u, w, rest);
    DigitsColonOf(u.h, w.h, r1);
    DigitsColonOf(u.m, w.m, r2);
    DigitsSeperatorOf(u.s, w.s, u.seperator, r3);
    TcDigitsOf(u.f, w.f, rest);
  }

  lemma UnvalidatedLayout(u: UnvalidatedTC, w: Widths)
    requires w.Valid() && w.Fits(u)
    ensures Unvalidated(Layout(u, w)) == Some(u)
  {
    TimecodeNomLayout(u, w, []);
    assert Layout(u, w) + [] == Layout(u, w);
  }

  lemma DigitsColonShape(input: string) returns (w: nat)
    requires DigitsColon(input).Some?
    ensures 2 <= w <= 3 && DigitsColon(input).value.1 < Pow10(w)
    ensures input == PadDec(DigitsColon(input).value.1, w) + ([':'] + DigitsColon(input).value.0)
  {
    w := TcDigitsShape(input);
    var d := TcDigits(input).value;
    assert d.0 == [':'] + d.0[1..];
  }

  lemma DigitsSeperatorShape(input: string) returns (w: nat)
    requires DigitsSeperator(input).Some?
    ensures var r := DigitsSeperator(input).value;
      2 <= w <= 3 && r.1.0 < Pow10(w) && input == PadDec(r.1.0, w) + ([SepToChar(r.1.1)] + r.0)
  {
    w := TcDigitsShape(input);
    var d := TcDigits(input).value;
    assert d.0 == [d.0[0]] + d.0[1..];
  }

  /** Everything `timecode_nom` accepts is a layout of the record it returns,
      followed by the unread rest: so the first two separators are `:`, the
      third is the recorded one, and each field is its value in 2 or 3 digits. */
  lemma TimecodeNomShape(input: string) returns (w: Widths)
    requires TimecodeNom(input).Some?
    ensures w.Valid() && w.Fits(TimecodeNom(input).value.1)
    ensures input == Layout(TimecodeNom(input).value.1, w) + TimecodeNom(input).value.0
    ensures var rest := TimecodeNom(input).value.0; w.f == 2 && |rest| > 0 ==> !IsDigit(rest[0])
  {
    var h := DigitsColon(input).value;
    var wh := DigitsColonShape(input);
    var m := DigitsColon(h.0).value;
    var wm := DigitsColonShape(h.0);
    var s := DigitsSeperator(m.0).value;
    var ws := DigitsSeperatorShape(m.0);
    var f := TcDigits(s.0).value;
    var wf := TcDigitsShape(s.0);
    var u := UnvalidatedTC(h.1, m.1, s.1.0, f.1, s.1.1);
    assert TimecodeNom(input).value == (f.0, u);
    w := Widths(wh, wm, ws, wf);
    LayoutThen(u, w, f.0);
  }

  /** `unvalidated` accepts exactly the layouts: together with
      `UnvalidatedLayout` this characterises the accepted language. */
  lemma UnvalidatedShape(input: string)
    requires Unvalidated(input).Some?
    ensures exists w: Widths ::
      w.Valid() && w.Fits(Unvalidated(input).value) && input == Layout(Unvalidated(input).value, w)
  {
    var w := TimecodeNomShape(input);
    assert input == Layout(Unvalidated(input).value, w) + [];
  }

  /** `unvalidated` succeeds exactly when `timecode_nom` succeeds and leaves
      nothing unread; trailing input is never accepted. */
  lemma UnvalidatedIffNoRest(input: string)
    ensures Unvalidated(input).Some? <==> TimecodeNom(input).Some? && TimecodeNom(input).value.0 == []
    ensures Unvalidated(input).Some? ==> Unvalidated(input).value == TimecodeNom(input).value.1
  {
  }

  /** An hours field of three digits above 255 makes the whole parse fail. */
  lemma HoursOverflowFails(v: nat, rest: string)
    requires 256 <= v < 1000
    ensures TimecodeNom(PadDec(v, 3) + rest) == None
  {
    TcDigitsOf(v, 3, rest);
  }

  /** A frames field of three digits above 255 makes the whole parse fail,
      though its first two digits alone would have been a field: nom does not
      retry with fewer digits. */
  lemma FramesOverflowFails(u: UnvalidatedTC, w: Widths, v: nat, rest: string)
    requires w.Valid() && w.Fits(u) && 256 <= v < 1000
    ensures TimecodeNom(PadDec(u.h, w.h) + ([':'] + (PadDec(u.m, w.m) + ([':']
      + (PadDec(u.s, w.s) + ([SepToChar(u.seperator)] + (PadDec(v, 3) + rest))))))) == None
  {
    var tail := PadDec(u.s, w.s) + ([SepToChar(u.seperator)] + (PadDec(v, 3) + rest));
    DigitsColonOf(u.h, w.h, PadDec(u.m, w.m) + ([':'] + tail));
    DigitsColonOf(u.m, w.m, tail);
    DigitsSeperatorOf(u.s, w.s, u.seperator, PadDec(v, 3) + rest);
    TcDigitsOf(v, 3, rest);
  }

  /** Trailing text after a complete timecode: `timecode_nom` reads the
      timecode and returns the text, `unvalidated` refuses. */
  lemma TrailingRejected(u: UnvalidatedTC, w: Widths, rest: string)
    requires w.Valid() && w.Fits(u) && rest != []
    requires w.f == 2 ==> !IsDigit(rest[0])
    ensures TimecodeNom(Layout(u, w) + rest) == Some((rest, u))
    ensures Unvalidated(Layout(u, w) + rest) == None
  {
    TimecodeNomLayout(u, w, rest);
  }

  /** Where the two fields and colons of `a:b:tail` sit. */
  lemma ColonsAt(a: string, b: string, tail: string)
    ensures var x := a + ([':'] + (b + ([':'] + tail)));
      && |x| > |a| + 1 + |b|
      && x[|a|] == ':' && x[|a| + 1 + |b|] == ':'
      && x[..|a|] == a && x[|a| + 1..|a| + 1 + |b|] == b
  {
    var x := a + ([':'] + (b + ([':'] + tail)));
    assert x[|a| + 1..] == b + ([':'] + tail);
  }

  /** `x` starts with 2 or 3 digits, `:`, 2 or 3 digits, `:`. */
  predicate LeadingColons(x: string) {
    exists i, j ::
      && 2 <= i <= 3 && i + 3 <= j <= i + 4 && j < |x|
      && x[i] == ':' && x[j] == ':'
      && AllDigits(x[..i]) && AllDigits(x[i + 1..j])
  }

  /** Every layout, whatever follows it, starts that way. */
  lemma LayoutColons(u: UnvalidatedTC, w: Widths, rest: string)
    requires w.Valid()
    ensures LeadingColons(Layout(u, w) + rest)
  {
    LayoutThen(u, w, rest);
    var a, b := PadDec(u.h, w.h), PadDec(u.m, w.m);
    var tail := PadDec(u.s, w.s) + ([SepToChar(u.seperator)] + (PadDec(u.f, w.f) + rest));
    var x := Layout(u, w) + rest;
    assert x == a + ([':'] + (b + ([':'] + tail)));
    ColonsAt(a, b, tail);
    var i, j := |a|, |a| + 1 + |b|;
    assert x[i] == ':' && x[j] == ':' && x[..i] == a && x[i + 1..j] == b;
  }

  /** A separator other than `:` in the first or second place is refused:
      every accepted input starts with 2 or 3 digits, `:`, 2 or 3 digits, `:`. */
  lemma FirstSeparatorsAreColons(input: string)
    requires TimecodeNom(input).Some?
    ensures LeadingColons(input)
  {
    var w := TimecodeNomShape(input);
    LayoutColons(TimecodeNom(input).value.1, w, TimecodeNom(input).value.0);
  }

  /** The documented examples of the tokenizer: accepted inputs. */
  lemma ExamplesAccepted()
    ensures Unvalidated("01:23:12:22") == Some(UnvalidatedTC(1, 23, 12, 22, Colon))
    ensures Unvalidated("01:23:12;22") == Some(UnvalidatedTC(1, 23, 12, 22, Semicolon))
  {
    var w := Widths(2, 2, 2, 2);
    var colon := UnvalidatedTC(1, 23, 12, 22, Colon);
    var semi := UnvalidatedTC(1, 23, 12, 22, Semicolon);
    assert w.Valid() && w.Fits(colon) && w.Fits(semi);
    LayoutTwoDigits(colon);
    assert Layout(colon, w) == "01:23:12:22";
    UnvalidatedLayout(colon, w);
    LayoutTwoDigits(semi);
    assert Layout(semi, w) == "01:23:12;22";
    UnvalidatedLayout(semi, w);
  }

  /** Trailing text: read by `timecode_nom`, refused by `unvalidated`. */
  lemma ExampleTrailing()
    ensures TimecodeNom("01:23:12;22 ok") == Some((" ok", UnvalidatedTC(1, 23, 12, 22, Semicolon)))
    ensures Unvalidated("01:23:12;22 ok") == None
  {
    var w := Widths(2, 2, 2, 2);
    var semi := UnvalidatedTC(1, 23, 12, 22, Semicolon);
    assert w.Valid() && w.Fits(semi);
    LayoutTwoDigits(semi);
    assert Layout(semi, w) + " ok" == "01:23:12;22 ok";
    TrailingRejected(semi, w, " ok");
  }

  /** An hour field of 911 does not fit a `u8`. */
  lemma ExampleHoursTooBig()
    ensures TimecodeNom("911:00:00:00") == None
  {
    assert "911:00:00:00" == PadDec(911, 3) + ":00:00:00";
    HoursOverflowFails(911, ":00:00:00");
  }

  /** A missing separator: the greedy hour field swallows a third digit. */
  lemma ExampleMissingSeparator()
    ensures Unvalidated("012312:22") == None
  {
    assert PadDec(12, 3) + "312:22" == "012312:22";
    TcDigitsOf(12, 3, "312:22");
  }

  /** `;` is only accepted as the third separator. */
  lemma ExampleWrongSeparator()
    ensures TimecodeNom("123;23;23;00") == None
  {
    assert PadDec(123, 3) + ";23;23;00" == "123;23;23;00";
    TcDigitsOf(123, 3, ";23;23;00");
  }

  lemma ExampleNotATimecode()
    ensures Unvalidated("Not a timecode") == None
  {
    assert DigitRun("Not a timecode", 3) == 0;
  }
}
