/** The framerate descriptors of src/framerates.rs: the compile-time families
    `NDF<N>` and `DF<N>`, the runtime `DynFramerate`, their common attributes
    (separator, frame bound, dropped frames, exact rate) and the conversions
    between the two kinds. */
module Framerates {
  import opened Wrappers
  import opened Decimal

  /** `FrameCount`, taken to be a `u32` (it is defined in the crate root). */
  newtype FrameCount = x: int | 0 <= x < 0x1_0000_0000

  /** Values of a `u64` are below this. */
  const U64_BOUND: nat := 0x1_0000_0000_0000_0000

  /** `is_valid_df_count`: drop frame is only defined for multiples of 30. */
  predicate IsValidDfCount(frames: FrameCount) {
    frames % 30 == 0
  }

  /** The compile-time framerates: `NDF<N>` and `DF<N>`, `N` the frame bound. */
  datatype ConstFramerate = NDF(frames: FrameCount) | DF(frames: FrameCount) {
    /** `;` marks drop frame, `:` non-drop. */
    function ToSep(): (c: char)
      ensures c == ';' <==> IsDropframe()
      ensures c == ':' <==> !IsDropframe()
    {
      match this
      case NDF(_) => ':'
      case DF(_) => ';'
    }

    /** The frame bound `N`. */
    function MaxFrame(): FrameCount {
      frames
    }

    /** Frame numbers skipped per minute: none for non-drop, `N / 15` for
        drop frame (2 at 30, 4 at 60). */
    function DropFrames(): (r: Option<FrameCount>)
      ensures r.Some? <==> DF?
      ensures r.Some? ==> r.value as int * 15 <= frames as int < r.value as int * 15 + 15
    {
      match this
      case NDF(_) => None
      case DF(n) => Some(n / 15)
    }

    /** Numerator of the exact rate, a `u64`: `N` or `N * 1000`. */
    function FrNum(): (r: nat)
      ensures r < U64_BOUND
    {
      match this
      case NDF(n) => n as nat
      case DF(n) => n as nat * 1000
    }

    /** Denominator of the exact rate: 1, or 1001 for drop frame. */
    function FrDenom(): (r: nat)
      ensures r >= 1
    {
      match this
      case NDF(_) => 1
      case DF(_) => 1001
    }

    /** The trait's default `is_dropframe`. */
    predicate IsDropframe() {
      DropFrames().Some?
    }
  }

  /** 29.97 DF (NTSC). */
  const DF2997: ConstFramerate := DF(30)
  /** 59.94 DF (NTSC). */
  const DF5994: ConstFramerate := DF(60)
  /** 30 NDF. */
  const NDF30: ConstFramerate := NDF(30)
  /** 25 NDF (PAL). */
  const NDF25: ConstFramerate := NDF(25)
  /** Called 50 NDF, but an alias of `NDF<25>`. */
  const NDF50: ConstFramerate := NDF(25)
  /** 23.98 NDF, counted like 24. */
  const NDF2398: ConstFramerate := NDF(24)

  /** `ConstFramerate::new` for `NDF<N>`: always succeeds. */
  function NewNdfConst(frames: FrameCount): (r: ConstFramerate)
    ensures !r.IsDropframe() && r.MaxFrame() == frames
  {
    NDF(frames)
  }

  /** `ConstFramerate::new` for `DF<N>`: panics unless `N` is a multiple of 30,
      which is the precondition here. */
  function NewDfConst(frames: FrameCount): (r: ConstFramerate)
    requires IsValidDfCount(frames)
    ensures r.IsDropframe() && r.MaxFrame() == frames
  {
    DF(frames)
  }

  /** The fields of `DynFramerate`. */
  datatype RuntimeFramerate = RuntimeFramerate(count: FrameCount, isDf: bool) {
    /** What the constructors guarantee and the private fields preserve. */
    predicate Valid() {
      isDf ==> IsValidDfCount(count)
    }

    /** `;` marks drop frame, `:` non-drop. */
    function ToSep(): (c: char)
      ensures c == ';' <==> IsDropframe()
      ensures c == ':' <==> !IsDropframe()
    {
      if isDf then ';' else ':'
    }

    /** The frame bound `count`. */
    function MaxFrame(): FrameCount {
      count
    }

    function DropFrames(): (r: Option<FrameCount>)
      ensures r.Some? <==> isDf
      ensures r.Some? ==> r.value as int * 15 <= count as int < r.value as int * 15 + 15
    {
      if isDf then Some(count / 15) else None
    }

    function FrNum(): (r: nat)
      ensures r < U64_BOUND
    {
      var base := count as nat;
      if isDf then base * 1000 else base
    }

    function FrDenom(): (r: nat)
      ensures r >= 1
    {
      if isDf then 1001 else 1
    }

    /** The trait's default `is_dropframe`. */
    predicate IsDropframe() {
      DropFrames().Some?
    }
  }

  /** `DynFramerate`: a framerate chosen at run time. Its fields are private
      and every constructor checks them, so the invariant is part of the type. */
  type DynFramerate = d: RuntimeFramerate | d.Valid() witness RuntimeFramerate(0, false)

  /** `DynFramerate::new`: `None` exactly for a drop-frame count that is not a
      multiple of 30. */
  function New(count: FrameCount, isDf: bool): (r: Option<DynFramerate>)
    ensures r.None? <==> isDf && count % 30 != 0
    ensures r.Some? ==> r.value.count == count && r.value.isDf == isDf
  {
    if isDf && !IsValidDfCount(count) then None else Some(RuntimeFramerate(count, isDf))
  }

  /** `DynFramerate::try_new_df`. */
  function TryNewDf(count: FrameCount): (r: Option<DynFramerate>)
    ensures r.Some? <==> count % 30 == 0
    ensures r.Some? ==> r.value.IsDropframe() && r.value.MaxFrame() == count
  {
    New(count, true)
  }

  /** `DynFramerate::new_ndf`: never fails. */
  function NewNdf(count: FrameCount): (r: DynFramerate)
    ensures New(count, false) == Some(r)
    ensures !r.IsDropframe() && r.MaxFrame() == count
  {
    RuntimeFramerate(count, false)
  }

  /** `DynFramerate::new_df`: panics unless `count` is a multiple of 30, which
      is the precondition here. */
  function NewDf(count: FrameCount): (r: DynFramerate)
    requires IsValidDfCount(count)
    ensures New(count, true) == Some(r)
    ensures r.IsDropframe() && r.MaxFrame() == count
  {
    RuntimeFramerate(count, true)
  }

  /** `From<&F> for DynFramerate`: `new(max_frame, is_dropframe).unwrap()`,
      which panics for a `DF<N>` whose `N` is no multiple of 30; that is the
      precondition. */
  function FromConst(c: ConstFramerate): (d: DynFramerate)
    requires c.DF? ==> IsValidDfCount(c.frames)
    ensures d.count == c.MaxFrame() && d.isDf == c.IsDropframe()
  {
    New(c.MaxFrame(), c.DropFrames().Some?).value
  }

  /** `PartialEq<F> for DynFramerate`. */
  predicate DynEqConst(d: DynFramerate, c: ConstFramerate)
    requires c.DF? ==> IsValidDfCount(c.frames)
  {
    FromConst(c) == d
  }

  /** `TryFrom<DynFramerate> for NDF<N>`. */
  function TryIntoNdf(d: DynFramerate, n: FrameCount): (r: Result<ConstFramerate, ()>)
    ensures r.Ok? <==> !d.isDf && d.count == n
    ensures r.Ok? ==> r.value == NDF(n)
  {
    if !d.isDf && d.count == n then Ok(NewNdfConst(n)) else Err(())
  }

  /** `TryFrom<DynFramerate> for DF<N>`: `DF::<N>::new()` cannot panic here,
      because a drop-frame `DynFramerate` has a valid count. */
  function TryIntoDf(d: DynFramerate, n: FrameCount): (r: Result<ConstFramerate, ()>)
    ensures r.Ok? <==> d.isDf && d.count == n
    ensures r.Ok? ==> r.value == DF(n)
  {
    if d.isDf && d.count == n then Ok(NewDfConst(n)) else Err(())
  }

  /** Converting into the kind of `c` at the bound `n`. */
  function TryIntoKindOf(d: DynFramerate, c: ConstFramerate, n: FrameCount): Result<ConstFramerate, ()> {
    match c
    case NDF(_) => TryIntoNdf(d, n)
    case DF(_) => TryIntoDf(d, n)
  }

  /** What the integer branch of `DynFramerate::from_str` decides: a
      framerate, or that the string is no `u32` and the floating-point
      branches take over. */
  datatype FromStrOutcome = Parsed(framerate: DynFramerate) | NotAnInteger

  /** The integer branch of `DynFramerate::from_str`: a string that parses as
      a `u32` is the non-drop framerate of that count. */
  function FromStrInteger(s: string): (r: FromStrOutcome)
    ensures r.Parsed? <==> ParseUnsigned(s, 0x1_0000_0000).Some?
    ensures r.Parsed? ==> !r.framerate.IsDropframe()
    ensures r.Parsed? ==> r.framerate.count as nat == ParseUnsigned(s, 0x1_0000_0000).value
  {
    match ParseUnsigned(s, 0x1_0000_0000)
    case Some(v) => Parsed(New(v as FrameCount, false).value)
    case None => NotAnInteger
  }

  // ---------------------------------------------------------------------
  // Properties

  /** Drop-frame descriptors skip exactly `count / 15` numbers, an even number
      that divides the count evenly: 2 at 30, 4 at 60. */
  lemma DropFramesExact(d: DynFramerate)
    requires d.isDf
    ensures d.DropFrames().value as int * 15 == d.count as int && d.DropFrames().value % 2 == 0
  {
  }

  lemma DropFramesExamples()
    ensures NewDf(30).DropFrames() == Some(2) && NewDf(60).DropFrames() == Some(4)
    ensures DF2997.DropFrames() == Some(2) && DF5994.DropFrames() == Some(4)
    ensures NewNdf(30).DropFrames() == None && NDF30.DropFrames() == None
  {
  }

  /** The rate `num / denom` is exactly the count, or the count times
      1000/1001 for drop frame; for both kinds of descriptor. */
  lemma ExactRate(d: DynFramerate, c: ConstFramerate)
    ensures d.FrNum() as real / d.FrDenom() as real
      == if d.isDf then d.count as real * 1000.0 / 1001.0 else d.count as real
    ensures c.FrNum() as real / c.FrDenom() as real
      == if c.DF? then c.frames as real * 1000.0 / 1001.0 else c.frames as real
  {
  }

  /** The trait's default `is_dropframe` is the kind of the descriptor: the
      `is_df` flag, or `DF<N>` rather than `NDF<N>`; so that is what the
      separator tells apart. */
  lemma SeparatorMarksDropFrame(d: DynFramerate, c: ConstFramerate)
    ensures d.IsDropframe() <==> d.isDf
    ensures c.IsDropframe() <==> c.DF?
    ensures d.ToSep() == (if d.isDf then ';' else ':')
    ensures c.ToSep() == (if c.DF? then ';' else ':')
  {
  }

  /** `try_new_df` is `new(_, true)`; `new_ndf` and `new_df` are `new` unwrapped. */
  lemma ShorthandsAgree(count: FrameCount)
    ensures TryNewDf(count) == New(count, true)
    ensures New(count, false) == Some(NewNdf(count))
    ensures IsValidDfCount(count) ==> New(count, true) == Some(NewDf(count))
  {
  }

  /** 23 frames cannot be drop frame: `new_df(23)` panics and `try_new_df(23)`
      is `None`. */
  lemma BadDropFrameCount()
    ensures !IsValidDfCount(23) && TryNewDf(23).None?
  {
  }

  /** The runtime copy of a compile-time framerate has all its attributes. */
  lemma FromConstPreserves(c: ConstFramerate)
    requires c.DF? ==> IsValidDfCount(c.frames)
    ensures var d := FromConst(c);
      && d.ToSep() == c.ToSep() && d.MaxFrame() == c.MaxFrame() && d.DropFrames() == c.DropFrames()
      && d.FrNum() == c.FrNum() && d.FrDenom() == c.FrDenom() && d.IsDropframe() == c.IsDropframe()
  {
  }

  /** Compile-time to runtime and back gives the framerate again; asking for
      another bound or the other kind fails. */
  lemma ConstDynConst(c: ConstFramerate, n: FrameCount)
    requires c.DF? ==> IsValidDfCount(c.frames)
    ensures TryIntoKindOf(FromConst(c), c, n) == if n == c.frames then Ok(c) else Err(())
    ensures TryIntoNdf(FromConst(c), n).Ok? <==> c.NDF? && n == c.frames
    ensures TryIntoDf(FromConst(c), n).Ok? <==> c.DF? && n == c.frames
  {
  }

  /** Every runtime framerate is the copy of exactly one compile-time one, the
      one `try_into` at its own count gives. */
  lemma DynConstDyn(d: DynFramerate)
    ensures var r := if d.isDf then TryIntoDf(d, d.count) else TryIntoNdf(d, d.count);
      r.Ok? && FromConst(r.value) == d
  {
  }

  /** A runtime framerate equals a compile-time one exactly when converting
      it into that type, at that bound, succeeds. */
  lemma EqualityIsConversion(d: DynFramerate, c: ConstFramerate)
    requires c.DF? ==> IsValidDfCount(c.frames)
    ensures DynEqConst(d, c) <==> TryIntoKindOf(d, c, c.frames).Ok?
  {
  }

  /** Converting `NDF<30>` from runtime `new_ndf(30)` works, `NDF<33>` does not. */
  lemma UpcastExamples()
    ensures TryIntoNdf(NewNdf(30), 30) == Ok(NDF30)
    ensures TryIntoNdf(NewNdf(30), 33).Err?
    ensures TryIntoNdf(FromConst(NDF30), 30) == Ok(NDF30)
  {
  }

  /** The named aliases: drop frame at 30 and 60, non-drop at 30, 25 and 24
      for 23.98, and `NDF50` the same type as `NDF25`, contrary to its name. */
  lemma AliasesAsWritten()
    ensures DF2997.IsDropframe() && DF2997.MaxFrame() == 30 && DF2997.DropFrames() == Some(2)
    ensures DF5994.IsDropframe() && DF5994.MaxFrame() == 60 && DF5994.DropFrames() == Some(4)
    ensures !NDF30.IsDropframe() && NDF30.MaxFrame() == 30
    ensures !NDF25.IsDropframe() && NDF25.MaxFrame() == 25
    ensures !NDF2398.IsDropframe() && NDF2398.MaxFrame() == 24
    ensures NDF50 == NDF25 && NDF50.MaxFrame() == 25
  {
  }

  /** Every decimal string of a `u32` count, leading zeros allowed, parses to
      the non-drop framerate of that count. */
  lemma FromStrDecimal(n: FrameCount, w: nat)
    requires 1 <= w && n as nat < Pow10(w)
    ensures FromStrInteger(PadDec(n as nat, w)) == Parsed(NewNdf(n))
  {
    ParseUnsignedPadDec(n as nat, w, 0x1_0000_0000);
  }

  /** Rust's integer parse also takes one leading `+`. */
  lemma FromStrPlusSign(n: FrameCount, w: nat)
    requires 1 <= w && n as nat < Pow10(w)
    ensures FromStrInteger("+" + PadDec(n as nat, w)) == Parsed(NewNdf(n))
  {
    ParseUnsignedPlusPadDec(n as nat, w, 0x1_0000_0000);
  }

  /** `"25"` is 25 NDF; `"25.00"` is left to the floating-point branches. */
  lemma FromStrExamples()
    ensures FromStrInteger("25") == Parsed(NewNdf(25))
    ensures FromStrInteger("25.00") == NotAnInteger
  {
    assert PadDec(25, 2) == "25";
    FromStrDecimal(25, 2);
    assert !IsDigit("25.00"[2]);
  }
}
