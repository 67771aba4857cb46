/** The module-level lookup tables of the PDF backend: Kiva's line cap, line
    join and path drawing modes mapped to the codes and flags of the PDF
    canvas.  Kiva's constants are symbolic here; any value that is not one of
    the named constants is an `...Other(code)` value, which is not a key of
    its table. */
module PdfStyles {
  import opened Wrappers

  datatype CapStyle = CapRound | CapSquare | CapButt | CapOther(code: int)

  datatype JoinStyle = JoinRound | JoinBevel | JoinMiter | JoinOther(code: int)

  datatype DrawMode = FillStroke | Fill | EofFill | Stroke | EofFillStroke | ModeOther(code: int)

  /** The canvas's fill rules: nonzero winding and even-odd. */
  datatype FillRule = NonZero | EvenOdd

  /** The `cap_style` table; a value outside it has no entry. */
  function CapStyleCode(style: CapStyle): (r: Option<int>)
    ensures r.Some? <==> !style.CapOther?
    ensures r.Some? ==> 0 <= r.value <= 2
  {
    match style
    case CapRound => Some(1)
    case CapSquare => Some(2)
    case CapButt => Some(0)
    case CapOther(_) => None
  }

  /** The `join_style` table; a value outside it has no entry. */
  function JoinStyleCode(style: JoinStyle): (r: Option<int>)
    ensures r.Some? <==> !style.JoinOther?
    ensures r.Some? ==> 0 <= r.value <= 2
  {
    match style
    case JoinRound => Some(1)
    case JoinBevel => Some(2)
    case JoinMiter => Some(0)
    case JoinOther(_) => None
  }

  /** The line cap a PDF line-cap operand selects (section 8.4.3.3 of
      ISO 32000-1: 0 butt, 1 round, 2 projecting square). */
  function CapOfPdfCode(n: int): Option<CapStyle>
  {
    if n == 0 then Some(CapButt)
    else if n == 1 then Some(CapRound)
    else if n == 2 then Some(CapSquare)
    else None
  }

  /** The line join a PDF line-join operand selects (section 8.4.3.4 of
      ISO 32000-1: 0 miter, 1 round, 2 bevel). */
  function JoinOfPdfCode(n: int): Option<JoinStyle>
  {
    if n == 0 then Some(JoinMiter)
    else if n == 1 then Some(JoinRound)
    else if n == 2 then Some(JoinBevel)
    else None
  }

  /** The cap table sends each Kiva cap to the PDF code of the same cap, and
      every PDF cap code comes from exactly one Kiva cap. */
  lemma CapTableAgreesWithPdf(style: CapStyle, n: int)
    ensures CapStyleCode(style).Some? ==> CapOfPdfCode(CapStyleCode(style).value) == Some(style)
    ensures CapOfPdfCode(n).Some? ==> CapStyleCode(CapOfPdfCode(n).value) == Some(n)
  {
  }

  /** The join table sends each Kiva join to the PDF code of the same join,
      and every PDF join code comes from exactly one Kiva join. */
  lemma JoinTableAgreesWithPdf(style: JoinStyle, n: int)
    ensures JoinStyleCode(style).Some? ==> JoinOfPdfCode(JoinStyleCode(style).value) == Some(style)
    ensures JoinOfPdfCode(n).Some? ==> JoinStyleCode(JoinOfPdfCode(n).value) == Some(n)
  {
  }

  /** The `path_mode` table: (stroke flag, fill flag, fill rule). */
  function PathMode(mode: DrawMode): (r: Option<(int, int, FillRule)>)
    ensures r.Some? <==> !mode.ModeOther?
  {
    match mode
    case FillStroke => Some((1, 1, NonZero))
    case Fill => Some((0, 1, NonZero))
    case EofFill => Some((0, 1, EvenOdd))
    case Stroke => Some((1, 0, NonZero))
    case EofFillStroke => Some((1, 1, EvenOdd))
    case ModeOther(_) => None
  }

  /** What each mode's name says it paints. */
  predicate NameStrokes(mode: DrawMode) { mode == Stroke || mode == FillStroke || mode == EofFillStroke }
  predicate NameFills(mode: DrawMode) { mode == Fill || mode == EofFill || mode == FillStroke || mode == EofFillStroke }
  predicate NameIsEvenOdd(mode: DrawMode) { mode == EofFill || mode == EofFillStroke }

  /** Every named mode has an entry, its stroke and fill flags are 1 exactly
      when the name says it strokes or fills, and its rule is even-odd exactly
      for the EOF modes. */
  lemma PathModeMatchesNames(mode: DrawMode)
    requires !mode.ModeOther?
    ensures PathMode(mode).Some?
    ensures PathMode(mode).value.0 == (if NameStrokes(mode) then 1 else 0)
    ensures PathMode(mode).value.1 == (if NameFills(mode) then 1 else 0)
    ensures PathMode(mode).value.2 == (if NameIsEvenOdd(mode) then EvenOdd else NonZero)
  {
  }
}
