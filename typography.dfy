/**
  The `Typography` component: its keyword enumerations, the defaulting of its
  optional props, and the three texts it builds from them: the gradient
  `background`, the `text-decoration` shorthand and the inline `style`.
*/
module Typography {
  import opened Wrappers
  import opened Text
  import opened Units
  import C = Color
  import D = Direction

  /** A keyword as the enumerations display it: non-empty, lower-case letters and '-'. */
  predicate IsKeyword(s: string) {
    s != [] && forall i :: 0 <= i < |s| ==> IsLowerLetter(s[i]) || s[i] == '-'
  }

  /** `Alignment`: a CSS `text-align` keyword. */
  datatype Alignment = Left | Center | Justify | Right

  function AlignmentIdent(x: Alignment): string {
    match x
    case Left => "Left"
    case Center => "Center"
    case Justify => "Justify"
    case Right => "Right"
  }

  /** The words of each variant's identifier. */
  function AlignmentWords(x: Alignment): (r: seq<string>)
    ensures r != [] && Concat(r) == AlignmentIdent(x)
    ensures forall i :: 0 <= i < |r| ==> IsCapitalisedWord(r[i])
  {
    match x
    case Left => ["Left"]
    case Center => ["Center"]
    case Justify => ["Justify"]
    case Right => ["Right"]
  }

  /** `Display for Alignment` (strum, kebab-case): the identifier's words lower-cased
      and joined by '-'. */
  function AlignmentName(x: Alignment): (s: string)
    ensures IsKeyword(s)
  {
    match x
    case Left => "left"
    case Center => "center"
    case Justify => "justify"
    case Right => "right"
  }

  /** Each variant displays as its identifier in kebab case. */
  lemma AlignmentNameIsKebab(x: Alignment)
    ensures AlignmentName(x) == KebabCase(AlignmentWords(x))
  {
    match x
    case Left =>
      assert Lower("Left") == "left";
    case Center =>
      assert Lower("Center") == "center";
    case Justify =>
      assert Lower("Justify") == "justify";
    case Right =>
      assert Lower("Right") == "right";
  }

  /** No two variants of `Alignment` display alike. */
  lemma AlignmentNameInjective(x: Alignment, y: Alignment)
    requires AlignmentName(x) == AlignmentName(y)
    ensures x == y
  {
  }

  /** `Decor`: a CSS `text-decoration line` keyword. */
  datatype Decor = Underline | Overline | LineThrough | Blink

  function DecorIdent(x: Decor): string {
    match x
    case Underline => "Underline"
    case Overline => "Overline"
    case LineThrough => "LineThrough"
    case Blink => "Blink"
  }

  /** The words of each variant's identifier. */
  function DecorWords(x: Decor): (r: seq<string>)
    ensures r != [] && Concat(r) == DecorIdent(x)
    ensures forall i :: 0 <= i < |r| ==> IsCapitalisedWord(r[i])
  {
    match x
    case Underline => ["Underline"]
    case Overline => ["Overline"]
    case LineThrough => ["Line", "Through"]
    case Blink => ["Blink"]
  }

  /** `Display for Decor` (strum, kebab-case): the identifier's words lower-cased
      and joined by '-'. */
  function DecorName(x: Decor): (s: string)
    ensures IsKeyword(s)
  {
    match x
    case Underline => "underline"
    case Overline => "overline"
    case LineThrough => "line-through"
    case Blink => "blink"
  }

  /** `LineThrough` is spelled "line-through". */
  lemma LineThroughIsKebab()
    ensures DecorName(LineThrough) == KebabCase(DecorWords(LineThrough))
  {
    KebabCaseTwo("Line", "Through");
    assert Lower("Line") == "line";
    assert Lower("Through") == "through";
  }

  /** Each variant displays as its identifier in kebab case. */
  lemma DecorNameIsKebab(x: Decor)
    ensures DecorName(x) == KebabCase(DecorWords(x))
  {
    match x
    case Underline =>
      assert Lower("Underline") == "underline";
    case Overline =>
      assert Lower("Overline") == "overline";
    case LineThrough =>
      LineThroughIsKebab();
    case Blink =>
      assert Lower("Blink") == "blink";
  }

  /** No two variants of `Decor` display alike. */
  lemma DecorNameInjective(x: Decor, y: Decor)
    requires DecorName(x) == DecorName(y)
    ensures x == y
  {
  }

  /** `DecorStyle`: a CSS `text-decoration style` keyword. */
  datatype DecorStyle = Solid | Double | Dotted | Dashed | Wavy

  function DecorStyleIdent(x: DecorStyle): string {
    match x
    case Solid => "Solid"
    case Double => "Double"
    case Dotted => "Dotted"
    case Dashed => "Dashed"
    case Wavy => "Wavy"
  }

  /** The words of each variant's identifier. */
  function DecorStyleWords(x: DecorStyle): (r: seq<string>)
    ensures r != [] && Concat(r) == DecorStyleIdent(x)
    ensures forall i :: 0 <= i < |r| ==> IsCapitalisedWord(r[i])
  {
    match x
    case Solid => ["Solid"]
    case Double => ["Double"]
    case Dotted => ["Dotted"]
    case Dashed => ["Dashed"]
    case Wavy => ["Wavy"]
  }

  /** `Display for DecorStyle` (strum, kebab-case): the identifier's words lower-cased
      and joined by '-'. */
  function DecorStyleName(x: DecorStyle): (s: string)
    ensures IsKeyword(s)
  {
    match x
    case Solid => "solid"
    case Double => "double"
    case Dotted => "dotted"
    case Dashed => "dashed"
    case Wavy => "wavy"
  }

  /** Each variant displays as its identifier in kebab case. */
  lemma DecorStyleNameIsKebab(x: DecorStyle)
    ensures DecorStyleName(x) == KebabCase(DecorStyleWords(x))
  {
    match x
    case Solid =>
      assert Lower("Solid") == "solid";
    case Double =>
      assert Lower("Double") == "double";
    case Dotted =>
      assert Lower("Dotted") == "dotted";
    case Dashed =>
      assert Lower("Dashed") == "dashed";
    case Wavy =>
      assert Lower("Wavy") == "wavy";
  }

  /** No two variants of `DecorStyle` display alike. */
  lemma DecorStyleNameInjective(x: DecorStyle, y: DecorStyle)
    requires DecorStyleName(x) == DecorStyleName(y)
    ensures x == y
  {
  }

  /** `Weight`: a CSS `font-weight` keyword. */
  datatype Weight = Normal | Bold | Bolder | Lighter

  function WeightIdent(x: Weight): string {
    match x
    case Normal => "Normal"
    case Bold => "Bold"
    case Bolder => "Bolder"
    case Lighter => "Lighter"
  }

  /** The words of each variant's identifier. */
  function WeightWords(x: Weight): (r: seq<string>)
    ensures r != [] && Concat(r) == WeightIdent(x)
    ensures forall i :: 0 <= i < |r| ==> IsCapitalisedWord(r[i])
  {
    match x
    case Normal => ["Normal"]
    case Bold => ["Bold"]
    case Bolder => ["Bolder"]
    case Lighter => ["Lighter"]
  }

  /** `Display for Weight` (strum, kebab-case): the identifier's words lower-cased
      and joined by '-'. */
  function WeightName(x: Weight): (s: string)
    ensures IsKeyword(s)
  {
    match x
    case Normal => "normal"
    case Bold => "bold"
    case Bolder => "bolder"
    case Lighter => "lighter"
  }

  /** Each variant displays as its identifier in kebab case. */
  lemma WeightNameIsKebab(x: Weight)
    ensures WeightName(x) == KebabCase(WeightWords(x))
  {
    match x
    case Normal =>
      assert Lower("Normal") == "normal";
    case Bold =>
      assert Lower("Bold") == "bold";
    case Bolder =>
      assert Lower("Bolder") == "bolder";
    case Lighter =>
      assert Lower("Lighter") == "lighter";
  }

  /** No two variants of `Weight` display alike. */
  lemma WeightNameInjective(x: Weight, y: Weight)
    requires WeightName(x) == WeightName(y)
    ensures x == y
  {
  }

  /** `WhiteSpace`: a CSS `white-space` keyword. */
  datatype WhiteSpace = Normal | NoWrap | Pre | PreWrap | PreLine

  function WhiteSpaceIdent(x: WhiteSpace): string {
    match x
    case Normal => "Normal"
    case NoWrap => "NoWrap"
    case Pre => "Pre"
    case PreWrap => "PreWrap"
    case PreLine => "PreLine"
  }

  /** The words of each variant's identifier. */
  function WhiteSpaceWords(x: WhiteSpace): (r: seq<string>)
    ensures r != [] && Concat(r) == WhiteSpaceIdent(x)
    ensures forall i :: 0 <= i < |r| ==> IsCapitalisedWord(r[i])
  {
    match x
    case Normal => ["Normal"]
    case NoWrap => ["No", "Wrap"]
    case Pre => ["Pre"]
    case PreWrap => ["Pre", "Wrap"]
    case PreLine => ["Pre", "Line"]
  }

  /** `Display for WhiteSpace` (strum, kebab-case): the identifier's words lower-cased
      and joined by '-'. */
  function WhiteSpaceName(x: WhiteSpace): (s: string)
    ensures IsKeyword(s)
  {
    match x
    case Normal => "normal"
    case NoWrap => "no-wrap"
    case Pre => "pre"
    case PreWrap => "pre-wrap"
    case PreLine => "pre-line"
  }

  /** `NoWrap` is spelled "no-wrap". */
  lemma NoWrapIsKebab()
    ensures WhiteSpaceName(NoWrap) == KebabCase(WhiteSpaceWords(NoWrap))
  {
    KebabCaseTwo("No", "Wrap");
    assert Lower("No") == "no";
    assert Lower("Wrap") == "wrap";
  }

  /** `PreWrap` is spelled "pre-wrap". */
  lemma PreWrapIsKebab()
    ensures WhiteSpaceName(PreWrap) == KebabCase(WhiteSpaceWords(PreWrap))
  {
    KebabCaseTwo("Pre", "Wrap");
    assert Lower("Pre") == "pre";
    assert Lower("Wrap") == "wrap";
  }

  /** `PreLine` is spelled "pre-line". */
  lemma PreLineIsKebab()
    ensures WhiteSpaceName(PreLine) == KebabCase(WhiteSpaceWords(PreLine))
  {
    KebabCaseTwo("Pre", "Line");
    assert Lower("Pre") == "pre";
    assert Lower("Line") == "line";
  }

  /** Each variant displays as its identifier in kebab case. */
  lemma WhiteSpaceNameIsKebab(x: WhiteSpace)
    ensures WhiteSpaceName(x) == KebabCase(WhiteSpaceWords(x))
  {
    match x
    case Normal =>
      assert Lower("Normal") == "normal";
    case NoWrap =>
      NoWrapIsKebab();
    case Pre =>
      assert Lower("Pre") == "pre";
    case PreWrap =>
      PreWrapIsKebab();
    case PreLine =>
      PreLineIsKebab();
  }

  /** No two variants of `WhiteSpace` display alike. */
  lemma WhiteSpaceNameInjective(x: WhiteSpace, y: WhiteSpace)
    requires WhiteSpaceName(x) == WhiteSpaceName(y)
    ensures x == y
  {
  }

  /** `OverflowWrap`: a CSS `overflow-wrap` keyword. */
  datatype OverflowWrap = Normal | BreakWord | Anywhere

  function OverflowWrapIdent(x: OverflowWrap): string {
    match x
    case Normal => "Normal"
    case BreakWord => "BreakWord"
    case Anywhere => "Anywhere"
  }

  /** The words of each variant's identifier. */
  function OverflowWrapWords(x: OverflowWrap): (r: seq<string>)
    ensures r != [] && Concat(r) == OverflowWrapIdent(x)
    ensures forall i :: 0 <= i < |r| ==> IsCapitalisedWord(r[i])
  {
    match x
    case Normal => ["Normal"]
    case BreakWord => ["Break", "Word"]
    case Anywhere => ["Anywhere"]
  }

  /** `Display for OverflowWrap` (strum, kebab-case): the identifier's words lower-cased
      and joined by '-'. */
  function OverflowWrapName(x: OverflowWrap): (s: string)
    ensures IsKeyword(s)
  {
    match x
    case Normal => "normal"
    case BreakWord => "break-word"
    case Anywhere => "anywhere"
  }

  /** `BreakWord` is spelled "break-word". */
  lemma BreakWordIsKebab()
    ensures OverflowWrapName(BreakWord) == KebabCase(OverflowWrapWords(BreakWord))
  {
    KebabCaseTwo("Break", "Word");
    assert Lower("Break") == "break";
    assert Lower("Word") == "word";
  }

  /** Each variant displays as its identifier in kebab case. */
  lemma OverflowWrapNameIsKebab(x: OverflowWrap)
    ensures OverflowWrapName(x) == KebabCase(OverflowWrapWords(x))
  {
    match x
    case Normal =>
      assert Lower("Normal") == "normal";
    case BreakWord =>
      BreakWordIsKebab();
    case Anywhere =>
      assert Lower("Anywhere") == "anywhere";
  }

  /** No two variants of `OverflowWrap` display alike. */
  lemma OverflowWrapNameInjective(x: OverflowWrap, y: OverflowWrap)
    requires OverflowWrapName(x) == OverflowWrapName(y)
    ensures x == y
  {
  }

  /** `Gradient`: the CSS image function of the background. */
  datatype Gradient = Linear | Radial | Conic | Repeating

  function GradientIdent(g: Gradient): string {
    match g
    case Linear => "Linear"
    case Radial => "Radial"
    case Conic => "Conic"
    case Repeating => "Repeating"
  }

  /** `Display for Gradient`: each variant carries its own `serialize` text, which
      is its identifier lower-cased followed by "-gradient". */
  function GradientName(g: Gradient): (s: string)
    ensures IsKeyword(s)
  {
    match g
    case Linear => "linear-gradient"
    case Radial => "radial-gradient"
    case Conic => "conic-gradient"
    case Repeating => "repeating-gradient"
  }

  lemma LinearSpelling()
    ensures GradientName(Linear) == Lower(GradientIdent(Linear)) + "-gradient"
  {
  }

  lemma RadialSpelling()
    ensures GradientName(Radial) == Lower(GradientIdent(Radial)) + "-gradient"
  {
  }

  lemma ConicSpelling()
    ensures GradientName(Conic) == Lower(GradientIdent(Conic)) + "-gradient"
  {
  }

  lemma RepeatingSpelling()
    ensures GradientName(Repeating) == Lower(GradientIdent(Repeating)) + "-gradient"
  {
  }

  /** Each gradient's text is its identifier lower-cased followed by "-gradient". */
  lemma GradientNameSpelling(g: Gradient)
    ensures GradientName(g) == Lower(GradientIdent(g)) + "-gradient"
  {
    match g
    case Linear => LinearSpelling();
    case Radial => RadialSpelling();
    case Conic => ConicSpelling();
    case Repeating => RepeatingSpelling();
  }

  /** No two gradients display alike. */
  lemma GradientNameInjective(g: Gradient, h: Gradient)
    requires GradientName(g) == GradientName(h)
    ensures g == h
  {
  }

  /** `TypographyProps<T>`: every prop is optional. `T` is the font family type;
      the component requires it to have a default value and a `Display`. */
  datatype Props<T> = Props(
    size: Option<Unit<Relative>>,
    family: Option<T>,
    weight: Option<Weight>,
    gradient: Option<Gradient>,
    gradientDirection: Option<D.Direction>,
    colors: Option<seq<C.Color>>,
    letterSpacing: Option<Unit<Relative>>,
    wordSpacing: Option<Unit<Relative>>,
    decor: Option<seq<Decor>>,
    decorColor: Option<C.Color>,
    decorStyle: Option<DecorStyle>,
    decorThickness: Option<Unit<Relative>>,
    whiteSpace: Option<WhiteSpace>,
    overflowWrap: Option<OverflowWrap>,
    alignment: Option<Alignment>)

  /** The props after defaulting: the values the component renders. */
  datatype Settings<T> = Settings(
    size: Unit<Relative>,
    family: T,
    weight: Weight,
    gradient: Gradient,
    direction: D.Direction,
    colors: seq<C.Color>,
    letterSpacing: Unit<Relative>,
    wordSpacing: Unit<Relative>,
    decor: seq<Decor>,
    decorColor: C.Color,
    decorStyle: DecorStyle,
    whiteSpace: WhiteSpace,
    overflowWrap: OverflowWrap,
    alignment: Alignment)

  /** `unwrap_or` / `unwrap_or_default` / `unwrap_or_else` on one prop. */
  function Or<T>(o: Option<T>, fallback: T): T {
    if o.Some? then o.value else fallback
  }

  /** `(unit::Relative::Em, 1.0).into()`: the spacing and size fallback. */
  function OneEm(): Unit<Relative> {
    FromPair((Em, 1.0), (r: Relative) => r)
  }

  /** The defaulting at the top of `Typography`. `familyDefault` is `T::default()`;
      `decor_thickness` is never read. */
  function Resolve<T>(p: Props<T>, familyDefault: T): (s: Settings<T>)
    ensures p.size.Some? ==> s.size == p.size.value
    ensures p.size.None? ==> s.size == Unit(Em, 1.0)
    ensures p.family.Some? ==> s.family == p.family.value
    ensures p.family.None? ==> s.family == familyDefault
    ensures p.weight.Some? ==> s.weight == p.weight.value
    ensures p.weight.None? ==> s.weight == Weight.Normal
    ensures p.gradient.Some? ==> s.gradient == p.gradient.value
    ensures p.gradient.None? ==> s.gradient == Linear
    ensures p.gradientDirection.Some? ==> s.direction == p.gradientDirection.value
    ensures p.gradientDirection.None? ==> s.direction == D.Bottom
    ensures p.colors.Some? ==> s.colors == p.colors.value
    ensures p.colors.None? ==> s.colors == [C.Hex(0xff_ffff)]
    ensures p.letterSpacing.Some? ==> s.letterSpacing == p.letterSpacing.value
    ensures p.letterSpacing.None? ==> s.letterSpacing == Unit(Em, 1.0)
    ensures p.wordSpacing.Some? ==> s.wordSpacing == p.wordSpacing.value
    ensures p.wordSpacing.None? ==> s.wordSpacing == Unit(Em, 1.0)
    ensures p.decor.Some? ==> s.decor == p.decor.value
    ensures p.decor.None? ==> s.decor == []
    ensures p.decorColor.Some? ==> s.decorColor == p.decorColor.value
    ensures p.decorColor.None? ==> s.decorColor == C.Hex(0xff_ffff)
    ensures p.decorStyle.Some? ==> s.decorStyle == p.decorStyle.value
    ensures p.decorStyle.None? ==> s.decorStyle == Solid
    ensures p.whiteSpace.Some? ==> s.whiteSpace == p.whiteSpace.value
    ensures p.whiteSpace.None? ==> s.whiteSpace == WhiteSpace.Normal
    ensures p.overflowWrap.Some? ==> s.overflowWrap == p.overflowWrap.value
    ensures p.overflowWrap.None? ==> s.overflowWrap == OverflowWrap.Normal
    ensures p.alignment.Some? ==> s.alignment == p.alignment.value
    ensures p.alignment.None? ==> s.alignment == Left
  {
    C.ConstructorsAgree(0xff_ffff);
    Settings(
      Or(p.size, OneEm()),
      Or(p.family, familyDefault),
      Or(p.weight, Weight.Normal),
      Or(p.gradient, Linear),
      Or(p.gradientDirection, D.DefaultDirection),
      Or(p.colors, [C.FromU32(0xff_ffff).value]),
      Or(p.letterSpacing, OneEm()),
      Or(p.wordSpacing, OneEm()),
      Or(p.decor, []),
      Or(p.decorColor, C.Default()),
      Or(p.decorStyle, Solid),
      Or(p.whiteSpace, WhiteSpace.Normal),
      Or(p.overflowWrap, OverflowWrap.Normal),
      Or(p.alignment, Left))
  }

  // ---------------------------------------------------------------- background

  /** The CSS `to <side-or-corner>` phrase written for each direction. */
  function DirectionPhrase(d: D.Direction): (s: string)
    ensures forall i :: 0 <= i < |s| ==> IsLowerLetter(s[i]) || s[i] == ' '
  {
    match d
    case Bottom => "to bottom"
    case BottomLeft => "to left bottom"
    case BottomRight => "to bottom right"
    case Left => "to left"
    case Right => "to right"
    case Top => "to top"
    case TopLeft => "to top left"
    case TopRight => "to top right"
  }

  /** `p` is "to " followed by exactly the sides in `sides`: one side, or two
      distinct sides separated by a space, in either order. */
  ghost predicate NamesSides(p: string, sides: set<D.Side>) {
    (exists a :: sides == {a} && p == "to " + D.SideName(a))
    || (exists a, b :: a != b && sides == {a, b} && p == "to " + D.SideName(a) + " " + D.SideName(b))
  }

  lemma NamesOneSide(p: string, a: D.Side)
    requires p == "to " + D.SideName(a)
    ensures NamesSides(p, {a})
  {
  }

  lemma NamesCorner(p: string, a: D.Side, b: D.Side, sides: set<D.Side>)
    requires a != b && sides == {a, b} && p == "to " + D.SideName(a) + " " + D.SideName(b)
    ensures NamesSides(p, sides)
  {
  }

  lemma BottomPhraseNamesSides()
    ensures NamesSides(DirectionPhrase(D.Bottom), D.Sides(D.Bottom))
  {
    NamesOneSide(DirectionPhrase(D.Bottom), D.BottomSide);
  }

  lemma BottomLeftPhraseNamesSides()
    ensures NamesSides(DirectionPhrase(D.BottomLeft), D.Sides(D.BottomLeft))
  {
    NamesCorner(DirectionPhrase(D.BottomLeft), D.LeftSide, D.BottomSide, D.Sides(D.BottomLeft));
  }

  lemma BottomRightPhraseNamesSides()
    ensures NamesSides(DirectionPhrase(D.BottomRight), D.Sides(D.BottomRight))
  {
    NamesCorner(DirectionPhrase(D.BottomRight), D.BottomSide, D.RightSide, D.Sides(D.BottomRight));
  }

  lemma LeftPhraseNamesSides()
    ensures NamesSides(DirectionPhrase(D.Left), D.Sides(D.Left))
  {
    NamesOneSide(DirectionPhrase(D.Left), D.LeftSide);
  }

  lemma RightPhraseNamesSides()
    ensures NamesSides(DirectionPhrase(D.Right), D.Sides(D.Right))
  {
    NamesOneSide(DirectionPhrase(D.Right), D.RightSide);
  }

  lemma TopPhraseNamesSides()
    ensures NamesSides(DirectionPhrase(D.Top), D.Sides(D.Top))
  {
    NamesOneSide(DirectionPhrase(D.Top), D.TopSide);
  }

  lemma TopLeftPhraseNamesSides()
    ensures NamesSides(DirectionPhrase(D.TopLeft), D.Sides(D.TopLeft))
  {
    NamesCorner(DirectionPhrase(D.TopLeft), D.TopSide, D.LeftSide, D.Sides(D.TopLeft));
  }

  lemma TopRightPhraseNamesSides()
    ensures NamesSides(DirectionPhrase(D.TopRight), D.Sides(D.TopRight))
  {
    NamesCorner(DirectionPhrase(D.TopRight), D.TopSide, D.RightSide, D.Sides(D.TopRight));
  }

  /** Every phrase names the sides its direction is called after, so the
      gradient runs towards that side or corner. */
  lemma PhraseNamesSides(d: D.Direction)
    ensures NamesSides(DirectionPhrase(d), D.Sides(d))
  {
    match d
    case Bottom => BottomPhraseNamesSides();
    case BottomLeft => BottomLeftPhraseNamesSides();
    case BottomRight => BottomRightPhraseNamesSides();
    case Left => LeftPhraseNamesSides();
    case Right => RightPhraseNamesSides();
    case Top => TopPhraseNamesSides();
    case TopLeft => TopLeftPhraseNamesSides();
    case TopRight => TopRightPhraseNamesSides();
  }

  /** No two directions share a phrase. */
  lemma DirectionPhraseInjective(d: D.Direction, e: D.Direction)
    requires DirectionPhrase(d) == DirectionPhrase(e)
    ensures d == e
  {
  }

  /** A colour writer the style can be read back from: every text is non-empty
      and holds no parenthesis, comma or space, and distinct colours get distinct
      texts. The component writes colours with `C.Display`; `C.CssHex` is the
      corrected writer. */
  ghost predicate PlainWriter(write: C.Color -> string) {
    (forall c :: write(c) != [] && '(' !in write(c) && ')' !in write(c) && ',' !in write(c) && ' ' !in write(c))
    && (forall a, b :: write(a) == write(b) ==> a == b)
  }

  /** The colour text the component writes, `Display for Color`, is plain. */
  lemma DisplayIsPlain()
    ensures PlainWriter(C.Display)
  {
    forall c: C.Color
      ensures '(' !in C.Display(c) && ')' !in C.Display(c) && ',' !in C.Display(c) && ' ' !in C.Display(c)
    {
      C.DisplayAvoids(c, '(');
      C.DisplayAvoids(c, ')');
      C.DisplayAvoids(c, ',');
      C.DisplayAvoids(c, ' ');
    }
    forall a: C.Color, b: C.Color | C.Display(a) == C.Display(b)
      ensures a == b
    {
      C.DisplayInjective(a, b);
    }
  }

  /** The corrected colour text is plain too. */
  lemma CssHexIsPlain()
    ensures PlainWriter(C.CssHex)
  {
    forall c: C.Color
      ensures '(' !in C.CssHex(c) && ')' !in C.CssHex(c) && ',' !in C.CssHex(c) && ' ' !in C.CssHex(c)
    {
      C.CssHexAvoids(c, '(');
      C.CssHexAvoids(c, ')');
      C.CssHexAvoids(c, ',');
      C.CssHexAvoids(c, ' ');
    }
    forall a: C.Color, b: C.Color | C.CssHex(a) == C.CssHex(b)
      ensures a == b
    {
      C.CssHexInjective(a, b);
    }
  }

  /** Each colour's text, in order, as `write` writes it. */
  function ColorTexts(colors: seq<C.Color>, write: C.Color -> string): (ts: seq<string>)
    ensures |ts| == |colors|
    ensures forall i :: 0 <= i < |colors| ==> ts[i] == write(colors[i])
  {
    seq(|colors|, i requires 0 <= i < |colors| => write(colors[i]))
  }

  /** The background the component writes: the gradient function applied to the
      direction phrase and the colours, the colours joined by ", ". */
  function Background(g: Gradient, d: D.Direction, colors: seq<C.Color>, write: C.Color -> string): (r: string)
    ensures |r| == |GradientName(g)| + |DirectionPhrase(d)| + |Join(ColorTexts(colors, write), ", ")| + 3
    ensures r[..|GradientName(g)|] == GradientName(g) && r[|GradientName(g)|] == '(' && r[|r| - 1] == ')'
  {
    GradientName(g) + "(" + DirectionPhrase(d) + "," + Join(ColorTexts(colors, write), ", ") + ")"
  }

  /** The `background` string, built as the component builds it: one push after
      another, each colour written with its `Display`. */
  method BuildBackground(g: Gradient, d: D.Direction, colors: seq<C.Color>) returns (background: string)
    ensures background == Background(g, d, colors, C.Display)
  {
    var name, phrase, list := GradientName(g), DirectionPhrase(d), Join(ColorTexts(colors, C.Display), ", ");
    background := "";
    background := background + name;
    assert background == name;
    background := background + ['('];
    background := background + phrase;
    background := background + [','];
    background := background + list;
    background := background + [')'];
  }

  /** Reads a background apart: the function name before '(', the phrase up to
      the first ',', and the comma-separated colour list before the closing ')'. */
  function BackgroundParts(s: string): Option<(string, string, seq<string>)> {
    var ps := Split(s, '(');
    if |ps| != 2 || ps[1] == [] || ps[1][|ps[1]| - 1] != ')' then None
    else
      var inner := ps[1][..|ps[1]| - 1];
      var qs := Split(inner, ',');
      Some((ps[0], qs[0], SplitList(Join(qs[1..], ","))))
  }

  /** The colour list of a background holds neither parenthesis, and each of its
      items reads back as one colour text. */
  lemma ColorListShape(colors: seq<C.Color>, write: C.Color -> string)
    requires PlainWriter(write)
    ensures '(' !in Join(ColorTexts(colors, write), ", ") && ')' !in Join(ColorTexts(colors, write), ", ")
    ensures SplitList(Join(ColorTexts(colors, write), ", ")) == ColorTexts(colors, write)
  {
    var ts := ColorTexts(colors, write);
    forall i | 0 <= i < |ts|
      ensures '(' !in ts[i] && ')' !in ts[i] && ListItem(ts[i])
    {
      assert ts[i] == write(colors[i]);
    }
    JoinAvoids(ts, ", ", '(');
    JoinAvoids(ts, ", ", ')');
    SplitListJoin(ts);
  }

  /** The gradient name and the direction phrase hold no parenthesis or comma. */
  lemma NamePhraseAvoid(g: Gradient, d: D.Direction)
    ensures '(' !in GradientName(g) && ')' !in GradientName(g)
    ensures '(' !in DirectionPhrase(d) && ')' !in DirectionPhrase(d) && ',' !in DirectionPhrase(d)
  {
    assert IsKeyword(GradientName(g));
  }

  /** Any text of the background's shape reads back into its three parts. */
  lemma {:induction false} PartsOf(name: string, phrase: string, list: string)
    requires '(' !in name && '(' !in phrase && '(' !in list && ')' !in phrase && ')' !in list
    requires ',' !in phrase
    ensures BackgroundParts(name + "(" + phrase + "," + list + ")") == Some((name, phrase, SplitList(list)))
  {
    var inner := phrase + [','] + list;
    var rest := inner + [')'];
    assert '(' !in rest;
    assert name + "(" + phrase + "," + list + ")" == name + ['('] + rest;
    SplitAround(name, rest, '(');
    assert rest[..|rest| - 1] == inner;
    SplitAppend(phrase, list, ',');
    SplitFree(phrase, ',');
    JoinSplit(list, ',');
  }

  /** The gradient name, the direction phrase and the colour texts all read back
      from a background: it splits at its one '(' into the name and the rest, the
      rest ends in ')', and its first ',' ends the phrase. */
  lemma BackgroundReadsBack(g: Gradient, d: D.Direction, colors: seq<C.Color>, write: C.Color -> string)
    requires PlainWriter(write)
    ensures BackgroundParts(Background(g, d, colors, write))
         == Some((GradientName(g), DirectionPhrase(d), ColorTexts(colors, write)))
  {
    NamePhraseAvoid(g, d);
    ColorListShape(colors, write);
    PartsOf(GradientName(g), DirectionPhrase(d), Join(ColorTexts(colors, write), ", "));
  }

  /** The background determines the gradient, the direction and the colours. */
  lemma BackgroundInjective(g: Gradient, d: D.Direction, colors: seq<C.Color>,
                            h: Gradient, e: D.Direction, others: seq<C.Color>, write: C.Color -> string)
    requires PlainWriter(write)
    requires Background(g, d, colors, write) == Background(h, e, others, write)
    ensures g == h && d == e && colors == others
  {
    BackgroundReadsBack(g, d, colors, write);
    BackgroundReadsBack(h, e, others, write);
    GradientNameInjective(g, h);
    DirectionPhraseInjective(d, e);
    assert ColorTexts(colors, write) == ColorTexts(others, write);
    forall i | 0 <= i < |colors|
      ensures colors[i] == others[i]
    {
      assert write(colors[i]) == write(others[i]);
    }
  }

  // ---------------------------------------------------------------- decoration

  /** Each decoration line's name, in order. */
  function DecorNames(decor: seq<Decor>): (ns: seq<string>)
    ensures |ns| == |decor|
    ensures forall i :: 0 <= i < |decor| ==> ns[i] == DecorName(decor[i])
  {
    seq(|decor|, i requires 0 <= i < |decor| => DecorName(decor[i]))
  }

  /** The `text-decoration` value: the line names joined by ", ", then the style,
      then the colour, separated by single spaces. */
  function Decoration(decor: seq<Decor>, style: DecorStyle, color: C.Color, write: C.Color -> string): (r: string)
    ensures var list := Join(DecorNames(decor), ", ");
      |r| == |list| + |DecorStyleName(style)| + |write(color)| + 2
      && r[..|list|] == list && r[|list|] == ' ' && r[|r| - |write(color)|..] == write(color)
  {
    Join(DecorNames(decor), ", ") + " " + DecorStyleName(style) + " " + write(color)
  }

  /** Reads a decoration value apart from the right: the last two space-separated
      words are the style and the colour, what precedes them is the line list. */
  function DecorationParts(v: string): (string, string, string) {
    var ws := Split(v, ' ');
    if |ws| < 3 then (v, "", "")
    else (Join(ws[..|ws| - 2], " "), ws[|ws| - 2], ws[|ws| - 1])
  }

  /** The line names hold no ',' and read back from their ", "-joined list. */
  lemma DecorListReadsBack(decor: seq<Decor>)
    ensures SplitList(Join(DecorNames(decor), ", ")) == DecorNames(decor)
  {
    var ns := DecorNames(decor);
    forall i | 0 <= i < |ns|
      ensures ListItem(ns[i])
    {
      assert IsKeyword(ns[i]);
    }
    SplitListJoin(ns);
  }

  /** Style and colour are single words: neither holds a space. */
  lemma DecorationPieces(decor: seq<Decor>, style: DecorStyle, color: C.Color, write: C.Color -> string)
    requires PlainWriter(write)
    ensures ' ' !in DecorStyleName(style) && ' ' !in write(color)
    ensures Decoration(decor, style, color, write)
         == Join(DecorNames(decor), ", ") + [' '] + (DecorStyleName(style) + [' '] + write(color))
  {
    assert IsKeyword(DecorStyleName(style));
  }

  /** The line list, the style and the colour all read back from a decoration value. */
  lemma DecorationReadsBack(decor: seq<Decor>, style: DecorStyle, color: C.Color, write: C.Color -> string)
    requires PlainWriter(write)
    ensures DecorationParts(Decoration(decor, style, color, write))
         == (Join(DecorNames(decor), ", "), DecorStyleName(style), write(color))
  {
    var list, name, text := Join(DecorNames(decor), ", "), DecorStyleName(style), write(color);
    DecorationPieces(decor, style, color, write);
    SplitAppend(list, name + [' '] + text, ' ');
    SplitAround(name, text, ' ');
    var ws := Split(list, ' ') + [name, text];
    assert ws[..|ws| - 2] == Split(list, ' ');
    JoinSplit(list, ' ');
  }

  /** The decoration value determines the lines, the style and the colour. */
  lemma DecorationInjective(decor: seq<Decor>, style: DecorStyle, color: C.Color,
                            decor': seq<Decor>, style': DecorStyle, color': C.Color, write: C.Color -> string)
    requires PlainWriter(write)
    requires Decoration(decor, style, color, write) == Decoration(decor', style', color', write)
    ensures decor == decor' && style == style' && color == color'
  {
    DecorationReadsBack(decor, style, color, write);
    DecorationReadsBack(decor', style', color', write);
    DecorListReadsBack(decor);
    DecorListReadsBack(decor');
    DecorStyleNameInjective(style, style');
    assert write(color) == write(color');
    assert DecorNames(decor) == DecorNames(decor');
    forall i | 0 <= i < |decor|
      ensures decor[i] == decor'[i]
    {
      DecorNameInjective(decor[i], decor'[i]);
    }
  }

  // ---------------------------------------------------------------- style

  const Indent16: string := "                "
  const Indent20: string := "                    "

  /** The properties of the style template, in template order. */
  const PropertyNames: seq<string> := [
    "font-size", "font-family", "font-weight", "background", "letter-spacing",
    "word-spacing", "text-decoration", "white-space", "overflow-wrap", "text-align"]

  /** One declaration line of the template. */
  function Declaration(name: string, value: string): string {
    Indent20 + name + ": " + value + ";\n"
  }

  /** The declaration line of each property, with its value. */
  function DeclarationLines(values: seq<string>): (ls: seq<string>)
    requires |values| == |PropertyNames|
    ensures |ls| == |PropertyNames|
    ensures forall i :: 0 <= i < |ls| ==> ls[i] == Declaration(PropertyNames[i], values[i])
  {
    seq(|PropertyNames|, i requires 0 <= i < |PropertyNames| => Declaration(PropertyNames[i], values[i]))
  }

  /** The raw-string template filled in: a newline, ten declaration lines and
      the closing indentation. */
  function StyleText(values: seq<string>): (r: string)
    requires |values| == |PropertyNames|
    ensures |r| == 1 + |Concat(DeclarationLines(values))| + |Indent16|
    ensures r[0] == '\n' && r[|r| - |Indent16|..] == Indent16
    ensures r[1..|r| - |Indent16|] == Concat(DeclarationLines(values))
  {
    "\n" + Concat(DeclarationLines(values)) + Indent16
  }

  /** The ten values in template order. `show` is `Display for T`, `formatN` the
      text of an f64, `write` the colour text. */
  function StyleValues<T>(s: Settings<T>, background: string, show: T -> string,
                          formatN: real -> string, write: C.Color -> string): (vs: seq<string>)
    ensures |vs| == |PropertyNames|
  {
    [UnitText(s.size, formatN, RelativeName),
     show(s.family),
     WeightName(s.weight),
     background,
     UnitText(s.letterSpacing, formatN, RelativeName),
     UnitText(s.wordSpacing, formatN, RelativeName),
     Decoration(s.decor, s.decorStyle, s.decorColor, write),
     WhiteSpaceName(s.whiteSpace),
     OverflowWrapName(s.overflowWrap),
     AlignmentName(s.alignment)]
  }

  /** The `style` attribute for the props, colours written by `write`; the
      component renders `Style(p, familyDefault, show, formatN, C.Display)`. */
  function Style<T>(p: Props<T>, familyDefault: T, show: T -> string, formatN: real -> string,
                    write: C.Color -> string): (r: string)
    ensures |r| > |Indent16| && r[0] == '\n' && r[|r| - |Indent16|..] == Indent16
  {
    var s := Resolve(p, familyDefault);
    StyleText(StyleValues(s, Background(s.gradient, s.direction, s.colors, write), show, formatN, write))
  }

  /** `Typography(props)`: defaults the props, builds the background and fills
      in the style template, every colour written with its `Display`. */
  method Typography<T>(p: Props<T>, familyDefault: T, show: T -> string, formatN: real -> string)
    returns (style: string)
    ensures style == Style(p, familyDefault, show, formatN, C.Display)
  {
    var s := Resolve(p, familyDefault);
    var background := BuildBackground(s.gradient, s.direction, s.colors);
    style := StyleText(StyleValues(s, background, show, formatN, C.Display));
  }

  /** The `k`th property is declared with the `k`th value: the style is a newline,
      the lines before it, its own line, the lines after it, and the closing
      indentation. */
  lemma StyleDeclares(values: seq<string>, k: nat)
    requires |values| == |PropertyNames| && k < |PropertyNames|
    ensures var ls := DeclarationLines(values);
      StyleText(values)
        == "\n" + Concat(ls[..k]) + Declaration(PropertyNames[k], values[k]) + Concat(ls[k + 1..]) + Indent16
  {
    var ls := DeclarationLines(values);
    ConcatAt(ls, k);
    assert ls[k] == Declaration(PropertyNames[k], values[k]);
    Framed("\n", Concat(ls), Concat(ls[..k]), ls[k], Concat(ls[k + 1..]), Indent16);
  }

  /** The ten property names of the template, position by position. */
  lemma PropertyNamesAt(k: nat)
    requires k < |PropertyNames|
    ensures k == 0 ==> PropertyNames[k] == "font-size"
    ensures k == 1 ==> PropertyNames[k] == "font-family"
    ensures k == 2 ==> PropertyNames[k] == "font-weight"
    ensures k == 3 ==> PropertyNames[k] == "background"
    ensures k == 4 ==> PropertyNames[k] == "letter-spacing"
    ensures k == 5 ==> PropertyNames[k] == "word-spacing"
    ensures k == 6 ==> PropertyNames[k] == "text-decoration"
    ensures k == 7 ==> PropertyNames[k] == "white-space"
    ensures k == 8 ==> PropertyNames[k] == "overflow-wrap"
    ensures k == 9 ==> PropertyNames[k] == "text-align"
  {
  }

  /** In the rendered style, the k-th declaration names the k-th property of
      the template and carries the setting the props resolve to for it: the
      size, the family, the weight, the background built from the gradient,
      direction and colours, the two spacings, the decoration built from the
      lines, style and colour, the white-space, the overflow-wrap and the
      alignment, in that order. */
  lemma StyleBinds<T>(p: Props<T>, familyDefault: T, show: T -> string, formatN: real -> string,
                      write: C.Color -> string, k: nat)
    requires k < |PropertyNames|
    ensures var s := Resolve(p, familyDefault);
      var vs := StyleValues(s, Background(s.gradient, s.direction, s.colors, write), show, formatN, write);
      var ls := DeclarationLines(vs);
      Style(p, familyDefault, show, formatN, write)
        == "\n" + Concat(ls[..k]) + Declaration(PropertyNames[k], vs[k]) + Concat(ls[k + 1..]) + Indent16
    ensures var s := Resolve(p, familyDefault);
      var vs := StyleValues(s, Background(s.gradient, s.direction, s.colors, write), show, formatN, write);
      && (k == 0 ==> PropertyNames[k] == "font-size" && vs[k] == UnitText(s.size, formatN, RelativeName))
      && (k == 1 ==> PropertyNames[k] == "font-family" && vs[k] == show(s.family))
      && (k == 2 ==> PropertyNames[k] == "font-weight" && vs[k] == WeightName(s.weight))
      && (k == 3 ==> PropertyNames[k] == "background"
                     && vs[k] == Background(s.gradient, s.direction, s.colors, write))
      && (k == 4 ==> PropertyNames[k] == "letter-spacing"
                     && vs[k] == UnitText(s.letterSpacing, formatN, RelativeName))
      && (k == 5 ==> PropertyNames[k] == "word-spacing"
                     && vs[k] == UnitText(s.wordSpacing, formatN, RelativeName))
      && (k == 6 ==> PropertyNames[k] == "text-decoration"
                     && vs[k] == Decoration(s.decor, s.decorStyle, s.decorColor, write))
      && (k == 7 ==> PropertyNames[k] == "white-space" && vs[k] == WhiteSpaceName(s.whiteSpace))
      && (k == 8 ==> PropertyNames[k] == "overflow-wrap" && vs[k] == OverflowWrapName(s.overflowWrap))
      && (k == 9 ==> PropertyNames[k] == "text-align" && vs[k] == AlignmentName(s.alignment))
  {
    var s := Resolve(p, familyDefault);
    var vs := StyleValues(s, Background(s.gradient, s.direction, s.colors, write), show, formatN, write);
    StyleDeclares(vs, k);
    PropertyNamesAt(k);
  }

  lemma Framed(open: string, whole: string, front: string, middle: string, back: string, close: string)
    requires whole == front + middle + back
    ensures open + whole + close == open + front + middle + back + close
  {
  }

  /** With no props at all, every setting takes its default. */
  lemma DefaultSettings<T>(familyDefault: T)
    ensures Resolve(NoProps(), familyDefault)
         == Settings(Unit(Em, 1.0), familyDefault, Weight.Normal, Linear, D.Bottom, [C.Hex(0xff_ffff)],
                     Unit(Em, 1.0), Unit(Em, 1.0), [], C.Hex(0xff_ffff), Solid,
                     WhiteSpace.Normal, OverflowWrap.Normal, Left)
  {
  }

  /** The props when the component is given none. */
  function NoProps<T>(): Props<T> {
    Props(None, None, None, None, None, None, None, None, None, None, None, None, None, None, None)
  }

  /** The background when no gradient, direction or colours are given: white
      written in decimal. */
  lemma DefaultBackground()
    ensures Background(Linear, D.Bottom, [C.Hex(0xff_ffff)], C.Display)
         == "linear-gradient" + "(" + "to bottom" + "," + "#16777215" + ")"
  {
    C.DefaultDisplay();
    var white := C.Hex(0xff_ffff);
    assert ColorTexts([white], C.Display) == [C.Display(white)];
  }

  /** The same background with the corrected colour text. */
  lemma DefaultBackgroundCorrected()
    ensures Background(Linear, D.Bottom, [C.Hex(0xff_ffff)], C.CssHex)
         == "linear-gradient" + "(" + "to bottom" + "," + "#ffffff" + ")"
  {
    C.DefaultCssHex();
    var white := C.Hex(0xff_ffff);
    assert ColorTexts([white], C.CssHex) == [C.CssHex(white)];
  }

  /** The decoration when no lines, style or colour are given. */
  lemma DefaultDecoration()
    ensures Decoration([], Solid, C.Hex(0xff_ffff), C.Display) == "" + " " + "solid" + " " + "#16777215"
  {
    C.DefaultDisplay();
    assert DecorNames([]) == [];
  }

  /** The same decoration with the corrected colour text. */
  lemma DefaultDecorationCorrected()
    ensures Decoration([], Solid, C.Hex(0xff_ffff), C.CssHex) == "" + " " + "solid" + " " + "#ffffff"
  {
    C.DefaultCssHex();
    assert DecorNames([]) == [];
  }

  /** With no props at all, the ten values the component renders are the
      defaults: one em, the default family, "normal", a linear gradient to the
      bottom over white, one em twice, no lines in solid white, "normal" twice
      and "left"; white is written "#16777215". */
  lemma DefaultStyleValues<T>(familyDefault: T, show: T -> string, formatN: real -> string)
    ensures var s := Resolve(NoProps(), familyDefault);
      StyleValues(s, Background(s.gradient, s.direction, s.colors, C.Display), show, formatN, C.Display)
        == [UnitText(Unit(Em, 1.0), formatN, RelativeName), show(familyDefault), "normal",
            "linear-gradient" + "(" + "to bottom" + "," + "#16777215" + ")",
            UnitText(Unit(Em, 1.0), formatN, RelativeName), UnitText(Unit(Em, 1.0), formatN, RelativeName),
            "" + " " + "solid" + " " + "#16777215", "normal", "normal", "left"]
  {
    DefaultSettings(familyDefault);
    DefaultBackground();
    DefaultDecoration();
  }

  /** `decor_thickness` does not affect what is rendered. */
  lemma DecorThicknessIgnored<T>(p: Props<T>, t: Option<Unit<Relative>>, familyDefault: T,
                                 show: T -> string, formatN: real -> string, write: C.Color -> string)
    ensures Style(p.(decorThickness := t), familyDefault, show, formatN, write)
         == Style(p, familyDefault, show, formatN, write)
  {
  }
}
