/**
  CSS measurement tokens: seven closed enumerations whose text is the
  lower-cased variant name (and whose parser accepts exactly those texts), and
  the `Unit` that pairs a magnitude with one of them.
*/
module Units {
  import opened Wrappers
  import opened Text

  /** `Unit<T>`: a magnitude `n` (an f64, kept here as a real) tagged with a
      measurement. */
  datatype Unit<T> = Unit(measurement: T, n: real)

  /** `into_unit(self, n)`, written out identically on each of the seven
      enumerations: the measurement is the receiver, the magnitude is kept. */
  function IntoUnit<T>(m: T, n: real): (u: Unit<T>)
    ensures u.measurement == m && u.n == n
  {
    Unit(m, n)
  }

  /** `From<(B, f64)> for Unit<A>`: the first component converted by `B: Into<A>`,
      the magnitude kept. */
  function FromPair<A, B>(pair: (B, real), into: B -> A): (u: Unit<A>)
    ensures u.measurement == into(pair.0) && u.n == pair.1
  {
    Unit(into(pair.0), pair.1)
  }

  /** With the identity conversion (`B == A`), `from` builds what `into_unit` builds. */
  lemma FromPairIsIntoUnit<A>(m: A, n: real)
    ensures FromPair((m, n), (x: A) => x) == IntoUnit(m, n)
  {
  }

  /** `Display for Unit<T>`: the magnitude's text immediately followed by the
      measurement's text. How an f64 is written is not modelled: `formatN` gives it. */
  function UnitText<T>(u: Unit<T>, formatN: real -> string, name: T -> string): (s: string)
    ensures |s| == |formatN(u.n)| + |name(u.measurement)|
    ensures s[..|formatN(u.n)|] == formatN(u.n)
    ensures s[|formatN(u.n)|..] == name(u.measurement)
  {
    formatN(u.n) + name(u.measurement)
  }

  /** Reads a unit's text apart: the measurement is the trailing run of
      lower-case letters, the number is everything before it. */
  function SplitUnitText(s: string): (r: (string, string))
    ensures r.0 + r.1 == s && IsLowerWord(r.1)
    ensures r.0 == [] || !IsLowerLetter(r.0[|r.0| - 1])
  {
    if s == [] || !IsLowerLetter(s[|s| - 1]) then (s, [])
    else
      var (number, suffix) := SplitUnitText(s[..|s| - 1]);
      assert number + (suffix + [s[|s| - 1]]) == s[..|s| - 1] + [s[|s| - 1]] == s;
      (number, suffix + [s[|s| - 1]])
  }

  /** A number whose text does not end in a lower-case letter, followed by a
      lower-case suffix, splits back into the two. */
  lemma {:induction false} SplitUnitTextOf(number: string, suffix: string)
    requires number == [] || !IsLowerLetter(number[|number| - 1])
    requires IsLowerWord(suffix)
    ensures SplitUnitText(number + suffix) == (number, suffix)
  {
    if suffix == [] {
      assert number + suffix == number;
    } else {
      var front := suffix[..|suffix| - 1];
      assert (number + suffix)[..|number + suffix| - 1] == number + front;
      SplitUnitTextOf(number, front);
      assert front + [suffix[|suffix| - 1]] == suffix;
    }
  }

  /** The measurement can be read back from a unit's text whenever the
      magnitude's text does not end in a lower-case letter (true of every finite
      f64; "inf" is the exception). */
  lemma MeasurementReadsBack<T>(u: Unit<T>, formatN: real -> string, name: T -> string,
                                parse: string -> Option<T>)
    requires formatN(u.n) == [] || !IsLowerLetter(formatN(u.n)[|formatN(u.n)| - 1])
    requires IsLowerWord(name(u.measurement))
    requires parse(name(u.measurement)) == Some(u.measurement)
    ensures SplitUnitText(UnitText(u, formatN, name)).0 == formatN(u.n)
    ensures parse(SplitUnitText(UnitText(u, formatN, name)).1) == Some(u.measurement)
  {
    SplitUnitTextOf(formatN(u.n), name(u.measurement));
  }

  datatype Absolute = Px | Cm | Mm | Q | In | Pc | Pt

  /** The identifier of each variant of `Absolute`. */
  function AbsoluteIdent(x: Absolute): string {
    match x
    case Px => "Px"
    case Cm => "Cm"
    case Mm => "Mm"
    case Q => "Q"
    case In => "In"
    case Pc => "Pc"
    case Pt => "Pt"
  }

  /** `Display for Absolute` (derived, all lower-case): the identifier lower-cased. */
  function AbsoluteName(x: Absolute): (s: string)
    ensures s == Lower(AbsoluteIdent(x))
    ensures s != [] && IsLowerWord(s)
  {
    match x
    case Px => "px"
    case Cm => "cm"
    case Mm => "mm"
    case Q => "q"
    case In => "in"
    case Pc => "pc"
    case Pt => "pt"
  }

  /** `FromStr for Absolute` (derived by `EnumString`): exactly the displayed texts,
      case-sensitive; anything else is `VariantNotFound` (`None`). */
  function ParseAbsolute(s: string): (r: Option<Absolute>)
    ensures r.Some? ==> AbsoluteName(r.value) == s
  {
    if s == "px" then Some(Px)
    else if s == "cm" then Some(Cm)
    else if s == "mm" then Some(Mm)
    else if s == "q" then Some(Q)
    else if s == "in" then Some(In)
    else if s == "pc" then Some(Pc)
    else if s == "pt" then Some(Pt)
    else None
  }

  /** Parsing a displayed `Absolute` gives the variant back, so no two variants
      display alike. */
  lemma AbsoluteRoundTrip(x: Absolute)
    ensures ParseAbsolute(AbsoluteName(x)) == Some(x)
    ensures forall y :: AbsoluteName(y) == AbsoluteName(x) ==> y == x
  {
  }

  datatype Relative = Em | Ex | Ch | Rem | Lh | Rlh | Percentage

  /** The identifier of each variant of `Relative`. */
  function RelativeIdent(x: Relative): string {
    match x
    case Em => "Em"
    case Ex => "Ex"
    case Ch => "Ch"
    case Rem => "Rem"
    case Lh => "Lh"
    case Rlh => "Rlh"
    case Percentage => "Percentage"
  }

  /** `Display for Relative` (derived, all lower-case): the identifier lower-cased. */
  function RelativeName(x: Relative): (s: string)
    ensures s == Lower(RelativeIdent(x))
    ensures s != [] && IsLowerWord(s)
  {
    match x
    case Em => "em"
    case Ex => "ex"
    case Ch => "ch"
    case Rem => "rem"
    case Lh => "lh"
    case Rlh => "rlh"
    case Percentage => "percentage"
  }

  /** `FromStr for Relative` (derived by `EnumString`): exactly the displayed texts,
      case-sensitive; anything else is `VariantNotFound` (`None`). */
  function ParseRelative(s: string): (r: Option<Relative>)
    ensures r.Some? ==> RelativeName(r.value) == s
  {
    if s == "em" then Some(Em)
    else if s == "ex" then Some(Ex)
    else if s == "ch" then Some(Ch)
    else if s == "rem" then Some(Rem)
    else if s == "lh" then Some(Lh)
    else if s == "rlh" then Some(Rlh)
    else if s == "percentage" then Some(Percentage)
    else None
  }

  /** Parsing a displayed `Relative` gives the variant back, so no two variants
      display alike. */
  lemma RelativeRoundTrip(x: Relative)
    ensures ParseRelative(RelativeName(x)) == Some(x)
    ensures forall y :: RelativeName(y) == RelativeName(x) ==> y == x
  {
  }

  datatype Viewport = Vw | Vh | Vmin | Vmax | Vb | Vi | Svw | Svh | Lvw | Lvh | Dvw | Dvh

  /** The identifier of each variant of `Viewport`. */
  function ViewportIdent(x: Viewport): string {
    match x
    case Vw => "Vw"
    case Vh => "Vh"
    case Vmin => "Vmin"
    case Vmax => "Vmax"
    case Vb => "Vb"
    case Vi => "Vi"
    case Svw => "Svw"
    case Svh => "Svh"
    case Lvw => "Lvw"
    case Lvh => "Lvh"
    case Dvw => "Dvw"
    case Dvh => "Dvh"
  }

  /** `Display for Viewport` (derived, all lower-case): the identifier lower-cased. */
  function ViewportName(x: Viewport): (s: string)
    ensures s == Lower(ViewportIdent(x))
    ensures s != [] && IsLowerWord(s)
  {
    match x
    case Vw => "vw"
    case Vh => "vh"
    case Vmin => "vmin"
    case Vmax => "vmax"
    case Vb => "vb"
    case Vi => "vi"
    case Svw => "svw"
    case Svh => "svh"
    case Lvw => "lvw"
    case Lvh => "lvh"
    case Dvw => "dvw"
    case Dvh => "dvh"
  }

  /** `FromStr for Viewport` (derived by `EnumString`): exactly the displayed texts,
      case-sensitive; anything else is `VariantNotFound` (`None`). */
  function ParseViewport(s: string): (r: Option<Viewport>)
    ensures r.Some? ==> ViewportName(r.value) == s
  {
    if s == "vw" then Some(Vw)
    else if s == "vh" then Some(Vh)
    else if s == "vmin" then Some(Vmin)
    else if s == "vmax" then Some(Vmax)
    else if s == "vb" then Some(Vb)
    else if s == "vi" then Some(Vi)
    else if s == "svw" then Some(Svw)
    else if s == "svh" then Some(Svh)
    else if s == "lvw" then Some(Lvw)
    else if s == "lvh" then Some(Lvh)
    else if s == "dvw" then Some(Dvw)
    else if s == "dvh" then Some(Dvh)
    else None
  }

  /** Parsing a displayed `Viewport` gives the variant back, so no two variants
      display alike. */
  lemma ViewportRoundTrip(x: Viewport)
    ensures ParseViewport(ViewportName(x)) == Some(x)
    ensures forall y :: ViewportName(y) == ViewportName(x) ==> y == x
  {
  }

  datatype Angle = Grad | Turn | Deg | Rad

  /** The identifier of each variant of `Angle`. */
  function AngleIdent(x: Angle): string {
    match x
    case Grad => "Grad"
    case Turn => "Turn"
    case Deg => "Deg"
    case Rad => "Rad"
  }

  /** `Display for Angle` (derived, all lower-case): the identifier lower-cased. */
  function AngleName(x: Angle): (s: string)
    ensures s == Lower(AngleIdent(x))
    ensures s != [] && IsLowerWord(s)
  {
    match x
    case Grad => "grad"
    case Turn => "turn"
    case Deg => "deg"
    case Rad => "rad"
  }

  /** `FromStr for Angle` (derived by `EnumString`): exactly the displayed texts,
      case-sensitive; anything else is `VariantNotFound` (`None`). */
  function ParseAngle(s: string): (r: Option<Angle>)
    ensures r.Some? ==> AngleName(r.value) == s
  {
    if s == "grad" then Some(Grad)
    else if s == "turn" then Some(Turn)
    else if s == "deg" then Some(Deg)
    else if s == "rad" then Some(Rad)
    else None
  }

  /** Parsing a displayed `Angle` gives the variant back, so no two variants
      display alike. */
  lemma AngleRoundTrip(x: Angle)
    ensures ParseAngle(AngleName(x)) == Some(x)
    ensures forall y :: AngleName(y) == AngleName(x) ==> y == x
  {
  }

  datatype Time = S | Ms

  /** The identifier of each variant of `Time`. */
  function TimeIdent(x: Time): string {
    match x
    case S => "S"
    case Ms => "Ms"
  }

  /** `Display for Time` (derived, all lower-case): the identifier lower-cased. */
  function TimeName(x: Time): (s: string)
    ensures s == Lower(TimeIdent(x))
    ensures s != [] && IsLowerWord(s)
  {
    match x
    case S => "s"
    case Ms => "ms"
  }

  /** `FromStr for Time` (derived by `EnumString`): exactly the displayed texts,
      case-sensitive; anything else is `VariantNotFound` (`None`). */
  function ParseTime(s: string): (r: Option<Time>)
    ensures r.Some? ==> TimeName(r.value) == s
  {
    if s == "s" then Some(S)
    else if s == "ms" then Some(Ms)
    else None
  }

  /** Parsing a displayed `Time` gives the variant back, so no two variants
      display alike. */
  lemma TimeRoundTrip(x: Time)
    ensures ParseTime(TimeName(x)) == Some(x)
    ensures forall y :: TimeName(y) == TimeName(x) ==> y == x
  {
  }

  datatype Frequency = Hz | Khz

  /** The identifier of each variant of `Frequency`. */
  function FrequencyIdent(x: Frequency): string {
    match x
    case Hz => "Hz"
    case Khz => "Khz"
  }

  /** `Display for Frequency` (derived, all lower-case): the identifier lower-cased. */
  function FrequencyName(x: Frequency): (s: string)
    ensures s == Lower(FrequencyIdent(x))
    ensures s != [] && IsLowerWord(s)
  {
    match x
    case Hz => "hz"
    case Khz => "khz"
  }

  /** `FromStr for Frequency` (derived by `EnumString`): exactly the displayed texts,
      case-sensitive; anything else is `VariantNotFound` (`None`). */
  function ParseFrequency(s: string): (r: Option<Frequency>)
    ensures r.Some? ==> FrequencyName(r.value) == s
  {
    if s == "hz" then Some(Hz)
    else if s == "khz" then Some(Khz)
    else None
  }

  /** Parsing a displayed `Frequency` gives the variant back, so no two variants
      display alike. */
  lemma FrequencyRoundTrip(x: Frequency)
    ensures ParseFrequency(FrequencyName(x)) == Some(x)
    ensures forall y :: FrequencyName(y) == FrequencyName(x) ==> y == x
  {
  }

  datatype Resolution = Dpi | Dpcm | Dppx

  /** The identifier of each variant of `Resolution`. */
  function ResolutionIdent(x: Resolution): string {
    match x
    case Dpi => "Dpi"
    case Dpcm => "Dpcm"
    case Dppx => "Dppx"
  }

  /** `Display for Resolution` (derived, all lower-case): the identifier lower-cased. */
  function ResolutionName(x: Resolution): (s: string)
    ensures s == Lower(ResolutionIdent(x))
    ensures s != [] && IsLowerWord(s)
  {
    match x
    case Dpi => "dpi"
    case Dpcm => "dpcm"
    case Dppx => "dppx"
  }

  /** `FromStr for Resolution` (derived by `EnumString`): exactly the displayed texts,
      case-sensitive; anything else is `VariantNotFound` (`None`). */
  function ParseResolution(s: string): (r: Option<Resolution>)
    ensures r.Some? ==> ResolutionName(r.value) == s
  {
    if s == "dpi" then Some(Dpi)
    else if s == "dpcm" then Some(Dpcm)
    else if s == "dppx" then Some(Dppx)
    else None
  }

  /** Parsing a displayed `Resolution` gives the variant back, so no two variants
      display alike. */
  lemma ResolutionRoundTrip(x: Resolution)
    ensures ParseResolution(ResolutionName(x)) == Some(x)
    ensures forall y :: ResolutionName(y) == ResolutionName(x) ==> y == x
  {
  }

  /** The relative measurement of a `Unit<Relative>` (as in font sizes) reads
      back from its text. */
  lemma RelativeUnitReadsBack(u: Unit<Relative>, formatN: real -> string)
    requires formatN(u.n) == [] || !IsLowerLetter(formatN(u.n)[|formatN(u.n)| - 1])
    ensures ParseRelative(SplitUnitText(UnitText(u, formatN, RelativeName)).1) == Some(u.measurement)
  {
    RelativeRoundTrip(u.measurement);
    MeasurementReadsBack(u, formatN, RelativeName, ParseRelative);
  }
}
