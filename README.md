# diogen core, modelled in Dafny

diogen is a small UI component kit for Dioxus on the web. This project models
the core of its pure and imperative logic and proves properties of the model:

- **Colours** (`src/color.rs`): a colour is a 24-bit RGB code `Color::Hex(u32)`.
  It has two range-checked constructors, `from_hex` and `From<u32>`, and both
  panic above `0xffffff`. `Default` is white, and `Display` writes the code as
  text. There is also the `#rrggbb` writer `rgb_to_hex` and the reader
  `hex_to_rgb`, which unwraps `u8::from_str_radix` three times.
- **Units** (`src/unit.rs`): `Unit<T>` is a magnitude with a measurement. The
  file has its two constructors, its text (`{n}{measurement}`) and the seven
  measurement enums with their derived lower-case `Display` and `EnumString`.
- **Direction** (`src/direction.rs`): the eight gradient directions, with
  `Bottom` as the default.
- **Typography** (`src/typography.rs`):
  - the keyword enums and their kebab-case `Display`, and the gradient names;
  - the component's props and the defaulting of every absent prop;
  - the `text-decoration` value;
  - the `background` value, which the component builds push by push;
  - the ten-line style template.
- **Device** (`src/win/device.rs`): the classification of the window's inner
  width into seven device classes.
- **Window events** (`src/win/mod.rs`):
  - `MOUSE_EVENTS` and the `Error` enum;
  - `DropToken` with `from_static_dyn_fn_mut_box`, `to_owned` and `Drop`;
  - `on`, which attaches one closure to several window events and returns a
    token whose cleanup detaches it again.

Panics are modelled as values: `Color.Outcome.Panicked` with the panic message,
and `Result.Err` for `hex_to_rgb`. Rust's `f64` is modelled as `real`.
Formatting a number is a parameter `formatN`, and so is the family's `Display`
(`show`). The browser window is a class `Win.Window`. It holds a registry of
(event, listener) pairs, which the DOM keeps as a set, and a log of every
`addEventListener`/`removeEventListener` call made on it. A closure shared
through `Rc<RefCell<…>>` is a `Win.ClosureSlot` object, and an
`Rc<RefCell<Box<dyn FnMut()>>>` is a `Win.CleanupCell` with a strong count
(`owners`) and a `borrowed` flag.

The cleanup does not wait for the last owner: the code
(`src/win/mod.rs:103-113`) runs it on every drop whose borrow succeeds, and the
model does the same. A second run finds the closure slot empty and does nothing,
so two owners dropping make exactly one round of removals (`Win.DropBoth`).

The component writes every colour with `Display for Color`, the decimal text
(see Findings). Every typography value that holds a colour takes the colour
writer as a parameter `write`; the component's own output is the instance
`write := Color.Display`, and `Color.CssHex` is the corrected writer. The
read-back and injectivity lemmas hold for every writer whose texts are
non-empty, distinct for distinct colours and free of '(', ')', ',' and space
(`Typography.PlainWriter`); both writers qualify.

## Model

| member | source | states |
|---|---|---|
| Color.FromHex | src/color.rs:9-14 | returns a colour exactly when the code is at most 0xffffff, with that code; otherwise panics with the range message |
| Color.FromU32 | src/color.rs:23-30 | the same range check; the panic message is the range message, ": 0x", then an upper-case hexadecimal numeral without leading zeros whose value is the rejected code |
| Color.ConstructorsAgree | src/color.rs:9-30 | `from_hex` and `From<u32>` accept the same codes and build the same colour |
| Color.Default | src/color.rs:17-21 | the default colour is white, code 0xffffff |
| Color.Display | src/color.rs:32-38 | the text is '#' followed by a decimal numeral without leading zeros whose value is the code |
| Color.DisplayAvoids | src/color.rs:35 | the displayed text contains no character other than '#' and decimal digits (in particular no 'a'-'f') |
| Color.DisplayInjective | src/color.rs:32-38 | distinct colours display differently |
| Color.HexByte | src/color.rs:54 | `{:02x}`: exactly two lower-case hexadecimal digits whose value is the byte |
| Color.RgbToHex | src/color.rs:53-55 | seven characters: '#' and then three lower-case digit pairs that read as r, g and b |
| Color.HexPair | src/color.rs:59-61 | a slice past the end of the text fails with the slice end; otherwise it succeeds exactly when `from_str_radix` reads the two characters, with that value, and fails with the position and `from_str_radix`'s error when it does not |
| Color.HexToRgb | src/color.rs:57-63 | after the leading '#'s are trimmed, fewer than six characters fail; otherwise it succeeds exactly when `from_str_radix` reads all three pairs, and the result is the three values read |
| Color.DigitsParse | src/color.rs:59-61 | two digits of radix 16, in either case, read as the first digit times 16 plus the second |
| Color.PairRejects | src/color.rs:59-61 | a pair holding a non-digit fails to parse, unless that non-digit is a leading '+' |
| Color.DigitsPair | src/color.rs:59-61 | the pair at an offset that holds two hexadecimal digits reads as their value |
| Color.DigitPairsRead | src/color.rs:57-63 | six hexadecimal digits of either case after the trim read as three bytes, two digits each |
| Color.HexToRgbFailsAt | src/color.rs:57-63 | a pair that fails to read makes the whole conversion fail |
| Color.NonHexPairFails | src/color.rs:59-61 | a non-digit among the first six characters fails its pair, unless it is a '+' that starts the pair |
| Color.PairParses | src/color.rs:59-61 | any two hexadecimal digits, in either case, parse as `16*d1 + d2` |
| Color.PairAcceptsPlus | src/color.rs:59-61 | a slice made of '+' and one digit is accepted as that digit, as `from_str_radix` does |
| Color.HexBytePair | src/color.rs:53-61 | the two digits written for a byte read back as that byte |
| Color.RgbHexRoundTrip | src/color.rs:53-63 | `hex_to_rgb(rgb_to_hex(r, g, b)) == (r, g, b)` for every byte triple |
| Color.HashesTrimmed | src/color.rs:58 | the trim removes every one of any number of leading '#' |
| Color.LeadingHashIgnored | src/color.rs:58 | any number of leading '#' make no difference to the result |
| Color.TailIgnored | src/color.rs:57-63 | characters after the first six digits are never read |
| Color.TrimAppend | src/color.rs:58 | trimming '#' commutes with appending text after a non-'#' character |
| Color.BytesRecombine | src/color.rs:53-63 | the three bytes of a 24-bit code, read in base 256, give the code back |
| Color.RgbToHexValue | src/color.rs:53-55 | the six digits written are one hexadecimal numeral with value `(r*256 + g)*256 + b` |
| Color.CssHex | src/color.rs:35 | corrected `Display`: '#' and a hexadecimal numeral whose value is the code; within range it has seven characters and `hex_to_rgb` reads back the code's three bytes |
| Color.CssHexInjective | src/color.rs:35 | distinct colours get distinct corrected texts |
| Color.CssHexAvoids | src/color.rs:35 | the corrected text contains no character other than '#' and hexadecimal digits |
| Color.CssHexInRange | src/color.rs:35 | within range the corrected text is what `rgb_to_hex` writes for the code's bytes |
| Color.WhiteHex | src/color.rs:53-55 | white's bytes are written "#ffffff" |
| Color.DefaultCssHex | src/color.rs:17-21 | the default colour's corrected text is "#ffffff" |
| Color.WhiteDecimal | src/color.rs:35 | white's code in decimal is "16777215" |
| Color.WhitePair | src/color.rs:59-61 | the three pairs of "16777215" at 0, 2 and 4 parse as hexadecimal bytes |
| Color.HexToRgbOf | src/color.rs:57-63 | three successful pair reads after the trim make `hex_to_rgb` return those three bytes |
| Color.WhiteTrimmed | src/color.rs:58 | trimming "#16777215" leaves "16777215" |
| Color.WhiteDecimalAsHex | src/color.rs:57-63 | "#16777215" reads as the bytes (0x16, 0x77, 0x72) |
| Color.DefaultDisplay | src/color.rs:17-38 | white displays as "#16777215", while its bytes are (0xff, 0xff, 0xff) |
| Color.DisplayMisreadAsHex | src/color.rs:35 | reading white's displayed text as hexadecimal gives (0x16, 0x77, 0x72), not white's bytes |
| Units.IntoUnit | src/unit.rs:59-66 | `into_unit` keeps the measurement and the magnitude |
| Units.FromPair | src/unit.rs:22-32 | `From<(B, f64)>` converts the measurement and keeps the magnitude |
| Units.FromPairIsIntoUnit | src/unit.rs:22-66 | converting a pair with the identity conversion builds the same unit as `into_unit` |
| Units.UnitText | src/unit.rs:34-40 | the text is the magnitude's text followed by the measurement's name |
| Units.SplitUnitText | src/unit.rs:34-40 | splitting off the trailing lower-case word gives the text back when rejoined, and the number part does not end in a lower-case letter |
| Units.SplitUnitTextOf | src/unit.rs:34-40 | a number part not ending in a lower-case letter and a lower-case word split back apart exactly |
| Units.MeasurementReadsBack | src/unit.rs:34-40 | from a unit's text, the magnitude's text and the measurement are recovered |
| Units.RelativeUnitReadsBack | src/unit.rs:34-40 | a relative unit's measurement is recovered from its text |
| Units.AbsoluteName | src/unit.rs:43-57 | the name is the identifier lower-cased, a non-empty lower-case word |
| Units.ParseAbsolute | src/unit.rs:43-57 | `EnumString`: a parsed value displays as the parsed text |
| Units.AbsoluteRoundTrip | src/unit.rs:43-57 | parsing a name gives its value back, and no two values share a name |
| Units.RelativeName | src/unit.rs:69-83 | the name is the identifier lower-cased, a non-empty lower-case word |
| Units.ParseRelative | src/unit.rs:69-83 | a parsed value displays as the parsed text |
| Units.RelativeRoundTrip | src/unit.rs:69-83 | parsing a name gives its value back, and no two values share a name |
| Units.ViewportName | src/unit.rs:95-114 | the name is the identifier lower-cased, a non-empty lower-case word |
| Units.ParseViewport | src/unit.rs:95-114 | a parsed value displays as the parsed text |
| Units.ViewportRoundTrip | src/unit.rs:95-114 | parsing a name gives its value back, and no two values share a name |
| Units.AngleName | src/unit.rs:126-137 | the name is the identifier lower-cased, a non-empty lower-case word |
| Units.ParseAngle | src/unit.rs:126-137 | a parsed value displays as the parsed text |
| Units.AngleRoundTrip | src/unit.rs:126-137 | parsing a name gives its value back, and no two values share a name |
| Units.TimeName | src/unit.rs:149-158 | the name is the identifier lower-cased, a non-empty lower-case word |
| Units.ParseTime | src/unit.rs:149-158 | a parsed value displays as the parsed text |
| Units.TimeRoundTrip | src/unit.rs:149-158 | parsing a name gives its value back, and no two values share a name |
| Units.FrequencyName | src/unit.rs:170-179 | the name is the identifier lower-cased, a non-empty lower-case word |
| Units.ParseFrequency | src/unit.rs:170-179 | a parsed value displays as the parsed text |
| Units.FrequencyRoundTrip | src/unit.rs:170-179 | parsing a name gives its value back, and no two values share a name |
| Units.ResolutionName | src/unit.rs:191-201 | the name is the identifier lower-cased, a non-empty lower-case word |
| Units.ParseResolution | src/unit.rs:191-201 | a parsed value displays as the parsed text |
| Units.ResolutionRoundTrip | src/unit.rs:191-201 | parsing a name gives its value back, and no two values share a name |
| Direction.Sides | src/direction.rs:5-15 | each direction names one side, or the two sides of a corner (one vertical, one horizontal) |
| Typography.AlignmentWords | src/typography.rs:8-14 | the identifier's capitalised words, which concatenate to the identifier |
| Typography.AlignmentName | src/typography.rs:6-14 | a non-empty keyword of lower-case letters and '-' |
| Typography.AlignmentNameIsKebab | src/typography.rs:7-14 | the name is the identifier's words lower-cased and joined by '-' |
| Typography.AlignmentNameInjective | src/typography.rs:6-14 | no two alignments share a name |
| Typography.DecorWords | src/typography.rs:20-25 | the identifier's capitalised words, which concatenate to the identifier |
| Typography.DecorName | src/typography.rs:18-25 | a non-empty keyword of lower-case letters and '-' |
| Typography.LineThroughIsKebab | src/typography.rs:19-23 | `LineThrough` is written "line-through" |
| Typography.DecorNameIsKebab | src/typography.rs:19-25 | the name is the identifier's words lower-cased and joined by '-' |
| Typography.DecorNameInjective | src/typography.rs:18-25 | no two decoration lines share a name |
| Typography.DecorStyleWords | src/typography.rs:32-39 | the identifier's capitalised words, which concatenate to the identifier |
| Typography.DecorStyleName | src/typography.rs:30-39 | a non-empty keyword of lower-case letters and '-' |
| Typography.DecorStyleNameIsKebab | src/typography.rs:31-39 | the name is the identifier's words lower-cased and joined by '-' |
| Typography.DecorStyleNameInjective | src/typography.rs:30-39 | no two decoration styles share a name |
| Typography.WeightWords | src/typography.rs:54-60 | the identifier's capitalised words, which concatenate to the identifier |
| Typography.WeightName | src/typography.rs:52-60 | a non-empty keyword of lower-case letters and '-' |
| Typography.WeightNameIsKebab | src/typography.rs:53-60 | the name is the identifier's words lower-cased and joined by '-' |
| Typography.WeightNameInjective | src/typography.rs:52-60 | no two weights share a name |
| Typography.WhiteSpaceWords | src/typography.rs:67-74 | the identifier's capitalised words, which concatenate to the identifier |
| Typography.WhiteSpaceName | src/typography.rs:65-74 | a non-empty keyword of lower-case letters and '-' |
| Typography.NoWrapIsKebab | src/typography.rs:66-70 | `NoWrap` is written "no-wrap" |
| Typography.PreWrapIsKebab | src/typography.rs:66-72 | `PreWrap` is written "pre-wrap" |
| Typography.PreLineIsKebab | src/typography.rs:66-73 | `PreLine` is written "pre-line" |
| Typography.WhiteSpaceNameIsKebab | src/typography.rs:66-74 | the name is the identifier's words lower-cased and joined by '-' |
| Typography.WhiteSpaceNameInjective | src/typography.rs:65-74 | no two white-space values share a name |
| Typography.OverflowWrapWords | src/typography.rs:81-86 | the identifier's capitalised words, which concatenate to the identifier |
| Typography.OverflowWrapName | src/typography.rs:79-86 | a non-empty keyword of lower-case letters and '-' |
| Typography.BreakWordIsKebab | src/typography.rs:80-84 | `BreakWord` is written "break-word" |
| Typography.OverflowWrapNameIsKebab | src/typography.rs:80-86 | the name is the identifier's words lower-cased and joined by '-' |
| Typography.OverflowWrapNameInjective | src/typography.rs:79-86 | no two overflow-wrap values share a name |
| Typography.GradientName | src/typography.rs:91-102 | a non-empty keyword of lower-case letters and '-' |
| Typography.LinearSpelling | src/typography.rs:94-95 | `Linear` is written "linear-gradient" |
| Typography.RadialSpelling | src/typography.rs:96-97 | `Radial` is written "radial-gradient" |
| Typography.ConicSpelling | src/typography.rs:98-99 | `Conic` is written "conic-gradient" |
| Typography.RepeatingSpelling | src/typography.rs:100-101 | `Repeating` is written "repeating-gradient" |
| Typography.GradientNameSpelling | src/typography.rs:91-102 | every gradient is written as its identifier lower-cased followed by "-gradient" |
| Typography.GradientNameInjective | src/typography.rs:91-102 | no two gradients share a name |
| Typography.Resolve | src/typography.rs:164-193 | each given prop is kept; each absent one takes its default: one em, `T::default()`, Normal, Linear, Bottom, `[white]`, one em, one em, no lines, white, Solid, Normal, Normal, Left |
| Typography.DefaultSettings | src/typography.rs:164-193 | with no props the settings are exactly those defaults |
| Typography.DirectionPhrase | src/typography.rs:197-206 | each phrase consists of lower-case letters and spaces |
| Typography.BottomPhraseNamesSides | src/typography.rs:198 | "to bottom" names the bottom side |
| Typography.BottomLeftPhraseNamesSides | src/typography.rs:199 | "to left bottom" names the corner of the left and bottom sides |
| Typography.BottomRightPhraseNamesSides | src/typography.rs:200 | "to bottom right" names the corner of the bottom and right sides |
| Typography.LeftPhraseNamesSides | src/typography.rs:201 | "to left" names the left side |
| Typography.RightPhraseNamesSides | src/typography.rs:202 | "to right" names the right side |
| Typography.TopPhraseNamesSides | src/typography.rs:203 | "to top" names the top side |
| Typography.TopLeftPhraseNamesSides | src/typography.rs:204 | "to top left" names the corner of the top and left sides |
| Typography.TopRightPhraseNamesSides | src/typography.rs:205 | "to top right" names the corner of the top and right sides |
| Typography.PhraseNamesSides | src/typography.rs:197-206 | every phrase is "to " followed by the side, or the two sides of the corner, that its direction is named after |
| Typography.DirectionPhraseInjective | src/typography.rs:197-206 | no two directions share a phrase |
| Typography.DisplayIsPlain | src/typography.rs:212 | the component's colour text, `Display`, is non-empty, injective and free of '(', ')', ',' and space |
| Typography.CssHexIsPlain | src/color.rs:35 | the corrected colour text is non-empty, injective and free of '(', ')', ',' and space |
| Typography.ColorTexts | src/typography.rs:208-215 | one text per colour, in order, each the colour as the writer writes it |
| Typography.Background | src/typography.rs:194-217 | the gradient's function name, '(' and, last, ')', around the direction phrase, ',' and the ", "-joined colour texts; `BackgroundReadsBack` and `BackgroundInjective` show every part is recoverable |
| Typography.BuildBackground | src/typography.rs:194-217 | the pushes produce the gradient name, '(', the direction phrase, ',', the ", "-joined decimal `Display` texts of the colours and ')' |
| Typography.ColorListShape | src/typography.rs:208-216 | the colour list holds no parenthesis, and splitting it at ", " gives back the colour texts |
| Typography.NamePhraseAvoid | src/typography.rs:195-206 | gradient names and phrases hold no parenthesis; phrases hold no comma |
| Typography.PartsOf | src/typography.rs:194-217 | a background-shaped text reads back as its name, its phrase and its list items |
| Typography.BackgroundReadsBack | src/typography.rs:194-217 | the gradient name, the direction phrase and every colour text are recovered from the background |
| Typography.BackgroundInjective | src/typography.rs:194-217 | different gradients, directions or colour lists give different backgrounds |
| Typography.DecorNames | src/typography.rs:180-187 | one name per decoration line, in order |
| Typography.Decoration | src/typography.rs:180-190 | the ", "-joined line names first, then a space, the style name, a space and, last, the colour text; `DecorationReadsBack` and `DecorationInjective` show every part is recoverable |
| Typography.DecorListReadsBack | src/typography.rs:180-187 | the ", "-joined line names split back into the names |
| Typography.DecorationPieces | src/typography.rs:190 | the style and the colour contain no space, and the value is the list, a space, the style, a space and the colour |
| Typography.DecorationReadsBack | src/typography.rs:180-190 | the line list, the style name and the colour text are recovered from the value |
| Typography.DecorationInjective | src/typography.rs:180-190 | different lines, styles or colours give different decoration values |
| Typography.DeclarationLines | src/typography.rs:222-233 | one declaration per property, in template order, each with its value |
| Typography.StyleValues | src/typography.rs:234-243 | exactly one value per property of the template |
| Typography.StyleText | src/typography.rs:219-244 | a newline, the ten declaration lines in template order, and the closing indentation; `StyleDeclares` places the k-th declaration |
| Typography.Style | src/typography.rs:219-244 | the style text opens with a newline and closes with the indentation; `StyleBinds` shows its k-th declaration carries the k-th property's resolved setting |
| Typography.Typography | src/typography.rs:157-247 | the style the component builds is the template filled with the resolved values and the pushed background, every colour written with `Display` |
| Typography.StyleDeclares | src/typography.rs:221-244 | the style text holds the k-th property's declaration with the k-th value, between the others in template order |
| Typography.StyleBinds | src/typography.rs:219-243 | in the rendered style the k-th declaration is the k-th property name ("font-size" … "text-align") with the value of the setting the props resolve to for it |
| Typography.DefaultBackground | src/typography.rs:194-217 | with no props the background the component writes is "linear-gradient(to bottom,#16777215)" |
| Typography.DefaultBackgroundCorrected | src/typography.rs:194-217 | with the corrected colour text the default background is "linear-gradient(to bottom,#ffffff)" |
| Typography.DefaultDecoration | src/typography.rs:180-190 | with no props the decoration value the component writes is " solid #16777215" |
| Typography.DefaultDecorationCorrected | src/typography.rs:180-190 | with the corrected colour text the default decoration value is " solid #ffffff" |
| Typography.DefaultStyleValues | src/typography.rs:164-243 | with no props the ten values are one em, the default family, "normal", the background over "#16777215", one em, one em, the decoration in "#16777215", "normal", "normal" and "left" |
| Typography.DecorThicknessIgnored | src/typography.rs:125 | `decor_thickness` never changes the style |
| Device.Classify | src/win/device.rs:22-30 | each class is chosen exactly when the width lies in its half-open band |
| Device.Above | src/win/device.rs:23-29 | counts at most as many thresholds as there are |
| Device.AbovePrefix | src/win/device.rs:23-29 | for descending thresholds, exactly the first `Above` thresholds exceed the width |
| Device.ClassifyCountsThresholds | src/win/device.rs:22-30 | a class's rank is the number of thresholds above the width |
| Device.ClassifyMonotone | src/win/device.rs:22-30 | a wider window never gets a smaller-screen class |
| Device.UseDevice | src/win/device.rs:16-38 | no width gives no device, an error is passed through, and a width gives its class |
| Win.MouseEventsDistinct | src/win/mod.rs:29-36 | six mouse events, no two the same |
| Win.Window.AddEventListener | src/win/mod.rs:142 | a refused event throws the window's value and registers nothing; otherwise the pair is registered; the call is logged either way |
| Win.Window.RemoveEventListener | src/win/mod.rs:156 | the pair is unregistered and the call logged |
| Win.FirstRefusal | src/win/mod.rs:141-143 | the position of the first refused event, or the length when none is refused |
| Win.Cleaned | src/win/mod.rs:148-160 | an empty slot leaves the registry alone; otherwise exactly the closure's pairs for the listed events are removed: the closure stays registered exactly for the events not listed, and every other listener's registration survives |
| Win.CleanupCalls | src/win/mod.rs:148-160 | an empty slot makes no calls; otherwise one removal per listed event, in order |
| Win.DropBoth | src/win/mod.rs:93-113 | two tokens sharing one unborrowed cell with at least two owners: dropping both removes the closure once from every listed event, logs exactly one round of removals, and lowers the owner count by two |
| Win.RunCleanup | src/win/mod.rs:148-160 | the closure is removed from every listed event, the slot is emptied, and the removals are logged |
| Win.FromStaticDynFnMutBox | src/win/mod.rs:57-64 | the token owns a new cell around the cleanup, with one owner and no borrow |
| Win.ToOwned | src/win/mod.rs:93-100 | the copy shares the same cell, and the owner count goes up by one |
| Win.Drop | src/win/mod.rs:103-113 | an empty token does nothing; a borrowed cell skips the cleanup; otherwise the cleanup runs; the owner count goes down by one |
| Win.On | src/win/mod.rs:116-162 | no window gives `MissingWindow`; the closure is attached event by event up to the first refusal, which fails with `EventListenerAttachmentFailure` carrying the thrown value; when all succeed a fresh token whose cleanup detaches the closure from exactly those events is returned |
| Win.ListenAndDispose | src/win/mod.rs:116-162 | attaching to `MOUSE_EVENTS` and dropping the token leaves the window with no listeners, after six additions and then six removals |

## Left out

- `interpolate` (`src/color.rs:41-51`) is floating point and is not modelled.
- `hex_to_rgb` slices bytes, and the model slices characters. The two succeed
  on the same inputs, with the same result, since a success needs six ASCII
  characters. On text holding a non-ASCII character the failure reason can
  differ: for "abcdé" Rust reads "é" and reports `InvalidDigit`, while the
  model reports `SliceOutOfRange(6)`. A slice boundary inside a multi-byte
  character panics in Rust and is an ordinary failure in the model.
- Panics are values. The model does not capture unwinding.
- Numbers are `real`, and their text is a parameter `formatN`. Rust's `f64`
  rounding and its NaN and infinity are not modelled. The same holds for the
  widths in `use_device`.
- The family type `T` is given by its `Display` (`show`) and its default
  value. `Family` (`src/typography.rs:44-47`) has no `Display`.
- `EnumString` parse errors are `None`. The error type `strum::ParseError` is
  not modelled.
- The `div` the component renders, and the Dioxus signals and hooks
  (`use_inner_w`, `use_signal`, `ret.set`), are not modelled. `UseDevice` is
  the value the signal is set to for a given inner width.
- `from_dyn_fn_mut_closure` (`src/win/mod.rs:66-87`) wraps a JavaScript
  function call. It is not modelled.
- The branch at `src/win/mod.rs:137-139` cannot be taken, because the slot was
  just filled, so it is not modelled.
- The event handler is never invoked by the model. Events are not dispatched.
- The console messages written when a drop finds the cell borrowed are not
  modelled.
- `remove_event_listener_with_callback(...).expect("")` is taken never to fail.
  The DOM's `removeEventListener` does not throw.
- A panic from `borrow_mut` on the closure slot, when the cleanup re-enters
  itself, is not modelled.
- When the last owner drops, `Rc` frees the cell. Deallocation is not modelled,
  and the `owners` count only records it.

## Findings

| source | as written | input that shows it | evidently intended | confidence | as-written member | corrected member |
|---|---|---|---|---|---|---|
| src/color.rs:35 | `Display for Color` writes `#` and the code in decimal | the default colour 0xffffff displays as "#16777215", which CSS reads as the eight-digit `#rrggbbaa` colour (0x16, 0x77, 0x72) at alpha 0x15 | `#` and six lower-case hexadecimal digits, "#ffffff" | high, not executed | Color.DisplayMisreadAsHex | Color.CssHex |
