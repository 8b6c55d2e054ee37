/**
  Colour codes: a 24-bit RGB code behind a range check, the text its `Display`
  writes, and the `#rrggbb` serialiser and parser for byte triples.
*/
module Color {
  import opened Wrappers
  import opened Text

  type u8 = x: int | 0 <= x < 0x100
  type u32 = x: int | 0 <= x < 0x1_0000_0000

  /** The largest 24-bit code: white. */
  const MaxCode: u32 := 0xff_ffff

  /** `Color::Hex(u32)`. The variant is public, so a code above `MaxCode` can be
      built directly; only the two constructors below check the range. */
  datatype Color = Hex(code: u32)

  /** A call that returns a value or panics with a message. */
  datatype Outcome<+T> = Returned(value: T) | Panicked(message: string)

  const RangeMessage := "[ABORT] Value out of 24-bit RGB range"

  /** `Color::from_hex`: the colour for a code up to 0xffffff; a panic above. */
  function FromHex(code: u32): (r: Outcome<Color>)
    ensures r.Returned? <==> code <= MaxCode
    ensures r.Returned? ==> r.value.code == code
    ensures r.Panicked? ==> r.message == RangeMessage
  {
    if code > MaxCode then Panicked(RangeMessage) else Returned(Hex(code))
  }

  /** `From<u32> for Color`: the same range check; its panic message ends with
      ": 0x" and the rejected code in upper-case hexadecimal. */
  function FromU32(value: u32): (r: Outcome<Color>)
    ensures r.Returned? <==> value <= MaxCode
    ensures r.Returned? ==> r.value.code == value
    ensures r.Panicked? ==>
      var m, n := r.message, |RangeMessage| + 4;
      |m| > n && m[..n] == RangeMessage + ": 0x" &&
      IsNumeral(m[n..], 16) && NumeralValue(m[n..], 16) == value
      && (forall i :: n <= i < |m| ==> !IsLowerLetter(m[i]))
      && (m[n] != '0' || |m| == n + 1)
  {
    if value > MaxCode then
      var digits := Numeral(value, 16, true);
      NumeralRoundTrip(value, 16, true);
      var m := RangeMessage + ": 0x" + digits;
      assert m[|RangeMessage| + 4..] == digits;
      Panicked(m)
    else Returned(Hex(value))
  }

  /** The two constructors accept the same codes and build the same colour. */
  lemma ConstructorsAgree(code: u32)
    ensures FromU32(code).Returned? == FromHex(code).Returned?
    ensures FromU32(code).Returned? ==> FromU32(code).value == FromHex(code).value
  {
  }

  /** `Color::default()`: `from_hex(0xffffff)`, white. */
  function Default(): (c: Color)
    ensures c.code == MaxCode
  {
    FromHex(MaxCode).value
  }

  /** `Display for Color`: '#' followed by the code in DECIMAL. */
  function Display(c: Color): (s: string)
    ensures |s| >= 2 && s[0] == '#'
    ensures IsNumeral(s[1..], 10) && NumeralValue(s[1..], 10) == c.code
    ensures |s| > 2 ==> s[1] != '0'
  {
    NumeralRoundTrip(c.code, 10, false);
    var s := "#" + Numeral(c.code, 10, false);
    assert s[1..] == Numeral(c.code, 10, false);
    s
  }

  /** The displayed text holds only '#' and decimal digits. */
  lemma DisplayAvoids(c: Color, ch: char)
    requires ch != '#' && !IsDigitIn(ch, 10)
    ensures ch !in Display(c)
  {
    var s := Display(c);
    NumeralAvoids(s[1..], 10, ch);
    assert s == [s[0]] + s[1..];
  }

  /** Distinct colours display differently. */
  lemma DisplayInjective(a: Color, b: Color)
    requires Display(a) == Display(b)
    ensures a == b
  {
  }

  /** `{:02x}` of a byte: two lower-case hexadecimal digits, zero-padded. */
  function HexByte(v: u8): (s: string)
    ensures |s| == 2 && IsNumeral(s, 16) && NumeralValue(s, 16) == v
    ensures !IsUpper(s[0]) && !IsUpper(s[1])
  {
    var s := [DigitChar(v / 16, false), DigitChar(v % 16, false)];
    assert s[..1][..0] == [] && s[..1] == [s[0]];
    assert NumeralValue(s[..1], 16) == v / 16;
    s
  }

  /** `rgb_to_hex`: '#' and the three bytes as two lower-case hex digits each,
      red, green, blue. */
  function RgbToHex(r: u8, g: u8, b: u8): (s: string)
    ensures |s| == 7 && s[0] == '#'
    ensures forall i :: 1 <= i < 7 ==> IsDigitIn(s[i], 16) && !IsUpper(s[i])
    ensures NumeralValue(s[1..3], 16) == r
    ensures NumeralValue(s[3..5], 16) == g
    ensures NumeralValue(s[5..7], 16) == b
  {
    var s := "#" + HexByte(r) + HexByte(g) + HexByte(b);
    assert s[1..3] == HexByte(r) && s[3..5] == HexByte(g) && s[5..7] == HexByte(b);
    s
  }

  /** Why `hex_to_rgb` panics: a slice ending past the string, or a pair that
      `from_str_radix` rejects (with the pair's start). */
  datatype HexError = SliceOutOfRange(end: nat) | ParseFailure(start: nat, kind: IntErrorKind)

  /** `u8::from_str_radix(&t[start..start + 2], 16).unwrap()`. */
  function HexPair(t: string, start: nat): (r: Result<u8, HexError>)
    ensures |t| < start + 2 ==> r == Err(SliceOutOfRange(start + 2))
    ensures start + 2 <= |t| ==> (r.Ok? <==> FromStrRadix(t[start..start + 2], 16, 0xff).Ok?)
    ensures r.Ok? ==> FromStrRadix(t[start..start + 2], 16, 0xff) == Ok(r.value as nat)
    ensures start + 2 <= |t| && r.Err? ==>
      r == Err(ParseFailure(start, FromStrRadix(t[start..start + 2], 16, 0xff).error))
  {
    if |t| < start + 2 then Err(SliceOutOfRange(start + 2))
    else
      match FromStrRadix(t[start..start + 2], 16, 0xff)
      case Ok(v) => Ok(v)
      case Err(kind) => Err(ParseFailure(start, kind))
  }

  /** `hex_to_rgb`: every leading '#' stripped, then the pairs at 0, 2 and 4
      read in base 16 as red, green and blue; anything after them is ignored.
      The first slice out of range or pair that does not parse is the panic. */
  function HexToRgb(hex: string): (r: Result<(u8, u8, u8), HexError>)
    ensures |TrimStartMatches(hex, '#')| < 6 ==> r.Err?
    ensures var t := TrimStartMatches(hex, '#');
      r.Ok? <==> (|t| >= 6 && FromStrRadix(t[0..2], 16, 0xff).Ok?
                  && FromStrRadix(t[2..4], 16, 0xff).Ok? && FromStrRadix(t[4..6], 16, 0xff).Ok?)
    ensures var t := TrimStartMatches(hex, '#');
      r.Ok? ==> (r.value.0 == FromStrRadix(t[0..2], 16, 0xff).value
                 && r.value.1 == FromStrRadix(t[2..4], 16, 0xff).value
                 && r.value.2 == FromStrRadix(t[4..6], 16, 0xff).value)
  {
    var t := TrimStartMatches(hex, '#');
    match HexPair(t, 0)
    case Err(e) => Err(e)
    case Ok(red) =>
      match HexPair(t, 2)
      case Err(e) => Err(e)
      case Ok(green) =>
        match HexPair(t, 4)
        case Err(e) => Err(e)
        case Ok(blue) => Ok((red, green, blue))
  }

  /** Two hexadecimal digits of either case parse to the byte they spell. */
  lemma PairParses(d1: nat, d2: nat, upper1: bool, upper2: bool)
    requires d1 < 16 && d2 < 16
    ensures FromStrRadix([DigitChar(d1, upper1), DigitChar(d2, upper2)], 16, 0xff) == Ok(d1 * 16 + d2)
  {
    var s := [DigitChar(d1, upper1), DigitChar(d2, upper2)];
    assert DigitValue('+') == None && DigitValue('-') == None;
    assert s[1..] == [s[1]] && s[1..][1..] == [];
    assert Accumulate(s[1..][1..], 16, 0xff, d1 * 16 + d2) == Ok(d1 * 16 + d2);
    assert Accumulate(s[1..], 16, 0xff, d1) == Ok(d1 * 16 + d2);
  }

  /** Any two hexadecimal digit characters, upper or lower case, parse to the
      byte they spell. */
  lemma DigitsParse(a: char, b: char)
    requires IsDigitIn(a, 16) && IsDigitIn(b, 16)
    ensures FromStrRadix([a, b], 16, 0xff) == Ok(DigitValue(a).value * 16 + DigitValue(b).value)
  {
    var s, hi, lo := [a, b], DigitValue(a).value, DigitValue(b).value;
    assert DigitValue('+') == None && DigitValue('-') == None;
    assert s[1..] == [b] && s[1..][1..] == [];
    assert Accumulate(s[1..][1..], 16, 0xff, hi * 16 + lo) == Ok(hi * 16 + lo);
    assert Accumulate(s[1..], 16, 0xff, hi) == Ok(hi * 16 + lo);
  }

  /** A pair holding a character that is not a hexadecimal digit does not parse,
      unless it is a '+' sign in front. */
  lemma PairRejects(p: string, j: nat)
    requires |p| == 2 && j < 2 && DigitValue(p[j]).None? && (j == 1 || p[0] != '+')
    ensures FromStrRadix(p, 16, 0xff).Err?
  {
    var rest := p[1..];
    assert rest == [p[1]];
    if p[0] == '+' {
      assert FromStrRadix(p, 16, 0xff) == Accumulate(rest, 16, 0xff, 0);
      assert !IsDigitIn(rest[0], 16);
    } else {
      assert FromStrRadix(p, 16, 0xff) == Accumulate(p, 16, 0xff, 0);
      if IsDigitIn(p[0], 16) {
        assert p[1..] == rest;
        assert !IsDigitIn(rest[0], 16);
      }
    }
  }

  /** A pair of hexadecimal digit characters in the text reads as the byte they spell. */
  lemma DigitsPair(t: string, start: nat)
    requires start + 2 <= |t| && IsDigitIn(t[start], 16) && IsDigitIn(t[start + 1], 16)
    ensures HexPair(t, start) == Ok(DigitValue(t[start]).value * 16 + DigitValue(t[start + 1]).value)
  {
    assert t[start..start + 2] == [t[start], t[start + 1]];
    DigitsParse(t[start], t[start + 1]);
  }

  /** Six hexadecimal digits, in any mix of cases, read as the three bytes they
      spell; `HexToRgbOf` then gives the triple `hex_to_rgb` returns. */
  lemma DigitPairsRead(t: string)
    requires |t| >= 6
    requires IsDigitIn(t[0], 16) && IsDigitIn(t[1], 16) && IsDigitIn(t[2], 16)
    requires IsDigitIn(t[3], 16) && IsDigitIn(t[4], 16) && IsDigitIn(t[5], 16)
    ensures HexPair(t, 0) == Ok(DigitValue(t[0]).value * 16 + DigitValue(t[1]).value)
    ensures HexPair(t, 2) == Ok(DigitValue(t[2]).value * 16 + DigitValue(t[3]).value)
    ensures HexPair(t, 4) == Ok(DigitValue(t[4]).value * 16 + DigitValue(t[5]).value)
  {
    DigitsPair(t, 0);
    DigitsPair(t, 2);
    DigitsPair(t, 4);
  }

  /** A pair that fails makes `hex_to_rgb` fail. */
  lemma HexToRgbFailsAt(hex: string, t: string, start: nat)
    requires TrimStartMatches(hex, '#') == t && start in {0, 2, 4} && HexPair(t, start).Err?
    ensures HexToRgb(hex).Err?
  {
  }

  /** A character among the first six that is not a hexadecimal digit (nor a
      '+' opening a pair) makes its pair fail; `HexToRgbFailsAt` then makes
      `hex_to_rgb` fail. */
  lemma NonHexPairFails(t: string, k: nat)
    requires k < 6 <= |t| && DigitValue(t[k]).None? && (k % 2 == 1 || t[k] != '+')
    ensures HexPair(t, k - k % 2).Err?
  {
    var start := k - k % 2;
    var p := t[start..start + 2];
    assert p[k % 2] == t[k];
    PairRejects(p, k % 2);
  }

  /** A '+' sign before a single digit is accepted too, as `from_str_radix` does. */
  lemma PairAcceptsPlus(d: nat, upper: bool)
    requires d < 16
    ensures FromStrRadix(['+', DigitChar(d, upper)], 16, 0xff) == Ok(d)
  {
    var s := ['+', DigitChar(d, upper)];
    assert s[1..] == [DigitChar(d, upper)] && s[1..][1..] == [];
    assert Accumulate(s[1..][1..], 16, 0xff, d) == Ok(d);
  }

  /** Two digits `rgb_to_hex` wrote for a byte parse back as that byte. */
  lemma HexBytePair(t: string, start: nat, v: u8)
    requires start + 2 <= |t| && t[start..start + 2] == HexByte(v)
    ensures HexPair(t, start) == Ok(v)
  {
    PairParses(v / 16, v % 16, false, false);
  }

  /** Parsing what `rgb_to_hex` writes gives back the triple. */
  lemma {:induction false} RgbHexRoundTrip(r: u8, g: u8, b: u8)
    ensures HexToRgb(RgbToHex(r, g, b)) == Ok((r, g, b))
  {
    var s := RgbToHex(r, g, b);
    var t := s[1..];
    assert TrimStartMatches(s, '#') == t by {
      assert s[0] == '#' && t[0] != '#';
      assert TrimStartMatches(t, '#') == t;
    }
    assert t[0..2] == HexByte(r) && t[2..4] == HexByte(g) && t[4..6] == HexByte(b);
    HexBytePair(t, 0, r);
    HexBytePair(t, 2, g);
    HexBytePair(t, 4, b);
    HexToRgbOf(s, t, r, g, b);
  }

  /** `k` copies of '#'. */
  function Hashes(k: nat): (h: string)
    ensures |h| == k
  {
    if k == 0 then [] else "#" + Hashes(k - 1)
  }

  /** `Hashes(k)` holds nothing but '#'. */
  lemma {:induction false} HashesOnlyHash(k: nat)
    ensures forall c :: c in Hashes(k) ==> c == '#'
  {
    if k > 0 {
      HashesOnlyHash(k - 1);
      assert Hashes(k) == "#" + Hashes(k - 1);
    }
  }

  /** The trim removes every one of `k` leading '#' characters. */
  lemma {:induction false} HashesTrimmed(k: nat, s: string)
    ensures TrimStartMatches(Hashes(k) + s, '#') == TrimStartMatches(s, '#')
  {
    if k > 0 {
      var rest := Hashes(k - 1) + s;
      calc {
        TrimStartMatches(Hashes(k) + s, '#');
        { assert Hashes(k) == ['#'] + Hashes(k - 1);
          ConsAppend('#', Hashes(k - 1), s); }
        TrimStartMatches(['#'] + rest, '#');
        { TrimDropsLead('#', rest); }
        TrimStartMatches(rest, '#');
        { HashesTrimmed(k - 1, s); }
        TrimStartMatches(s, '#');
      }
    } else {
      assert Hashes(k) + s == s;
    }
  }


  /** Prepending a character and appending a text associate. */
  lemma ConsAppend(c: char, h: string, s: string)
    ensures ([c] + h) + s == [c] + (h + s)
  {
  }

  /** Any number of leading '#' characters make no difference. */
  lemma LeadingHashIgnored(k: nat, s: string)
    ensures HexToRgb(Hashes(k) + s) == HexToRgb(s)
  {
    HashesTrimmed(k, s);
    SameTrimSameRgb(Hashes(k) + s, s);
  }

  /** The result depends on the text only through what the trim leaves. */
  lemma SameTrimSameRgb(a: string, b: string)
    requires TrimStartMatches(a, '#') == TrimStartMatches(b, '#')
    ensures HexToRgb(a) == HexToRgb(b)
  {
  }

  /** Characters after the first six (once the '#'s are stripped) are ignored. */
  lemma {:induction false} TailIgnored(s: string, tail: string)
    requires |TrimStartMatches(s, '#')| >= 6
    ensures HexToRgb(s + tail) == HexToRgb(s)
  {
    TrimAppend(s, tail);
    var t := TrimStartMatches(s, '#');
    var u := t + tail;
    assert u[0..2] == t[0..2] && u[2..4] == t[2..4] && u[4..6] == t[4..6];
  }

  lemma {:induction false} TrimAppend(s: string, tail: string)
    requires TrimStartMatches(s, '#') != []
    ensures TrimStartMatches(s + tail, '#') == TrimStartMatches(s, '#') + tail
  {
    if s != [] && s[0] == '#' {
      assert (s + tail)[1..] == s[1..] + tail;
      TrimAppend(s[1..], tail);
    }
  }

  /** The three bytes of a 24-bit code, red first. */
  function Bytes(c: Color): (u8, u8, u8)
    requires c.code <= MaxCode
  {
    (c.code / 0x1_0000, c.code / 0x100 % 0x100, c.code % 0x100)
  }

  /** The three bytes, read as base-256 digits, give the code back. */
  lemma BytesRecombine(c: Color)
    requires c.code <= MaxCode
    ensures var (r, g, b) := Bytes(c); (r * 0x100 + g) * 0x100 + b == c.code
  {
    var n := c.code;
    var q := n / 0x100;
    assert n == q * 0x100 + n % 0x100;
    assert q == (q / 0x100) * 0x100 + q % 0x100;
    assert q / 0x100 == n / 0x1_0000;
  }

  /** The six digits `rgb_to_hex` writes form one hexadecimal numeral whose value
      is the three bytes in base 256. */
  lemma RgbToHexValue(r: u8, g: u8, b: u8)
    ensures var t := RgbToHex(r, g, b)[1..];
      IsNumeral(t, 16) && NumeralValue(t, 16) == (r * 0x100 + g) * 0x100 + b
  {
    var s := RgbToHex(r, g, b);
    var p, q, u := s[1..3], s[3..5], s[5..7];
    assert IsNumeral(p, 16) && IsNumeral(q, 16) && IsNumeral(u, 16);
    HexValueAppendPair(p, q);
    HexValueAppendPair(p + q, u);
    assert s[1..] == p + q + u;
  }

  /** What `Display` was evidently meant to write: `{:06x}`, '#' and the code in
      lower-case hexadecimal, zero-padded to six digits. Within range those are
      the three bytes as `rgb_to_hex` writes them; above it no padding is needed. */
  function CssHex(c: Color): (s: string)
    ensures |s| >= 2 && s[0] == '#'
    ensures IsNumeral(s[1..], 16) && NumeralValue(s[1..], 16) == c.code
    ensures c.code <= MaxCode ==> |s| == 7 && HexToRgb(s) == Ok(Bytes(c))
  {
    if c.code <= MaxCode then
      var (r, g, b) := Bytes(c);
      RgbHexRoundTrip(r, g, b);
      RgbToHexValue(r, g, b);
      BytesRecombine(c);
      RgbToHex(r, g, b)
    else
      NumeralRoundTrip(c.code, 16, false);
      var s := "#" + Numeral(c.code, 16, false);
      assert s[1..] == Numeral(c.code, 16, false);
      s
  }

  /** Distinct colours get distinct corrected texts. */
  lemma CssHexInjective(a: Color, b: Color)
    requires CssHex(a) == CssHex(b)
    ensures a == b
  {
  }

  /** The corrected text holds only '#' and hexadecimal digits. */
  lemma CssHexAvoids(c: Color, ch: char)
    requires ch != '#' && DigitValue(ch).None?
    ensures ch !in CssHex(c)
  {
    var s := CssHex(c);
    NumeralAvoids(s[1..], 16, ch);
    assert s == [s[0]] + s[1..];
  }

  /** Within range the corrected text is what `rgb_to_hex` writes for the bytes. */
  lemma CssHexInRange(c: Color, r: u8, g: u8, b: u8)
    requires c.code <= MaxCode && Bytes(c) == (r, g, b)
    ensures CssHex(c) == RgbToHex(r, g, b)
  {
  }

  lemma WhiteHex()
    ensures RgbToHex(0xff, 0xff, 0xff) == "#ffffff"
  {
    assert DigitChar(15, false) == 'f';
    assert HexByte(0xff) == "ff";
  }

  /** White's corrected text. */
  lemma DefaultCssHex()
    ensures CssHex(Default()) == "#ffffff"
  {
    var c := Default();
    assert Bytes(c) == (0xff, 0xff, 0xff);
    CssHexInRange(c, 0xff, 0xff, 0xff);
    WhiteHex();
  }

  /** The decimal numeral of the default colour's code. */
  lemma WhiteDecimal()
    ensures Numeral(MaxCode, 10, false) == "16777215"
  {
    assert Numeral(1, 10, false) == "1";
    assert Numeral(16, 10, false) == "16";
    assert Numeral(167, 10, false) == "167";
    assert Numeral(1677, 10, false) == "1677";
    assert Numeral(16777, 10, false) == "16777";
    assert Numeral(167772, 10, false) == "167772";
    assert Numeral(1677721, 10, false) == "1677721";
  }

  /** One two-digit pair of "16777215" as `hex_to_rgb` reads it. */
  lemma WhitePair(start: nat, d1: nat, d2: nat)
    requires start in {0, 2, 4} && d1 < 10 && d2 < 10
    requires "16777215"[start] == DigitChar(d1, false) && "16777215"[start + 1] == DigitChar(d2, false)
    ensures HexPair("16777215", start) == Ok(d1 * 16 + d2)
  {
    var t := "16777215";
    assert t[start..start + 2] == [DigitChar(d1, false), DigitChar(d2, false)];
    PairParses(d1, d2, false, false);
  }

  /** `hex_to_rgb` succeeds when all three pairs of the trimmed text parse. */
  lemma HexToRgbOf(hex: string, t: string, red: u8, green: u8, blue: u8)
    requires TrimStartMatches(hex, '#') == t
    requires HexPair(t, 0) == Ok(red) && HexPair(t, 2) == Ok(green) && HexPair(t, 4) == Ok(blue)
    ensures HexToRgb(hex) == Ok((red, green, blue))
  {
  }

  /** Trimming "#16777215" leaves the eight digits. */
  lemma WhiteTrimmed()
    ensures TrimStartMatches("#16777215", '#') == "16777215"
  {
    var h, t := "#16777215", "16777215";
    assert h[0] == '#' && h[1..] == t && t[0] != '#';
  }

  /** `hex_to_rgb` reads "#16777215" as the bytes 0x16, 0x77, 0x72. */
  lemma WhiteDecimalAsHex()
    ensures HexToRgb("#16777215") == Ok((0x16, 0x77, 0x72))
  {
    WhiteTrimmed();
    WhitePair(0, 1, 6);
    WhitePair(2, 7, 7);
    WhitePair(4, 7, 2);
    HexToRgbOf("#16777215", "16777215", 0x16, 0x77, 0x72);
  }

  /** The default colour, white, displays as "#16777215"; its bytes are 0xff, 0xff, 0xff. */
  lemma DefaultDisplay()
    ensures Display(Default()) == "#16777215"
    ensures Bytes(Default()) == (0xff, 0xff, 0xff)
  {
    WhiteDecimal();
  }

  /** `Display` writes the code in decimal, but CSS and `hex_to_rgb` read the
      digits after '#' as hexadecimal: white's text reads back as 0x16, 0x77,
      0x72, not as white's bytes. */
  lemma DisplayMisreadAsHex()
    ensures HexToRgb(Display(Default())) == Ok((0x16, 0x77, 0x72))
    ensures HexToRgb(Display(Default())) != Ok(Bytes(Default()))
  {
    DefaultDisplay();
    WhiteDecimalAsHex();
  }
}
