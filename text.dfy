/**
  String helpers behind the formatters of the model: ASCII case, the case
  conventions of the derived `Display` implementations, `join` and a splitter
  that reads a joined list back, unsigned numerals in base 10 and 16, and the
  standard library's `trim_start_matches` and `from_str_radix`.
*/
module Text {
  import opened Wrappers

  predicate IsUpper(c: char) { 'A' <= c <= 'Z' }

  predicate IsLowerLetter(c: char) { 'a' <= c <= 'z' }

  function ToLower(c: char): char {
    if IsUpper(c) then (c as int + 32) as char else c
  }

  /** ASCII lower-casing, character by character. */
  function Lower(s: string): (r: string)
    ensures |r| == |s|
    ensures forall i :: 0 <= i < |s| ==> r[i] == ToLower(s[i])
  {
    seq(|s|, i requires 0 <= i < |s| => ToLower(s[i]))
  }

  /** All characters are lower-case ASCII letters. */
  predicate IsLowerWord(s: string) {
    forall i :: 0 <= i < |s| ==> IsLowerLetter(s[i])
  }

  /** One word of a Rust identifier in PascalCase: a capital, then lower-case letters. */
  predicate IsCapitalisedWord(w: string) {
    |w| > 0 && IsUpper(w[0]) && IsLowerWord(w[1..])
  }

  /** The identifier spelled by a list of words. */
  function Concat(words: seq<string>): string {
    if words == [] then "" else words[0] + Concat(words[1..])
  }

  /** The concatenation around one chosen word. */
  lemma {:induction false} ConcatAt(words: seq<string>, k: nat)
    requires k < |words|
    ensures Concat(words) == Concat(words[..k]) + words[k] + Concat(words[k + 1..])
  {
    if k == 0 {
      assert words[..0] == [];
    } else {
      ConcatAt(words[1..], k - 1);
      assert words[1..][..k - 1] == words[1..k] == words[..k][1..];
      assert words[1..][k - 1] == words[k];
      assert words[1..][k..] == words[k + 1..];
    }
  }

  /** The kebab-case spelling of an identifier given by its words: every word
      lower-cased, words separated by '-'. */
  function KebabCase(words: seq<string>): string {
    if words == [] then ""
    else if |words| == 1 then Lower(words[0])
    else Lower(words[0]) + "-" + KebabCase(words[1..])
  }

  /** The kebab-case spelling of a two-word identifier. */
  lemma KebabCaseTwo(a: string, b: string)
    ensures KebabCase([a, b]) == Lower(a) + "-" + Lower(b)
  {
    assert [a, b][1..] == [b];
  }

  /** `[String]::join`: the parts with `sep` between neighbours. */
  function Join(parts: seq<string>, sep: string): string {
    if parts == [] then ""
    else if |parts| == 1 then parts[0]
    else parts[0] + sep + Join(parts[1..], sep)
  }

  /** A character in neither the parts nor the separator is not in their join. */
  lemma {:induction false} JoinAvoids(parts: seq<string>, sep: string, c: char)
    requires c !in sep
    requires forall i :: 0 <= i < |parts| ==> c !in parts[i]
    ensures c !in Join(parts, sep)
  {
    if |parts| > 1 {
      JoinAvoids(parts[1..], sep, c);
    }
  }

  /** The pieces of `s` between occurrences of `c` (always at least one piece). */
  function Split(s: string, c: char): (r: seq<string>)
    ensures |r| > 0
  {
    if s == [] then [""]
    else
      var rest := Split(s[1..], c);
      if s[0] == c then [""] + rest
      else [[s[0]] + rest[0]] + rest[1..]
  }

  /** A prefix free of the separator sticks to the first piece. */
  lemma {:induction false} SplitPrefix(p: string, s: string, c: char)
    requires c !in p
    ensures Split(p + s, c) == [p + Split(s, c)[0]] + Split(s, c)[1..]
  {
    if p != [] {
      assert (p + s)[0] == p[0] && (p + s)[1..] == p[1..] + s;
      SplitPrefix(p[1..], s, c);
      assert [p[0]] + (p[1..] + Split(s, c)[0]) == p + Split(s, c)[0];
    } else {
      assert p + s == s && p + Split(s, c)[0] == Split(s, c)[0];
      assert Split(s, c) == [Split(s, c)[0]] + Split(s, c)[1..];
    }
  }

  /** Splitting at one separator splits the two sides independently. */
  lemma {:induction false} SplitAppend(a: string, b: string, c: char)
    ensures Split(a + [c] + b, c) == Split(a, c) + Split(b, c)
  {
    if a == [] {
      assert a + [c] + b == [c] + b;
      assert ([c] + b)[1..] == b;
    } else {
      assert (a + [c] + b)[1..] == a[1..] + [c] + b;
      SplitAppend(a[1..], b, c);
    }
  }

  /** A string free of the separator is one piece. */
  lemma SplitFree(s: string, c: char)
    requires c !in s
    ensures Split(s, c) == [s]
  {
    SplitPrefix(s, "", c);
    assert s + "" == s;
  }

  /** A string with exactly one `c`, splitting into the text before and after it. */
  lemma SplitAround(a: string, b: string, c: char)
    requires c !in a && c !in b
    ensures Split(a + [c] + b, c) == [a, b]
  {
    SplitAppend(a, b, c);
    SplitFree(a, c);
    SplitFree(b, c);
  }

  /** Joining the pieces with the separator gives the string back. */
  lemma {:induction false} JoinSplit(s: string, c: char)
    ensures Join(Split(s, c), [c]) == s
  {
    if s != [] {
      var rest := Split(s[1..], c);
      JoinSplit(s[1..], c);
      if s[0] != c && |rest| > 1 {
        assert Join(rest, [c]) == rest[0] + [c] + Join(rest[1..], [c]);
      }
    }
  }

  /** Drops the one space a `", "` separator leaves at the front of a piece. */
  function DropSpace(s: string): string {
    if |s| > 0 && s[0] == ' ' then s[1..] else s
  }

  /** Reads back a list written by `Join(parts, ", ")` whose parts are non-empty
      and free of ','. */
  function SplitList(s: string): seq<string> {
    if s == "" then []
    else
      var ps := Split(s, ',');
      [ps[0]] + seq(|ps| - 1, i requires 0 <= i < |ps| - 1 => DropSpace(ps[i + 1]))
  }

  predicate ListItem(s: string) {
    s != "" && ',' !in s
  }

  lemma {:induction false} SplitJoinComma(parts: seq<string>)
    requires parts != []
    requires forall i :: 0 <= i < |parts| ==> ListItem(parts[i])
    ensures var ps := Split(Join(parts, ", "), ',');
      |ps| == |parts| && ps[0] == parts[0] &&
      forall i :: 1 <= i < |parts| ==> ps[i] == " " + parts[i]
  {
    if |parts| == 1 {
      SplitFree(parts[0], ',');
    } else {
      var tail := Join(parts[1..], ", ");
      SplitJoinComma(parts[1..]);
      assert Join(parts, ", ") == parts[0] + [','] + (" " + tail);
      SplitAppend(parts[0], " " + tail, ',');
      SplitFree(parts[0], ',');
      SplitPrefix(" ", tail, ',');
      var ps := Split(Join(parts, ", "), ',');
      var qs := Split(tail, ',');
      assert ps == [parts[0]] + ([" " + qs[0]] + qs[1..]);
      forall i | 1 <= i < |parts|
        ensures ps[i] == " " + parts[i]
      {
        if i > 1 {
          assert ps[i] == qs[i - 1] == " " + parts[1..][i - 1];
        }
      }
    }
  }

  lemma SplitListPieces(s: string, parts: seq<string>)
    requires parts != [] && parts[0] != ""
    requires var ps := Split(s, ',');
      |ps| == |parts| && ps[0] == parts[0] &&
      forall i :: 1 <= i < |parts| ==> ps[i] == " " + parts[i]
    ensures SplitList(s) == parts
  {
    var ps := Split(s, ',');
    assert s != "";
    var back := seq(|ps| - 1, i requires 0 <= i < |ps| - 1 => DropSpace(ps[i + 1]));
    forall i | 0 <= i < |back|
      ensures back[i] == parts[1..][i]
    {
      assert (" " + parts[i + 1])[1..] == parts[i + 1];
    }
    assert back == parts[1..];
    assert SplitList(s) == [parts[0]] + parts[1..];
  }

  /** `SplitList` undoes `Join(_, ", ")` on non-empty parts free of ','. */
  lemma SplitListJoin(parts: seq<string>)
    requires forall i :: 0 <= i < |parts| ==> ListItem(parts[i])
    ensures SplitList(Join(parts, ", ")) == parts
  {
    if parts != [] {
      SplitJoinComma(parts);
      SplitListPieces(Join(parts, ", "), parts);
    }
  }

  /** `str::trim_start_matches(c)` for a single character: every leading `c` removed. */
  function TrimStartMatches(s: string, c: char): (r: string)
    ensures |r| <= |s| && r == s[|s| - |r|..]
    ensures forall i :: 0 <= i < |s| - |r| ==> s[i] == c
    ensures r == [] || r[0] != c
  {
    if s != [] && s[0] == c then TrimStartMatches(s[1..], c) else s
  }
  /** One leading match is trimmed like the rest. */
  lemma TrimDropsLead(c: char, s: string)
    ensures TrimStartMatches([c] + s, c) == TrimStartMatches(s, c)
  {
    assert ([c] + s)[1..] == s;
  }


  /** The digit for value `d`, lower- or upper-case above 9. */
  function DigitChar(d: nat, upper: bool): (r: char)
    requires d < 16
    ensures DigitValue(r) == Some(d)
    ensures upper ==> !IsLowerLetter(r)
    ensures !upper ==> !IsUpper(r)
  {
    if d < 10 then ('0' as int + d) as char
    else if upper then ('A' as int + d - 10) as char
    else ('a' as int + d - 10) as char
  }

  /** `char::to_digit(16)`: the value of a hexadecimal digit of either case. */
  function DigitValue(c: char): (r: Option<nat>)
    ensures r.Some? ==> r.value < 16
  {
    if '0' <= c <= '9' then Some(c as int - '0' as int)
    else if 'a' <= c <= 'f' then Some(c as int - 'a' as int + 10)
    else if 'A' <= c <= 'F' then Some(c as int - 'A' as int + 10)
    else None
  }

  predicate IsDigitIn(c: char, radix: nat) {
    DigitValue(c).Some? && DigitValue(c).value < radix
  }

  predicate IsNumeral(s: string, radix: nat) {
    forall i :: 0 <= i < |s| ==> IsDigitIn(s[i], radix)
  }

  /** The value of a string of digits, most significant first. */
  function NumeralValue(s: string, radix: nat): nat
    requires IsNumeral(s, radix)
  {
    if s == [] then 0
    else NumeralValue(s[..|s| - 1], radix) * radix + DigitValue(s[|s| - 1]).value
  }

  lemma DivMod(n: nat, radix: nat)
    requires 2 <= radix <= n
    ensures 1 <= n / radix < n && n % radix < radix
    ensures n == (n / radix) * radix + n % radix
  {
  }

  /** Rust's formatting of an unsigned integer in base `radix` with no padding:
      `{}` for radix 10, `{:x}` and `{:X}` for radix 16. */
  function Numeral(n: nat, radix: nat, upper: bool): (s: string)
    requires 2 <= radix <= 16
    ensures s != [] && IsNumeral(s, radix)
    ensures |s| > 1 ==> s[0] != '0'
    ensures upper ==> forall i :: 0 <= i < |s| ==> !IsLowerLetter(s[i])
    ensures !upper ==> forall i :: 0 <= i < |s| ==> !IsUpper(s[i])
  {
    if n < radix then [DigitChar(n, upper)]
    else
      DivMod(n, radix);
      var front := Numeral(n / radix, radix, upper);
      var last := DigitChar(n % radix, upper);
      assert (front + [last])[0] == front[0];
      front + [last]
  }

  /** Reading a numeral back gives the number it was written from. */
  lemma {:induction false} NumeralRoundTrip(n: nat, radix: nat, upper: bool)
    requires 2 <= radix <= 16
    ensures NumeralValue(Numeral(n, radix, upper), radix) == n
  {
    var s := Numeral(n, radix, upper);
    if n >= radix {
      DivMod(n, radix);
      var front := Numeral(n / radix, radix, upper);
      assert s == front + [DigitChar(n % radix, upper)];
      assert s[..|s| - 1] == front;
      NumeralRoundTrip(n / radix, radix, upper);
    }
  }

  /** Appending one digit shifts the value by one place. */
  lemma NumeralValueSnoc(a: string, c: char, radix: nat)
    requires IsNumeral(a, radix) && IsDigitIn(c, radix)
    ensures IsNumeral(a + [c], radix)
    ensures NumeralValue(a + [c], radix) == NumeralValue(a, radix) * radix + DigitValue(c).value
  {
    var s := a + [c];
    assert s[..|s| - 1] == a && s[|s| - 1] == c;
  }

  /** Appending two hexadecimal digits shifts the value by two places. */
  lemma HexValueAppendPair(a: string, b: string)
    requires IsNumeral(a, 16) && IsNumeral(b, 16) && |b| == 2
    ensures IsNumeral(a + b, 16)
    ensures NumeralValue(a + b, 16) == NumeralValue(a, 16) * 0x100 + NumeralValue(b, 16)
  {
    var c0, c1 := b[0], b[1];
    assert IsDigitIn(c0, 16) && IsDigitIn(c1, 16);
    NumeralValueSnoc(a, c0, 16);
    NumeralValueSnoc(a + [c0], c1, 16);
    assert a + [c0] + [c1] == a + b;
    NumeralValueSnoc([], c0, 16);
    assert [] + [c0] == [c0];
    NumeralValueSnoc([c0], c1, 16);
    assert [c0] + [c1] == b;
  }

  /** A numeral holds no character that is not a digit of its radix. */
  lemma NumeralAvoids(s: string, radix: nat, c: char)
    requires IsNumeral(s, radix) && !IsDigitIn(c, radix)
    ensures c !in s
  {
  }

  /** Two numbers with the same numeral are equal. */
  lemma NumeralInjective(m: nat, n: nat, radix: nat, upper: bool)
    requires 2 <= radix <= 16
    requires Numeral(m, radix, upper) == Numeral(n, radix, upper)
    ensures m == n
  {
    NumeralRoundTrip(m, radix, upper);
    NumeralRoundTrip(n, radix, upper);
  }

  /** The error kinds of `from_str_radix` for an unsigned type. */
  datatype IntErrorKind = Empty | InvalidDigit | PosOverflow

  /** `from_str_radix` for an unsigned integer type whose largest value is `max`:
      an empty string is `Empty`; a lone sign is `InvalidDigit`; one leading '+'
      is skipped ('-' is not, so it is an invalid digit); the digits are read left
      to right, an invalid digit failing before the overflow check of its step. */
  function FromStrRadix(src: string, radix: nat, max: nat): (r: Result<nat, IntErrorKind>)
    requires 2 <= radix <= 16
    ensures r.Ok? ==> r.value <= max
  {
    if src == [] then Err(Empty)
    else if (src[0] == '+' || src[0] == '-') && |src| == 1 then Err(InvalidDigit)
    else if src[0] == '+' then Accumulate(src[1..], radix, max, 0)
    else Accumulate(src, radix, max, 0)
  }

  function Accumulate(digits: string, radix: nat, max: nat, acc: nat): (r: Result<nat, IntErrorKind>)
    requires 2 <= radix <= 16
    requires acc <= max
    ensures r.Ok? ==> r.value <= max
  {
    if digits == [] then Ok(acc)
    else if !IsDigitIn(digits[0], radix) then Err(InvalidDigit)
    else if acc * radix + DigitValue(digits[0]).value > max then Err(PosOverflow)
    else Accumulate(digits[1..], radix, max, acc * radix + DigitValue(digits[0]).value)
  }
}
