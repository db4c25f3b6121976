// Each encoding that a decoding pass knows (internal/proxy/label.go), as a way to write runes, and
// what a pass makes of text written that way.

module Encodings {
  import opened Prelude
  import opened Label

  // %41, \x41, \u0041, \u{41}, \U00000041, &#65; and &#x41;, the braces and the references with any
  // number of digits that is read.
  datatype Style =
    | PercentTwo | BackX | BackU | BackBrace(digits: nat) | BackLongU
    | Decimals(digits: nat) | Hexes(digits: nat)

  predicate Allowed(y: Style) {
    match y
    case BackBrace(n) => 1 <= n <= 6
    case Decimals(n) => 1 <= n <= 7
    case Hexes(n) => 1 <= n <= 6
    case _ => true
  }

  function Base(y: Style): nat { if y.Decimals? then 10 else 16 }

  function Width(y: Style): nat {
    match y
    case PercentTwo => 2
    case BackX => 2
    case BackU => 4
    case BackLongU => 8
    case BackBrace(n) => n
    case Decimals(n) => n
    case Hexes(n) => n
  }

  function Lead(y: Style): string {
    match y
    case PercentTwo => "%"
    case BackX => "\\x"
    case BackU => "\\u"
    case BackBrace(_) => "\\u{"
    case BackLongU => "\\U"
    case Decimals(_) => "&#"
    case Hexes(_) => "&#x"
  }

  function Trail(y: Style): string {
    if y.BackBrace? then "}" else if y.Decimals? || y.Hexes? then ";" else ""
  }

  function Power(base: nat, w: nat): nat { if w == 0 then 1 else base * Power(base, w - 1) }

  // n in w digits.
  function Numeral(n: nat, base: nat, w: nat): string
    requires 0 < base <= 16
  {
    if w == 0 then "" else Numeral(n / base, base, w - 1) + [HEX[n % base]]
  }

  predicate Fits(y: Style, r: nat) { r <= MAX_RUNE && r < Power(Base(y), Width(y)) }

  function Code(y: Style, r: nat): string { Lead(y) + Numeral(r, Base(y), Width(y)) + Trail(y) }

  // ---- one sequence ----

  predicate AllDigits(s: string, base: nat) { forall i :: 0 <= i < |s| ==> IsDigit(s[i], base) }

  lemma {:induction false} NumeralReads(n: nat, base: nat, w: nat)
    requires base in {10, 16} && n < Power(base, w)
    ensures var d := Numeral(n, base, w);
      |d| == w && AllDigits(d, base) && AllHex(d) && Number(d, base) == n
  {
    hide IsDigit, DigitValue, AllDigits, AllHex, Number;
    if w == 0 {
      NothingReads(base);
    } else {
      var front, last := Numeral(n / base, base, w - 1), HEX[n % base];
      FewerDigits(n, base, w);
      NumeralReads(n / base, base, w - 1);
      HexDigitValue(n % base);
      HexIsDigit(n % base, base);
      OneMoreDigit(front, last, base);
    }
  }

  lemma NothingReads(base: nat)
    ensures AllDigits("", base) && AllHex("") && Number("", base) == 0
  {
  }

  lemma OneMoreDigit(front: string, last: char, base: nat)
    requires AllDigits(front, base) && AllHex(front) && IsDigit(last, base) && IsDigit(last, 16)
    ensures AllDigits(front + [last], base) && AllHex(front + [last])
    ensures Number(front + [last], base) == base * Number(front, base) + DigitValue(last)
  {
    hide IsDigit, DigitValue;
    var d := front + [last];
    assert forall i :: 0 <= i < |d| ==> if i < |front| then d[i] == front[i] else d[i] == last;
    assert d[..|d| - 1] == front;
  }

  lemma FewerDigits(n: nat, base: nat, w: nat)
    requires base in {10, 16} && w > 0 && n < Power(base, w)
    ensures n / base < Power(base, w - 1) && n == base * (n / base) + n % base
  {
    if base == 10 { assert n < 10 * Power(10, w - 1); } else { assert n < 16 * Power(16, w - 1); }
  }

  lemma HexIsDigit(d: nat, base: nat)
    requires base in {10, 16} && d < base
    ensures IsDigit(HEX[d], base) && HEX[d] != '}' && HEX[d] != 'x' && HEX[d] != '{'
  {
  }

  lemma {:induction false} DigitsEnd(d: string, rest: string, base: nat, max: nat)
    requires AllDigits(d, base) && |d| <= max && (|d| == max || rest == "" || !IsDigit(rest[0], base))
    ensures Digits(d + rest, base, max) == |d|
  {
    if d == "" {
      assert d + rest == rest;
    } else {
      assert (d + rest)[1..] == d[1..] + rest;
      DigitsEnd(d[1..], rest, base, max - 1);
    }
  }

  // Digits read as hexadecimal.
  lemma HexRuneReads(r: nat, w: nat, n: nat)
    requires 0 < w && r < Power(16, w) && r <= MAX_RUNE
    ensures |Numeral(r, 16, w)| == w && HexRune(Numeral(r, 16, w), n) == Some((r, n))
    ensures forall i :: 0 <= i < w ==> IsDigit(Numeral(r, 16, w)[i], 16)
  {
    hide IsDigit, DigitValue;
    NumeralReads(r, 16, w);
  }

  lemma HexCodeReads(y: Style, r: nat, rest: string)
    requires Fits(y, r) && (y.PercentTwo? || y.BackX? || y.BackU? || y.BackLongU?)
    ensures DecodeAt(Code(y, r) + rest) == Some((r, |Code(y, r)|))
  {
    hide HexRune, HtmlRef, Numeral, IndexOf;
    var d := Numeral(r, 16, Width(y));
    var s := Code(y, r) + rest;
    var n := |Lead(y)|;
    HexRuneReads(r, Width(y), |Code(y, r)|);
    assert s[n..][..Width(y)] == d;
    assert Prefix(s[n..], Width(y)) == d;
    assert y.BackU? ==> s[2] == d[0] && IsDigit(d[0], 16);
  }

  lemma BraceReads(y: Style, r: nat, rest: string)
    requires Allowed(y) && Fits(y, r) && y.BackBrace?
    ensures DecodeAt(Code(y, r) + rest) == Some((r, |Code(y, r)|))
  {
    hide HexRune, HtmlRef, Numeral, IndexOf, Power;
    var d := Numeral(r, 16, y.digits);
    HexRuneReads(r, y.digits, |Code(y, r)|);
    var s := Code(y, r) + rest;
    var window := s[3..if |s| < 10 then |s| else 10];
    assert |s| >= 4 + |d|;
    assert forall i :: 0 <= i < |d| ==> window[i] == s[3 + i] == d[i] && d[i] != '}';
    assert window[|d|] == s[3 + |d|] == '}';
    FirstIndex(window, '}', |d|);
    assert s[3..3 + |d|] == d;
  }

  lemma {:induction false} FirstIndex(s: string, c: char, n: nat)
    requires n < |s| && s[n] == c && forall i :: 0 <= i < n ==> s[i] != c
    ensures IndexOf(s, c) == n
  {
    if n > 0 {
      assert s[0] != c;
      FirstIndex(s[1..], c, n - 1);
    }
  }

  lemma RefReads(y: Style, r: nat, rest: string)
    requires Allowed(y) && Fits(y, r) && (y.Decimals? || y.Hexes?)
    ensures DecodeAt(Code(y, r) + rest) == Some((r, |Code(y, r)|))
  {
    hide Number, AllHex, Digits, Numeral, HexRune, IndexOf, Power, Named, Letters;
    var base, start, max := Base(y), |Lead(y)|, if y.Hexes? then 6 else 7;
    var d := Numeral(r, base, y.digits);
    NumeralReads(r, base, y.digits);
    var s := Code(y, r) + rest;
    assert s[start..] == d + (";" + rest);
    DigitsEnd(d, ";" + rest, base, max);
    assert s[start..start + |d|] == d && s[start + |d|] == ';';
    assert y.Decimals? ==> s[2] == d[0] && IsDigit(d[0], 10);
  }

  // Whatever follows it, a rune written in any of the styles is read back.
  lemma CodeReads(y: Style, r: nat, rest: string)
    requires Allowed(y) && Fits(y, r)
    ensures DecodeAt(Code(y, r) + rest) == Some((r, |Code(y, r)|))
  {
    if y.BackBrace? {
      BraceReads(y, r, rest);
    } else if y.Decimals? || y.Hexes? {
      RefReads(y, r, rest);
    } else {
      HexCodeReads(y, r, rest);
    }
  }

  // ---- text ----

  function Encode(y: Style, runes: seq<nat>): string {
    if runes == [] then "" else Code(y, runes[0]) + Encode(y, runes[1..])
  }

  predicate AllRunes(runes: seq<nat>) { forall i :: 0 <= i < |runes| ==> runes[i] <= MAX_RUNE }

  function Utf8(runes: seq<nat>): string
    requires AllRunes(runes)
  {
    if runes == [] then "" else WriteRune(runes[0]) + Utf8(runes[1..])
  }

  // A pass turns text written in a style into the UTF-8 of its runes.
  lemma {:induction false} EncodePass(y: Style, runes: seq<nat>)
    requires Allowed(y) && AllRunes(runes) && forall i :: 0 <= i < |runes| ==> Fits(y, runes[i])
    ensures Pass(Encode(y, runes)).0 == Utf8(runes)
  {
    hide DecodeAt, Code, WriteRune;
    if runes != [] {
      var code, more := Code(y, runes[0]), Encode(y, runes[1..]);
      CodeReads(y, runes[0], more);
      assert (code + more)[|code|..] == more;
      NotEmpty(y, runes[0]);
      EncodePass(y, runes[1..]);
    }
  }

  lemma NotEmpty(y: Style, r: nat)
    ensures Code(y, r) != ""
  {
  }

  function Runes(s: string): seq<nat> { if s == "" then [] else [s[0] as int] + Runes(s[1..]) }

  lemma {:induction false} RunesAre(s: string)
    ensures |Runes(s)| == |s| && forall i :: 0 <= i < |s| ==> Runes(s)[i] == s[i] as int
  {
    if s != "" { RunesAre(s[1..]); }
  }

  lemma {:induction false} Utf8OfBytes(s: string)
    requires AllBytes(s)
    ensures AllRunes(Runes(s))
    ensures |Utf8(Runes(s))| == |s| + HighBytes(s)
    ensures IsAscii(s) ==> Utf8(Runes(s)) == s
  {
    RunesAre(s);
    if s != "" {
      Utf8OfBytes(s[1..]);
      assert Runes(s)[1..] == Runes(s[1..]);
      assert [s[0]] + s[1..] == s;
    }
  }

  // Writing each byte of a text in a style is undone by a pass exactly when the text is ASCII.
  lemma EveryStyleInverts(y: Style, s: string)
    requires Allowed(y) && AllBytes(s) && forall i :: 0 <= i < |s| ==> Fits(y, s[i] as int)
    ensures Pass(Encode(y, Runes(s))).0 == s <==> IsAscii(s)
  {
    RunesAre(s);
    Utf8OfBytes(s);
    EncodePass(y, Runes(s));
    HighBytesAscii(s);
  }

  // ---- named references ----

  lemma {:induction false} LowerKeeps(s: string)
    ensures |Lower(s)| == |s|
    ensures forall i :: 0 <= i < |s| ==> (IsLetter(Lower(s)[i]) ==> IsLetter(s[i]))
  {
    if s != "" { LowerKeeps(s[1..]); }
  }

  lemma {:induction false} LettersEnd(d: string, rest: string, max: nat)
    requires forall i :: 0 <= i < |d| ==> IsLetter(d[i])
    requires |d| <= max && (|d| == max || rest == "" || !IsLetter(rest[0]))
    ensures Letters(d + rest, max) == |d|
  {
    if d == "" {
      assert d + rest == rest;
    } else {
      assert (d + rest)[1..] == d[1..] + rest;
      LettersEnd(d[1..], rest, max - 1);
    }
  }

  lemma RefNames(name: string)
    requires NamedRef(name).Some?
    ensures 2 <= |name| <= 6 && forall i :: 0 <= i < |name| ==> IsLetter(name[i])
  {
  }

  // A known name is read in upper or lower case, with its semicolon.
  lemma NameReads(name: string, rest: string)
    requires NamedRef(Lower(name)).Some?
    ensures DecodeAt("&" + name + ";" + rest) == Some((NamedRef(Lower(name)).value, |name| + 2))
  {
    hide NamedRef, Lower, Named, DecodeAt, IsLetter, Letters;
    var s := "&" + name + ";" + rest;
    RefNames(Lower(name));
    LowerKeeps(name);
    assert s[1..] == name + (";" + rest);
    NoLetter();
    LettersEnd(name, ";" + rest, MAX_NAME);
    assert s[1..|name| + 1] == name && s[|name| + 1] == ';' && s[1] == name[0] && IsLetter(name[0]);
    RefIsNamed(s);
    NamedHere(s, |name|);
  }

  lemma RefIsNamed(s: string)
    requires |s| >= 2 && s[0] == '&' && s[1] != '#'
    ensures DecodeAt(s) == Named(s, Letters(s[1..], MAX_NAME))
  {
    hide Named, HexRune, Number, Digits, IndexOf, Letters;
  }

  lemma NoLetter()
    ensures !IsLetter(';') && !IsLetter('#')
  {
  }

  lemma NamedHere(s: string, n: nat)
    requires 0 < n < |s| && NamedRef(Lower(s[1..n + 1])).Some?
    ensures Named(s, n) == Some((NamedRef(Lower(s[1..n + 1])).value, Closed(s, n + 1)))
  {
    hide NamedRef, Lower;
  }

  // The names, and what they stand for.
  lemma NamesStandFor()
    ensures NamedRef("lsqb") == NamedRef("lbrack") == Some('[' as int)
    ensures NamedRef("rsqb") == NamedRef("rbrack") == Some(']' as int)
    ensures NamedRef("amp") == Some('&' as int)
    ensures NamedRef("lt") == Some('<' as int) && NamedRef("gt") == Some('>' as int)
  {
  }

  // ---- everything else ----

  // Text without a backslash, a percent sign or an ampersand is left alone.
  lemma {:induction false} PlainIsFixed(s: string)
    requires '\\' !in s && '%' !in s && '&' !in s
    ensures Pass(s) == (s, false)
  {
    if s != "" {
      PlainIsFixed(s[1..]);
      assert s[0] in s && [s[0]] + s[1..] == s;
    }
  }
}
