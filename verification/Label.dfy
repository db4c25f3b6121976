// Reading text as an origin label (internal/proxy/label.go): decoding nested
// encodings until nothing changes. Text is bytes, a byte b being the char of value b.

module Label {
  import opened Prelude

  const MAX_RUNE := 0x10FFFF
  const MAX_PASSES := 8
  const MAX_TAG := 256
  const MAX_NAME := 6

  // strings.Builder.WriteRune: UTF-8, with a surrogate written as U+FFFD.
  function WriteRune(r: nat): (s: string)
    requires r <= MAX_RUNE
    ensures |s| == if r < 0x80 then 1 else if r < 0x800 then 2 else if r < 0x10000 then 3 else 4
  {
    if r < 0x80 then [r as char]
    else if r < 0x800 then [(0xC0 + r / 64) as char, (0x80 + r % 64) as char]
    else if 0xD800 <= r < 0xE000 then [0xEF as char, 0xBF as char, 0xBD as char]
    else if r < 0x10000 then [(0xE0 + r / 4096) as char, (0x80 + r / 64 % 64) as char, (0x80 + r % 64) as char]
    else
      [(0xF0 + r / 262144) as char, (0x80 + r / 4096 % 64) as char,
       (0x80 + r / 64 % 64) as char, (0x80 + r % 64) as char]
  }

  // ---- one sequence ----

  function DigitValue(c: char): nat
    requires IsDigit(c, 16)
  {
    if c <= '9' then c as int - 48 else if c <= 'F' then c as int - 55 else c as int - 87
  }

  predicate IsDigit(c: char, base: nat) {
    '0' <= c <= '9' || (base == 16 && ('a' <= c <= 'f' || 'A' <= c <= 'F'))
  }

  predicate IsLetter(c: char) { 'a' <= c <= 'z' || 'A' <= c <= 'Z' }

  predicate AllHex(s: string) { forall i :: 0 <= i < |s| ==> IsDigit(s[i], 16) }

  function Number(s: string, base: nat): (v: nat)
    requires AllHex(s)
  {
    if s == "" then 0 else base * Number(s[..|s| - 1], base) + DigitValue(s[|s| - 1])
  }

  // How many digits `s` starts with, at most `max`.
  function Digits(s: string, base: nat, max: nat): (n: nat)
    ensures n <= |s| && n <= max && forall i :: 0 <= i < n ==> IsDigit(s[i], base)
  {
    if s == "" || max == 0 || !IsDigit(s[0], base) then 0 else 1 + Digits(s[1..], base, max - 1)
  }

  function Letters(s: string, max: nat): (n: nat)
    ensures n <= |s| && n <= max && forall i :: 0 <= i < n ==> IsLetter(s[i])
  {
    if s == "" || max == 0 || !IsLetter(s[0]) then 0 else 1 + Letters(s[1..], max - 1)
  }

  function Prefix(s: string, n: nat): string { if |s| < n then "" else s[..n] }

  // The rune a sequence stands for and its length, or None.
  type Found = Option<(nat, nat)>

  function HexRune(digits: string, n: nat): Found {
    if digits == "" || !AllHex(digits) || Number(digits, 16) > MAX_RUNE then None else Some((Number(digits, 16), n))
  }

  function Lower(s: string): string {
    if s == "" then "" else [if 'A' <= s[0] <= 'Z' then (s[0] as int + 32) as char else s[0]] + Lower(s[1..])
  }

  function NamedRef(name: string): Option<nat> {
    if name == "lsqb" || name == "lbrack" then Some('[' as int)
    else if name == "rsqb" || name == "rbrack" then Some(']' as int)
    else if name == "amp" then Some('&' as int)
    else if name == "lt" then Some('<' as int)
    else if name == "gt" then Some('>' as int)
    else None
  }

  // One past a closing ";".
  function Closed(s: string, end: nat): nat { if end < |s| && s[end] == ';' then end + 1 else end }

  // The longest known name of at most `letters` letters after the ampersand.
  function Named(s: string, letters: nat): Found
    requires letters < |s|
  {
    if letters == 0 then None
    else
      var r := NamedRef(Lower(s[1..letters + 1]));
      if r.Some? then Some((r.value, Closed(s, letters + 1))) else Named(s, letters - 1)
  }

  function HtmlRef(s: string): Found
    requires |s| >= 2
  {
    if |s| > 2 && s[1] == '#' then
      var hex := s[2] == 'x' || s[2] == 'X';
      var base, start, max := if hex then 16 else 10, if hex then 3 else 2, if hex then 6 else 7;
      var n := Digits(s[start..], base, max);
      var digits := s[start..start + n];
      DigitsAreHex(s[start..], base, max);
      if n == 0 || Number(digits, base) > MAX_RUNE then None
      else Some((Number(digits, base), Closed(s, start + n)))
    else Named(s, Letters(s[1..], MAX_NAME))
  }

  lemma DigitsAreHex(s: string, base: nat, max: nat)
    ensures AllHex(s[..Digits(s, base, max)])
  {
  }

  function DecodeAt(s: string): Found {
    if |s| < 2 then None
    else if s[0] == '%' then HexRune(Prefix(s[1..], 2), 3)
    else if s[0] == '&' then HtmlRef(s)
    else if s[0] != '\\' then None
    else if s[1] == 'U' then HexRune(Prefix(s[2..], 8), 10)
    else if s[1] == 'x' then HexRune(Prefix(s[2..], 2), 4)
    else if s[1] != 'u' then None
    else if |s| > 2 && s[2] == '{' then
      var end := IndexOf(s[3..if |s| < 10 then |s| else 10], '}');
      if end > 0 then HexRune(s[3..3 + end], 3 + end + 1) else None
    else HexRune(Prefix(s[2..], 4), 6)
  }

  // ---- a decoded sequence is always longer than the rune it stands for ----

  ghost predicate Shrinks(f: Found, s: string) {
    f.Some? ==> f.value.0 <= MAX_RUNE && f.value.1 <= |s| && |WriteRune(f.value.0)| < f.value.1
  }

  lemma ShortNumber(digits: string, base: nat)
    requires AllHex(digits) && base in {10, 16} && |digits| <= 2
    requires base == 10 ==> forall i :: 0 <= i < |digits| ==> IsDigit(digits[i], 10)
    ensures Number(digits, base) < if |digits| == 0 then 1 else if |digits| == 1 then base else base * base
  {
    if |digits| == 2 {
      assert digits[..1][..0] == "" && |digits[..1]| == 1;
    } else if |digits| == 1 {
      assert digits[..0] == "";
    }
  }

  lemma NamedShrinks(s: string, letters: nat)
    requires letters < |s|
    ensures Shrinks(Named(s, letters), s)
  {
    if letters > 0 && NamedRef(Lower(s[1..letters + 1])).None? { NamedShrinks(s, letters - 1); }
    if letters == 1 { OneLetter(s[1..2]); }
  }

  lemma OneLetter(s: string)
    requires |s| == 1
    ensures NamedRef(Lower(s)).None?
  {
    assert |Lower(s)| == 1;
  }

  lemma HtmlShrinks(s: string)
    requires |s| >= 2
    ensures Shrinks(HtmlRef(s), s)
  {
    if |s| > 2 && s[1] == '#' {
      var hex := s[2] == 'x' || s[2] == 'X';
      var base, start, max := if hex then 16 else 10, if hex then 3 else 2, if hex then 6 else 7;
      var n := Digits(s[start..], base, max);
      var digits := s[start..start + n];
      DigitsAreHex(s[start..], base, max);
      assert digits == s[start..][..n];
      if n <= 2 { ShortNumber(digits, base); }
    } else {
      NamedShrinks(s, Letters(s[1..], MAX_NAME));
    }
  }

  lemma DecodeAtShrinks(s: string)
    ensures Shrinks(DecodeAt(s), s)
  {
    hide HtmlRef, Number, IndexOf;
    if |s| >= 2 {
      if s[0] == '&' {
        HtmlShrinks(s);
      } else if s[0] == '%' {
        TwoDigits(Prefix(s[1..], 2));
      } else if s[0] == '\\' && s[1] == 'x' {
        TwoDigits(Prefix(s[2..], 2));
      }
    }
  }

  lemma TwoDigits(digits: string)
    requires |digits| <= 2
    ensures AllHex(digits) ==> Number(digits, 16) < 256
  {
    if AllHex(digits) { ShortNumber(digits, 16); }
  }

  // ---- one pass ----

  ghost function Pass(s: string): (string, bool) {
    if s == "" then ("", false)
    else
      DecodeAtShrinks(s);
      var f := DecodeAt(s);
      if f.Some? then (WriteRune(f.value.0) + Pass(s[f.value.1..]).0, true)
      else ([s[0]] + Pass(s[1..]).0, Pass(s[1..]).1)
  }

  method DecodePass(s: string) returns (out: string, changed: bool)
    ensures (out, changed) == Pass(s)
  {
    hide Pass, DecodeAt, WriteRune;
    out, changed := "", false;
    var i := 0;
    assert s[0..] == s;
    while i < |s|
      invariant i <= |s|
      invariant out + Pass(s[i..]).0 == Pass(s).0
      invariant changed || Pass(s[i..]).1 <==> Pass(s).1
    {
      PassStep(s, i);
      var f := DecodeAt(s[i..]);
      if f.Some? {
        out := out + WriteRune(f.value.0);
        i := i + f.value.1;
        changed := true;
      } else {
        out := out + [s[i]];
        i := i + 1;
      }
    }
    PassOfNothing();
    assert s[i..] == "";
    assert out + "" == out;
    assert out == Pass(s).0;
  }

  lemma PassOfNothing()
    ensures Pass("") == ("", false)
  {
  }

  lemma PassStep(s: string, i: nat)
    requires i < |s|
    ensures Shrinks(DecodeAt(s[i..]), s[i..])
    ensures var f := DecodeAt(s[i..]);
      Pass(s[i..]) == if f.Some? then (WriteRune(f.value.0) + Pass(s[i + f.value.1..]).0, true)
                      else ([s[i]] + Pass(s[i + 1..]).0, Pass(s[i + 1..]).1)
  {
    DecodeAtShrinks(s[i..]);
    var f := DecodeAt(s[i..]);
    if f.Some? { assert s[i..][f.value.1..] == s[i + f.value.1..]; } else { assert s[i..][1..] == s[i + 1..]; }
  }

  // A pass that reports a change makes the text strictly shorter; one that does not leaves it alone.
  lemma {:induction false} PassShrinks(s: string)
    ensures Pass(s).1 ==> |Pass(s).0| < |s|
    ensures !Pass(s).1 ==> Pass(s).0 == s
    decreases |s|
  {
    hide DecodeAt, WriteRune;
    if s != "" {
      DecodeAtShrinks(s);
      var f := DecodeAt(s);
      if f.Some? {
        PassShrinks(s[f.value.1..]);
      } else {
        PassShrinks(s[1..]);
        assert s == [s[0]] + s[1..];
      }
    }
  }

  // ---- all passes ----

  ghost predicate Fixed(s: string) { Pass(s).0 == s }

  // The text with every encoding decoded, and how many layers it had.
  ghost function Unwrap(s: string): string
    decreases |s|
  {
    PassShrinks(s);
    if Pass(s).1 then Unwrap(Pass(s).0) else s
  }

  ghost function Depth(s: string): nat
    decreases |s|
  {
    PassShrinks(s);
    if Pass(s).1 then 1 + Depth(Pass(s).0) else 0
  }

  lemma {:induction false} UnwrapIsFixed(s: string)
    ensures Fixed(Unwrap(s)) && Depth(s) <= |s|
    ensures Depth(s) == 0 <==> Fixed(s)
    decreases |s|
  {
    PassShrinks(s);
    if Pass(s).1 { UnwrapIsFixed(Pass(s).0); }
  }

  method DecodeAll(s: string) returns (out: string, settled: bool)
    ensures settled <==> Fixed(out)
    ensures settled <==> Depth(s) <= 8
    ensures settled ==> out == Unwrap(s)
  {
    out := s;
    for i := 0 to MAX_PASSES
      invariant Depth(s) == i + Depth(out) && Unwrap(s) == Unwrap(out)
    {
      var next, changed := DecodePass(out);
      PassShrinks(out);
      if !changed { return out, true; }
      out := next;
    }
    var _, changed := DecodePass(out);
    PassShrinks(out);
    settled := !changed;
  }

  // ---- tags ----

  // Where a tag that starts at the first byte of `s` ends, or 0.
  function TagEnd(s: string): (n: nat)
    ensures n <= |s|
  {
    if s == "" || s[0] != '<' then 0
    else
      var end := IndexAngle(s[1..if |s| < 1 + MAX_TAG then |s| else 1 + MAX_TAG]);
      if end >= 0 && s[1 + end] == '>' then end + 2 else 0
  }

  function IndexAngle(s: string): (i: int)
    ensures -1 <= i < |s|
  {
    if s == "" then -1 else if s[0] == '<' || s[0] == '>' then 0
    else
      var i := IndexAngle(s[1..]);
      if i < 0 then -1 else i + 1
  }

  function Strip(s: string): string {
    if s == "" then "" else if TagEnd(s) > 0 then Strip(s[TagEnd(s)..]) else [s[0]] + Strip(s[1..])
  }

  lemma {:induction false} StripPlain(s: string)
    requires '<' !in s
    ensures Strip(s) == s
  {
    if s != "" {
      StripPlain(s[1..]);
      assert s == [s[0]] + s[1..];
    }
  }

  lemma StripStep(s: string, i: nat)
    requires i < |s|
    ensures var n := TagEnd(s[i..]);
      Strip(s[i..]) == if n > 0 then Strip(s[i + n..]) else [s[i]] + Strip(s[i + 1..])
  {
    hide TagEnd;
    assert s[i..][TagEnd(s[i..])..] == s[i + TagEnd(s[i..])..];
    assert s[i..][1..] == s[i + 1..];
  }

  lemma Joined(a: string, b: string, c: string)
    ensures a + (b + c) == a + b + c && a + "" == a
  {
  }

  method StripTags(s: string) returns (out: string)
    ensures out == Strip(s)
  {
    if '<' !in s {
      StripPlain(s);
      return s;
    }
    out := StripEach(s);
  }

  method StripEach(s: string) returns (out: string)
    ensures out == Strip(s)
  {
    hide Strip, TagEnd;
    out := "";
    var i := 0;
    assert s[0..] == s;
    while i < |s|
      invariant i <= |s|
      invariant out + Strip(s[i..]) == Strip(s)
    {
      StripStep(s, i);
      var n := TagEnd(s[i..]);
      if n > 0 {
        i := i + n;
      } else {
        Joined(out, [s[i]], Strip(s[i + 1..]));
        out := out + [s[i]];
        i := i + 1;
      }
    }
    assert s[i..] == "";
    StripPlain("");
    Joined(out, "", "");
  }

  predicate NoAngle(s: string) { '<' !in s && '>' !in s }

  lemma {:induction false} FirstAngle(s: string, n: nat)
    requires n <= |s| && NoAngle(s[..n]) && (n < |s| ==> s[n] == '<' || s[n] == '>')
    ensures IndexAngle(s) == if n < |s| then n else -1
  {
    if n > 0 {
      assert s[..n][0] == s[0] && s[..n] == [s[0]] + s[1..][..n - 1];
      FirstAngle(s[1..], n - 1);
    }
  }

  lemma {:induction false} StripAfter(a: string, rest: string)
    requires '<' !in a
    ensures Strip(a + rest) == a + Strip(rest)
  {
    if a == "" {
      assert a + rest == rest;
    } else {
      assert (a + rest)[1..] == a[1..] + rest;
      StripAfter(a[1..], rest);
      assert [a[0]] + a[1..] == a;
    }
  }

  lemma TagEnds(tag: string, after: string)
    requires NoAngle(tag)
    ensures TagEnd("<" + tag + ">" + after) == if |tag| < 256 then |tag| + 2 else 0
  {
    hide IndexAngle, NoAngle;
    var s := "<" + tag + ">" + after;
    var end := if |s| < 257 then |s| else 257;
    Window(tag, after, end);
    if |tag| < 256 {
      FirstAngle(s[1..end], |tag|);
    } else {
      NoAnglePrefix(tag, 256);
      FirstAngle(s[1..end], 256);
    }
  }

  // What TagEnd looks through.
  lemma Window(tag: string, after: string, end: nat)
    requires end == if |tag| + 2 + |after| < 257 then |tag| + 2 + |after| else 257
    ensures var w := ("<" + tag + ">" + after)[1..end];
      if |tag| < 256 then |w| > |tag| && w[..|tag|] == tag && w[|tag|] == '>' else |w| == 256 && w[..256] == tag[..256]
  {
    var w := ("<" + tag + ">" + after)[1..end];
    forall i | 0 <= i < |w| && i < |tag| ensures w[i] == tag[i] {}
  }

  lemma NoAnglePrefix(s: string, n: nat)
    requires n <= |s| && NoAngle(s)
    ensures NoAngle(s[..n])
  {
  }

  // The first tag of a text goes, with its angle brackets, exactly when there are fewer than 256 bytes
  // between them; what stands before it stays.
  lemma FirstTagGoes(before: string, tag: string, after: string)
    requires '<' !in before && NoAngle(tag)
    ensures Strip(before + ("<" + tag + ">" + after))
         == before + ((if |tag| < 256 then "" else "<" + tag + ">") + Strip(after))
  {
    hide IndexAngle, TagEnd;
    var s := "<" + tag + ">" + after;
    StripAfter(before, s);
    TagEnds(tag, after);
    if |tag| < 256 {
      assert s[|tag| + 2..] == after;
      assert "" + Strip(after) == Strip(after);
    } else {
      assert s[1..] == (tag + ">") + after;
      StripAfter(tag + ">", after);
      assert "<" + ((tag + ">") + Strip(after)) == "<" + tag + ">" + Strip(after);
    }
  }

  // ---- labels ----

  // strings.Contains.
  ghost predicate Contains(s: string, part: string) { exists i: nat :: OccursAt(s, i, part) }

  method Find(s: string, part: string) returns (found: bool)
    ensures found <==> Contains(s, part)
  {
    found := false;
    for i := 0 to |s| + 1
      invariant !found && forall k: nat :: k < i ==> !OccursAt(s, k, part)
    {
      if OccursAt(s, i, part) { return true; }
    }
  }

  // What fold does to each character once tags are gone: drops, lower-cases and maps look-alikes.
  type CharFold = string -> string

  method HasOriginLabel(s: string, look: CharFold) returns (found: bool)
    ensures found <==> IsLabel(s, look)
  {
    var plain, settled := DecodeAll(s);
    var bare := StripTags(plain);
    found := Find(look(bare), "[from");
    found := !settled || found;
  }

  // Text reads as a label exactly when its encodings nest deeper than the passes allowed, or it
  // shows "[from" once they are all decoded.
  ghost predicate IsLabel(s: string, look: CharFold) {
    Depth(s) > MAX_PASSES || Contains(look(Strip(Unwrap(s))), "[from")
  }

  // A layer of encoding never turns a label into something else.
  lemma LabelSurvivesEncoding(s: string, inner: string, look: CharFold)
    requires Pass(s).0 == inner && IsLabel(inner, look)
    ensures IsLabel(s, look)
  {
    PassShrinks(s);
  }

  // ---- percent-encoding (section 2.1 of RFC 3986) ----

  const HEX := "0123456789ABCDEF"

  predicate AllBytes(s: string) { forall i :: 0 <= i < |s| ==> s[i] as int < 256 }

  predicate IsAscii(s: string) { forall i :: 0 <= i < |s| ==> s[i] as int < 128 }

  function Percent(s: string): string
    requires AllBytes(s)
  {
    if s == "" then "" else ['%', HEX[s[0] as int / 16], HEX[s[0] as int % 16]] + Percent(s[1..])
  }

  lemma HexPair(b: char, rest: string)
    requires b as int < 256
    ensures DecodeAt(['%', HEX[b as int / 16], HEX[b as int % 16]] + rest) == Some((b as int, 3))
  {
    var pair := [HEX[b as int / 16], HEX[b as int % 16]];
    var s := ['%', HEX[b as int / 16], HEX[b as int % 16]] + rest;
    assert Prefix(s[1..], 2) == pair;
    HexDigitValue(b as int / 16);
    HexDigitValue(b as int % 16);
    assert pair[..1] == [pair[0]] && pair[..1][..0] == "";
    assert Number(pair[..1], 16) == b as int / 16;
  }

  lemma HexDigitValue(d: nat)
    requires d < 16
    ensures IsDigit(HEX[d], 16) && DigitValue(HEX[d]) == d
  {
  }

  function HighBytes(s: string): nat {
    if s == "" then 0 else (if s[0] as int >= 128 then 1 else 0) + HighBytes(s[1..])
  }

  lemma {:induction false} HighBytesAscii(s: string)
    ensures HighBytes(s) == 0 <==> IsAscii(s)
  {
    if s != "" {
      HighBytesAscii(s[1..]);
      assert s == [s[0]] + s[1..];
    }
  }

  lemma {:induction false} PercentPass(s: string)
    requires AllBytes(s)
    ensures |Pass(Percent(s)).0| == |s| + HighBytes(s)
    ensures IsAscii(s) ==> Pass(Percent(s)).0 == s
  {
    hide DecodeAt;
    if s != "" {
      var p := Percent(s);
      HexPair(s[0], Percent(s[1..]));
      assert p[3..] == Percent(s[1..]);
      PercentPass(s[1..]);
      assert [s[0]] + s[1..] == s;
    }
  }

  // A pass undoes percent-encoding exactly for ASCII text: each escape is read as one rune, so an
  // escaped byte of a longer UTF-8 character is not put back together with the others.
  lemma PercentInverts(s: string)
    requires AllBytes(s)
    ensures Pass(Percent(s)).0 == s <==> IsAscii(s)
  {
    PercentPass(s);
    HighBytesAscii(s);
  }

  // So percent-encoding ASCII text keeps a label a label.
  lemma PercentKeepsLabel(s: string, look: CharFold)
    requires IsAscii(s) && IsLabel(s, look)
    ensures IsLabel(Percent(s), look)
  {
    PercentInverts(s);
    LabelSurvivesEncoding(Percent(s), s, look);
  }

  // ---- the pass limit is reached ----

  // "%" escaped n times over.
  function Nested(n: nat): string { "%" + Twos(n) }

  function Twos(n: nat): string { if n == 0 then "" else "25" + Twos(n - 1) }

  lemma {:induction false} TwosPlain(n: nat)
    ensures Pass(Twos(n)) == (Twos(n), false)
  {
    if n == 0 {
      PassOfNothing();
    } else {
      TwosPlain(n - 1);
      var s := Twos(n);
      assert s[1..] == "5" + Twos(n - 1) && s[1..][1..] == Twos(n - 1);
      assert DecodeAt(s).None? && DecodeAt(s[1..]).None?;
      assert Pass(s[1..]) == ("5" + Twos(n - 1), false);
      assert Pass(s) == ("2" + ("5" + Twos(n - 1)), false);
      assert "2" + ("5" + Twos(n - 1)) == s;
    }
  }

  lemma {:induction false} NestedDepth(n: nat)
    ensures Depth(Nested(n)) == n
  {
    hide DecodeAt;
    NestedStep(n);
    if n > 0 { NestedDepth(n - 1); }
  }

  // A pass takes off one layer.
  lemma NestedStep(n: nat)
    ensures Pass(Nested(n)) == if n == 0 then ("%", false) else (Nested(n - 1), true)
  {
    if n == 0 {
      assert Nested(0) == "%" && Pass("%") == ("%", false);
    } else {
      hide DecodeAt, Shrinks;
      HexPair('%', Twos(n - 1));
      var s := Nested(n);
      assert s == ['%', HEX[2], HEX[5]] + Twos(n - 1);
      assert s[3..] == Twos(n - 1);
      TwosPlain(n - 1);
    }
  }

  // Nine layers count as a label whatever the text says; eight are decoded in full.
  lemma LayersFailClosed(n: nat, look: CharFold)
    ensures n > 8 ==> IsLabel(Nested(n), look)
    ensures n <= 8 ==> (IsLabel(Nested(n), look) <==> Contains(look("%"), "[from"))
  {
    NestedDepth(n);
    NestedUnwraps(n);
    StripPlain("%");
  }

  lemma {:induction false} NestedUnwraps(n: nat)
    ensures Unwrap(Nested(n)) == "%"
  {
    hide DecodeAt;
    NestedStep(n);
    if n > 0 { NestedUnwraps(n - 1); }
  }
}
