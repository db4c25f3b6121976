// Canonical JSON (internal/audit/event.go): the printer of a decoded JSON tree
// and a parser that recovers the tree. Text is a sequence of Unicode scalar
// values, whose order is the byte order of their UTF-8.

module Canonical {
  import opened Prelude

  datatype Json =
    | Null | Bool(b: bool) | Num(text: string) | Str(s: string)
    | Arr(items: seq<Json>) | Obj(fields: map<string, Json>)

  // ---- strings ----

  const HEX := "0123456789abcdef"

  function EscapeChar(c: char): string {
    if c == '"' then "\\\""
    else if c == '\\' then "\\\\"
    else if c == '\n' then "\\n"
    else if c == '\r' then "\\r"
    else if c == '\t' then "\\t"
    else if c as int == 8 then "\\b"
    else if c as int == 12 then "\\f"
    else if c as int < 32 then "\\u00" + [HEX[c as int / 16], HEX[c as int % 16]]
    else if c as int == 0x2028 then "\\u2028"
    else if c as int == 0x2029 then "\\u2029"
    else [c]
  }

  function Escape(s: string): string {
    if s == "" then "" else EscapeChar(s[0]) + Escape(s[1..])
  }

  function HexValue(c: char): int {
    if '0' <= c <= '9' then c as int - 48 else if 'a' <= c <= 'f' then c as int - 87 else -1
  }

  // One character of a JSON string (section 7 of RFC 8259), and what follows it.
  function UnescapeChar(s: string): Option<(char, string)> {
    if s == "" || s[0] == '"' || s[0] as int < 32 then None
    else if s[0] != '\\' then Some((s[0], s[1..]))
    else if |s| < 2 then None
    else
      match s[1]
      case '"' => Some(('"', s[2..]))
      case '\\' => Some(('\\', s[2..]))
      case '/' => Some(('/', s[2..]))
      case 'n' => Some(('\n', s[2..]))
      case 'r' => Some(('\r', s[2..]))
      case 't' => Some(('\t', s[2..]))
      case 'b' => Some((8 as char, s[2..]))
      case 'f' => Some((12 as char, s[2..]))
      case 'u' =>
        if |s| < 6 || HexValue(s[2]) < 0 || HexValue(s[3]) < 0 || HexValue(s[4]) < 0 || HexValue(s[5]) < 0 then None
        else
          var n := 4096 * HexValue(s[2]) + 256 * HexValue(s[3]) + 16 * HexValue(s[4]) + HexValue(s[5]);
          if 0xD800 <= n < 0xE000 || n >= 0x10000 then None else Some((n as char, s[6..]))
      case _ => None
  }

  // The rest of a string after its opening quote.
  function ParseString(s: string): Option<(string, string)>
    decreases |s|
  {
    if s == "" then None
    else if s[0] == '"' then Some(("", s[1..]))
    else
      var c := UnescapeChar(s);
      if c.None? || |c.value.1| >= |s| then None
      else
        var r := ParseString(c.value.1);
        if r.None? then None else Some(([c.value.0] + r.value.0, r.value.1))
  }

  lemma UnescapeEscaped(c: char, rest: string)
    ensures UnescapeChar(EscapeChar(c) + rest) == Some((c, rest))
    ensures |EscapeChar(c)| > 0 && EscapeChar(c)[0] != '"'
  {
    var s := EscapeChar(c) + rest;
    var n := c as int;
    if n == 0x2028 || n == 0x2029 || (n < 32 && n != 8 && n != 9 && n != 10 && n != 12 && n != 13) {
      assert |EscapeChar(c)| == 6;
      assert s[2] == EscapeChar(c)[2] && s[3] == EscapeChar(c)[3];
      assert s[4] == EscapeChar(c)[4] && s[5] == EscapeChar(c)[5];
      assert s[6..] == rest;
    } else if |EscapeChar(c)| == 2 {
      assert s[2..] == rest;
    } else {
      assert s[1..] == rest;
    }
  }

  lemma {:induction false} StringRoundTrip(s: string, rest: string)
    ensures ParseString(Escape(s) + "\"" + rest) == Some((s, rest))
  {
    hide EscapeChar, UnescapeChar;
    if s == "" {
      assert Escape(s) + "\"" + rest == "\"" + rest;
    } else {
      StringRoundTrip(s[1..], rest);
      var tail := Escape(s[1..]) + "\"" + rest;
      UnescapeEscaped(s[0], tail);
      assert Escape(s) + "\"" + rest == EscapeChar(s[0]) + tail;
      assert [s[0]] + s[1..] == s;
    }
  }

  // ---- key order ----

  // sort.Strings' order.
  predicate Before(a: string, b: string) {
    if b == "" then false
    else if a == "" then true
    else a[0] < b[0] || (a[0] == b[0] && Before(a[1..], b[1..]))
  }

  lemma {:induction false} BeforeTotal(a: string, b: string)
    ensures (if Before(a, b) then 1 else 0) + (if Before(b, a) then 1 else 0) + (if a == b then 1 else 0) == 1
  {
    if a != "" && b != "" && a[0] == b[0] {
      BeforeTotal(a[1..], b[1..]);
      assert a == [a[0]] + a[1..] && b == [b[0]] + b[1..];
    }
  }

  // A string comes before another when it ends where they part, or goes on with a lower character.
  ghost predicate PartAt(a: string, b: string, k: nat) {
    && k <= |a| && k < |b| && a[..k] == b[..k]
    && (k == |a| || a[k] < b[k])
  }

  lemma {:induction false} BeforeIsLexicographic(a: string, b: string)
    ensures Before(a, b) <==> exists k: nat :: PartAt(a, b, k)
  {
    forall k: nat | k > 0 && PartAt(a, b, k) ensures a != "" && b != "" && a[0] == b[0] {
      assert a[..k][0] == b[..k][0];
    }
    if b != "" && a != "" && a[0] == b[0] {
      BeforeIsLexicographic(a[1..], b[1..]);
      if k: nat :| PartAt(a[1..], b[1..], k) {
        assert a[..k + 1] == [a[0]] + a[1..][..k] && b[..k + 1] == [b[0]] + b[1..][..k];
        assert PartAt(a, b, k + 1);
      }
      if k: nat :| PartAt(a, b, k) {
        assert k > 0 && a[1..][..k - 1] == a[..k][1..] && b[1..][..k - 1] == b[..k][1..];
        assert PartAt(a[1..], b[1..], k - 1);
      }
    } else if b != "" {
      assert PartAt(a, b, 0) <==> a == "" || a[0] < b[0];
    }
  }

  lemma {:induction false} BeforeTransitive(a: string, b: string, c: string)
    requires Before(a, b) && Before(b, c)
    ensures Before(a, c)
  {
    if a != "" && a[0] == b[0] && b[0] == c[0] { BeforeTransitive(a[1..], b[1..], c[1..]); }
  }

  ghost predicate Sorted(keys: seq<string>) { forall i, j :: 0 <= i < j < |keys| ==> Before(keys[i], keys[j]) }

  function InsertKey(k: string, keys: seq<string>): seq<string> {
    if keys == [] || Before(k, keys[0]) then [k] + keys else [keys[0]] + InsertKey(k, keys[1..])
  }

  lemma {:induction false} InsertKeySorted(k: string, keys: seq<string>)
    requires Sorted(keys) && k !in keys
    ensures Sorted(InsertKey(k, keys))
    ensures forall x :: x in InsertKey(k, keys) <==> x == k || x in keys
  {
    var r := InsertKey(k, keys);
    if keys == [] || Before(k, keys[0]) {
      forall j | 0 < j < |r| ensures Before(k, r[j]) {
        if j > 1 { BeforeTransitive(k, keys[0], keys[j - 1]); }
      }
    } else {
      var tail := keys[1..];
      InsertKeySorted(k, tail);
      BeforeTotal(k, keys[0]);
      forall j | 0 < j < |r| ensures Before(keys[0], r[j]) {
        assert r[j] in InsertKey(k, tail);
      }
    }
  }

  // The keys of an object in order.
  ghost function Ordered(keys: set<string>): seq<string> {
    if keys == {} then [] else var k :| k in keys; InsertKey(k, Ordered(keys - {k}))
  }

  lemma {:induction false} OrderedSorts(keys: set<string>)
    ensures Sorted(Ordered(keys)) && forall x :: x in Ordered(keys) <==> x in keys
  {
    if keys != {} {
      var k :| k in keys && Ordered(keys) == InsertKey(k, Ordered(keys - {k}));
      OrderedSorts(keys - {k});
      InsertKeySorted(k, Ordered(keys - {k}));
    }
  }

  // There is one sorted list of a set of keys, so the order in which a map
  // yields them does not matter.
  lemma {:induction false} SortedIsUnique(a: seq<string>, b: seq<string>)
    requires Sorted(a) && Sorted(b) && forall x :: x in a <==> x in b
    ensures a == b
  {
    FirstIsMember(a);
    FirstIsMember(b);
    if a != [] {
      FirstIsLeast(a, b[0]);
      FirstIsLeast(b, a[0]);
      BeforeTotal(a[0], b[0]);
      TailMembers(a);
      TailMembers(b);
      SortedIsUnique(a[1..], b[1..]);
      assert a == [a[0]] + a[1..] && b == [b[0]] + b[1..];
    }
  }

  lemma FirstIsMember(a: seq<string>)
    ensures a != [] ==> a[0] in a
  {
  }

  lemma FirstIsLeast(a: seq<string>, x: string)
    requires Sorted(a) && x in a
    ensures x == a[0] || Before(a[0], x)
  {
    var i :| 0 <= i < |a| && a[i] == x;
  }

  lemma TailMembers(a: seq<string>)
    requires Sorted(a) && a != []
    ensures Sorted(a[1..])
    ensures forall x :: x in a[1..] <==> x in a && x != a[0]
  {
    forall x | x in a[1..] ensures x in a && x != a[0] {
      var i :| 0 <= i < |a[1..]| && a[1..][i] == x;
      assert a[i + 1] == x;
      BeforeTotal(a[0], x);
    }
  }

  // ---- the printer ----

  ghost function Print(t: Json): string
    decreases t, 2, 0
  {
    match t
    case Null => "null"
    case Bool(b) => if b then "true" else "false"
    case Num(text) => text
    case Str(s) => Quote(s)
    case Arr(items) => "[" + PrintItems(items) + "]"
    case Obj(fields) => "{" + PrintFields(t) + "}"
  }

  ghost function PrintFields(t: Json): string
    requires t.Obj?
    decreases t, 1, 0
  {
    OrderedSorts(t.fields.Keys);
    PrintMembers(t, Ordered(t.fields.Keys))
  }

  function Quote(s: string): string { "\"" + Escape(s) + "\"" }

  ghost function PrintItems(items: seq<Json>): string
    decreases items
  {
    if items == [] then ""
    else if |items| == 1 then Print(items[0])
    else Print(items[0]) + "," + PrintItems(items[1..])
  }

  ghost function PrintMembers(t: Json, keys: seq<string>): string
    requires t.Obj? && forall k :: k in keys ==> k in t.fields
    decreases t, 0, |keys|
  {
    if keys == [] then ""
    else
      var m := Quote(keys[0]) + ":" + Print(t.fields[keys[0]]);
      if |keys| == 1 then m else m + "," + PrintMembers(t, keys[1..])
  }

  // ---- a parser of what it prints (RFC 8259) ----

  predicate NumChar(c: char) { '0' <= c <= '9' || c == '+' || c == '-' || c == '.' || c == 'e' || c == 'E' }

  predicate NumStart(c: char) { '0' <= c <= '9' || c == '-' }

  function NumberLength(s: string): (n: nat)
    ensures n <= |s|
  {
    if s == "" || !NumChar(s[0]) then 0 else 1 + NumberLength(s[1..])
  }

  function ParseWord(s: string, word: string, t: Json): (r: Option<(Json, string)>)
    requires word != ""
    ensures r.Some? ==> |r.value.1| < |s|
  {
    if |word| <= |s| && s[..|word|] == word then Some((t, s[|word|..])) else None
  }

  function ParseValue(s: string): (r: Option<(Json, string)>)
    ensures r.Some? ==> |r.value.1| < |s|
    decreases |s|, 0
  {
    if s == "" then None
    else if s[0] == 'n' then ParseWord(s, "null", Null)
    else if s[0] == 't' then ParseWord(s, "true", Bool(true))
    else if s[0] == 'f' then ParseWord(s, "false", Bool(false))
    else if NumStart(s[0]) then Some((Num(s[..NumberLength(s)]), s[NumberLength(s)..]))
    else if s[0] == '"' then ParseText(s[1..])
    else if s[0] == '[' then ParseArray(s[1..])
    else if s[0] == '{' then ParseObject(s[1..])
    else None
  }

  function ParseText(s: string): (r: Option<(Json, string)>)
    ensures r.Some? ==> |r.value.1| <= |s|
  {
    ParseStringShrinks(s);
    var r := ParseString(s);
    if r.None? then None else Some((Str(r.value.0), r.value.1))
  }

  function ParseArray(s: string): (r: Option<(Json, string)>)
    ensures r.Some? ==> |r.value.1| <= |s|
    decreases |s|, 2
  {
    if s != "" && s[0] == ']' then Some((Arr([]), s[1..]))
    else
      var r := ParseItems(s);
      if r.None? then None else Some((Arr(r.value.0), r.value.1))
  }

  function ParseObject(s: string): (r: Option<(Json, string)>)
    ensures r.Some? ==> |r.value.1| <= |s|
    decreases |s|, 2
  {
    if s != "" && s[0] == '}' then Some((Obj(map[]), s[1..]))
    else
      var r := ParseMembers(s);
      if r.None? then None else Some((Obj(r.value.0), r.value.1))
  }

  function ParseItems(s: string): (r: Option<(seq<Json>, string)>)
    ensures r.Some? ==> |r.value.1| < |s|
    decreases |s|, 1
  {
    var v := ParseValue(s);
    if v.None? || v.value.1 == "" then None
    else if v.value.1[0] == ']' then Some(([v.value.0], v.value.1[1..]))
    else if v.value.1[0] == ',' then
      var r := ParseItems(v.value.1[1..]);
      if r.None? then None else Some(([v.value.0] + r.value.0, r.value.1))
    else None
  }

  // The key of a member and what follows its colon.
  function ParseKey(s: string): (r: Option<(string, string)>)
    ensures r.Some? ==> |r.value.1| < |s|
  {
    if s == "" || s[0] != '"' then None
    else
      ParseStringShrinks(s[1..]);
      var k := ParseString(s[1..]);
      if k.None? || k.value.1 == "" || k.value.1[0] != ':' then None else Some((k.value.0, k.value.1[1..]))
  }

  function ParseMembers(s: string): (r: Option<(map<string, Json>, string)>)
    ensures r.Some? ==> |r.value.1| < |s|
    decreases |s|, 1
  {
    var k := ParseKey(s);
    if k.None? then None
    else
      var v := ParseValue(k.value.1);
      if v.None? || v.value.1 == "" then None
      else if v.value.1[0] == '}' then Some((map[k.value.0 := v.value.0], v.value.1[1..]))
      else if v.value.1[0] == ',' then
        var r := ParseMembers(v.value.1[1..]);
        if r.None? then None else Some((map[k.value.0 := v.value.0] + r.value.0, r.value.1))
      else None
  }

  lemma {:induction false} ParseStringShrinks(s: string)
    ensures ParseString(s).Some? ==> |ParseString(s).value.1| < |s|
    decreases |s|
  {
    if s != "" && s[0] != '"' {
      var c := UnescapeChar(s);
      if c.Some? && |c.value.1| < |s| { ParseStringShrinks(c.value.1); }
    }
  }

  // ---- the parser inverts the printer ----

  predicate ValidNumber(text: string) { text != "" && NumStart(text[0]) && forall c :: c in text ==> NumChar(c) }

  // A tree that the decoder can yield: its numbers are written as numbers.
  ghost predicate Valid(t: Json)
    decreases t
  {
    match t
    case Num(text) => ValidNumber(text)
    case Arr(items) => forall i :: 0 <= i < |items| ==> Valid(items[i])
    case Obj(fields) => forall k :: k in fields ==> Valid(fields[k])
    case _ => true
  }

  // What may follow a printed tree without changing how it is read.
  predicate Follows(t: Json, rest: string) { t.Num? ==> rest == "" || !NumChar(rest[0]) }

  lemma {:induction false} NumberEnds(text: string, rest: string)
    requires (forall c :: c in text ==> NumChar(c)) && (rest == "" || !NumChar(rest[0]))
    ensures NumberLength(text + rest) == |text|
  {
    if text == "" {
      assert text + rest == rest;
    } else {
      assert text[0] in text;
      assert (text + rest)[1..] == text[1..] + rest;
      NumberEnds(text[1..], rest);
    }
  }

  lemma PrintStarts(t: Json)
    requires Valid(t)
    ensures Print(t) != "" && Print(t)[0] != ']' && Print(t)[0] != '}'
  {
  }

  lemma ParsesWord(word: string, rest: string, t: Json)
    requires word != ""
    ensures ParseWord(word + rest, word, t) == Some((t, rest))
  {
    assert (word + rest)[..|word|] == word && (word + rest)[|word|..] == rest;
  }

  lemma ParsesText(s: string, rest: string)
    ensures ParseValue(Quote(s) + rest) == Some((Str(s), rest))
  {
    hide ParseString, Escape;
    assert (Quote(s) + rest)[1..] == Escape(s) + "\"" + rest;
    StringRoundTrip(s, rest);
  }

  lemma ParsesNumber(text: string, rest: string)
    requires ValidNumber(text) && (rest == "" || !NumChar(rest[0]))
    ensures ParseValue(text + rest) == Some((Num(text), rest))
  {
    NumberEnds(text, rest);
    assert (text + rest)[..|text|] == text && (text + rest)[|text|..] == rest;
  }

  lemma ParsesScalar(t: Json, rest: string)
    requires Valid(t) && Follows(t, rest) && !t.Arr? && !t.Obj?
    ensures ParseValue(Print(t) + rest) == Some((t, rest))
  {
    hide ParseWord, ParseString, NumberLength, NumChar, Escape;
    match t
    case Null => ParsesWord("null", rest, Null);
    case Bool(b) => ParsesWord(if b then "true" else "false", rest, Bool(b));
    case Num(text) => ParsesNumber(text, rest);
    case Str(x) => ParsesText(x, rest);
  }

  lemma {:induction false} ParseInvertsPrint(t: Json, rest: string)
    requires Valid(t) && Follows(t, rest)
    ensures ParseValue(Print(t) + rest) == Some((t, rest))
    decreases t, 2, 0
  {
    hide ParseArray, ParseObject, PrintItems, PrintFields, ParseText, ParseWord, NumberLength;
    var s := Print(t) + rest;
    if t.Arr? {
      var body := PrintItems(t.items) + "]" + rest;
      assert s[1..] == body && s[0] == '[';
      ParsesArray(t, rest);
    } else if t.Obj? {
      var body := PrintFields(t) + "}" + rest;
      assert s[1..] == body && s[0] == '{';
      ParsesObject(t, rest);
    } else {
      ParsesScalar(t, rest);
    }
  }

  lemma {:induction false} ParsesArray(t: Json, rest: string)
    requires t.Arr? && Valid(t)
    ensures ParseArray(PrintItems(t.items) + "]" + rest) == Some((t, rest))
    decreases t, 1, 0
  {
    if t.items == [] {
      assert PrintItems(t.items) + "]" + rest == "]" + rest;
    } else {
      PrintStarts(t.items[0]);
      ParsesItems(t.items, rest, t);
    }
  }

  lemma ItemsText(items: seq<Json>, rest: string)
    requires items != []
    ensures PrintItems(items) + "]" + rest == Print(items[0]) + AfterItem(items, rest)
  {
    hide Print;
    if |items| > 1 {
      Regroup("", Print(items[0]), "," + PrintItems(items[1..]), "]", rest);
      assert "" + Print(items[0]) == Print(items[0]);
    }
  }

  lemma AfterEnds(items: seq<Json>, rest: string)
    requires items != []
    ensures AfterItem(items, rest) != "" && !NumChar(AfterItem(items, rest)[0])
  {
    hide Print, PrintItems;
  }

  // What follows the first value of a printed list.
  ghost function AfterItem(items: seq<Json>, rest: string): string
    requires items != []
  {
    if |items| == 1 then "]" + rest else "," + PrintItems(items[1..]) + "]" + rest
  }

  lemma {:induction false} ParsesItems(items: seq<Json>, rest: string, parent: Json)
    requires items != [] && forall i :: 0 <= i < |items| ==> Valid(items[i]) && items[i] < parent
    ensures ParseItems(PrintItems(items) + "]" + rest) == Some((items, rest))
    decreases parent, 0, |items|
  {
    hide ParseValue, Print, Valid, PrintItems, NumChar;
    var tail := AfterItem(items, rest);
    ItemsText(items, rest);
    AfterEnds(items, rest);
    ParseInvertsPrint(items[0], tail);
    if |items| == 1 {
      assert tail[1..] == rest;
      assert [items[0]] == items;
    } else {
      assert tail[1..] == PrintItems(items[1..]) + "]" + rest;
      ParsesItems(items[1..], rest, parent);
      assert [items[0]] + items[1..] == items;
    }
  }

  ghost function Restrict(fields: map<string, Json>, keys: seq<string>): map<string, Json> {
    map k | k in fields && k in keys :: fields[k]
  }

  lemma {:induction false} ParsesObject(t: Json, rest: string)
    requires t.Obj? && Valid(t)
    ensures ParseObject(PrintFields(t) + "}" + rest) == Some((t, rest))
    decreases t, 1, 0
  {
    OrderedSorts(t.fields.Keys);
    var keys := Ordered(t.fields.Keys);
    if keys == [] {
      FieldsEmpty(t.fields, keys);
      assert PrintMembers(t, keys) + "}" + rest == "}" + rest;
    } else {
      SortedLength(keys, t.fields.Keys);
      ParsesMembers(t, keys, rest);
      assert Restrict(t.fields, keys) == t.fields;
    }
  }

  lemma FieldsEmpty(fields: map<string, Json>, keys: seq<string>)
    requires keys == [] && (forall x :: x in keys <==> x in fields.Keys)
    ensures fields == map[]
  {
  }

  lemma {:induction false} SortedLength(keys: seq<string>, all: set<string>)
    requires Sorted(keys) && forall x :: x in keys <==> x in all
    ensures |keys| == |all|
  {
    if keys == [] {
      assert all == {};
    } else {
      TailMembers(keys);
      FirstIsMember(keys);
      SortedLength(keys[1..], all - {keys[0]});
    }
  }

  lemma {:induction false} ParsesKey(k: string, rest: string)
    ensures ParseKey(Quote(k) + ":" + rest) == Some((k, rest))
  {
    var s := Quote(k) + ":" + rest;
    assert s[1..] == Escape(k) + "\"" + (":" + rest);
    StringRoundTrip(k, ":" + rest);
  }

  lemma RestrictOne(fields: map<string, Json>, keys: seq<string>)
    requires |keys| == 1 && keys[0] in fields
    ensures Restrict(fields, keys) == map[keys[0] := fields[keys[0]]]
  {
  }

  lemma RestrictMore(fields: map<string, Json>, keys: seq<string>)
    requires keys != [] && Sorted(keys) && keys[0] in fields
    ensures Restrict(fields, keys) == map[keys[0] := fields[keys[0]]] + Restrict(fields, keys[1..])
  {
    TailMembers(keys);
    FirstIsMember(keys);
  }

  // What follows the first value of a printed object.
  ghost function AfterFirst(t: Json, keys: seq<string>, rest: string): string
    requires t.Obj? && keys != [] && forall k :: k in keys ==> k in t.fields
  {
    if |keys| == 1 then "}" + rest else "," + PrintMembers(t, keys[1..]) + "}" + rest
  }

  lemma FirstMember(t: Json, keys: seq<string>)
    requires t.Obj? && keys != [] && forall k :: k in keys ==> k in t.fields
    ensures PrintMembers(t, keys)
         == Quote(keys[0]) + ":" + Print(t.fields[keys[0]])
            + if |keys| == 1 then "" else "," + PrintMembers(t, keys[1..])
  {
    hide Print, Quote;
  }

  lemma MembersText(t: Json, keys: seq<string>, rest: string)
    requires t.Obj? && keys != [] && forall k :: k in keys ==> k in t.fields
    ensures PrintMembers(t, keys) + "}" + rest
         == Quote(keys[0]) + ":" + (Print(t.fields[keys[0]]) + AfterFirst(t, keys, rest))
    ensures Follows(t.fields[keys[0]], AfterFirst(t, keys, rest))
  {
    hide Print, Quote, PrintMembers, Follows;
    var key, value := Quote(keys[0]) + ":", Print(t.fields[keys[0]]);
    var more := if |keys| == 1 then "" else "," + PrintMembers(t, keys[1..]);
    FirstMember(t, keys);
    Regroup(key, value, more, "}", rest);
    assert AfterFirst(t, keys, rest) == more + "}" + rest;
    AfterFirstFollows(t, keys, rest);
  }

  lemma AfterFirstFollows(t: Json, keys: seq<string>, rest: string)
    requires t.Obj? && keys != [] && forall k :: k in keys ==> k in t.fields
    ensures Follows(t.fields[keys[0]], AfterFirst(t, keys, rest))
  {
    hide PrintMembers;
    assert AfterFirst(t, keys, rest)[0] == if |keys| == 1 then '}' else ',';
  }

  lemma Regroup(a: string, b: string, c: string, d: string, e: string)
    ensures a + b + c + d + e == a + (b + (c + d + e))
  {
    assert a + b + c + d + e == a + b + (c + d + e);
  }

  lemma {:induction false} ParsesMembers(t: Json, keys: seq<string>, rest: string)
    requires t.Obj? && keys != [] && Sorted(keys)
    requires forall k :: k in keys ==> k in t.fields && Valid(t.fields[k])
    ensures ParseMembers(PrintMembers(t, keys) + "}" + rest) == Some((Restrict(t.fields, keys), rest))
    decreases t, 0, |keys|
  {
    hide ParseValue, Print, PrintMembers, Valid, Follows, Quote, ParseKey, Sorted, Restrict;
    var k := keys[0];
    var v := t.fields[k];
    var tail := AfterFirst(t, keys, rest);
    MembersText(t, keys, rest);
    ParsesKey(k, Print(v) + tail);
    ParseInvertsPrint(v, tail);
    if |keys| == 1 {
      RestrictOne(t.fields, keys);
      assert tail[1..] == rest;
    } else {
      assert tail[1..] == PrintMembers(t, keys[1..]) + "}" + rest;
      TailMembers(keys);
      ParsesMembers(t, keys[1..], rest);
      RestrictMore(t.fields, keys);
    }
  }

  // ---- what the text looks like ----

  predicate OneLine(s: string) { forall i :: 0 <= i < |s| ==> s[i] as int >= 32 }

  // Every character but the quote, the backslash, the two line separators and the control characters
  // stands for itself, so nothing is escaped for HTML.
  lemma PlainStandsForItself(c: char)
    ensures EscapeChar(c) == [c] <==>
      c as int >= 32 && c != '"' && c != '\\' && c as int != 0x2028 && c as int != 0x2029
    ensures OneLine(EscapeChar(c))
  {
  }

  lemma {:induction false} EscapeIsOneLine(s: string)
    ensures OneLine(Escape(s)) && OneLine(Quote(s))
  {
    hide EscapeChar;
    if s != "" {
      PlainStandsForItself(s[0]);
      EscapeIsOneLine(s[1..]);
    }
  }

  // The canonical text of a tree is one line, so a record is one line of the log.
  lemma {:induction false} PrintIsOneLine(t: Json)
    requires Valid(t)
    ensures OneLine(Print(t))
    decreases t, 1, 0
  {
    match t
    case Str(s) => EscapeIsOneLine(s);
    case Num(text) => NumberIsOneLine(text);
    case Arr(items) => ItemsAreOneLine(items, t);
    case Obj(fields) =>
      OrderedSorts(fields.Keys);
      MembersAreOneLine(t, Ordered(fields.Keys));
    case _ =>
  }

  lemma NumberIsOneLine(text: string)
    requires ValidNumber(text)
    ensures OneLine(text)
  {
    forall i | 0 <= i < |text| ensures text[i] as int >= 32 { assert text[i] in text; }
  }

  lemma {:induction false} ItemsAreOneLine(items: seq<Json>, parent: Json)
    requires forall i :: 0 <= i < |items| ==> Valid(items[i]) && items[i] < parent
    ensures OneLine(PrintItems(items))
    decreases parent, 0, |items|
  {
    hide Print, Valid;
    if items != [] {
      PrintIsOneLine(items[0]);
      ItemsAreOneLine(items[1..], parent);
    }
  }

  lemma {:induction false} MembersAreOneLine(t: Json, keys: seq<string>)
    requires t.Obj? && forall k :: k in keys ==> k in t.fields && Valid(t.fields[k])
    ensures OneLine(PrintMembers(t, keys))
    decreases t, 0, |keys|
  {
    hide Print, Quote, Valid;
    if keys != [] {
      FirstMember(t, keys);
      EscapeIsOneLine(keys[0]);
      PrintIsOneLine(t.fields[keys[0]]);
      MembersAreOneLine(t, keys[1..]);
    }
  }

  // A printed object is longer than any of its values.
  lemma FieldIsPrinted(t: Json, key: string)
    requires t.Obj? && key in t.fields
    ensures |Print(t)| > |Print(t.fields[key])|
  {
    OrderedSorts(t.fields.Keys);
    MemberIsPrinted(t, Ordered(t.fields.Keys), key);
  }

  lemma {:induction false} MemberIsPrinted(t: Json, keys: seq<string>, key: string)
    requires t.Obj? && key in keys && forall k :: k in keys ==> k in t.fields
    ensures |PrintMembers(t, keys)| >= |Print(t.fields[key])|
  {
    hide Print, Quote;
    FirstMember(t, keys);
    if key != keys[0] { MemberIsPrinted(t, keys[1..], key); }
  }

  lemma {:induction false} EscapeIsLonger(s: string)
    ensures |Escape(s)| >= |s|
  {
    if s != "" {
      EscapeIsLonger(s[1..]);
      UnescapeEscaped(s[0], "");
    }
  }

  lemma TextIsPrinted(s: string)
    ensures |Print(Str(s))| >= |s| + 2
  {
    EscapeIsLonger(s);
  }

  // Two decoded trees that print alike, whatever follows them, are the same tree.
  lemma PrintIsInjective(a: Json, b: Json, x: string, y: string)
    requires Valid(a) && Valid(b) && Follows(a, x) && Follows(b, y)
    requires Print(a) + x == Print(b) + y
    ensures a == b && x == y
  {
    ParseInvertsPrint(a, x);
    ParseInvertsPrint(b, y);
  }

  // ---- writeCanonical, which appends to a shared buffer ----

  // sort.Strings.
  function SortKeys(keys: seq<string>): seq<string> {
    if keys == [] then [] else InsertKey(keys[0], SortKeys(keys[1..]))
  }

  ghost predicate Distinct(keys: seq<string>) { forall i, j :: 0 <= i < j < |keys| ==> keys[i] != keys[j] }

  lemma {:induction false} SortKeysSorts(keys: seq<string>)
    requires Distinct(keys)
    ensures Sorted(SortKeys(keys)) && forall x :: x in SortKeys(keys) <==> x in keys
  {
    if keys != [] {
      SortKeysSorts(keys[1..]);
      InsertKeySorted(keys[0], SortKeys(keys[1..]));
      assert keys == [keys[0]] + keys[1..];
    }
  }

  // In whatever order the keys of a map arrive, sorting them gives Ordered.
  lemma ArrivalOrderIsIrrelevant(arrived: seq<string>, keys: set<string>)
    requires Distinct(arrived) && forall x :: x in arrived <==> x in keys
    ensures SortKeys(arrived) == Ordered(keys)
  {
    SortKeysSorts(arrived);
    OrderedSorts(keys);
    SortedIsUnique(SortKeys(arrived), Ordered(keys));
  }

  // The keys of a map, in an order of the map's choosing.
  method RangeKeys(fields: map<string, Json>) returns (keys: seq<string>)
    ensures Distinct(keys) && forall x :: x in keys <==> x in fields.Keys
  {
    keys := [];
    var left := fields.Keys;
    while left != {}
      invariant Distinct(keys) && left <= fields.Keys
      invariant forall x :: x in keys <==> x in fields.Keys && x !in left
      decreases |left|
    {
      var k :| k in left;
      keys := keys + [k];
      left := left - {k};
    }
  }

  class Buffer {
    var text: string

    constructor ()
      ensures text == ""
    {
      text := "";
    }

    method WriteCanonical(v: Json)
      modifies this
      ensures text == old(text) + Print(v)
      decreases v, 1
    {
      hide PrintItems, PrintFields, Quote;
      match v
      case Obj(_) =>
        var before := text;
        text := text + "{";
        WriteMembers(v);
        text := text + "}";
        assert text == before + "{" + PrintFields(v) + "}";
      case Arr(items) =>
        var before := text;
        text := text + "[";
        WriteItems(items, v);
        text := text + "]";
        assert text == before + "[" + PrintItems(items) + "]";
      case Num(t) => text := text + t;
      case Str(s) => text := text + Quote(s);
      case Bool(b) => text := text + if b then "true" else "false";
      case Null => text := text + "null";
    }

    method WriteItems(items: seq<Json>, ghost parent: Json)
      requires forall i :: 0 <= i < |items| ==> items[i] < parent
      modifies this
      ensures text == old(text) + PrintItems(items)
      decreases parent, 0
    {
      hide Print, PrintItems, PendingItems;
      PendingEnds(items);
      var i := 0;
      while i < |items|
        invariant i <= |items|
        invariant text + PendingItems(items, i) == old(text) + PrintItems(items)
      {
        ItemsStep(items, i);
        if i > 0 { text := text + ","; }
        WriteCanonical(items[i]);
        i := i + 1;
      }
    }

    method WriteMembers(v: Json)
      requires v.Obj?
      modifies this
      ensures text == old(text) + PrintFields(v)
      decreases v, 0
    {
      hide Print, PrintMembers, PendingMembers, Quote, SortKeys, Sorted, Ordered, Before;
      var arrived := RangeKeys(v.fields);
      ArrivalOrderIsIrrelevant(arrived, v.fields.Keys);
      SortKeysSorts(arrived);
      var keys := SortKeys(arrived);
      PendingMembersEnds(v, keys);
      var i := 0;
      while i < |keys|
        invariant i <= |keys|
        invariant text + PendingMembers(v, keys, i) == old(text) + PrintMembers(v, keys)
      {
        MembersStep(v, keys, i);
        if i > 0 { text := text + ","; }
        text := text + Quote(keys[i]) + ":";
        WriteCanonical(v.fields[keys[i]]);
        i := i + 1;
      }
    }
  }

  // What the loop has still to write before its i-th round.
  ghost function PendingItems(items: seq<Json>, i: nat): string
    requires i <= |items|
  {
    if i == 0 || i == |items| then PrintItems(items[i..]) else "," + PrintItems(items[i..])
  }

  lemma PendingEnds(items: seq<Json>)
    ensures PendingItems(items, 0) == PrintItems(items) && PendingItems(items, |items|) == ""
  {
    assert items[0..] == items;
  }

  lemma ItemsStep(items: seq<Json>, i: nat)
    requires i < |items|
    ensures PendingItems(items, i) == (if i > 0 then "," else "") + Print(items[i]) + PendingItems(items, i + 1)
  {
    assert items[i..][1..] == items[i + 1..];
  }

  ghost function PendingMembers(v: Json, keys: seq<string>, i: nat): string
    requires i <= |keys| && v.Obj? && forall k :: k in keys ==> k in v.fields
  {
    if i == 0 || i == |keys| then PrintMembers(v, keys[i..]) else "," + PrintMembers(v, keys[i..])
  }

  lemma PendingMembersEnds(v: Json, keys: seq<string>)
    requires v.Obj? && forall k :: k in keys ==> k in v.fields
    ensures PendingMembers(v, keys, 0) == PrintMembers(v, keys) && PendingMembers(v, keys, |keys|) == ""
  {
    assert keys[0..] == keys;
  }

  lemma MembersStep(v: Json, keys: seq<string>, i: nat)
    requires i < |keys| && v.Obj? && forall k :: k in keys ==> k in v.fields
    ensures PendingMembers(v, keys, i)
         == (if i > 0 then "," else "") + Quote(keys[i]) + ":" + Print(v.fields[keys[i]])
            + PendingMembers(v, keys, i + 1)
  {
    hide Print, Quote;
    assert keys[i..][1..] == keys[i + 1..];
  }
}
