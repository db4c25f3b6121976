// The streaming secret scrubber (internal/proxy/scrub.go).

module Scrub {
  import opened Prelude

  type Byte = bv8
  type Bytes = seq<Byte>

  const MIN_SECRET_LEN := 4

  // A form of a secret and the marker that replaces it.
  datatype Form = Form(value: Bytes, marker: Bytes)

  predicate HasPrefix(s: Bytes, p: Bytes) { |p| <= |s| && s[..|p|] == p }

  // No form is empty: a secret has at least MIN_SECRET_LEN bytes and no
  // encoding of one is shorter than a byte.
  ghost predicate NonEmpty(forms: seq<Form>) { forall i :: 0 <= i < |forms| ==> |forms[i].value| > 0 }

  // What write does at one position of its input.
  datatype Action = Replace(marker: Bytes, n: nat) | Truncated(marker: Bytes) | Wait | Copy

  // The scan of the forms at one position. A stream that ends in at least
  // MIN_SECRET_LEN bytes of a form has that tail replaced too.
  function Decide(forms: seq<Form>, rest: Bytes, final: bool): Action {
    if forms == [] then Copy
    else
      var v := forms[0];
      if |rest| >= |v.value| then
        if HasPrefix(rest, v.value) then Replace(v.marker, |v.value|) else Decide(forms[1..], rest, final)
      else if HasPrefix(v.value, rest) then
        if !final then Wait
        else if |rest| >= MIN_SECRET_LEN then Truncated(v.marker)
        else Decide(forms[1..], rest, final)
      else Decide(forms[1..], rest, final)
  }

  // How far a position that is settled moves on, and what it writes.
  function Width(a: Action): nat { if a.Replace? then a.n else 1 }

  function Emitted(a: Action, rest: Bytes): Bytes
    requires rest != []
  {
    if a.Replace? then a.marker else [rest[0]]
  }

  datatype Result = Result(out: Bytes, pending: Bytes)

  // One write over data, pending included.
  function Scan(forms: seq<Form>, data: Bytes, final: bool): Result
    decreases |data|
  {
    if data == [] then Result([], [])
    else
      var a := Decide(forms, data, final);
      if a.Wait? then Result([], data)
      else if a.Truncated? || !(0 < Width(a) <= |data|) then Result(if a.Truncated? then a.marker else [], [])
      else Before(Emitted(a, data), Scan(forms, data[Width(a)..], final))
  }

  function Before(out: Bytes, r: Result): Result { Result(out + r.out, r.pending) }

  // Some form begins with these bytes and has more.
  ghost predicate Unfinished(forms: seq<Form>, rest: Bytes) {
    exists i :: 0 <= i < |forms| && |rest| < |forms[i].value| && HasPrefix(forms[i].value, rest)
  }

  lemma {:induction false} DecideBounds(forms: seq<Form>, rest: Bytes, final: bool)
    requires NonEmpty(forms)
    ensures match Decide(forms, rest, final)
            case Replace(m, n) => 0 < n <= |rest| && Form(rest[..n], m) in forms
            case Truncated(m) => final && MIN_SECRET_LEN <= |rest| &&
              exists i :: 0 <= i < |forms| && forms[i].marker == m && |rest| < |forms[i].value|
                && HasPrefix(forms[i].value, rest)
            case Wait => !final && Unfinished(forms, rest)
            case Copy => true
  {
    if forms != [] {
      var v, tail := forms[0], forms[1..];
      assert NonEmpty(tail) by {
        forall i | 0 <= i < |tail| ensures |tail[i].value| > 0 { assert tail[i] == forms[i + 1]; }
      }
      DecideBounds(tail, rest, final);
      match Decide(tail, rest, final) {
        case Truncated(m) =>
          var i :| 0 <= i < |tail| && tail[i].marker == m && |rest| < |tail[i].value| && HasPrefix(tail[i].value, rest);
          assert forms[i + 1] == tail[i];
        case Wait =>
          var i :| 0 <= i < |tail| && |rest| < |tail[i].value| && HasPrefix(tail[i].value, rest);
          assert forms[i + 1] == tail[i];
        case _ =>
      }
      if HasPrefix(rest, v.value) { assert Form(rest[..|v.value|], v.marker) == v; }
    }
  }

  lemma ScanStep(forms: seq<Form>, data: Bytes, i: nat, final: bool, out: Bytes)
    requires NonEmpty(forms) && i < |data|
    ensures var a := Decide(forms, data[i..], final);
            var r := Before(out, Scan(forms, data[i..], final));
            if a.Wait? then r == Result(out, data[i..])
            else if a.Truncated? then r == Result(out + a.marker, [])
            else
              && 0 < Width(a) <= |data| - i
              && r == Before(out + Emitted(a, data[i..]), Scan(forms, data[i + Width(a)..], final))
  {
    DecideBounds(forms, data[i..], final);
    hide Decide, HasPrefix;
    var rest := data[i..];
    var a := Decide(forms, rest, final);
    if a.Replace? || a.Copy? {
      var tail := Scan(forms, rest[Width(a)..], final);
      assert rest[Width(a)..] == data[i + Width(a)..];
      assert Scan(forms, rest, final) == Before(Emitted(a, rest), tail);
      BeforeTwice(out, Emitted(a, rest), tail);
    } else {
      assert out + [] == out;
    }
  }

  lemma BeforeTwice(a: Bytes, b: Bytes, r: Result)
    ensures Before(a, Before(b, r)) == Before(a + b, r)
  {
  }

  lemma ScanNothing(forms: seq<Form>, data: Bytes, final: bool)
    ensures Scan(forms, data[|data|..], final) == Result([], [])
    ensures Before([], Scan(forms, data, final)) == Scan(forms, data, final)
  {
  }

  // The imperative scan, as the proxy runs it: the outer loop walks the data,
  // the inner one the forms.
  class Scrubber {
    const forms: seq<Form>
    var pending: Bytes

    constructor (forms: seq<Form>)
      ensures this.forms == forms && pending == []
    {
      this.forms, pending := forms, [];
    }

    method Write(p: Bytes, final: bool) returns (out: Bytes)
      requires NonEmpty(forms)
      modifies this
      ensures Result(out, pending) == Scan(forms, old(pending) + p, final)
    {
      hide Scan;
      var data := pending + p;
      assert data[0..] == data;
      ScanNothing(forms, data, final);
      pending := [];
      out := [];
      var i := 0;
      while i < |data|
        invariant 0 <= i <= |data| && pending == []
        invariant Before(out, Scan(forms, data[i..], final)) == Scan(forms, data, final)
      {
        var rest := data[i..];
        var j, action := 0, Copy;
        while j < |forms|
          invariant 0 <= j <= |forms| && action == Copy
          invariant Decide(forms[j..], rest, final) == Decide(forms, rest, final)
        {
          var v := forms[j];
          assert forms[j..][0] == v && forms[j..][1..] == forms[j + 1..];
          if |rest| >= |v.value| {
            if HasPrefix(rest, v.value) {
              action := Replace(v.marker, |v.value|);
              break;
            }
          } else if HasPrefix(v.value, rest) {
            if final {
              if |rest| >= MIN_SECRET_LEN {
                ScanStep(forms, data, i, final, out);
                out := out + v.marker;
                return;
              }
              j := j + 1;
              continue;
            }
            action := Wait;
            break;
          }
          j := j + 1;
        }
        assert action == Decide(forms, rest, final);
        if action.Wait? {
          ScanStep(forms, data, i, final, out);
          pending := rest;
          break;
        }
        ScanStep(forms, data, i, final, out);
        out := out + Emitted(action, rest);
        i := i + Width(action);
      }
    }
  }

  // ---- chunk invariance ----

  // What one position decides without waiting stays decided when more of the
  // stream arrives.
  lemma {:induction false} DecideStable(forms: seq<Form>, rest: Bytes, more: Bytes, final: bool)
    requires !Decide(forms, rest, false).Wait?
    ensures Decide(forms, rest + more, final) == Decide(forms, rest, false)
  {
    if forms != [] {
      var v := forms[0].value;
      PrefixOfPrefix(v, rest, more);
      if |rest| >= |v| {
        assert (rest + more)[..|v|] == rest[..|v|];
      } else if |rest + more| >= |v| {
        assert (rest + more)[..|v|][..|rest|] == rest;
      }
      if !HasPrefix(rest, v) { DecideStable(forms[1..], rest, more, final); }
    }
  }

  lemma PrefixOfPrefix(v: Bytes, rest: Bytes, more: Bytes)
    ensures HasPrefix(v, rest + more) ==> HasPrefix(v, rest)
  {
    if HasPrefix(v, rest + more) {
      assert v[..|rest|] == v[..|rest + more|][..|rest|];
      assert (rest + more)[..|rest|] == rest;
    }
  }

  lemma {:induction false} ScanExtends(forms: seq<Form>, data: Bytes, more: Bytes, final: bool)
    requires NonEmpty(forms)
    ensures var r := Scan(forms, data, false);
            Scan(forms, data + more, final) == Before(r.out, Scan(forms, r.pending + more, final))
    decreases |data|
  {
    hide Decide, HasPrefix;
    if data == [] {
      assert data + more == more;
    } else {
      DecideBounds(forms, data, false);
      var a := Decide(forms, data, false);
      if !a.Wait? {
        DecideStable(forms, data, more, final);
        var rest := data[Width(a)..];
        assert (data + more)[Width(a)..] == rest + more;
        ScanExtends(forms, rest, more, final);
        var r := Scan(forms, rest, false);
        var tail := Scan(forms, r.pending + more, final);
        assert Emitted(a, data + more) == Emitted(a, data);
        BeforeTwice(Emitted(a, data), r.out, tail);
      }
    }
  }

  function Concat(chunks: seq<Bytes>): Bytes {
    if chunks == [] then [] else chunks[0] + Concat(chunks[1..])
  }

  // The output of non-final writes of the chunks, then a final write of last.
  function Stream(forms: seq<Form>, pending: Bytes, chunks: seq<Bytes>, last: Bytes): Bytes
    decreases |chunks|
  {
    if chunks == [] then Scan(forms, pending + last, true).out
    else
      var r := Scan(forms, pending + chunks[0], false);
      r.out + Stream(forms, r.pending, chunks[1..], last)
  }

  lemma {:induction false} ChunkInvariance(forms: seq<Form>, pending: Bytes, chunks: seq<Bytes>, last: Bytes)
    requires NonEmpty(forms)
    ensures Stream(forms, pending, chunks, last) == Scan(forms, pending + (Concat(chunks) + last), true).out
    decreases |chunks|
  {
    if chunks == [] {
      assert Concat(chunks) + last == last;
    } else {
      hide Scan;
      var head, more := pending + chunks[0], Concat(chunks[1..]) + last;
      var r := Scan(forms, head, false);
      ChunkInvariance(forms, r.pending, chunks[1..], last);
      ScanExtends(forms, head, more, true);
      Regroup(pending, chunks[0], Concat(chunks[1..]), last);
    }
  }

  lemma Regroup(a: Bytes, b: Bytes, c: Bytes, d: Bytes)
    ensures a + ((b + c) + d) == (a + b) + (c + d)
  {
  }

  // What a write holds back is a suffix of its input that a form begins with,
  // so it is shorter than that form.
  lemma {:induction false} HeldBack(forms: seq<Form>, data: Bytes, final: bool)
    requires NonEmpty(forms)
    ensures var q := Scan(forms, data, final).pending;
            && |q| <= |data| && q == data[|data| - |q|..] && (final ==> q == [])
            && (q != [] ==> Unfinished(forms, q))
    decreases |data|
  {
    if data != [] {
      DecideBounds(forms, data, final);
      var a := Decide(forms, data, final);
      if a.Replace? || a.Copy? { HeldBack(forms, data[Width(a)..], final); }
    }
  }

  // ---- coverage ----

  // The whole stream, cut into the bytes copied out and the spans replaced.
  datatype Piece = Kept(at: nat) | Span(at: nat, n: nat, marker: Bytes)

  function Size(x: Piece): nat { if x.Kept? then 1 else x.n }

  function PieceAt(a: Action, at: nat, end: nat): Piece
    requires at < end
  {
    match a
    case Replace(m, n) => Span(at, n, m)
    case Truncated(m) => Span(at, end - at, m)
    case _ => Kept(at)
  }

  function Trace(forms: seq<Form>, data: Bytes, from: nat): seq<Piece>
    requires from <= |data|
    decreases |data| - from
  {
    if from == |data| then []
    else
      var x := PieceAt(Decide(forms, data[from..], true), from, |data|);
      if 0 < Size(x) <= |data| - from then [x] + Trace(forms, data, from + Size(x)) else []
  }

  function Written(data: Bytes, x: Piece): Bytes {
    if x.Span? then x.marker else if x.at < |data| then [data[x.at]] else []
  }

  function Render(data: Bytes, t: seq<Piece>): Bytes {
    if t == [] then [] else Written(data, t[0]) + Render(data, t[1..])
  }

  // The pieces follow each other from one position to the end of the stream.
  ghost predicate Tiles(t: seq<Piece>, from: nat, end: nat) {
    if t == [] then from == end else t[0].at == from && Size(t[0]) > 0 && Tiles(t[1..], from + Size(t[0]), end)
  }

  // The end of the stream, of at least MIN_SECRET_LEN bytes, begins a form.
  ghost predicate CutShort(forms: seq<Form>, rest: Bytes, marker: Bytes) {
    |rest| >= MIN_SECRET_LEN &&
    exists i :: 0 <= i < |forms| && forms[i].marker == marker && |rest| < |forms[i].value|
      && HasPrefix(forms[i].value, rest)
  }

  // A replaced span is a form with that marker, or a form cut short by the end
  // of the stream.
  ghost predicate Genuine(forms: seq<Form>, data: Bytes, x: Piece) {
    x.Kept? || (x.at + x.n <= |data| &&
      (Form(data[x.at..x.at + x.n], x.marker) in forms
       || (x.at + x.n == |data| && CutShort(forms, data[x.at..], x.marker))))
  }

  lemma FirstPiece(forms: seq<Form>, data: Bytes, from: nat)
    requires NonEmpty(forms) && from < |data|
    ensures var a := Decide(forms, data[from..], true); var x := PieceAt(a, from, |data|);
            && 0 < Size(x) <= |data| - from && Genuine(forms, data, x) && x.at == from
            && Trace(forms, data, from) == [x] + Trace(forms, data, from + Size(x))
            && Scan(forms, data[from..], true).out == Written(data, x) + Scan(forms, data[from + Size(x)..], true).out
  {
    var rest := data[from..];
    DecideBounds(forms, rest, true);
    hide Decide;
    var a := Decide(forms, rest, true);
    var x := PieceAt(a, from, |data|);
    assert data[from..from + Size(x)] == rest[..Size(x)];
    assert data[from + Size(x)..] == rest[Size(x)..];
  }

  lemma {:induction false} OutputIsTrace(forms: seq<Form>, data: Bytes, from: nat)
    requires NonEmpty(forms) && from <= |data|
    ensures Scan(forms, data[from..], true).out == Render(data, Trace(forms, data, from))
    ensures Tiles(Trace(forms, data, from), from, |data|)
    decreases |data| - from
  {
    hide Decide, Genuine, PieceAt, HasPrefix, Scan;
    if from == |data| {
      ScanNothing(forms, data, true);
    } else {
      FirstPiece(forms, data, from);
      var t := Trace(forms, data, from);
      OutputIsTrace(forms, data, from + Size(t[0]));
      assert t[1..] == Trace(forms, data, from + Size(t[0]));
    }
  }

  lemma {:induction false} SpansAreGenuine(forms: seq<Form>, data: Bytes, from: nat, k: nat)
    requires NonEmpty(forms) && from <= |data| && k < |Trace(forms, data, from)|
    ensures Genuine(forms, data, Trace(forms, data, from)[k]) && from <= Trace(forms, data, from)[k].at
    decreases k
  {
    hide Decide, Genuine, PieceAt, HasPrefix, Scan;
    FirstPiece(forms, data, from);
    if k > 0 {
      var x := Trace(forms, data, from)[0];
      SpansAreGenuine(forms, data, from + Size(x), k - 1);
    }
  }

  // Where a form occurs, the scan does not copy.
  lemma {:induction false} OccurrenceNotCopied(forms: seq<Form>, rest: Bytes, i: nat, final: bool)
    requires i < |forms| && HasPrefix(rest, forms[i].value)
    ensures !Decide(forms, rest, final).Copy?
  {
    if i > 0 {
      assert forms[1..][i - 1] == forms[i];
      OccurrenceNotCopied(forms[1..], rest, i - 1, final);
    }
  }

  // Nor where the stream ends inside a form, with enough of it to tell.
  lemma {:induction false} CutShortNotCopied(forms: seq<Form>, rest: Bytes, i: nat)
    requires i < |forms| && MIN_SECRET_LEN <= |rest| < |forms[i].value| && HasPrefix(forms[i].value, rest)
    ensures !Decide(forms, rest, true).Copy?
  {
    if i > 0 {
      assert forms[1..][i - 1] == forms[i];
      CutShortNotCopied(forms[1..], rest, i - 1);
    }
  }

  ghost predicate InSpan(t: seq<Piece>, p: nat) {
    exists k :: 0 <= k < |t| && t[k].Span? && t[k].at <= p < t[k].at + t[k].n
  }

  // The byte at p is inside a replaced span and is not copied out.
  ghost predicate Covered(t: seq<Piece>, p: nat) { InSpan(t, p) && Kept(p) !in t }

  // At every position where a form fully occurs, that byte is inside a
  // replaced span and is not copied out, whatever overlaps it.
  lemma Coverage(forms: seq<Form>, data: Bytes, from: nat, p: nat, i: nat)
    requires NonEmpty(forms) && from <= p < |data| && i < |forms| && OccursAt(data, p, forms[i].value)
    ensures InSpan(Trace(forms, data, from), p) && Kept(p) !in Trace(forms, data, from)
  {
    OccurrenceNotCopied(forms, data[p..], i, true);
    NotCopiedIsCovered(forms, data, from, p);
  }

  // So is every position from which the stream ends in at least four bytes of a
  // form: a secret that is cut short by the end.
  lemma CutShortIsCovered(forms: seq<Form>, data: Bytes, from: nat, p: nat, i: nat)
    requires NonEmpty(forms) && from <= p < |data| && i < |forms|
    requires 4 <= |data| - p < |forms[i].value| && HasPrefix(forms[i].value, data[p..])
    ensures InSpan(Trace(forms, data, from), p) && Kept(p) !in Trace(forms, data, from)
  {
    CutShortNotCopied(forms, data[p..], i);
    NotCopiedIsCovered(forms, data, from, p);
  }

  lemma {:induction false} NotCopiedIsCovered(forms: seq<Form>, data: Bytes, from: nat, p: nat)
    requires NonEmpty(forms) && from <= p < |data| && !Decide(forms, data[p..], true).Copy?
    ensures Covered(Trace(forms, data, from), p)
    decreases |data| - from
  {
    hide Decide, Genuine, PieceAt, HasPrefix, Scan, InSpan;
    FirstPiece(forms, data, from);
    var t := Trace(forms, data, from);
    var next := from + Size(t[0]);
    if p < next {
      CoveredHere(forms, data, from, p);
    } else {
      NotCopiedIsCovered(forms, data, next, p);
      SpanShift(t[0], Trace(forms, data, next), p);
    }
  }

  lemma SpanShift(x: Piece, u: seq<Piece>, p: nat)
    requires InSpan(u, p)
    ensures InSpan([x] + u, p)
  {
    var k :| 0 <= k < |u| && u[k].Span? && u[k].at <= p < u[k].at + u[k].n;
    assert ([x] + u)[k + 1] == u[k];
  }

  lemma CoveredHere(forms: seq<Form>, data: Bytes, from: nat, p: nat)
    requires NonEmpty(forms) && from <= p < |data| && !Decide(forms, data[p..], true).Copy?
    requires Trace(forms, data, from) != [] && p < from + Size(Trace(forms, data, from)[0])
    ensures Covered(Trace(forms, data, from), p)
  {
    hide Decide, Genuine, PieceAt, HasPrefix, Scan, Trace;
    FirstIsSpan(forms, data, from, p);
    FirstPiece(forms, data, from);
    var t := Trace(forms, data, from);
    var next := from + Size(t[0]);
    forall k | 0 <= k < |t| ensures t[k] != Kept(p) {
      if k > 0 { SpansAreGenuine(forms, data, next, k - 1); }
    }
  }

  lemma FirstIsSpan(forms: seq<Form>, data: Bytes, from: nat, p: nat)
    requires NonEmpty(forms) && from <= p < |data| && !Decide(forms, data[p..], true).Copy?
    requires Trace(forms, data, from) != [] && p < from + Size(Trace(forms, data, from)[0])
    ensures Trace(forms, data, from)[0].Span?
  {
    FirstPiece(forms, data, from);
    if p == from { DecideBounds(forms, data[from..], true); }
  }

  // ---- the order of the forms ----

  ghost predicate Descending(forms: seq<Form>) {
    forall i, j :: 0 <= i < j < |forms| ==> |forms[i].value| >= |forms[j].value|
  }

  // A stable sort, longest first.
  function LongestFirst(forms: seq<Form>): seq<Form> {
    if forms == [] then [] else Insert(forms[0], LongestFirst(forms[1..]))
  }

  function Insert(v: Form, sorted: seq<Form>): seq<Form> {
    if sorted == [] || |v.value| >= |sorted[0].value| then [v] + sorted
    else [sorted[0]] + Insert(v, sorted[1..])
  }

  // The forms of one length, in their order.
  function OfLength(forms: seq<Form>, n: nat): seq<Form> {
    if forms == [] then []
    else (if |forms[0].value| == n then [forms[0]] else []) + OfLength(forms[1..], n)
  }

  lemma {:induction false} InsertPermutes(v: Form, sorted: seq<Form>)
    ensures multiset(Insert(v, sorted)) == multiset{v} + multiset(sorted)
  {
    if sorted != [] && |v.value| < |sorted[0].value| {
      InsertPermutes(v, sorted[1..]);
      assert sorted == [sorted[0]] + sorted[1..];
    }
  }

  lemma {:induction false} InsertStable(v: Form, sorted: seq<Form>, n: nat)
    requires Descending(sorted)
    ensures OfLength(Insert(v, sorted), n) == (if |v.value| == n then [v] else []) + OfLength(sorted, n)
  {
    if sorted == [] || |v.value| >= |sorted[0].value| {
      assert ([v] + sorted)[1..] == sorted;
    } else {
      var tail := sorted[1..];
      InsertStable(v, tail, n);
      assert Insert(v, sorted)[1..] == Insert(v, tail);
    }
  }

  lemma {:induction false} InsertSorted(v: Form, sorted: seq<Form>)
    requires Descending(sorted)
    ensures Descending(Insert(v, sorted))
  {
    if sorted != [] && |v.value| < |sorted[0].value| {
      var tail := sorted[1..];
      InsertSorted(v, tail);
      InsertPermutes(v, tail);
      var r := Insert(v, tail);
      forall j | 0 <= j < |r| ensures |sorted[0].value| >= |r[j].value| {
        assert r[j] in multiset(r);
      }
    }
  }

  // longestFirst: a permutation, longest first, ties in the order given.
  lemma {:induction false} LongestFirstSorts(forms: seq<Form>, n: nat)
    ensures Descending(LongestFirst(forms))
    ensures multiset(LongestFirst(forms)) == multiset(forms)
    ensures OfLength(LongestFirst(forms), n) == OfLength(forms, n)
  {
    if forms != [] {
      LongestFirstSorts(forms[1..], n);
      InsertSorted(forms[0], LongestFirst(forms[1..]));
      InsertPermutes(forms[0], LongestFirst(forms[1..]));
      InsertStable(forms[0], LongestFirst(forms[1..]), n);
      assert forms == [forms[0]] + forms[1..];
    }
  }

  // With the forms longest first, the one replaced at a position is the
  // longest that occurs there, and the first of that length.
  lemma {:induction false} LongestWins(forms: seq<Form>, rest: Bytes, i: nat)
    requires Descending(forms) && i < |forms| && HasPrefix(rest, forms[i].value)
    requires Decide(forms, rest, true).Replace?
    ensures var a := Decide(forms, rest, true);
            && |forms[i].value| <= a.n
            && exists j :: 0 <= j < |forms| && forms[j].marker == a.marker && |forms[j].value| == a.n
                         && HasPrefix(rest, forms[j].value)
                         && (|forms[i].value| == a.n ==> j <= i)
  {
    var v, tail := forms[0], forms[1..];
    if HasPrefix(rest, v.value) {
      assert Decide(forms, rest, true) == Replace(v.marker, |v.value|);
    } else {
      assert tail[i - 1] == forms[i];
      assert Descending(tail) by {
        forall x, y | 0 <= x < y < |tail| ensures |tail[x].value| >= |tail[y].value| {
          assert tail[x] == forms[x + 1] && tail[y] == forms[y + 1];
        }
      }
      LongestWins(tail, rest, i - 1);
      var a := Decide(forms, rest, true);
      var j :| 0 <= j < |tail| && tail[j].marker == a.marker && |tail[j].value| == a.n && HasPrefix(rest, tail[j].value)
               && (|tail[i - 1].value| == a.n ==> j <= i - 1);
      assert forms[j + 1] == tail[j];
    }
  }

  // ---- NewRedactor ----

  datatype Secret = Secret(marker: Bytes, value: Bytes)

  // encode is encodedForms: the value and what it becomes in a log.
  function Collected(secrets: seq<Secret>, encode: Bytes -> seq<Bytes>): seq<Form> {
    if secrets == [] then []
    else
      var s := secrets[0];
      var forms := encode(s.value);
      (if |s.value| < MIN_SECRET_LEN then [] else seq(|forms|, i requires 0 <= i < |forms| => Form(forms[i], s.marker)))
      + Collected(secrets[1..], encode)
  }

  function NewRedactor(secrets: seq<Secret>, encode: Bytes -> seq<Bytes>): seq<Form> {
    LongestFirst(Collected(secrets, encode))
  }

  lemma {:induction false} CollectedForms(secrets: seq<Secret>, encode: Bytes -> seq<Bytes>)
    requires forall v: Bytes, f: Bytes :: |v| >= MIN_SECRET_LEN && f in encode(v) ==> f != []
    ensures NonEmpty(Collected(secrets, encode))
    ensures forall s, f :: s in secrets && |s.value| >= MIN_SECRET_LEN && f in encode(s.value) ==>
      Form(f, s.marker) in Collected(secrets, encode)
  {
    if secrets != [] {
      CollectedForms(secrets[1..], encode);
      var s, all, tail := secrets[0], Collected(secrets, encode), Collected(secrets[1..], encode);
      forall i | 0 <= i < |all| ensures |all[i].value| > 0 {
        if i >= |all| - |tail| {
          assert all[i] == tail[i - (|all| - |tail|)];
        } else {
          assert encode(s.value)[i] in encode(s.value);
        }
      }
      forall f | |s.value| >= MIN_SECRET_LEN && f in encode(s.value) ensures Form(f, s.marker) in all {
        var i :| 0 <= i < |encode(s.value)| && encode(s.value)[i] == f;
        assert all[i] == Form(f, s.marker);
      }
      forall t, f | t in secrets && |t.value| >= MIN_SECRET_LEN && f in encode(t.value)
        ensures Form(f, t.marker) in all
      {
        if t != s { assert t in secrets[1..]; }
      }
    }
  }

  // Nothing else is a form.
  lemma {:induction false} OnlySecretsCollected(secrets: seq<Secret>, encode: Bytes -> seq<Bytes>, x: Form)
    requires x in Collected(secrets, encode)
    ensures exists s :: s in secrets && |s.value| >= MIN_SECRET_LEN && x.value in encode(s.value) &&
                        x.marker == s.marker
  {
    var s, all, tail := secrets[0], Collected(secrets, encode), Collected(secrets[1..], encode);
    var i :| 0 <= i < |all| && all[i] == x;
    if i >= |all| - |tail| {
      assert x == tail[i - (|all| - |tail|)];
      OnlySecretsCollected(secrets[1..], encode, x);
      var u :| u in secrets[1..] && |u.value| >= MIN_SECRET_LEN && x.value in encode(u.value) && x.marker == u.marker;
      assert u in secrets;
    } else {
      assert x == Form(encode(s.value)[i], s.marker) && s in secrets;
    }
  }

  // The forms of a redactor are the secrets' and no others.
  lemma RedactorForms(secrets: seq<Secret>, encode: Bytes -> seq<Bytes>)
    requires forall v: Bytes, g: Bytes :: |v| >= MIN_SECRET_LEN && g in encode(v) ==> g != []
    ensures var forms := NewRedactor(secrets, encode);
      && NonEmpty(forms) && Descending(forms)
      && forall x :: x in forms <==> x in Collected(secrets, encode)
  {
    var all, forms := Collected(secrets, encode), NewRedactor(secrets, encode);
    hide Collected, LongestFirst, Descending;
    CollectedForms(secrets, encode);
    LongestFirstSorts(all, 0);
    SameMembers(forms, all);
    forall i | 0 <= i < |forms| ensures |forms[i].value| > 0 { assert forms[i] in forms; }
  }

  lemma SameMembers(a: seq<Form>, b: seq<Form>)
    requires multiset(a) == multiset(b)
    ensures forall x :: x in a <==> x in b
  {
    forall x ensures x in a <==> x in b {
      assert x in a <==> x in multiset(a);
      assert x in b <==> x in multiset(b);
    }
  }

  // Every occurrence of a secret of at least four bytes, in any of its forms, is
  // replaced, whatever other secrets and forms overlap it.
  lemma SecretsAreCovered(secrets: seq<Secret>, encode: Bytes -> seq<Bytes>, s: Secret, f: Bytes, data: Bytes, p: nat)
    requires forall v: Bytes, g: Bytes :: |v| >= 4 && g in encode(v) ==> g != []
    requires s in secrets && |s.value| >= 4 && f in encode(s.value) && p < |data| && OccursAt(data, p, f)
    ensures var t := Trace(NewRedactor(secrets, encode), data, 0); InSpan(t, p) && Kept(p) !in t
  {
    CollectedForms(secrets, encode);
    RedactorForms(secrets, encode);
    var forms := NewRedactor(secrets, encode);
    assert Form(f, s.marker) in forms;
    var i :| 0 <= i < |forms| && forms[i] == Form(f, s.marker);
    Coverage(forms, data, 0, p, i);
  }

  // And so is what is left of one when the stream ends inside it, unless fewer
  // than four bytes of it were written.
  lemma SecretsCutShortAreCovered(secrets: seq<Secret>, encode: Bytes -> seq<Bytes>, s: Secret, f: Bytes,
                                  data: Bytes, p: nat)
    requires forall v: Bytes, g: Bytes :: |v| >= 4 && g in encode(v) ==> g != []
    requires s in secrets && |s.value| >= 4 && f in encode(s.value)
    requires p < |data| && 4 <= |data| - p < |f| && HasPrefix(f, data[p..])
    ensures var t := Trace(NewRedactor(secrets, encode), data, 0); InSpan(t, p) && Kept(p) !in t
  {
    CollectedForms(secrets, encode);
    RedactorForms(secrets, encode);
    var forms := NewRedactor(secrets, encode);
    assert Form(f, s.marker) in forms;
    var i :| 0 <= i < |forms| && forms[i] == Form(f, s.marker);
    CutShortIsCovered(forms, data, 0, p, i);
  }
}
