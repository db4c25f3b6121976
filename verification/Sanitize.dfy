// The bounded line writer for an upstream's stderr (internal/proxy/sanitize.go).
// A line is what is written before it is prefixed and escaped.

module Sanitize {
  import opened Prelude
  import opened Scrub

  const MAX_STDERR_LINE := 4096
  const NEWLINE: Byte := 10
  const RETURN: Byte := 13

  // ---- UTF-8, as utf8.RuneStart and utf8.FullRune read it ----

  predicate RuneStart(b: Byte) { b & 0xC0 != 0x80 }

  predicate Continuation(b: Byte) { 0x80 <= b <= 0xBF }

  // How many bytes a character with this first byte has; 1 for a byte that
  // starts none.
  function CharLen(b: Byte): (n: nat)
    ensures 1 <= n <= 4
  {
    if 0xC2 <= b <= 0xDF then 2 else if 0xE0 <= b <= 0xEF then 3 else if 0xF0 <= b <= 0xF4 then 4 else 1
  }

  // Whether b may follow the first byte of a character.
  predicate SecondOk(first: Byte, b: Byte) {
    if first == 0xE0 then 0xA0 <= b <= 0xBF
    else if first == 0xED then 0x80 <= b <= 0x9F
    else if first == 0xF0 then 0x90 <= b <= 0xBF
    else if first == 0xF4 then 0x80 <= b <= 0x8F
    else Continuation(b)
  }

  // b begins with a complete character, or with bytes no more input can turn
  // into one.
  predicate FullRune(b: Bytes) {
    && b != []
    && (|b| >= CharLen(b[0])
        || (|b| > 1 && !SecondOk(b[0], b[1]))
        || (|b| > 2 && !Continuation(b[2])))
  }

  // Table 3-7 of the Unicode Standard: one well-formed character.
  predicate WellFormedChar(b: Bytes) {
    && b != [] && |b| == CharLen(b[0]) && (|b| == 1 ==> b[0] < 0x80)
    && (|b| > 1 ==> SecondOk(b[0], b[1])) && (|b| > 2 ==> Continuation(b[2])) && (|b| > 3 ==> Continuation(b[3]))
  }

  ghost predicate WellFormed(b: Bytes)
    decreases |b|
  {
    b == [] || (|b| >= CharLen(b[0]) && WellFormedChar(b[..CharLen(b[0])]) && WellFormed(b[CharLen(b[0])..]))
  }

  // How much of b can be emitted without splitting a character at its end.
  function CutFrom(b: Bytes, i: int): nat
    requires i < |b|
    decreases i + 1
  {
    if i < 0 || i < |b| - 4 then |b|
    else if RuneStart(b[i]) then (if !FullRune(b[i..]) && i > 0 then i else |b|)
    else CutFrom(b, i - 1)
  }

  method RuneCut(b: Bytes) returns (n: nat)
    ensures n == CutFrom(b, |b| - 1)
  {
    var i := |b| - 1;
    while i >= 0 && i >= |b| - 4
      invariant i < |b| && CutFrom(b, |b| - 1) == CutFrom(b, i)
      decreases i + 1
    {
      if RuneStart(b[i]) {
        if !FullRune(b[i..]) && i > 0 {
          return i;
        }
        break;
      }
      i := i - 1;
    }
    return |b|;
  }

  lemma {:induction false} CutProgresses(b: Bytes, i: int)
    requires b != [] && i < |b|
    ensures 0 < CutFrom(b, i) <= |b| && (CutFrom(b, i) < |b| ==> |b| - 4 <= CutFrom(b, i))
    decreases i + 1
  {
    if i >= 0 && i >= |b| - 4 && !RuneStart(b[i]) { CutProgresses(b, i - 1); }
  }

  function Cut(b: Bytes): (n: nat)
    requires b != []
    ensures 0 < n <= |b|
  {
    CutProgresses(b, |b| - 1);
    CutFrom(b, |b| - 1)
  }

  // ---- lines ----

  // pieces are the runs of bytes emitted so far, before a trailing CR is
  // dropped. split: the current line has already been cut.
  datatype Lines = Lines(buf: Bytes, split: bool, pieces: seq<Bytes>)

  const EMPTY := Lines([], false, [])

  function Emit(l: Lines, n: nat): Lines
    requires n <= |l.buf|
  {
    l.(buf := l.buf[n..], pieces := l.pieces + [l.buf[..n]])
  }

  // The simple form: one byte at a time, cutting as soon as the limit is
  // reached.
  function FeedByte(l: Lines, b: Byte): Lines {
    if b == NEWLINE then
      (if l.buf != [] || !l.split then Emit(l, |l.buf|) else l).(split := false)
    else
      var m := l.(buf := l.buf + [b]);
      if |m.buf| < MAX_STDERR_LINE then m else Emit(m, Cut(m.buf[..MAX_STDERR_LINE])).(split := true)
  }

  function FeedAll(l: Lines, p: Bytes): Lines
    decreases |p|
  {
    if p == [] then l else FeedAll(FeedByte(l, p[0]), p[1..])
  }

  // The fast form's inner loop: whole cuts of a buffer over the limit.
  function Drain(l: Lines): Lines
    decreases |l.buf|
  {
    if |l.buf| < MAX_STDERR_LINE then l
    else Drain(Emit(l, Cut(l.buf[..MAX_STDERR_LINE])).(split := true))
  }

  // Buffering a run without a newline and then cutting it is cutting it byte
  // by byte.
  lemma {:induction false} DrainIsFeed(l: Lines, chunk: Bytes)
    requires |l.buf| < MAX_STDERR_LINE && NEWLINE !in chunk
    ensures Drain(l.(buf := l.buf + chunk)) == FeedAll(l, chunk)
    ensures |Drain(l.(buf := l.buf + chunk)).buf| < MAX_STDERR_LINE
    decreases |chunk|
  {
    if chunk == [] {
      assert l.buf + chunk == l.buf;
    } else {
      DrainByte(l, chunk[0], chunk[1..]);
      assert l.buf + chunk == l.buf + [chunk[0]] + chunk[1..];
      assert |FeedByte(l, chunk[0]).buf| < MAX_STDERR_LINE;
      hide Drain;
      DrainIsFeed(FeedByte(l, chunk[0]), chunk[1..]);
    }
  }

  lemma DrainByte(l: Lines, b: Byte, rest: Bytes)
    requires |l.buf| < MAX_STDERR_LINE && b != NEWLINE
    ensures var n := FeedByte(l, b); Drain(l.(buf := l.buf + [b] + rest)) == Drain(n.(buf := n.buf + rest))
  {
    var m := l.buf + [b];
    var all := m + rest;
    if |m| == MAX_STDERR_LINE {
      assert all[..MAX_STDERR_LINE] == m[..MAX_STDERR_LINE] == m;
      var c := Cut(m);
      assert all[..c] == m[..c] && all[c..] == m[c..] + rest;
    }
  }

  lemma {:induction false} FeedAppend(l: Lines, a: Bytes, b: Bytes)
    ensures FeedAll(l, a + b) == FeedAll(FeedAll(l, a), b)
    decreases |a|
  {
    if a == [] {
      assert a + b == b;
    } else {
      assert (a + b)[0] == a[0] && (a + b)[1..] == a[1..] + b;
      FeedAppend(FeedByte(l, a[0]), a[1..], b);
    }
  }

  // ---- what is written ----

  // strings.TrimSuffix(line, "\r").
  function TrimReturn(b: Bytes): Bytes {
    if b != [] && b[|b| - 1] == RETURN then b[..|b| - 1] else b
  }

  function Trimmed(pieces: seq<Bytes>): seq<Bytes> {
    seq(|pieces|, i requires 0 <= i < |pieces| => TrimReturn(pieces[i]))
  }

  // Flush: what is left becomes a line of its own.
  function Finish(l: Lines): Lines {
    (if l.buf != [] then Emit(l, |l.buf|) else l).(split := false)
  }

  class LineWriter {
    const scrub: Scrubber?
    var buf: Bytes
    var split: bool
    var closed: bool
    var lines: seq<Bytes>
    ghost var pieces: seq<Bytes>

    ghost function View(): Lines reads this { Lines(buf, split, pieces) }

    ghost predicate Valid() reads this {
      |buf| < MAX_STDERR_LINE && lines == Trimmed(pieces) && (scrub != null ==> NonEmpty(scrub.forms))
    }

    constructor (scrub: Scrubber?)
      requires scrub != null ==> NonEmpty(scrub.forms)
      ensures this.scrub == scrub && Valid() && View() == EMPTY && !closed
    {
      this.scrub, buf, split, closed, lines, pieces := scrub, [], false, false, [], [];
    }

    method EmitPrefix(n: nat)
      requires n <= |buf| && lines == Trimmed(pieces)
      modifies this`buf, this`lines, this`pieces
      ensures View() == Emit(old(View()), n) && lines == Trimmed(pieces)
    {
      var line := buf[..n];
      pieces := pieces + [line];
      lines := lines + [TrimReturn(line)];
      buf := buf[n..];
    }

    method DrainBuf()
      requires lines == Trimmed(pieces)
      modifies this`buf, this`lines, this`pieces, this`split
      ensures View() == Drain(old(View())) && lines == Trimmed(pieces)
    {
      while |buf| >= MAX_STDERR_LINE
        invariant Drain(View()) == Drain(old(View())) && lines == Trimmed(pieces)
        decreases |buf|
      {
        var n := RuneCut(buf[..MAX_STDERR_LINE]);
        CutProgresses(buf[..MAX_STDERR_LINE], MAX_STDERR_LINE - 1);
        EmitPrefix(n);
        split := true;
      }
    }

    method Feed(bytes: Bytes)
      requires Valid()
      modifies this`buf, this`lines, this`pieces, this`split
      ensures Valid() && View() == FeedAll(old(View()), bytes)
    {
      var p := bytes;
      while |p| > 0
        invariant Valid() && FeedAll(View(), p) == FeedAll(old(View()), bytes)
        decreases |p|
      {
        var i := IndexOf(p, NEWLINE);
        var chunk := if i >= 0 then p[..i] else p;
        ghost var before := View();
        buf := buf + chunk;
        DrainIsFeed(before, chunk);
        DrainBuf();
        if i < 0 {
          break;
        }
        FeedLine(before, p, i);
        p := p[i + 1..];
        if |buf| > 0 || !split {
          EmitPrefix(|buf|);
        }
        split := false;
      }
    }

    method Write(p: Bytes)
      requires Valid()
      modifies this, scrub
      ensures Valid() && closed == old(closed)
      ensures old(closed) ==> View() == old(View()) && lines == old(lines)
      ensures !old(closed) ==>
                if scrub == null then View() == FeedAll(old(View()), p)
                else var r := Scan(scrub.forms, old(scrub.pending) + p, false);
                     scrub.pending == r.pending && View() == FeedAll(old(View()), r.out)
    {
      if closed {
        return;
      }
      var q := p;
      if scrub != null {
        q := scrub.Write(p, false);
      }
      Feed(q);
    }

    // Terminal: later writes are dropped.
    method Flush()
      requires Valid()
      modifies this, scrub
      ensures Valid() && closed
      ensures old(closed) ==> View() == old(View()) && lines == old(lines)
      ensures !old(closed) ==>
                var rest := if scrub == null then [] else Scan(scrub.forms, old(scrub.pending), true).out;
                View() == Finish(FeedAll(old(View()), rest))
    {
      if closed {
        return;
      }
      closed := true;
      if scrub != null {
        assert scrub.pending + [] == scrub.pending;
        var q := scrub.Write([], true);
        Feed(q);
      }
      if |buf| > 0 {
        EmitPrefix(|buf|);
      }
      split := false;
    }
  }

  lemma FeedLine(l: Lines, p: Bytes, i: nat)
    requires i < |p| && p[i] == NEWLINE
    ensures FeedAll(l, p) == FeedAll(FeedByte(FeedAll(l, p[..i]), NEWLINE), p[i + 1..])
  {
    assert p == p[..i] + p[i..];
    FeedAppend(l, p[..i], p[i..]);
  }

  // ---- every run ----

  // The writer's state between calls.
  datatype Writing = Writing(lines: Lines, pending: Bytes)

  function WriteAll(forms: seq<Form>, w: Writing, chunks: seq<Bytes>): Writing
    decreases |chunks|
  {
    if chunks == [] then w
    else
      var r := Scan(forms, w.pending + chunks[0], false);
      WriteAll(forms, Writing(FeedAll(w.lines, r.out), r.pending), chunks[1..])
  }

  function Flushed(forms: seq<Form>, w: Writing): seq<Bytes> {
    Finish(FeedAll(w.lines, Scan(forms, w.pending, true).out)).pieces
  }

  lemma {:induction false} WritesAreOneStream(forms: seq<Form>, w: Writing, chunks: seq<Bytes>)
    ensures Flushed(forms, WriteAll(forms, w, chunks))
         == Finish(FeedAll(w.lines, Stream(forms, w.pending, chunks, []))).pieces
    decreases |chunks|
  {
    if chunks == [] {
      assert w.pending + [] == w.pending;
    } else {
      var r := Scan(forms, w.pending + chunks[0], false);
      WritesAreOneStream(forms, Writing(FeedAll(w.lines, r.out), r.pending), chunks[1..]);
      FeedAppend(w.lines, r.out, Stream(forms, r.pending, chunks[1..], []));
    }
  }

  // The lines written depend only on the bytes, not on how they were split
  // into writes: they are those of the whole stream scrubbed at once and cut
  // byte by byte.
  lemma LinesIgnoreChunks(forms: seq<Form>, chunks: seq<Bytes>)
    requires NonEmpty(forms)
    ensures Flushed(forms, WriteAll(forms, Writing(EMPTY, []), chunks))
         == Finish(FeedAll(EMPTY, Scan(forms, Concat(chunks), true).out)).pieces
  {
    WritesAreOneStream(forms, Writing(EMPTY, []), chunks);
    ChunkInvariance(forms, [], chunks, []);
    assert [] + (Concat(chunks) + []) == Concat(chunks);
  }

  // ---- nothing is lost ----

  function WithoutNewlines(p: Bytes): Bytes {
    if p == [] then [] else (if p[0] == NEWLINE then [] else [p[0]]) + WithoutNewlines(p[1..])
  }

  function Held(l: Lines): Bytes { Concat(l.pieces) + l.buf }

  lemma {:induction false} ConcatSnoc(pieces: seq<Bytes>, b: Bytes)
    ensures Concat(pieces + [b]) == Concat(pieces) + b
  {
    if pieces == [] {
      assert Concat([b]) == b + Concat([b][1..]);
    } else {
      assert (pieces + [b])[1..] == pieces[1..] + [b];
      ConcatSnoc(pieces[1..], b);
    }
  }

  lemma EmitHolds(l: Lines, n: nat)
    requires n <= |l.buf|
    ensures Held(Emit(l, n)) == Held(l)
  {
    ConcatSnoc(l.pieces, l.buf[..n]);
    assert l.buf[..n] + l.buf[n..] == l.buf;
  }

  lemma ByteHolds(l: Lines, b: Byte)
    ensures Held(FeedByte(l, b)) == Held(l) + (if b == NEWLINE then [] else [b])
  {
    if b == NEWLINE {
      EmitHolds(l, |l.buf|);
    } else {
      var m := l.(buf := l.buf + [b]);
      if |m.buf| >= MAX_STDERR_LINE { EmitHolds(m, Cut(m.buf[..MAX_STDERR_LINE])); }
    }
  }

  lemma {:induction false} FeedHolds(l: Lines, p: Bytes)
    ensures Held(FeedAll(l, p)) == Held(l) + WithoutNewlines(p)
    decreases |p|
  {
    if p != [] {
      ByteHolds(l, p[0]);
      FeedHolds(FeedByte(l, p[0]), p[1..]);
    }
  }

  // The pieces are the scrubbed stream without its newlines; what is written
  // is each piece less one trailing CR.
  lemma NothingLost(p: Bytes)
    ensures Concat(Finish(FeedAll(EMPTY, p)).pieces) == WithoutNewlines(p)
  {
    FeedHolds(EMPTY, p);
    var l := FeedAll(EMPTY, p);
    EmitHolds(l, |l.buf|);
    assert Held(EMPTY) == [];
    assert Held(Finish(l)) == Concat(Finish(l).pieces);
  }

  // Each line written is its piece, less one CR if the piece ends in one.
  lemma LinesAreThePieces(pieces: seq<Bytes>)
    ensures |Trimmed(pieces)| == |pieces|
    ensures forall i :: 0 <= i < |pieces| ==>
      pieces[i] == Trimmed(pieces)[i] + if EndsInReturn(pieces[i]) then [RETURN] else []
  {
    forall i | 0 <= i < |pieces|
      ensures pieces[i] == Trimmed(pieces)[i] + if EndsInReturn(pieces[i]) then [RETURN] else []
    {
      var b := pieces[i];
      assert Trimmed(pieces)[i] == TrimReturn(b);
      ReturnAtEnd(b);
      if EndsInReturn(b) { assert b == b[..|b| - 1] + [RETURN]; }
    }
  }

  ghost predicate EndsInReturn(b: Bytes) { exists front: Bytes :: b == front + [RETURN] }

  lemma ReturnAtEnd(b: Bytes)
    ensures EndsInReturn(b) <==> b != [] && b[|b| - 1] == RETURN
  {
    forall front: Bytes | b == front + [RETURN] ensures b[|b| - 1] == RETURN {}
    if b != [] && b[|b| - 1] == RETURN { assert b == b[..|b| - 1] + [RETURN]; }
  }

  // No piece is longer than the limit.
  ghost predicate Bounded(pieces: seq<Bytes>) { forall i :: 0 <= i < |pieces| ==> |pieces[i]| <= 4096 }

  lemma {:induction false} PiecesAreBounded(l: Lines, p: Bytes)
    requires |l.buf| < MAX_STDERR_LINE && Bounded(l.pieces)
    ensures Bounded(Finish(FeedAll(l, p)).pieces)
    decreases |p|
  {
    if p == [] {
      assert Finish(l).pieces == if l.buf == [] then l.pieces else l.pieces + [l.buf[..|l.buf|]];
    } else {
      hide FeedByte;
      var m := FeedByte(l, p[0]);
      ShortBuffer(l, p[0]);
      PiecesAreBounded(m, p[1..]);
    }
  }

  lemma ShortBuffer(l: Lines, b: Byte)
    requires |l.buf| < MAX_STDERR_LINE
    ensures |FeedByte(l, b).buf| < MAX_STDERR_LINE
    ensures FeedByte(l, b).pieces == l.pieces
         || (|FeedByte(l, b).pieces| == |l.pieces| + 1 && FeedByte(l, b).pieces[..|l.pieces|] == l.pieces
             && |FeedByte(l, b).pieces[|l.pieces|]| <= 4096)
  {
    hide CutFrom;
  }

  // ---- line by line ----

  // A line of the stream as it is written: whole if it is short, otherwise cut
  // at the limit, with no empty piece at its end.
  function Chop(line: Bytes): seq<Bytes>
    decreases |line|
  {
    if |line| < MAX_STDERR_LINE then [line]
    else
      var c := Cut(line[..MAX_STDERR_LINE]);
      [line[..c]] + if line[c..] == [] then [] else Chop(line[c..])
  }

  lemma {:induction false} DrainChops(l: Lines)
    ensures var d := Drain(l);
            d.pieces + (if d.buf != [] || !d.split then [d.buf] else [])
              == l.pieces + (if l.buf == [] && l.split then [] else Chop(l.buf))
    decreases |l.buf|
  {
    hide Cut, Drain, Chop;
    DrainOnce(l);
    if |l.buf| >= MAX_STDERR_LINE {
      var c := Cut(l.buf[..MAX_STDERR_LINE]);
      var n := Emit(l, c).(split := true);
      DrainChops(n);
      var more := if n.buf == [] then [] else Chop(n.buf);
      assert n.pieces + more == l.pieces + ([l.buf[..c]] + more);
    }
  }

  // One cut of the buffer is one piece of the line.
  lemma DrainOnce(l: Lines)
    ensures |l.buf| < MAX_STDERR_LINE ==> Drain(l) == l && Chop(l.buf) == [l.buf]
    ensures |l.buf| >= MAX_STDERR_LINE ==>
      var c := Cut(l.buf[..MAX_STDERR_LINE]);
      Drain(l) == Drain(Emit(l, c).(split := true))
      && Chop(l.buf) == [l.buf[..c]] + if l.buf[c..] == [] then [] else Chop(l.buf[c..])
  {
    hide Cut;
  }

  // A line of fewer than 4096 bytes is one piece. A longer one is cut into pieces that make it up,
  // each but the last within four bytes of that limit, and none above it.
  lemma {:induction false} ChopIsFull(line: Bytes)
    ensures |line| < 4096 ==> Chop(line) == [line]
    ensures Chop(line) != [] && Concat(Chop(line)) == line && Bounded(Chop(line))
    ensures forall i :: 0 <= i < |Chop(line)| - 1 ==> |Chop(line)[i]| >= 4092
    ensures |line| >= 4096 ==> forall i :: 0 <= i < |Chop(line)| ==> Chop(line)[i] != []
    decreases |line|
  {
    hide CutFrom;
    if |line| >= MAX_STDERR_LINE {
      var b := line[..MAX_STDERR_LINE];
      CutProgresses(b, |b| - 1);
      var c := Cut(b);
      assert line == line[..c] + line[c..];
      if line[c..] != [] {
        ChopIsFull(line[c..]);
        assert Chop(line)[1..] == Chop(line[c..]);
      }
    } else {
      assert [line][1..] == [] && line + [] == line;
    }
  }

  // A newline ends exactly the line before it: the pieces of one line depend
  // on that line alone.
  lemma OneLine(pieces: seq<Bytes>, line: Bytes, rest: Bytes)
    requires NEWLINE !in line
    ensures FeedAll(Lines([], false, pieces), line + [NEWLINE] + rest)
         == FeedAll(Lines([], false, pieces + Chop(line)), rest)
  {
    var l := Lines([], false, pieces);
    var p := line + [NEWLINE] + rest;
    FeedLine(l, p, |line|);
    assert p[..|line|] == line && p[|line| + 1..] == rest;
    DrainIsFeed(l, line);
    assert [] + line == line;
    DrainChops(l.(buf := line));
    var d := Drain(l.(buf := line));
    assert d.buf[|d.buf|..] == [] && d.buf[..|d.buf|] == d.buf;
    assert FeedByte(d, NEWLINE) == Lines([], false, pieces + Chop(line));
  }

  // ---- whole characters ----

  lemma StartOrContinues(b: Byte)
    ensures RuneStart(b) <==> !Continuation(b)
  {
  }

  lemma CharTail(c: Bytes, i: nat)
    requires WellFormedChar(c) && 0 < i < |c|
    ensures Continuation(c[i])
  {
  }

  lemma Slices(s: Bytes, n: nat, i: nat)
    requires n <= i <= |s|
    ensures s[n..][..i - n] == s[..i][n..] && s[n..][i - n..] == s[i..]
    ensures i < |s| ==> s[n..][i - n] == s[i]
  {
  }

  // Well-formed text can be split before any byte that starts a character.
  lemma {:induction false} SplitAtStart(s: Bytes, i: nat)
    requires WellFormed(s) && i <= |s| && (i < |s| ==> RuneStart(s[i]))
    ensures WellFormed(s[..i]) && WellFormed(s[i..])
    decreases |s|
  {
    hide CharLen, WellFormedChar, RuneStart, Continuation;
    if i == 0 {
      assert s[0..] == s;
    } else {
      var n := CharLen(s[0]);
      var c := s[..n];
      if i < n {
        StartOrContinues(s[i]);
        CharTail(c, i);
        assert false;
      } else {
        Slices(s, n, i);
        SplitAtStart(s[n..], i - n);
        assert s[..i][..n] == c && s[..i][0] == s[0];
      }
    }
  }

  // runeCut never leaves half a character behind in well-formed text.
  lemma CutAligned(b: Bytes, more: Bytes)
    requires |b| >= 4 && WellFormed(b + more)
    ensures WellFormed(b[..Cut(b)]) && WellFormed(b[Cut(b)..] + more)
  {
    CutFromAligned(b, more, |b| - 1);
  }

  // And it leaves as little as it can: no more of well-formed text can be emitted without splitting
  // a character.
  lemma CutIsLargest(b: Bytes, more: Bytes, n: nat)
    requires |b| >= 4 && WellFormed(b + more) && Cut(b) < n <= |b|
    ensures !WellFormed(b[..n])
  {
    LargestFrom(b, more, |b| - 1, n);
  }

  lemma {:induction false} LargestFrom(b: Bytes, more: Bytes, i: int, n: nat)
    requires |b| >= 4 && WellFormed(b + more) && |b| - 5 <= i < |b| && CutFrom(b, i) < n <= |b|
    ensures !WellFormed(b[..n])
    decreases i + 1
  {
    hide WellFormed, FullRune;
    if i >= |b| - 4 {
      if !RuneStart(b[i]) { LargestFrom(b, more, i - 1, n); } else { UnfinishedAt(b, i, n); }
    }
  }

  // A character that is not all there makes no well-formed text.
  lemma UnfinishedAt(b: Bytes, i: nat, n: nat)
    requires i < n <= |b| && RuneStart(b[i]) && !FullRune(b[i..])
    ensures !WellFormed(b[..n])
  {
    hide SecondOk, Continuation, WellFormed, RuneStart, CharLen;
    var s := b[..n];
    assert s[i] == b[i] == b[i..][0] && |s[i..]| == n - i <= |b[i..]|;
    if WellFormed(s) { CharIsThere(s, i); }
  }

  lemma CharIsThere(s: Bytes, i: nat)
    requires WellFormed(s) && i < |s| && RuneStart(s[i])
    ensures |s| - i >= CharLen(s[i])
  {
    hide CharLen, WellFormedChar, RuneStart;
    SplitAtStart(s, i);
    assert s[i..] != [] && s[i..][0] == s[i];
  }

  lemma {:induction false} CutFromAligned(b: Bytes, more: Bytes, i: int)
    requires |b| >= 4 && WellFormed(b + more) && |b| - 5 <= i < |b|
    requires forall j :: i < j < |b| ==> !RuneStart(b[j])
    ensures var c := CutFrom(b, i); c <= |b| && WellFormed(b[..c]) && WellFormed(b[c..] + more)
    decreases i + 1
  {
    if i < |b| - 4 {
      StartInTail(b, more);
    } else if !RuneStart(b[i]) {
      CutFromAligned(b, more, i - 1);
    } else {
      CutAtStart(b, more, i);
    }
  }

  lemma CutAtStart(b: Bytes, more: Bytes, i: nat)
    requires |b| >= 4 && WellFormed(b + more) && |b| - 4 <= i < |b| && RuneStart(b[i])
    requires forall j :: i < j < |b| ==> !RuneStart(b[j])
    ensures var c := if !FullRune(b[i..]) && i > 0 then i else |b|; WellFormed(b[..c]) && WellFormed(b[c..] + more)
  {
    hide WellFormed, CharLen, RuneStart, FullRune;
    var s := b + more;
    assert s[i] == b[i];
    SplitAtStart(s, i);
    assert s[..i] == b[..i] && s[i..] == b[i..] + more;
    if FullRune(b[i..]) || i == 0 {
      LastChar(b[i..], more);
      JoinWellFormed(b[..i], b[i..]);
      assert b[..i] + b[i..] == b[..|b|] && b[|b|..] + more == more;
    }
  }

  lemma StartInTail(b: Bytes, more: Bytes)
    requires |b| >= 4 && WellFormed(b + more)
    ensures exists j :: |b| - 4 <= j < |b| && RuneStart(b[j])
  {
    var j := StartAmongFour(b + more, |b| - 4);
    assert (b + more)[j] == b[j];
  }

  // No well-formed text has four continuation bytes in a row.
  lemma StartAmongFour(s: Bytes, i: nat) returns (j: nat)
    requires WellFormed(s) && i + 4 <= |s|
    ensures i <= j < i + 4 && RuneStart(s[j])
    decreases |s|
  {
    var n := CharLen(s[0]);
    if i == 0 {
      NextStarts(s, 0);
      j := 0;
    } else if i <= n {
      NextStarts(s, n);
      j := n;
    } else {
      j := StartAmongFour(s[n..], i - n);
      j := j + n;
    }
  }

  lemma NextStarts(s: Bytes, n: nat)
    requires n < |s| && WellFormed(s[n..])
    ensures RuneStart(s[n])
  {
    var c := s[n..];
    assert WellFormedChar(c[..CharLen(c[0])]);
    StartOrContinues(s[n]);
  }

  lemma AfterChar(tail: Bytes, more: Bytes, n: nat)
    requires n <= |tail + more| && WellFormed((tail + more)[n..])
    ensures n < |tail| ==> RuneStart(tail[n])
  {
    if n < |tail| {
      NextStarts(tail + more, n);
      assert (tail + more)[n] == tail[n];
    }
  }

  // The bytes from the last character start on are exactly that character.
  lemma LastChar(tail: Bytes, more: Bytes)
    requires tail != [] && WellFormed(tail + more) && (forall j :: 0 < j < |tail| ==> !RuneStart(tail[j]))
    requires FullRune(tail) || |tail| >= 4
    ensures WellFormed(tail) && WellFormed(more)
  {
    var s := tail + more;
    var n := CharLen(s[0]);
    var c := s[..n];
    assert c[0] == tail[0] && (|tail| > 1 && n > 1 ==> c[1] == tail[1]) && (|tail| > 2 && n > 2 ==> c[2] == tail[2]);
    assert |tail| >= n;
    AfterChar(tail, more, n);
    assert tail == c && s[n..] == more;
    assert tail[..n] == tail && tail[n..] == [];
  }

  lemma {:induction false} JoinWellFormed(a: Bytes, b: Bytes)
    requires WellFormed(a) && WellFormed(b)
    ensures WellFormed(a + b)
    decreases |a|
  {
    if a == [] {
      assert a + b == b;
    } else {
      var n := CharLen(a[0]);
      JoinWellFormed(a[n..], b);
      assert (a + b)[..n] == a[..n] && (a + b)[n..] == a[n..] + b;
    }
  }

  ghost predicate AllWhole(pieces: seq<Bytes>) { forall i :: 0 <= i < |pieces| ==> WellFormed(pieces[i]) }

  // When the scrubbed stream is well-formed UTF-8, so is every piece written:
  // no cut at the limit splits a character.
  lemma {:induction false} PiecesAreWhole(l: Lines, p: Bytes)
    requires |l.buf| < MAX_STDERR_LINE && WellFormed(l.buf + p) && AllWhole(l.pieces)
    ensures AllWhole(Finish(FeedAll(l, p)).pieces)
    decreases |p|
  {
    if p == [] {
      assert l.buf + p == l.buf && l.buf[..|l.buf|] == l.buf;
    } else {
      assert p == [p[0]] + p[1..];
      ByteAligned(l, p[0], p[1..]);
      PiecesAreWhole(FeedByte(l, p[0]), p[1..]);
    }
  }

  lemma ByteAligned(l: Lines, b: Byte, rest: Bytes)
    requires |l.buf| < MAX_STDERR_LINE && WellFormed(l.buf + ([b] + rest)) && AllWhole(l.pieces)
    ensures var n := FeedByte(l, b);
            && |n.buf| < MAX_STDERR_LINE && WellFormed(n.buf + rest)
            && AllWhole(n.pieces)
  {
    if b == NEWLINE {
      NewlineAligned(l.buf, rest);
    } else {
      var m := l.buf + [b];
      assert l.buf + ([b] + rest) == m + rest;
      if |m| == MAX_STDERR_LINE {
        assert m[..MAX_STDERR_LINE] == m;
        CutAligned(m, rest);
      }
    }
  }

  lemma NewlineAligned(buf: Bytes, rest: Bytes)
    requires WellFormed(buf + ([NEWLINE] + rest))
    ensures WellFormed(buf[..|buf|]) && WellFormed(buf[|buf|..] + rest) && (buf == [] ==> WellFormed(buf + rest))
  {
    hide WellFormed, RuneStart;
    NewlineStarts();
    Halves(buf, [NEWLINE] + rest);
    SplitAtStart(buf + ([NEWLINE] + rest), |buf|);
    AfterNewline(rest);
    assert buf[|buf|..] + rest == rest && (buf == [] ==> buf + rest == rest);
  }

  lemma Halves(a: Bytes, b: Bytes)
    ensures (a + b)[..|a|] == a == a[..|a|] && (a + b)[|a|..] == b
    ensures b != [] ==> (a + b)[|a|] == b[0]
  {
  }

  lemma NewlineStarts()
    ensures RuneStart(NEWLINE)
  {
    StartOrContinues(NEWLINE);
  }

  lemma AfterNewline(rest: Bytes)
    requires WellFormed([NEWLINE] + rest)
    ensures WellFormed(rest)
  {
    assert ([NEWLINE] + rest)[1..] == rest;
  }
}
