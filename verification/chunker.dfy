/** The text chunker `DocumentService._chunk_text`.

    The text is cut into windows of `size` characters. A window that does
    not reach the end of the text is cut back to just after the last
    occurrence, in its second half, of the first separator (in priority
    order) that occurs there at all; the next window starts `overlap`
    characters before that cut. The separator list is a parameter. */
module Chunker {
  import opened Base
  import opened Text

  /** The separators `_chunk_text` tries, in order. The third is the
      ideographic full stop U+3002 as the source file spells it: its UTF-8
      bytes read back as three Latin-1/cp1252 characters, so the chunker
      looks for that three-character string, never for U+3002 itself. */
  const Separators: seq<string> := ["\n\n", "\n", "\U{00E3}\U{20AC}\U{201A}", ".", " "]

  /** A size and overlap with which the loop advances on every text: the
      cut lies beyond the middle of the window, so starting
      `overlap <= size / 2` characters before it moves the start forward.
      The code does not check this. */
  predicate Progresses(size: int, overlap: int) {
    1 <= size && overlap <= size / 2
  }

  /** The loop, from the window starting at `start` on, reaches the end of
      the text with every window starting strictly after the one before. */
  predicate Advancing(text: string, seps: seq<string>, start: nat, size: int, overlap: int)
    decreases |text| - start
  {
    || start >= |text|
    || start + size >= |text|
    || (&& 1 <= size
        && start < BreakPoint(text, seps, start, size) - overlap
        && Advancing(text, seps, BreakPoint(text, seps, start, size) - overlap, size, overlap))
  }

  /** Inputs on which the chunking loop terminates, each window starting
      after the previous one. Empty text and text that fits one window are
      always chunkable; longer texts depend on the size, the overlap and
      where the separators fall. */
  predicate Chunkable(text: string, seps: seq<string>, size: int, overlap: int) {
    Advancing(text, seps, 0, size, overlap)
  }

  /** With an overlap of at most half the window the loop advances from
      every start, on every text. */
  lemma {:induction false} ProgressesAdvancing(text: string, seps: seq<string>, start: nat, size: int, overlap: int)
    requires Progresses(size, overlap)
    ensures Advancing(text, seps, start, size, overlap)
    decreases |text| - start
  {
    if start < |text| && start + size < |text| {
      var bp := BreakPoint(text, seps, start, size);
      ProgressesAdvancing(text, seps, bp - overlap, size, overlap);
    }
  }

  /** Short texts are chunkable whatever the size and overlap. */
  lemma FitsChunkable(text: string, seps: seq<string>, size: int, overlap: int)
    requires |text| <= size || |text| == 0
    ensures Chunkable(text, seps, size, overlap)
  {
  }

  /** `sep` occurs inside the window `[lo, hi)`. */
  predicate FoundIn(text: string, sep: string, lo: int, hi: int) {
    exists i | lo <= i && i + |sep| <= hi :: OccursAt(text, sep, i)
  }

  /** `cut` ends the rightmost occurrence of `sep` inside `[lo, hi)`. */
  predicate CutsAfterLast(text: string, sep: string, lo: int, hi: int, cut: int) {
    && lo <= cut - |sep| && cut <= hi
    && OccursAt(text, sep, cut - |sep|)
    && forall i | cut - |sep| < i && i + |sep| <= hi :: !OccursAt(text, sep, i)
  }

  /** A cut found by separator number `sep`, ending at `at`. */
  datatype Cut = Cut(sep: nat, at: int)

  /** The separators from position `k` on are tried in order; the first one
      found in the window decides the cut. */
  function FirstCut(text: string, seps: seq<string>, k: nat, lo: int, hi: int): (r: Option<Cut>)
    requires 0 <= lo < hi <= |text| && k <= |seps|
    ensures r.Some? ==> k <= r.value.sep < |seps| && lo < r.value.at <= hi
    decreases |seps| - k
  {
    if k == |seps| then None
    else
      var pos := RFind(text, seps[k], lo, hi);
      if pos != -1 then
        CutBeyondLow(text, seps[k], lo, hi, pos + |seps[k]|);
        Some(Cut(k, pos + |seps[k]|))
      else FirstCut(text, seps, k + 1, lo, hi)
  }

  /** The cut is made after the rightmost occurrence of the first separator
      that occurs in the window at all. */
  lemma {:induction false} FirstCutChosen(text: string, seps: seq<string>, k: nat, lo: int, hi: int)
    requires 0 <= lo < hi <= |text| && k <= |seps|
    ensures var r := FirstCut(text, seps, k, lo, hi);
      r.None? <==> forall j | k <= j < |seps| :: !FoundIn(text, seps[j], lo, hi)
    ensures var r := FirstCut(text, seps, k, lo, hi);
      r.Some? ==>
        && (forall j | k <= j < r.value.sep :: !FoundIn(text, seps[j], lo, hi))
        && CutsAfterLast(text, seps[r.value.sep], lo, hi, r.value.at)
    decreases |seps| - k
  {
    if k < |seps| && RFind(text, seps[k], lo, hi) == -1 {
      FirstCutChosen(text, seps, k + 1, lo, hi);
    }
  }

  /** A cut lies strictly after the window's low end: an empty separator
      "occurs" last at the window's high end. */
  lemma CutBeyondLow(text: string, sep: string, lo: int, hi: int, cut: int)
    requires 0 <= lo < hi <= |text|
    requires CutsAfterLast(text, sep, lo, hi, cut)
    ensures lo < cut <= hi
  {
    if |sep| == 0 && cut < hi {
      assert OccursAt(text, sep, hi);
    }
  }

  /** The cut of the window starting at `start`, when the window ends
      before the text does (document_service.py:88-94). */
  function BreakPoint(text: string, seps: seq<string>, start: nat, size: int): (bp: int)
    requires 1 <= size && start + size < |text|
    ensures start + size / 2 < bp <= start + size
  {
    var lo, hi := start + size / 2, start + size;
    match FirstCut(text, seps, 0, lo, hi)
    case None => hi
    case Some(c) => c.at
  }

  /** The break point is just after the last occurrence, in the window's
      second half, of the first separator that occurs there; the end of the
      window when none does. */
  lemma BreakPointChosen(text: string, seps: seq<string>, start: nat, size: int)
    requires 1 <= size && start + size < |text|
    ensures var lo, hi, bp := start + size / 2, start + size, BreakPoint(text, seps, start, size);
      || ((forall j | 0 <= j < |seps| :: !FoundIn(text, seps[j], lo, hi)) && bp == hi)
      || (exists j | 0 <= j < |seps| ::
            && (forall i | 0 <= i < j :: !FoundIn(text, seps[i], lo, hi))
            && CutsAfterLast(text, seps[j], lo, hi, bp))
  {
    var lo, hi := start + size / 2, start + size;
    FirstCutChosen(text, seps, 0, lo, hi);
  }

  /** `[lo, hi)`: the extent of one chunk in the text. */
  datatype Span = Span(lo: nat, hi: nat)

  /** The chunks' extents from the window starting at `start` on: the loop
      of document_service.py:82-97. */
  function Spans(text: string, seps: seq<string>, start: nat, size: int, overlap: int): (r: seq<Span>)
    requires Advancing(text, seps, start, size, overlap)
    ensures start >= |text| ==> r == []
    ensures start < |text| ==> |r| >= 1 && r[0].lo == start
    decreases |text| - start
  {
    if start >= |text| then []
    else if start + size >= |text| then [Span(start, |text|)]
    else
      var bp := BreakPoint(text, seps, start, size);
      [Span(start, bp)] + Spans(text, seps, bp - overlap, size, overlap)
  }

  /** From a window that does not reach the end, the loop moves forward
      and keeps advancing. */
  lemma Advances(text: string, seps: seq<string>, start: nat, size: int, overlap: int)
    requires Advancing(text, seps, start, size, overlap) && start < |text| && start + size < |text|
    ensures 1 <= size
    ensures start < BreakPoint(text, seps, start, size) - overlap
    ensures Advancing(text, seps, BreakPoint(text, seps, start, size) - overlap, size, overlap)
  {
  }

  /** The extents lie inside the text. */
  predicate InBounds(text: string, sp: seq<Span>) {
    forall i | 0 <= i < |sp| :: sp[i].lo <= sp[i].hi <= |text|
  }

  /** Every extent is a non-empty piece of the text, after `from`, and no
      longer than the window. */
  predicate Within(text: string, sp: seq<Span>, from: int, size: int) {
    forall i | 0 <= i < |sp| :: from <= sp[i].lo < sp[i].hi <= |text| && sp[i].hi - sp[i].lo <= size
  }

  /** Each extent but the last ends at its window's break point and the
      next one starts `overlap` characters before it. */
  predicate Steps(text: string, seps: seq<string>, sp: seq<Span>, size: int, overlap: int) {
    forall i | 0 <= i < |sp| - 1 :: Linked(text, seps, sp, i, size, overlap)
  }

  /** Extent `i` ends at its window's break point and extent `i + 1` starts
      `overlap` characters before that, and after extent `i` starts. */
  predicate Linked(text: string, seps: seq<string>, sp: seq<Span>, i: nat, size: int, overlap: int) {
    && i + 1 < |sp|
    && 1 <= size && sp[i].lo + size < |text|
    && sp[i].hi == BreakPoint(text, seps, sp[i].lo, size)
    && sp[i].lo < sp[i + 1].lo == sp[i].hi - overlap
  }

  lemma {:induction false} SpansInBounds(text: string, seps: seq<string>, start: nat, size: int, overlap: int)
    requires Advancing(text, seps, start, size, overlap)
    ensures Within(text, Spans(text, seps, start, size, overlap), start, size)
    decreases |text| - start
  {
    var r := Spans(text, seps, start, size, overlap);
    if start < |text| && start + size < |text| {
      var bp := BreakPoint(text, seps, start, size);
      Advances(text, seps, start, size, overlap);
      var rest := Spans(text, seps, bp - overlap, size, overlap);
      SpansInBounds(text, seps, bp - overlap, size, overlap);
      assert r == [Span(start, bp)] + rest;
      forall i | 1 <= i < |r|
        ensures start <= r[i].lo < r[i].hi <= |text| && r[i].hi - r[i].lo <= size
      {
        assert r[i] == rest[i - 1];
      }
    }
  }

  lemma {:induction false} SpansStep(text: string, seps: seq<string>, start: nat, size: int, overlap: int)
    requires Advancing(text, seps, start, size, overlap)
    ensures Steps(text, seps, Spans(text, seps, start, size, overlap), size, overlap)
    decreases |text| - start
  {
    if start < |text| && start + size < |text| {
      var bp := BreakPoint(text, seps, start, size);
      Advances(text, seps, start, size, overlap);
      var rest := Spans(text, seps, bp - overlap, size, overlap);
      SpansStep(text, seps, bp - overlap, size, overlap);
      StepsCons(text, seps, Span(start, bp), rest, size, overlap);
    }
  }

  /** A window linked to the first of a chain of linked windows extends
      the chain. */
  lemma StepsCons(text: string, seps: seq<string>, first: Span, rest: seq<Span>, size: int, overlap: int)
    requires Steps(text, seps, rest, size, overlap)
    requires rest != [] ==>
      && 1 <= size && first.lo + size < |text|
      && first.hi == BreakPoint(text, seps, first.lo, size)
      && first.lo < rest[0].lo == first.hi - overlap
    ensures Steps(text, seps, [first] + rest, size, overlap)
  {
    var r := [first] + rest;
    forall i | 0 <= i < |r| - 1
      ensures Linked(text, seps, r, i, size, overlap)
    {
      if i > 0 {
        assert Linked(text, seps, rest, i - 1, size, overlap);
        assert r[i] == rest[i - 1] && r[i + 1] == rest[i];
      }
    }
  }

  /** The last extent is the window that reaches the end of the text, and
      with a non-negative overlap the loop always ends on such a window. */
  lemma {:induction false} SpansLast(text: string, seps: seq<string>, start: nat, size: int, overlap: int)
    requires Advancing(text, seps, start, size, overlap)
    ensures var r := Spans(text, seps, start, size, overlap);
      |r| >= 1 && r[|r| - 1].lo + size >= |text| ==> r[|r| - 1].hi == |text|
    ensures var r := Spans(text, seps, start, size, overlap);
      overlap >= 0 && |r| >= 1 ==> r[|r| - 1].lo + size >= |text|
    decreases |text| - start
  {
    var r := Spans(text, seps, start, size, overlap);
    if start < |text| && start + size < |text| {
      var bp := BreakPoint(text, seps, start, size);
      Advances(text, seps, start, size, overlap);
      var rest := Spans(text, seps, bp - overlap, size, overlap);
      SpansLast(text, seps, bp - overlap, size, overlap);
      assert r == [Span(start, bp)] + rest;
      if rest != [] {
        assert r[|r| - 1] == rest[|rest| - 1];
      }
    }
  }

  /** The pieces of the text the extents delimit. */
  function Pieces(text: string, sp: seq<Span>): (r: seq<string>)
    requires InBounds(text, sp)
    ensures |r| == |sp|
    ensures forall i | 0 <= i < |r| :: r[i] == text[sp[i].lo..sp[i].hi]
  {
    seq(|sp|, i requires 0 <= i < |sp| => text[sp[i].lo..sp[i].hi])
  }

  /** `_chunk_text(text, size, overlap)` with the given separators
      (document_service.py:71-99). */
  function ChunkText(text: string, seps: seq<string>, size: int, overlap: int): (r: seq<string>)
    requires Chunkable(text, seps, size, overlap)
    ensures |text| == 0 ==> r == []
    ensures 0 < |text| <= size ==> r == [text]
    ensures forall i | 0 <= i < |r| :: 1 <= |r[i]| <= size
  {
    var sp := Spans(text, seps, 0, size, overlap);
    SpansInBounds(text, seps, 0, size, overlap);
    assert 0 < |text| <= size ==> sp == [Span(0, |text|)] && text[0..|text|] == text;
    Pieces(text, sp)
  }

  /** With a non-negative overlap the last chunk ends where the text
      ends. */
  lemma LastChunkEndsText(text: string, seps: seq<string>, size: int, overlap: int)
    requires 0 <= overlap && Chunkable(text, seps, size, overlap)
    ensures var r := ChunkText(text, seps, size, overlap);
      |r| >= 1 ==> HasSuffix(text, r[|r| - 1])
  {
    SpansInBounds(text, seps, 0, size, overlap);
    SpansLast(text, seps, 0, size, overlap);
  }

  /** Each chunk but the first starts with the last `overlap` characters
      of the one before, which ended at its window's break point. When the
      overlap is at most half the window the next chunk is at least that
      long; otherwise it may be shorter and then lies wholly inside the
      previous chunk's tail. */
  lemma ChunksOverlap(text: string, seps: seq<string>, size: int, overlap: int, i: nat)
    requires 0 <= overlap && Chunkable(text, seps, size, overlap)
    requires i + 1 < |ChunkText(text, seps, size, overlap)|
    ensures var r := ChunkText(text, seps, size, overlap);
      overlap < |r[i]|
    ensures var r := ChunkText(text, seps, size, overlap);
      overlap <= |r[i + 1]| ==> r[i + 1][..overlap] == r[i][|r[i]| - overlap..]
    ensures var r := ChunkText(text, seps, size, overlap);
      |r[i + 1]| < overlap ==> r[i + 1] == r[i][|r[i]| - overlap..|r[i]| - overlap + |r[i + 1]|]
    ensures var r := ChunkText(text, seps, size, overlap);
      Progresses(size, overlap) ==> overlap <= |r[i + 1]|
  {
    var sp := Spans(text, seps, 0, size, overlap);
    var r := ChunkText(text, seps, size, overlap);
    SpansInBounds(text, seps, 0, size, overlap);
    NextSpanOverlaps(text, seps, size, overlap, i);
    TailShared(text, sp[i], sp[i + 1], overlap);
  }

  /** A piece starting `overlap` characters before another ends shares
      its first characters with that one's tail. */
  lemma TailShared(text: string, a: Span, b: Span, overlap: int)
    requires 0 <= overlap && a.lo < b.lo == a.hi - overlap && a.hi <= |text| && b.lo <= b.hi <= |text|
    ensures var x, y := text[a.lo..a.hi], text[b.lo..b.hi];
      && (overlap <= |y| ==> y[..overlap] == x[|x| - overlap..])
      && (|y| < overlap ==> y == x[|x| - overlap..|x| - overlap + |y|])
  {
  }

  /** Extent `i + 1` starts after extent `i` does and `overlap` characters
      before it ends. It ends later when it is the last extent, which runs
      to the end of the text, and whenever the overlap is at most half the
      window. */
  lemma NextSpanOverlaps(text: string, seps: seq<string>, size: int, overlap: int, i: nat)
    requires 0 <= overlap && Chunkable(text, seps, size, overlap)
    requires i + 1 < |Spans(text, seps, 0, size, overlap)|
    ensures var sp := Spans(text, seps, 0, size, overlap);
      sp[i].lo < sp[i + 1].lo == sp[i].hi - overlap
    ensures var sp := Spans(text, seps, 0, size, overlap);
      i + 2 == |sp| ==> sp[i].hi < sp[i + 1].hi == |text|
    ensures var sp := Spans(text, seps, 0, size, overlap);
      Progresses(size, overlap) ==> sp[i].hi < sp[i + 1].hi
  {
    var sp := Spans(text, seps, 0, size, overlap);
    SpansInBounds(text, seps, 0, size, overlap);
    SpansStep(text, seps, 0, size, overlap);
    SpansLast(text, seps, 0, size, overlap);
    assert Linked(text, seps, sp, i, size, overlap);
    if i + 2 < |sp| {
      assert Linked(text, seps, sp, i + 1, size, overlap);
    }
  }

  /** `"".join(chunks)` */
  function Concat(chunks: seq<string>): string {
    if chunks == [] then [] else chunks[0] + Concat(chunks[1..])
  }

  /** With no overlap the extents partition the rest of the text. */
  lemma {:induction false} SpansJoin(text: string, seps: seq<string>, start: nat, size: int)
    requires Advancing(text, seps, start, size, 0) && start <= |text|
    ensures var sp := Spans(text, seps, start, size, 0);
      InBounds(text, sp) && Concat(Pieces(text, sp)) == text[start..]
    decreases |text| - start
  {
    var sp := Spans(text, seps, start, size, 0);
    SpansInBounds(text, seps, start, size, 0);
    if start < |text| && start + size < |text| {
      var bp := BreakPoint(text, seps, start, size);
      var rest := Spans(text, seps, bp, size, 0);
      SpansJoin(text, seps, bp, size);
      assert sp == [Span(start, bp)] + rest;
      PiecesCons(text, Span(start, bp), rest);
      assert text[start..] == text[start..bp] + text[bp..];
    } else if start < |text| {
      assert sp == [Span(start, |text|)];
      PiecesCons(text, Span(start, |text|), []);
    }
  }

  /** Joining the pieces of a first extent and the rest. */
  lemma PiecesCons(text: string, first: Span, rest: seq<Span>)
    requires first.lo <= first.hi <= |text| && InBounds(text, rest)
    ensures Concat(Pieces(text, [first] + rest)) == text[first.lo..first.hi] + Concat(Pieces(text, rest))
  {
    var sp := [first] + rest;
    assert forall i | 0 <= i < |rest| :: rest[i] == sp[i + 1];
    assert Pieces(text, sp)[1..] == Pieces(text, rest);
  }

  /** With no overlap, joining the chunks gives the text back. */
  lemma ChunksJoinToText(text: string, seps: seq<string>, size: int)
    requires Chunkable(text, seps, size, 0)
    ensures Concat(ChunkText(text, seps, size, 0)) == text
  {
    SpansJoin(text, seps, 0, size);
    assert text[0..] == text;
  }
}
