/** `TextProcessor.split_text` of aperag/mirofish_graph/text_processor.py: fixed-size windows that end
    at a paragraph or line break when one lies in their second half. */
module WindowSplitter {
  import opened Common
  import SplitterSpec

  datatype Window = Window(start: nat, end: nat)

  /** The last occurrence between the bounds, or -1. */
  function RFind(s: string, sub: string, lo: nat, hi: nat): (r: int)
    requires hi <= |s|
    ensures r == -1 || (lo <= r && r + |sub| <= hi && SplitterSpec.OccursAt(s, sub, r))
    ensures forall i: nat :: SplitterSpec.OccursAt(s, sub, i) && lo <= i && i + |sub| <= hi ==> i <= r
    decreases hi
  {
    if hi < lo + |sub| then -1
    else if s[hi - |sub|..hi] == sub then hi - |sub|
    else if hi == 0 then -1
    else RFind(s, sub, lo, hi - 1)
  }

  function Max(a: int, b: int): int { if a < b then b else a }

  function Min(a: int, b: int): int { if a < b then a else b }

  /** The overlap, but less than the size of a window; none for windows of one character. */
  function Clamp(overlap: int, size: int): (clamped: nat)
    ensures size <= 1 || overlap <= 0 ==> clamped == 0
    ensures 0 < overlap < size ==> clamped == overlap
    ensures 1 < size <= overlap ==> clamped == size - 1
  {
    if size > 1 then Max(0, Min(overlap, size - 1)) else 0
  }

  // ------------------------------------------------------------------
  // Specification
  // ------------------------------------------------------------------

  function WindowEnd(s: string, start: nat, size: nat): (end: nat)
    requires start < |s| && 0 < size
    ensures start < end <= |s| && end <= start + size
    ensures end < |s| ==> start + size / 2 < end
  {
    var end := Min(|s|, start + size);
    if end == |s| then end
    else
      var paragraphBreak := RFind(s, "\n\n", start, end);
      var splitAt := if paragraphBreak > start then paragraphBreak else RFind(s, "\n", start, end);
      if splitAt > start + size / 2 then splitAt else end
  }

  /** Where the window starting at each position ends. */
  function Ends(s: string, size: nat): (ends: seq<nat>)
    requires 0 < size
    ensures |ends| == |s| && Proper(ends, size)
  {
    EndsOf(s, size, |s|)
  }

  function EndsOf(s: string, size: nat, n: nat): (ends: seq<nat>)
    requires 0 < size && n <= |s|
    ensures |ends| == n && forall i: nat | i < n :: ProperEnd(ends[i], i, |s|, size)
  {
    if n == 0 then [] else EndsOf(s, size, n - 1) + [WindowEnd(s, n - 1, size)]
  }

  lemma {:induction false} EndAt(s: string, size: nat, n: nat, start: nat)
    requires 0 < size && start < n <= |s|
    ensures EndsOf(s, size, n)[start] == WindowEnd(s, start, size)
    decreases n
  {
    if start < n - 1 {
      EndAt(s, size, n - 1, start);
    }
  }

  /** A window is not empty, fits, and reaches past its middle unless the text ends before. */
  predicate ProperEnd(end: nat, start: nat, length: nat, size: nat) {
    start < end <= length && end <= start + size && (end < length ==> start + size / 2 < end)
  }

  predicate Proper(ends: seq<nat>, size: nat) {
    forall i: nat | i < |ends| :: ProperEnd(ends[i], i, |ends|, size)
  }

  /** The windows from `start` on; `overlap` is already clamped. */
  function Windows(ends: seq<nat>, size: nat, overlap: nat, start: nat): (windows: seq<Window>)
    requires Proper(ends, size)
    ensures forall w <- windows :: w.start < w.end <= |ends|
    decreases |ends| - start
  {
    if start >= |ends| then []
    else
      var end := ends[start];
      [Window(start, end)]
      + (if end >= |ends| then [] else Windows(ends, size, overlap, Max(start + 1, end - overlap)))
  }

  function ChunksOf(s: string, windows: seq<Window>): seq<string>
    requires forall w <- windows :: w.start <= w.end <= |s|
  {
    if windows == [] then []
    else
      Kept(Strip(s[windows[0].start..windows[0].end])) + ChunksOf(s, windows[1..])
  }

  /** A chunk of nothing but spaces is dropped. */
  function Kept(chunk: string): seq<string> {
    if chunk != "" then [chunk] else []
  }

  // ------------------------------------------------------------------
  // Properties
  // ------------------------------------------------------------------

  /** The next window starts exactly `overlap` before the end of the last one, if that is an advance;
      else it advances by one character. There is no gap either way. */
  predicate Follows(before: Window, after: Window, overlap: nat) {
    && before.start < after.start <= before.end
    && after.start == if before.start < before.end - overlap then before.end - overlap else before.start + 1
  }

  /** The windows start where asked, end where they should, strictly advance, leave no gap, overlap by
      `overlap`, are at most `size` long and reach the end of the text. */
  predicate Covers(ends: seq<nat>, size: nat, overlap: nat, start: nat, windows: seq<Window>)
    decreases |windows|
  {
    && windows != [] && windows[0].start == start && start < |ends| && windows[0].end == ends[start]
    && windows[0].start < windows[0].end <= |ends| && windows[0].end - windows[0].start <= size
    && (if |windows| == 1 then windows[0].end == |ends|
        else windows[0].end < |ends| && Follows(windows[0], windows[1], overlap)
             && Covers(ends, size, overlap, windows[1].start, windows[1..]))
  }

  lemma {:induction false} WindowsCover(ends: seq<nat>, size: nat, overlap: nat, start: nat)
    requires Proper(ends, size) && start < |ends|
    ensures Covers(ends, size, overlap, start, Windows(ends, size, overlap, start))
    decreases |ends| - start
  {
    var end := ends[start];
    if end < |ends| {
      WindowsCover(ends, size, overlap, Max(start + 1, end - overlap));
    }
  }

  /** Every position from the first window's start on lies in a window. */
  lemma {:induction false} PositionInWindow(
      ends: seq<nat>, size: nat, overlap: nat, start: nat, windows: seq<Window>, k: nat)
    returns (i: nat)
    requires Covers(ends, size, overlap, start, windows) && start <= k < |ends|
    ensures i < |windows| && windows[i].start <= k < windows[i].end
    decreases |windows|
  {
    if k < windows[0].end {
      i := 0;
    } else {
      i := PositionInWindow(ends, size, overlap, windows[1].start, windows[1..], k);
      i := i + 1;
    }
  }

  /** Stripping keeps every character that is not a space; `lead` characters are cut in front. */
  lemma {:induction false} StripKeeps(s: string, k: nat) returns (lead: nat)
    requires k < |s| && !IsSpace(s[k])
    ensures lead <= k < lead + |Strip(s)| <= |s| && Strip(s) == s[lead..lead + |Strip(s)|]
  {
    StripTrims(s);
    var a: nat, b: nat :| a <= b <= |s| && Trims(s, Strip(s), a, b);
    lead := a;
  }

  lemma {:induction false} ChunkOfWindow(s: string, windows: seq<Window>, i: nat)
    requires forall w <- windows :: w.start <= w.end <= |s|
    requires i < |windows| && Strip(s[windows[i].start..windows[i].end]) != ""
    ensures Strip(s[windows[i].start..windows[i].end]) in ChunksOf(s, windows)
  {
    if i > 0 {
      ChunkOfWindow(s, windows[1..], i - 1);
    }
  }

  predicate Blank(s: string) {
    forall i | 0 <= i < |s| :: IsSpace(s[i])
  }

  /** The windows with something else than spaces in them. */
  function Filled(s: string, windows: seq<Window>): (filled: seq<Window>)
    requires forall w <- windows :: w.start <= w.end <= |s|
    ensures forall w <- filled :: w.start <= w.end <= |s|
  {
    if windows == [] then []
    else (if Blank(s[windows[0].start..windows[0].end]) then [] else [windows[0]]) + Filled(s, windows[1..])
  }

  lemma {:induction false} BlankIsDropped(s: string)
    ensures Strip(s) == "" <==> Blank(s)
  {
    StripTrims(s);
    var a: nat, b: nat :| a <= b <= |s| && Trims(s, Strip(s), a, b);
  }

  /** There is one chunk for each window that is not blank, in order: its text without the spaces at
      both ends. */
  lemma {:induction false} ChunksAreTrimmed(s: string, windows: seq<Window>)
    requires forall w <- windows :: w.start <= w.end <= |s|
    ensures |ChunksOf(s, windows)| == |Filled(s, windows)|
    ensures forall i | 0 <= i < |Filled(s, windows)| ::
      var w := Filled(s, windows)[i];
      ChunksOf(s, windows)[i] != "" && TrimmedTo(s[w.start..w.end], ChunksOf(s, windows)[i])
  {
    if windows != [] {
      var text := s[windows[0].start..windows[0].end];
      ChunksAreTrimmed(s, windows[1..]);
      StripTrims(text);
      BlankIsDropped(text);
      var chunks, filled := ChunksOf(s, windows), Filled(s, windows);
      if Blank(text) {
        assert chunks == ChunksOf(s, windows[1..]) && filled == Filled(s, windows[1..]);
      } else {
        assert chunks[1..] == ChunksOf(s, windows[1..]) && filled[1..] == Filled(s, windows[1..]);
        forall i | 0 <= i < |filled|
          ensures chunks[i] != "" && TrimmedTo(s[filled[i].start..filled[i].end], chunks[i])
        {
          if i > 0 {
            assert chunks[i] == chunks[1..][i - 1] && filled[i] == filled[1..][i - 1];
          }
        }
      }
    }
  }

  /** The chunk is the text from `at` on. */
  predicate IsPieceAt(s: string, chunk: string, at: nat) {
    at + |chunk| <= |s| && chunk == s[at..at + |chunk|]
  }

  /** Every character that is not a space is in a chunk. */
  lemma {:induction false} NoCharacterLost(s: string, size: nat, overlap: nat, k: nat)
    requires 0 < size && k < |s| && !IsSpace(s[k])
    ensures exists chunk <- ChunksOf(s, Windows(Ends(s, size), size, overlap, 0)), at: nat ::
              IsPieceAt(s, chunk, at) && at <= k < at + |chunk|
  {
    var ends := Ends(s, size);
    var windows := Windows(ends, size, overlap, 0);
    WindowsCover(ends, size, overlap, 0);
    var i := PositionInWindow(ends, size, overlap, 0, windows, k);
    var at := CharacterInChunk(s, windows, i, k);
  }

  lemma {:induction false} CharacterInChunk(s: string, windows: seq<Window>, i: nat, k: nat) returns (at: nat)
    requires forall w <- windows :: w.start <= w.end <= |s|
    requires i < |windows| && windows[i].start <= k < windows[i].end && !IsSpace(s[k])
    ensures var chunk := Strip(s[windows[i].start..windows[i].end]);
            chunk in ChunksOf(s, windows) && IsPieceAt(s, chunk, at) && at <= k < at + |chunk|
  {
    var w := windows[i];
    var text := s[w.start..w.end];
    var lead := StripKeeps(text, k - w.start);
    ChunkOfWindow(s, windows, i);
    at := w.start + lead;
    SliceAgain(s, w, lead, |Strip(text)|);
  }

  lemma {:induction false} SliceAgain(s: string, w: Window, lead: nat, n: nat)
    requires w.start <= w.end <= |s| && lead + n <= w.end - w.start
    ensures s[w.start..w.end][lead..lead + n] == s[w.start + lead..w.start + lead + n]
  {
    var inner, outer := s[w.start..w.end][lead..lead + n], s[w.start + lead..w.start + lead + n];
    assert |inner| == n == |outer|;
    forall k | 0 <= k < n ensures inner[k] == outer[k] {
      assert inner[k] == s[w.start + lead + k] == outer[k];
    }
  }

  /** `n * step`, step by step. */
  function Steps(n: nat, step: int): int {
    if n == 0 then 0 else step + Steps(n - 1, step)
  }

  lemma {:induction false} StepsAreProduct(n: nat, step: int)
    ensures Steps(n, step) == n * step
  {
    if n > 0 {
      StepsAreProduct(n - 1, step);
      assert n * step == (n - 1) * step + step;
    }
  }

  lemma {:induction false} StepsFit(ends: seq<nat>, size: nat, overlap: nat, start: nat)
    requires Proper(ends, size) && start < |ends|
    ensures var n := |Windows(ends, size, overlap, start)|;
            1 <= n <= |ends| - start && Steps(n - 1, size / 2 + 1 - overlap) < |ends| - start
    decreases |ends| - start
  {
    CountOneMore(ends, size, overlap, start);
    if ends[start] < |ends| {
      var next := NextStart(ends, size, overlap, start);
      StepsFit(ends, size, overlap, next);
    }
  }

  /** No window is needless: each but the last moves on by more than half the size less the overlap. */
  lemma {:induction false} FewWindows(ends: seq<nat>, size: nat, overlap: nat, start: nat)
    requires Proper(ends, size) && start < |ends|
    ensures var n := |Windows(ends, size, overlap, start)|;
            && 1 <= n <= |ends| - start
            && (n - 1) * (size / 2 + 1 - overlap) < |ends| - start
  {
    StepsFit(ends, size, overlap, start);
    StepsAreProduct(|Windows(ends, size, overlap, start)| - 1, size / 2 + 1 - overlap);
  }

  lemma {:induction false} NextStart(ends: seq<nat>, size: nat, overlap: nat, start: nat) returns (next: nat)
    requires Proper(ends, size) && start < |ends| && ends[start] < |ends|
    ensures next == Max(start + 1, ends[start] - overlap) && start < next < |ends|
    ensures next - start >= size / 2 + 1 - overlap
  {
    assert ProperEnd(ends[start], start, |ends|, size);
    next := Max(start + 1, ends[start] - overlap);
  }

  lemma {:induction false} CountOneMore(ends: seq<nat>, size: nat, overlap: nat, start: nat)
    requires Proper(ends, size) && start < |ends|
    ensures |Windows(ends, size, overlap, start)|
         == 1 + if ends[start] >= |ends| then 0
                else |Windows(ends, size, overlap, Max(start + 1, ends[start] - overlap))|
  {
  }

  /** Whether the window text from `start` to `end` holds the break at or after `from`. */
  ghost predicate HasBreak(s: string, sub: string, from: nat, end: nat) {
    exists i: nat :: SplitterSpec.OccursAt(s, sub, i) && from <= i && i + |sub| <= end
  }

  lemma {:induction false} BreakFound(s: string, sub: string, start: nat, end: nat, from: nat)
    requires start <= from && end <= |s| && sub != ""
    ensures HasBreak(s, sub, from, end) <==> RFind(s, sub, start, end) >= from
    ensures RFind(s, sub, start, end) >= from ==> LastBreak(s, sub, RFind(s, sub, start, end), end)
  {
    var i := RFind(s, sub, start, end);
  }

  /** The last break of the window is at `at`. */
  ghost predicate LastBreak(s: string, sub: string, at: nat, end: nat) {
    SplitterSpec.OccursAt(s, sub, at) && at + |sub| <= end && !HasBreak(s, sub, at + 1, end)
  }

  lemma {:induction false} CutShortCases(s: string, start: nat, size: nat)
    requires 0 < size && start + size < |s|
    ensures var end := start + size;
            var paragraph := RFind(s, "\n\n", start, end);
            var splitAt := if paragraph > start then paragraph else RFind(s, "\n", start, end);
            WindowEnd(s, start, size) == if splitAt > start + size / 2 then splitAt else end
  {
  }

  /** A window is cut short exactly when its second half holds a paragraph break, or holds a line
      break and the window no paragraph break at all: a paragraph break in the first half keeps the
      code from looking at the line breaks of the second. */
  lemma {:induction false} CutShortExactly(s: string, start: nat, size: nat)
    requires 0 < size && start + size < |s|
    ensures var late, end := start + size / 2 + 1, start + size;
            WindowEnd(s, start, size) < end
            <==> HasBreak(s, "\n\n", late, end) || (!HasBreak(s, "\n\n", start + 1, end) && HasBreak(s, "\n", late, end))
    ensures WindowEnd(s, start, size) < start + size ==>
              LastBreak(s, if HasBreak(s, "\n\n", start + 1, start + size) then "\n\n" else "\n",
                        WindowEnd(s, start, size), start + size)
  {
    var late, end := start + size / 2 + 1, start + size;
    CutShortCases(s, start, size);
    BreakFound(s, "\n\n", start, end, late);
    BreakFound(s, "\n\n", start, end, start + 1);
    BreakFound(s, "\n", start, end, late);
  }

  /** A line break late in the window is passed over because of an earlier paragraph break. */
  lemma {:induction false} LineBreakPassedOver()
    ensures var s := "a\n\nbcd\nefgh";
            HasBreak(s, "\n", 5, 8) && WindowEnd(s, 0, 8) == 8
  {
    var s := "a\n\nbcd\nefgh";
    assert SplitterSpec.OccursAt(s, "\n", 6) && SplitterSpec.OccursAt(s, "\n\n", 1);
    forall i: nat | SplitterSpec.OccursAt(s, "\n\n", i) && i + 2 <= 8
      ensures i < 5
    {
      assert s[i] == s[i..i + 2][0] && s[i + 1] == s[i..i + 2][1];
    }
    CutShortExactly(s, 0, 8);
  }

  // ------------------------------------------------------------------
  // Code
  // ------------------------------------------------------------------

  /** The end of the window that starts at `start`. */
  method FindEnd(cleaned: string, start: nat, chunkSize: nat) returns (end: nat)
    requires start < |cleaned| && 0 < chunkSize
    ensures end == Ends(cleaned, chunkSize)[start]
  {
    end := Min(|cleaned|, start + chunkSize);
    if end < |cleaned| {
      var paragraphBreak := RFind(cleaned, "\n\n", start, end);
      var lineBreak := RFind(cleaned, "\n", start, end);
      var splitAt := if paragraphBreak > start then paragraphBreak else lineBreak;
      if splitAt > start + chunkSize / 2 {
        end := splitAt;
      }
    }
    EndAt(cleaned, chunkSize, |cleaned|, start);
  }

  method SplitText(cleaned: string, chunkSize: int, overlap: int) returns (chunks: seq<string>)
    ensures cleaned == "" ==> chunks == []
    ensures cleaned != "" && chunkSize <= 0 ==> chunks == [cleaned]
    ensures cleaned != "" && chunkSize > 0 ==>
      chunks == ChunksOf(cleaned, Windows(Ends(cleaned, chunkSize), chunkSize, Clamp(overlap, chunkSize), 0))
  {
    if cleaned == "" {
      return [];
    }
    if chunkSize <= 0 {
      return [cleaned];
    }
    var clamped := if chunkSize > 1 then Max(0, Min(overlap, chunkSize - 1)) else 0;
    chunks := CutWindows(cleaned, chunkSize, clamped, Ends(cleaned, chunkSize));
  }

  /** The loop. */
  method CutWindows(cleaned: string, chunkSize: nat, overlap: nat, ghost ends: seq<nat>) returns (chunks: seq<string>)
    requires cleaned != "" && chunkSize > 0 && ends == Ends(cleaned, chunkSize)
    ensures chunks == ChunksOf(cleaned, Windows(ends, chunkSize, overlap, 0))
  {
    chunks := [];
    var start: nat, textLength := 0, |cleaned|;
    ghost var whole := ChunksFrom(cleaned, ends, chunkSize, overlap, 0);
    ChunksFromWindows(cleaned, ends, chunkSize, overlap, 0);
    while start < textLength
      invariant 0 <= start < textLength
      invariant chunks + ChunksFrom(cleaned, ends, chunkSize, overlap, start) == whole
      decreases textLength - start
    {
      var end := FindEnd(cleaned, start, chunkSize);
      ghost var before := chunks;
      var chunk := Strip(cleaned[start..end]);
      if chunk != "" {
        chunks := chunks + [chunk];
      }
      Turn(cleaned, ends, chunkSize, overlap, start, end, before, chunks);
      if end >= textLength {
        break;
      }
      start := Max(start + 1, end - overlap);
    }
  }

  /** The chunks of the windows from `start` on. */
  function ChunksFrom(s: string, ends: seq<nat>, size: nat, overlap: nat, start: nat): seq<string>
    requires Proper(ends, size) && |ends| == |s|
    decreases |ends| - start
  {
    if start >= |ends| then []
    else
      var kept := Kept(Strip(s[start..ends[start]]));
      if ends[start] >= |ends| then kept
      else kept + ChunksFrom(s, ends, size, overlap, Max(start + 1, ends[start] - overlap))
  }

  lemma {:induction false} ChunksFromWindows(s: string, ends: seq<nat>, size: nat, overlap: nat, start: nat)
    requires Proper(ends, size) && |ends| == |s|
    ensures ChunksOf(s, Windows(ends, size, overlap, start)) == ChunksFrom(s, ends, size, overlap, start)
    decreases |ends| - start
  {
    if start < |ends| {
      var windows := Windows(ends, size, overlap, start);
      assert windows[0] == Window(start, ends[start]);
      if ends[start] < |ends| {
        var next := Max(start + 1, ends[start] - overlap);
        ChunksFromWindows(s, ends, size, overlap, next);
        assert windows[1..] == Windows(ends, size, overlap, next);
      } else {
        assert windows[1..] == [];
        assert Kept(Strip(s[start..ends[start]])) + [] == Kept(Strip(s[start..ends[start]]));
      }
    }
  }

  /** One turn of the loop moves the first window's chunk from what is left to what is done. */
  lemma {:induction false} Turn(
      s: string, ends: seq<nat>, size: nat, overlap: nat, start: nat, end: nat,
      before: seq<string>, chunks: seq<string>)
    requires Proper(ends, size) && |ends| == |s| && start < |s| && end == ends[start]
    requires chunks == before + Kept(Strip(s[start..end]))
    ensures end >= |s| ==> before + ChunksFrom(s, ends, size, overlap, start) == chunks
    ensures end < |s| ==>
      before + ChunksFrom(s, ends, size, overlap, start)
      == chunks + ChunksFrom(s, ends, size, overlap, Max(start + 1, end - overlap))
  {
    var kept := Kept(Strip(s[start..end]));
    if end < |s| {
      var rest := ChunksFrom(s, ends, size, overlap, Max(start + 1, end - overlap));
      Shift(before, kept, rest, chunks, ChunksFrom(s, ends, size, overlap, start));
    }
  }

  lemma {:induction false} Shift(
      before: seq<string>, kept: seq<string>, rest: seq<string>, chunks: seq<string>, todo: seq<string>)
    requires chunks == before + kept && todo == kept + rest
    ensures before + todo == chunks + rest
  {
    Associate(before, kept, rest);
  }
}
