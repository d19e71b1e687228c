/** What the recursive splitter guarantees, proved about its specification functions. */
module SplitterProofs {
  import opened Common
  import opened SplitterSpec

  lemma {:induction false} SliceOfSlice<T>(s: seq<T>, a: nat, b: nat, i: nat, j: nat)
    requires a <= b <= |s| && i <= j <= b - a
    ensures s[a..b][i..j] == s[a + i..a + j]
  {
    var x, y := s[a..b][i..j], s[a + i..a + j];
    forall k | 0 <= k < |x| ensures x[k] == y[k] {
      assert x[k] == s[a..b][i + k];
    }
  }

  // ------------------------------------------------------------------
  // Splitting at separators
  // ------------------------------------------------------------------

  /** An occurrence of `sep` in `s` ends at position `e`. */
  predicate EndsAt(s: string, sep: string, e: int) {
    |sep| <= e && OccursAt(s, sep, e - |sep|)
  }

  /** `sep` occurs in `t` nowhere but, perhaps, at its very end. */
  ghost predicate Clean(t: string, sep: string) {
    forall e | e < |t| :: !EndsAt(t, sep, e)
  }

  ghost predicate AllClean(pieces: seq<string>, sep: string) {
    forall i | 0 <= i < |pieces| :: Clean(pieces[i], sep)
  }

  /** `c` is a boundary between (or at an end of) the consecutive `pieces`. */
  predicate IsCut(pieces: seq<string>, c: int) {
    c == 0 || (pieces != [] && |pieces[0]| <= c && IsCut(pieces[1..], c - |pieces[0]|))
  }

  lemma {:induction false} IsCutAppend(a: seq<string>, b: seq<string>, c: int)
    requires IsCut(a + b, c)
    ensures IsCut(a, c) || (|Concat(a)| <= c && IsCut(b, c - |Concat(a)|))
    decreases |a|
  {
    if a == [] {
      assert a + b == b;
    } else if c != 0 {
      assert (a + b)[1..] == a[1..] + b;
      IsCutAppend(a[1..], b, c - |a[0]|);
    }
  }

  lemma {:induction false} EndsAtOuter(s: string, a: nat, b: nat, sep: string, e: int)
    requires a <= b <= |s| && e <= b - a && EndsAt(s[a..b], sep, e)
    ensures EndsAt(s, sep, a + e)
  {
    var j := e - |sep|;
    SliceOfSlice(s, a, b, j, e);
    assert a + j + |sep| == a + e;
  }

  lemma {:induction false} CleanSlice(t: string, sep: string, a: nat, b: nat)
    requires Clean(t, sep) && a <= b <= |t|
    ensures Clean(t[a..b], sep)
  {
    forall e | e < b - a ensures !EndsAt(t[a..b], sep, e) {
      if EndsAt(t[a..b], sep, e) {
        EndsAtOuter(t, a, b, sep, e);
      }
    }
  }

  lemma {:induction false} FirstPieceEnds(s: string, sep: string)
    requires sep != "" && Find(s, sep, 0) >= 0
    ensures EndsAt(s, sep, Find(s, sep, 0) + |sep|)
  {
    FindHits(s, sep, 0);
  }

  lemma {:induction false} FirstPieceIsClean(s: string, sep: string)
    requires sep != "" && Find(s, sep, 0) >= 0
    ensures Clean(s[..Find(s, sep, 0) + |sep|], sep)
  {
    FindHits(s, sep, 0);
    var n := Find(s, sep, 0) + |sep|;
    forall e | e < n ensures !EndsAt(s[..n], sep, e) {
      if EndsAt(s[..n], sep, e) {
        assert s[0..n] == s[..n];
        EndsAtOuter(s, 0, n, sep, e);
      }
    }
  }

  lemma {:induction false} ConcatCons(piece: string, pieces: seq<string>)
    ensures Concat([piece] + pieces) == piece + Concat(pieces)
  {
    assert ([piece] + pieces)[1..] == pieces;
  }

  lemma {:induction false} KeepSplitRejoins(s: string, sep: string)
    requires sep != ""
    ensures Concat(KeepSplit(s, sep)) == s
    decreases |s|
  {
    var i := Find(s, sep, 0);
    if i < 0 {
      assert Concat([s]) == s;
    } else {
      var n := i + |sep|;
      KeepSplitRejoins(s[n..], sep);
      RejoinFirst(s, n, KeepSplit(s[n..], sep));
    }
  }

  lemma {:induction false} RejoinFirst(s: string, n: nat, pieces: seq<string>)
    requires n <= |s| && Concat(pieces) == s[n..]
    ensures Concat([s[..n]] + pieces) == s
  {
    ConcatCons(s[..n], pieces);
    assert s[..n] + s[n..] == s;
  }

  lemma {:induction false} AllCleanCons(piece: string, pieces: seq<string>, sep: string)
    requires Clean(piece, sep) && AllClean(pieces, sep)
    ensures AllClean([piece] + pieces, sep)
  {
  }

  lemma {:induction false} KeepSplitIsClean(s: string, sep: string)
    requires sep != ""
    ensures AllClean(KeepSplit(s, sep), sep)
    decreases |s|
  {
    var i := Find(s, sep, 0);
    if i < 0 {
      FindHits(s, sep, 0);
    } else {
      var n := i + |sep|;
      FirstPieceIsClean(s, sep);
      KeepSplitIsClean(s[n..], sep);
      AllCleanCons(s[..n], KeepSplit(s[n..], sep), sep);
    }
  }

  lemma {:induction false} IsCutCons(piece: string, pieces: seq<string>, c: int)
    requires IsCut([piece] + pieces, c) && c != 0
    ensures |piece| <= c && IsCut(pieces, c - |piece|)
  {
    assert ([piece] + pieces)[1..] == pieces;
  }

  lemma {:induction false} CutPastFirst(s: string, sep: string, c: int) returns (n: nat)
    requires sep != "" && IsCut(KeepSplit(s, sep), c) && c != 0 && Find(s, sep, 0) >= 0
    ensures 0 < n <= |s| && EndsAt(s, sep, n) && IsCut(KeepSplit(s[n..], sep), c - n)
  {
    n := Find(s, sep, 0) + |sep|;
    FirstPieceEnds(s, sep);
    IsCutCons(s[..n], KeepSplit(s[n..], sep), c);
  }

  lemma {:induction false} KeepSplitCut(s: string, sep: string, c: int)
    requires sep != "" && IsCut(KeepSplit(s, sep), c)
    ensures c == 0 || c == |s| || EndsAt(s, sep, c)
    decreases |s|
  {
    if c != 0 {
      if Find(s, sep, 0) >= 0 {
        var n := CutPastFirst(s, sep, c);
        KeepSplitCut(s[n..], sep, c - n);
        CutLater(s, n, s[n..], sep, c);
      } else {
        IsCutCons(s, [], c);
      }
    }
  }

  lemma {:induction false} CutLater(s: string, n: nat, rest: string, sep: string, c: int)
    requires n <= |s| && EndsAt(s, sep, n) && rest == s[n..]
    requires c - n == 0 || c - n == |rest| || EndsAt(rest, sep, c - n)
    ensures c == 0 || c == |s| || EndsAt(s, sep, c)
  {
    if EndsAt(rest, sep, c - n) {
      assert s[..n] + rest == s;
      EndsInRest(s[..n], rest, sep, c);
    }
  }

  lemma {:induction false} KeepSplitStaysClean(s: string, sep: string, sep0: string)
    requires sep != "" && Clean(s, sep0)
    ensures AllClean(KeepSplit(s, sep), sep0)
    decreases |s|
  {
    var i := Find(s, sep, 0);
    if i >= 0 {
      var n := i + |sep|;
      assert s[..n] == s[0..n] && s[n..] == s[n..|s|];
      CleanSlice(s, sep0, 0, n);
      CleanSlice(s, sep0, n, |s|);
      KeepSplitStaysClean(s[n..], sep, sep0);
      AllCleanCons(s[..n], KeepSplit(s[n..], sep), sep0);
    }
  }

  lemma {:induction false} EachPieces(chunks: seq<string>, sep: string)
    requires sep != ""
    ensures Concat(KeepSplitEach(chunks, sep)) == Concat(chunks)
    ensures AllClean(KeepSplitEach(chunks, sep), sep)
    decreases |chunks|
  {
    if chunks != [] {
      KeepSplitRejoins(chunks[0], sep);
      KeepSplitIsClean(chunks[0], sep);
      EachPieces(chunks[1..], sep);
      ConcatAppend(KeepSplit(chunks[0], sep), KeepSplitEach(chunks[1..], sep));
    }
  }

  lemma {:induction false} EachCut(chunks: seq<string>, sep: string, c: int)
    requires sep != "" && IsCut(KeepSplitEach(chunks, sep), c)
    ensures IsCut(chunks, c) || EndsAt(Concat(chunks), sep, c)
    decreases |chunks|
  {
    if chunks != [] && c != 0 {
      KeepSplitRejoins(chunks[0], sep);
      IsCutAppend(KeepSplit(chunks[0], sep), KeepSplitEach(chunks[1..], sep), c);
      if IsCut(KeepSplit(chunks[0], sep), c) {
        KeepSplitCut(chunks[0], sep, c);
        if EndsAt(chunks[0], sep, c) {
          EndsInFirst(chunks[0], Concat(chunks[1..]), sep, c);
        }
      } else {
        EachCut(chunks[1..], sep, c - |chunks[0]|);
        if EndsAt(Concat(chunks[1..]), sep, c - |chunks[0]|) {
          EndsInRest(chunks[0], Concat(chunks[1..]), sep, c);
        }
      }
    }
  }

  lemma {:induction false} EndsInFirst(first: string, rest: string, sep: string, c: int)
    requires EndsAt(first, sep, c)
    ensures EndsAt(first + rest, sep, c)
  {
    assert (first + rest)[0..|first|] == first;
    EndsAtOuter(first + rest, 0, |first|, sep, c);
  }

  lemma {:induction false} EndsInRest(first: string, rest: string, sep: string, c: int)
    requires EndsAt(rest, sep, c - |first|)
    ensures EndsAt(first + rest, sep, c)
  {
    var s := first + rest;
    assert s[|first|..|s|] == rest;
    EndsAtOuter(s, |first|, |s|, sep, c - |first|);
  }

  lemma {:induction false} EachStaysClean(chunks: seq<string>, sep: string, sep0: string)
    requires sep != "" && AllClean(chunks, sep0)
    ensures AllClean(KeepSplitEach(chunks, sep), sep0)
    decreases |chunks|
  {
    if chunks != [] {
      KeepSplitStaysClean(chunks[0], sep, sep0);
      EachStaysClean(chunks[1..], sep, sep0);
    }
  }

  lemma {:induction false} ByStaysClean(chunks: seq<string>, seps: seq<string>, sep0: string)
    requires Usable(seps) && AllClean(chunks, sep0)
    ensures AllClean(KeepSplitBy(chunks, seps), sep0)
    decreases |seps|
  {
    if seps != [] {
      EachStaysClean(chunks, seps[0], sep0);
      ByStaysClean(KeepSplitEach(chunks, seps[0]), seps[1..], sep0);
    }
  }

  /** Cutting at a level of separators: the pieces rejoin to the text, none holds a separator
      of the level except at its end, and each inner boundary lies just after a separator. */
  lemma {:induction false} ByFacts(chunks: seq<string>, seps: seq<string>)
    requires Usable(seps)
    ensures Concat(KeepSplitBy(chunks, seps)) == Concat(chunks)
    ensures forall i | 0 <= i < |seps| :: AllClean(KeepSplitBy(chunks, seps), seps[i])
    ensures forall c | IsCut(KeepSplitBy(chunks, seps), c) ::
      IsCut(chunks, c) || exists i | 0 <= i < |seps| :: EndsAt(Concat(chunks), seps[i], c)
    decreases |seps|
  {
    if seps != [] {
      var next := KeepSplitEach(chunks, seps[0]);
      EachPieces(chunks, seps[0]);
      ByFacts(next, seps[1..]);
      ByStaysClean(next, seps[1..], seps[0]);
      var last := KeepSplitBy(next, seps[1..]);
      forall i | 0 <= i < |seps| ensures AllClean(last, seps[i]) {
        if i > 0 { assert seps[1..][i - 1] == seps[i]; }
      }
      forall c | IsCut(last, c)
        ensures IsCut(chunks, c) || exists i | 0 <= i < |seps| :: EndsAt(Concat(chunks), seps[i], c)
      {
        if IsCut(next, c) {
          EachCut(chunks, seps[0], c);
          if !IsCut(chunks, c) {
            assert EndsAt(Concat(chunks), seps[0], c);
          }
        } else {
          var i :| 0 <= i < |seps[1..]| && EndsAt(Concat(next), seps[1..][i], c);
          assert EndsAt(Concat(chunks), seps[i + 1], c);
        }
      }
    }
  }

  // ------------------------------------------------------------------
  // Greedy merging
  // ------------------------------------------------------------------

  /** A part of a text never has more tokens than the text. */
  ghost predicate SubstringMonotone(tok: Tokenizer) {
    forall a: string, b: string, c: string :: tok(b) <= tok(a + b + c)
  }

  lemma {:induction false} GreedyKeepsText(tok: Tokenizer, size: int, current: string, pieces: seq<string>)
    ensures Concat(Greedy(tok, size, current, pieces)) == current + Concat(pieces)
    decreases |pieces|
  {
    if pieces != [] {
      var rest := pieces[1..];
      if current == "" {
        GreedyKeepsText(tok, size, pieces[0], rest);
      } else if Fits(tok, current + pieces[0], size) {
        GreedyKeepsText(tok, size, current + pieces[0], rest);
        assert current + pieces[0] + Concat(rest) == current + (pieces[0] + Concat(rest));
      } else {
        GreedyKeepsText(tok, size, pieces[0], rest);
        ConcatCons(current, Greedy(tok, size, pieces[0], rest));
      }
    }
  }

  lemma {:induction false} GreedySizes(tok: Tokenizer, size: int, current: string, pieces: seq<string>)
    ensures forall i | 0 <= i < |Greedy(tok, size, current, pieces)| ::
      var out := Greedy(tok, size, current, pieces)[i];
      out != "" && (Fits(tok, out, size) || out == current || out in pieces)
    decreases |pieces|
  {
    if pieces != [] {
      var c := if current != "" && Fits(tok, current + pieces[0], size) then current + pieces[0] else pieces[0];
      GreedySizes(tok, size, c, pieces[1..]);
    }
  }

  /** `runs` cuts `pieces` into consecutive runs, and every run of two or more pieces fits. */
  ghost predicate IsGrouping(tok: Tokenizer, size: int, pieces: seq<string>, runs: seq<seq<string>>) {
    if runs == [] then pieces == []
    else
      && runs[0] != []
      && |runs[0]| <= |pieces| && pieces[..|runs[0]|] == runs[0]
      && (|runs[0]| >= 2 ==> Fits(tok, Concat(runs[0]), size))
      && IsGrouping(tok, size, pieces[|runs[0]|..], runs[1..])
  }

  /** `current` is at most as long as the open run `run` of the competing grouping. */
  ghost predicate Ahead(current: string, run: string) {
    |current| <= |run| && current == run[|run| - |current|..]
  }

  lemma {:induction false} MonotoneFits(tok: Tokenizer, size: int, a: string, b: string, c: string)
    requires SubstringMonotone(tok) && Fits(tok, a + b + c, size)
    ensures Fits(tok, b, size)
  {
    assert tok(b) <= tok(a + b + c);
  }

  /** The competing grouping takes the next piece into its open run, or opens its next run. */
  lemma {:induction false} NextRun(
      tok: Tokenizer, size: int, pieces: seq<string>, open: string, rest: seq<string>, runs: seq<seq<string>>)
    returns (rest': seq<string>, runs': seq<seq<string>>)
    requires pieces != []
    requires |rest| <= |pieces| && pieces[..|rest|] == rest
    requires IsGrouping(tok, size, pieces[|rest|..], runs)
    requires rest != [] ==> Fits(tok, open + Concat(rest), size)
    ensures |rest'| <= |pieces[1..]| && pieces[1..][..|rest'|] == rest'
    ensures IsGrouping(tok, size, pieces[1..][|rest'|..], runs')
    ensures rest == [] ==> runs != [] && |runs'| == |runs| - 1
    ensures rest == [] && rest' != [] ==> Fits(tok, pieces[0] + Concat(rest'), size)
    ensures rest != [] ==> runs' == runs && rest' == rest[1..] && rest[0] == pieces[0]
    ensures rest != [] ==> Fits(tok, open + pieces[0] + Concat(rest'), size)
  {
    if rest != [] {
      rest', runs' := rest[1..], runs;
      assert rest[0] == pieces[0] && rest == pieces[..|rest|];
      assert open + (pieces[0] + Concat(rest')) == open + pieces[0] + Concat(rest');
      assert pieces[1..][..|rest'|] == rest' && pieces[1..][|rest'|..] == pieces[|rest|..];
    } else {
      assert pieces[0..] == pieces;
      rest', runs' := runs[0][1..], runs[1..];
      assert runs[0][0] == pieces[0];
      assert pieces[1..][|rest'|..] == pieces[|runs[0]|..];
    }
  }

  lemma {:induction false} AheadMerges(
      tok: Tokenizer, size: int, current: string, piece: string, open: string, rest: seq<string>)
    requires SubstringMonotone(tok) && Ahead(current, open)
    requires Fits(tok, open + piece + Concat(rest), size)
    ensures Fits(tok, current + piece, size)
    ensures Ahead(current + piece, open + piece)
  {
    var gap := open[..|open| - |current|];
    assert open + piece + Concat(rest) == gap + (current + piece) + Concat(rest);
    MonotoneFits(tok, size, gap, current + piece, Concat(rest));
  }

  /** Compared with any grouping that has just taken the same pieces, greedy merging needs at
      most one chunk more than the runs still to come (two when it is a run behind). */
  lemma {:induction false} GreedyStaysAhead(
      tok: Tokenizer, size: int, current: string, pieces: seq<string>,
      open: string, rest: seq<string>, runs: seq<seq<string>>, lead: bool)
    requires SubstringMonotone(tok)
    requires |rest| <= |pieces| && pieces[..|rest|] == rest
    requires IsGrouping(tok, size, pieces[|rest|..], runs)
    requires rest != [] ==> Fits(tok, open + Concat(rest), size)
    requires !lead ==> Ahead(current, open)
    ensures |Greedy(tok, size, current, pieces)| <= (if lead then 2 else 1) + |runs|
    decreases |pieces|
  {
    if pieces != [] {
      var p := pieces[0];
      var rest', runs' := NextRun(tok, size, pieces, open, rest, runs);
      var open' := if rest != [] then open + p else p;
      assert Ahead(p, open');
      if current == "" {
        GreedyStaysAhead(tok, size, p, pieces[1..], open', rest', runs', false);
      } else if rest != [] && !lead {
        AheadMerges(tok, size, current, p, open, rest');
        GreedyStaysAhead(tok, size, current + p, pieces[1..], open', rest', runs', false);
      } else if Fits(tok, current + p, size) {
        GreedyStaysAhead(tok, size, current + p, pieces[1..], open', rest', runs', true);
      } else {
        GreedyStaysAhead(tok, size, p, pieces[1..], open', rest', runs', false);
      }
    }
  }

  /** No grouping of the same pieces into fitting runs has fewer chunks than the greedy one. */
  lemma {:induction false} GreedyIsOptimal(tok: Tokenizer, size: int, pieces: seq<string>, runs: seq<seq<string>>)
    requires SubstringMonotone(tok)
    requires IsGrouping(tok, size, pieces, runs)
    ensures |Greedy(tok, size, "", pieces)| <= |runs|
  {
    if pieces != [] {
      var first := runs[0];
      assert first[0] == pieces[0];
      assert Concat(first) == first[0] + Concat(first[1..]);
      assert pieces[1..][|first[1..]|..] == pieces[|first|..];
      GreedyStaysAhead(tok, size, pieces[0], pieces[1..], pieces[0], first[1..], runs[1..], false);
    }
  }

  lemma {:induction false} LongerDoesNotFit(tok: Tokenizer, size: int, current: string, p: string, next: string)
    requires SubstringMonotone(tok) && p <= next && !Fits(tok, current + p, size)
    ensures !Fits(tok, current + next, size)
  {
    if Fits(tok, current + next, size) {
      var more := next[|p|..];
      assert current + next == "" + (current + p) + more;
      MonotoneFits(tok, size, "", current + p, more);
      assert false;
    }
  }

  /** Greedy merging leaves no two neighbours that would fit together. */
  lemma {:induction false} GreedyNeighboursDoNotFit(tok: Tokenizer, size: int, current: string, pieces: seq<string>)
    requires SubstringMonotone(tok)
    ensures var out := Greedy(tok, size, current, pieces);
      && (out != [] ==> current <= out[0])
      && forall i | 0 <= i < |out| - 1 :: !Fits(tok, out[i] + out[i + 1], size)
    decreases |pieces|
  {
    if pieces != [] {
      var p := pieces[0];
      if current == "" {
        GreedyNeighboursDoNotFit(tok, size, p, pieces[1..]);
      } else if Fits(tok, current + p, size) {
        GreedyNeighboursDoNotFit(tok, size, current + p, pieces[1..]);
      } else {
        GreedyNeighboursDoNotFit(tok, size, p, pieces[1..]);
        var tail := Greedy(tok, size, p, pieces[1..]);
        var out := Greedy(tok, size, current, pieces);
        assert out == [current] + tail;
        if tail != [] {
          LongerDoesNotFit(tok, size, current, p, tail[0]);
          forall i | 0 <= i < |out| - 1 ensures !Fits(tok, out[i] + out[i + 1], size) {
            if i > 0 { assert out[i] == tail[i - 1] && out[i + 1] == tail[i]; }
          }
        }
      }
    }
  }

  // ------------------------------------------------------------------
  // The overlap cutter
  // ------------------------------------------------------------------

  ghost predicate SuffixMonotone(tok: Tokenizer) {
    forall a: string, b: string :: tok(b) <= tok(a + b)
  }

  lemma {:induction false} BisectFits(tok: Tokenizer, s: string, size: int, left: nat, right: nat)
    requires left <= right <= |s|
    requires right == |s| || Fits(tok, s[right..], size)
    ensures var k := Bisect(tok, s, size, left, right); k == |s| || Fits(tok, s[k..], size)
    decreases right - left
  {
    if left < right {
      var mid := (left + right) / 2;
      if Fits(tok, s[mid..], size) {
        BisectFits(tok, s, size, left, mid);
      } else {
        BisectFits(tok, s, size, mid + 1, right);
      }
    }
  }

  lemma {:induction false} SuffixFits(tok: Tokenizer, s: string, size: int, j: nat, k: nat)
    requires SuffixMonotone(tok) && j <= |s| && k <= |s|
    ensures j <= k && Fits(tok, s[j..], size) ==> Fits(tok, s[k..], size)
  {
    if j <= k {
      assert s[j..] == s[j..k] + s[k..];
      assert tok(s[k..]) <= tok(s[j..k] + s[k..]);
    }
  }

  /** Bisection never skips a fitting suffix `s[j..]`. */
  lemma {:induction false} BisectIsLeftmost(tok: Tokenizer, s: string, size: int, left: nat, right: nat, j: nat)
    requires SuffixMonotone(tok)
    requires left <= right <= |s| && left <= j <= |s| && Fits(tok, s[j..], size)
    ensures Bisect(tok, s, size, left, right) <= j || right <= j
    decreases right - left
  {
    if left < right {
      var mid := (left + right) / 2;
      SuffixFits(tok, s, size, j, mid);
      if Fits(tok, s[mid..], size) {
        BisectIsLeftmost(tok, s, size, left, mid, j);
      } else {
        BisectIsLeftmost(tok, s, size, mid + 1, right, j);
      }
    }
  }

  /** The overlap is a suffix that fits (or is empty), whatever the tokenizer. */
  lemma {:induction false} CutRightFits(tok: Tokenizer, s: string, size: int)
    ensures CutRight(tok, s, size) == "" || Fits(tok, CutRight(tok, s, size), size)
  {
    BisectFits(tok, s, size, 0, |s|);
  }

  /** For a tokenizer that never counts more tokens in a suffix, it is the longest fitting one. */
  lemma {:induction false} CutRightIsLongest(tok: Tokenizer, s: string, size: int, j: nat)
    requires SuffixMonotone(tok) && Fits(tok, "", size)
    requires j <= |s| && Fits(tok, s[j..], size)
    ensures Fits(tok, CutRight(tok, s, size), size)
    ensures |s| - j <= |CutRight(tok, s, size)|
  {
    CutRightFits(tok, s, size);
    assert s[0..] == s;
    if s != "" && !Fits(tok, s, size) {
      if |s| > 1 {
        BisectIsLeftmost(tok, s, size, 0, |s|, j);
      }
    }
  }

  // ------------------------------------------------------------------
  // No text is lost, and every cut has a reason
  // ------------------------------------------------------------------

  datatype Span = Span(lo: nat, hi: nat)

  type Slices = seq<Span>

  function Slice(s: string, span: Span): string {
    if span.lo <= span.hi <= |s| then s[span.lo..span.hi] else ""
  }

  /** The text of a chunk: the concatenation of its slices of `s`. */
  function Text(s: string, chunk: Slices): string {
    if chunk == [] then "" else Slice(s, chunk[0]) + Text(s, chunk[1..])
  }

  function Render(s: string, plan: seq<Slices>): seq<string> {
    if plan == [] then [] else [Text(s, plan[0])] + Render(s, plan[1..])
  }

  function Flat(plan: seq<Slices>): seq<Span> {
    if plan == [] then [] else plan[0] + Flat(plan[1..])
  }

  ghost predicate Solid(spans: seq<Span>, lo: nat, hi: nat) {
    forall i | 0 <= i < |spans| :: lo <= spans[i].lo < spans[i].hi <= hi
  }

  ghost predicate SolidPlan(plan: seq<Slices>, n: nat) {
    forall i | 0 <= i < |plan| :: plan[i] != [] && Solid(plan[i], 0, n)
  }

  /** Slice `i` starts no later than the one before it ends; what they share is an overlap text. */
  ghost predicate Linked(cfg: Config, s: string, spans: seq<Span>, i: nat)
    requires 0 < i < |spans|
  {
    var x, y := spans[i - 1], spans[i];
    && y.lo <= x.hi <= |s|
    && (y.lo < x.hi ==> cfg.overlap > 0 && Fits(cfg.tok, s[y.lo..x.hi], cfg.overlap))
  }

  /** The slices run from `a` to `b` without a gap; two neighbours share at most an overlap
      text of `overlap` tokens. */
  ghost predicate Covers(cfg: Config, s: string, spans: seq<Span>, a: nat, b: nat) {
    && a <= b <= |s|
    && Solid(spans, a, b)
    && (spans == [] <==> a == b)
    && (spans != [] ==> spans[0].lo == a && spans[|spans| - 1].hi == b)
    && forall i | 0 < i < |spans| :: Linked(cfg, s, spans, i)
  }

  ghost predicate CleanAt(cfg: Config, t: string, level: nat)
    requires level < |cfg.levels|
  {
    forall i | 0 <= i < |cfg.levels[level]| :: Clean(t, cfg.levels[level][i])
  }

  function Capped(cfg: Config, level: nat): nat {
    if level < |cfg.levels| then level else |cfg.levels|
  }

  ghost predicate AfterSeparator(cfg: Config, t: string, level: nat, c: int)
    requires level < |cfg.levels|
  {
    exists i | 0 <= i < |cfg.levels[level]| :: EndsAt(t, cfg.levels[level][i], c)
  }

  /** After a cut at `c` in the middle of a stretch that begins at `a`, the next slice begins at
      `next`: without an overlap at the cut; else in the right half of what was cut off, where the
      longest overlap text that fits begins. */
  ghost predicate RestartsAt(cfg: Config, s: string, c: nat, next: nat, a: nat)
    requires a <= c <= |s|
  {
    var mid := a + (c - a) / 2;
    if cfg.overlap <= 0 || mid == a then next == c
    else
      && mid <= next <= c
      && (next < c ==> Fits(cfg.tok, s[next..c], cfg.overlap))
      && (SuffixMonotone(cfg.tok) && Fits(cfg.tok, "", cfg.overlap) ==>
            forall j | mid <= j <= c && Fits(cfg.tok, s[j..c], cfg.overlap) :: next <= j)
  }

  /** The cut at `c` divides the stretch `s[a..b]`, which does not fit and has no separator of
      the levels from `level` up to `k` inside. Up to the last level it follows a separator of
      level `k`, and the next slice begins there; below the last level it is in the middle. */
  ghost predicate CutIn(cfg: Config, level: nat, s: string, c: nat, next: nat, a: nat, b: nat, k: nat) {
    && Capped(cfg, level) <= k <= |cfg.levels|
    && a < c < b <= |s|
    && !Fits(cfg.tok, s[a..b], cfg.size)
    && (forall l | Capped(cfg, level) <= l < k :: CleanAt(cfg, s[a..b], l))
    && (if k < |cfg.levels| then AfterSeparator(cfg, s[a..b], k, c - a) && next == c
        else c == a + (b - a) / 2 && RestartsAt(cfg, s, c, next, a))
  }

  /** Why a slice ends at `c` and the next one begins at `next`. */
  ghost predicate Justified(cfg: Config, level: nat, s: string, c: nat, next: nat) {
    exists a, b, k :: CutIn(cfg, level, s, c, next, a, b, k)
  }

  ghost predicate JustifiedEnd(cfg: Config, level: nat, s: string, spans: seq<Span>, i: nat)
    requires i + 1 < |spans|
  {
    Justified(cfg, level, s, spans[i].hi, spans[i + 1].lo)
  }

  ghost predicate JustifiedCuts(cfg: Config, level: nat, s: string, spans: seq<Span>) {
    forall i | 0 <= i < |spans| - 1 :: JustifiedEnd(cfg, level, s, spans, i)
  }

  lemma {:induction false} CleanAtSlice(cfg: Config, t: string, level: nat, a: nat, b: nat)
    requires level < |cfg.levels| && CleanAt(cfg, t, level) && a <= b <= |t|
    ensures CleanAt(cfg, t[a..b], level)
  {
    var seps := cfg.levels[level];
    forall i | 0 <= i < |seps| ensures Clean(t[a..b], seps[i]) {
      CleanSlice(t, seps[i], a, b);
    }
  }

  lemma {:induction false} JustifiedLift(
      cfg: Config, level: nat, s: string, off: nat, t: string, c: nat, next: nat)
    requires off + |t| <= |s| && t == s[off..off + |t|]
    requires Justified(cfg, level + 1, t, c, next)
    requires level < |cfg.levels| ==> CleanAt(cfg, t, level)
    ensures Justified(cfg, level, s, off + c, off + next)
  {
    var a: nat, b: nat, k: nat :| CutIn(cfg, level + 1, t, c, next, a, b, k);
    SliceOfSlice(s, off, off + |t|, a, b);
    forall l | Capped(cfg, level) <= l < k ensures CleanAt(cfg, t[a..b], l) {
      if l < Capped(cfg, level + 1) {
        CleanAtSlice(cfg, t, l, a, b);
      }
    }
    assert off + c - (off + a) == c - a;
    if k >= |cfg.levels| {
      RestartLift(cfg, s, off, t, c, next, a);
    }
    assert CutIn(cfg, level, s, off + c, off + next, off + a, off + b, k);
  }

  lemma {:induction false} RestartLift(cfg: Config, s: string, off: nat, t: string, c: nat, next: nat, a: nat)
    requires off + |t| <= |s| && t == s[off..off + |t|] && a <= c <= |t|
    requires RestartsAt(cfg, t, c, next, a)
    ensures RestartsAt(cfg, s, off + c, off + next, off + a)
  {
    var c', mid := off + c, a + (c - a) / 2;
    assert (c' - (off + a)) / 2 == (c - a) / 2;
    if cfg.overlap > 0 && mid > a {
      SliceOfSlice(s, off, off + |t|, next, c);
      if SuffixMonotone(cfg.tok) && Fits(cfg.tok, "", cfg.overlap) {
        forall j | off + mid <= j <= c' && Fits(cfg.tok, s[j..c'], cfg.overlap) ensures off + next <= j {
          SliceOfSlice(s, off, off + |t|, j - off, c);
          assert Fits(cfg.tok, t[j - off..c], cfg.overlap);
        }
      }
    }
  }

  function Shift(spans: seq<Span>, off: nat): seq<Span> {
    seq(|spans|, i requires 0 <= i < |spans| => Span(spans[i].lo + off, spans[i].hi + off))
  }

  function ShiftPlan(plan: seq<Slices>, off: nat): seq<Slices> {
    if plan == [] then [] else [Shift(plan[0], off)] + ShiftPlan(plan[1..], off)
  }

  lemma {:induction false} ShiftAppend(x: seq<Span>, y: seq<Span>, off: nat)
    ensures Shift(x + y, off) == Shift(x, off) + Shift(y, off)
  {
  }

  lemma {:induction false} SolidPlanCons(chunk: Slices, plan: seq<Slices>, n: nat)
    requires chunk != [] && Solid(chunk, 0, n) && SolidPlan(plan, n)
    ensures SolidPlan([chunk] + plan, n)
  {
  }

  lemma {:induction false} ShiftText(s: string, t: string, off: nat, chunk: Slices)
    requires off + |t| <= |s| && t == s[off..off + |t|] && Solid(chunk, 0, |t|)
    ensures Text(s, Shift(chunk, off)) == Text(t, chunk)
    decreases |chunk|
  {
    if chunk != [] {
      assert Shift(chunk, off)[1..] == Shift(chunk[1..], off);
      SliceOfSlice(s, off, off + |t|, chunk[0].lo, chunk[0].hi);
      assert Slice(s, Shift(chunk, off)[0]) == Slice(t, chunk[0]);
      ShiftText(s, t, off, chunk[1..]);
    }
  }

  lemma {:induction false} ShiftFlat(plan: seq<Slices>, off: nat)
    ensures Flat(ShiftPlan(plan, off)) == Shift(Flat(plan), off)
    decreases |plan|
  {
    if plan != [] {
      ShiftFlat(plan[1..], off);
      ShiftAppend(plan[0], Flat(plan[1..]), off);
      assert ShiftPlan(plan, off)[1..] == ShiftPlan(plan[1..], off);
    }
  }

  lemma {:induction false} ShiftRender(s: string, t: string, off: nat, plan: seq<Slices>)
    requires off + |t| <= |s| && t == s[off..off + |t|] && SolidPlan(plan, |t|)
    ensures Render(s, ShiftPlan(plan, off)) == Render(t, plan)
    ensures SolidPlan(ShiftPlan(plan, off), |s|)
    decreases |plan|
  {
    if plan != [] {
      var rest := ShiftPlan(plan[1..], off);
      ShiftText(s, t, off, plan[0]);
      ShiftRender(s, t, off, plan[1..]);
      assert ShiftPlan(plan, off)[1..] == rest;
      SolidPlanCons(Shift(plan[0], off), rest, |s|);
    }
  }

  lemma {:induction false} ShiftCovers(
      cfg: Config, level: nat, s: string, off: nat, t: string, spans: seq<Span>)
    requires off + |t| <= |s| && t == s[off..off + |t|]
    requires Covers(cfg, t, spans, 0, |t|)
    requires JustifiedCuts(cfg, level + 1, t, spans)
    requires level < |cfg.levels| ==> CleanAt(cfg, t, level)
    ensures Covers(cfg, s, Shift(spans, off), off, off + |t|)
    ensures JustifiedCuts(cfg, level, s, Shift(spans, off))
  {
    var moved := Shift(spans, off);
    forall i | 0 < i < |moved| ensures Linked(cfg, s, moved, i) {
      assert Linked(cfg, t, spans, i);
      if spans[i].lo < spans[i - 1].hi {
        SliceOfSlice(s, off, off + |t|, spans[i].lo, spans[i - 1].hi);
      }
    }
    forall i | 0 <= i < |moved| - 1 ensures JustifiedEnd(cfg, level, s, moved, i) {
      assert JustifiedEnd(cfg, level + 1, t, spans, i);
      JustifiedLift(cfg, level, s, off, t, spans[i].hi, spans[i + 1].lo);
    }
  }

  lemma {:induction false} JoinCovers(
      cfg: Config, level: nat, s: string,
      x: seq<Span>, y: seq<Span>, a: nat, b: nat, c: nat, d: nat)
    requires Covers(cfg, s, x, a, b) && Covers(cfg, s, y, c, d)
    requires JustifiedCuts(cfg, level, s, x) && JustifiedCuts(cfg, level, s, y)
    requires a <= c <= b <= d && (a == b ==> c == b) && (c == d ==> c == b)
    requires c < b ==> cfg.overlap > 0 && Fits(cfg.tok, s[c..b], cfg.overlap)
    requires a < b && c < d ==> Justified(cfg, level, s, b, c)
    ensures Covers(cfg, s, x + y, a, d)
    ensures JustifiedCuts(cfg, level, s, x + y)
  {
    var z := x + y;
    forall i | 0 < i < |z| ensures Linked(cfg, s, z, i) {
      if i < |x| {
        assert Linked(cfg, s, x, i);
      } else if i > |x| {
        assert Linked(cfg, s, y, i - |x|);
      }
    }
    forall i | 0 <= i < |z| - 1 ensures JustifiedEnd(cfg, level, s, z, i) {
      if i < |x| - 1 {
        assert JustifiedEnd(cfg, level, s, x, i);
      } else if i > |x| - 1 {
        assert JustifiedEnd(cfg, level, s, y, i - |x|);
      }
    }
  }

  lemma {:induction false} FlatAppend(x: seq<Slices>, y: seq<Slices>)
    ensures Flat(x + y) == Flat(x) + Flat(y)
  {
    if x == [] {
      assert x + y == y;
    } else {
      assert (x + y)[1..] == x[1..] + y;
      FlatAppend(x[1..], y);
    }
  }

  lemma {:induction false} RenderAppend(s: string, x: seq<Slices>, y: seq<Slices>)
    ensures Render(s, x + y) == Render(s, x) + Render(s, y)
  {
    if x == [] {
      assert x + y == y;
    } else {
      assert (x + y)[1..] == x[1..] + y;
      RenderAppend(s, x[1..], y);
    }
  }

  lemma {:induction false} TextAppend(s: string, x: Slices, y: Slices)
    ensures Text(s, x + y) == Text(s, x) + Text(s, y)
  {
    if x == [] {
      assert x + y == y;
    } else {
      assert (x + y)[1..] == x[1..] + y;
      TextAppend(s, x[1..], y);
    }
  }

  lemma {:induction false} SolidText(s: string, chunk: Slices)
    requires chunk != [] && Solid(chunk, 0, |s|)
    ensures Text(s, chunk) != ""
  {
    assert Slice(s, chunk[0]) != "";
  }

  /** Greedy merging only regroups the slices. */
  function MergedPlan(cfg: Config, s: string, current: Slices, plan: seq<Slices>): seq<Slices>
    decreases |plan|
  {
    if plan == [] then (if current == [] then [] else [current])
    else if current == [] then MergedPlan(cfg, s, plan[0], plan[1..])
    else if Fits(cfg.tok, Text(s, current) + Text(s, plan[0]), cfg.size) then
      MergedPlan(cfg, s, current + plan[0], plan[1..])
    else [current] + MergedPlan(cfg, s, plan[0], plan[1..])
  }

  lemma {:induction false} MergedFlat(cfg: Config, s: string, current: Slices, plan: seq<Slices>)
    ensures Flat(MergedPlan(cfg, s, current, plan)) == current + Flat(plan)
    decreases |plan|
  {
    if plan == [] {
      assert current != [] ==> Flat([current]) == current;
    } else if current == [] {
      MergedFlat(cfg, s, plan[0], plan[1..]);
    } else if Fits(cfg.tok, Text(s, current) + Text(s, plan[0]), cfg.size) {
      MergedFlat(cfg, s, current + plan[0], plan[1..]);
    } else {
      MergedFlat(cfg, s, plan[0], plan[1..]);
      var more := MergedPlan(cfg, s, plan[0], plan[1..]);
      assert ([current] + more)[1..] == more;
    }
  }

  lemma {:induction false} MergedRender(cfg: Config, s: string, current: Slices, plan: seq<Slices>)
    requires Solid(current, 0, |s|) && SolidPlan(plan, |s|)
    ensures Render(s, MergedPlan(cfg, s, current, plan)) == Greedy(cfg.tok, cfg.size, Text(s, current), Render(s, plan))
    ensures SolidPlan(MergedPlan(cfg, s, current, plan), |s|)
    decreases |plan|
  {
    if current != [] {
      SolidText(s, current);
    }
    if plan != [] {
      var p, pieces := plan[0], Render(s, plan);
      assert pieces[0] == Text(s, p) && pieces[1..] == Render(s, plan[1..]);
      if current == [] {
        MergedRender(cfg, s, p, plan[1..]);
      } else if Fits(cfg.tok, Text(s, current) + Text(s, p), cfg.size) {
        TextAppend(s, current, p);
        MergedRender(cfg, s, current + p, plan[1..]);
      } else {
        MergedRender(cfg, s, p, plan[1..]);
        var more := MergedPlan(cfg, s, p, plan[1..]);
        assert ([current] + more)[1..] == more;
        SolidPlanCons(current, more, |s|);
      }
    }
  }

  /** A plan for the stretch of `s` from `a` to `b`, with every cut justified. */
  ghost predicate GoodPlan(cfg: Config, level: nat, s: string, plan: seq<Slices>, a: nat, b: nat) {
    && SolidPlan(plan, |s|)
    && Covers(cfg, s, Flat(plan), a, b)
    && JustifiedCuts(cfg, level, s, Flat(plan))
  }

  lemma {:induction false} LiftPlan(
      cfg: Config, level: nat, s: string, off: nat, t: string, plan: seq<Slices>)
    returns (moved: seq<Slices>)
    requires off + |t| <= |s| && t == s[off..off + |t|]
    requires GoodPlan(cfg, level + 1, t, plan, 0, |t|)
    requires level < |cfg.levels| ==> CleanAt(cfg, t, level)
    ensures GoodPlan(cfg, level, s, moved, off, off + |t|)
    ensures Render(s, moved) == Render(t, plan)
  {
    moved := ShiftPlan(plan, off);
    ShiftFlat(plan, off);
    ShiftRender(s, t, off, plan);
    ShiftCovers(cfg, level, s, off, t, Flat(plan));
  }

  lemma {:induction false} JoinPlans(
      cfg: Config, level: nat, s: string,
      x: seq<Slices>, y: seq<Slices>, a: nat, b: nat, c: nat, d: nat)
    requires GoodPlan(cfg, level, s, x, a, b) && GoodPlan(cfg, level, s, y, c, d)
    requires a <= c <= b <= d && (a == b ==> c == b) && (c == d ==> c == b)
    requires c < b ==> cfg.overlap > 0 && Fits(cfg.tok, s[c..b], cfg.overlap)
    requires a < b && c < d ==> Justified(cfg, level, s, b, c)
    ensures GoodPlan(cfg, level, s, x + y, a, d)
    ensures Render(s, x + y) == Render(s, x) + Render(s, y)
  {
    FlatAppend(x, y);
    RenderAppend(s, x, y);
    JoinCovers(cfg, level, s, Flat(x), Flat(y), a, b, c, d);
  }

  lemma {:induction false} WholePlan(cfg: Config, level: nat, s: string)
    returns (plan: seq<Slices>)
    requires s != ""
    ensures Render(s, plan) == [s]
    ensures GoodPlan(cfg, level, s, plan, 0, |s|)
  {
    plan := [[Span(0, |s|)]];
    assert Flat(plan) == [Span(0, |s|)];
    assert plan[1..] == [] && plan[0][1..] == [];
    assert Text(s, plan[0]) == s;
  }

  /** The slices behind the chunks of `s`. */
  lemma {:induction false} SplitPlan(cfg: Config, level: nat, s: string)
    returns (plan: seq<Slices>)
    ensures Render(s, plan) == Split(cfg, level, s)
    ensures GoodPlan(cfg, level, s, plan, 0, |s|)
    decreases LevelsLeft(cfg, level), 0, |s|, 2
  {
    if s == "" {
      plan := [];
    } else if |s| <= 1 || Fits(cfg.tok, s, cfg.size) {
      plan := WholePlan(cfg, level, s);
    } else if level >= |cfg.levels| {
      plan := HalvesPlan(cfg, level, s);
    } else {
      var pieces := PiecesAt(cfg, level, s);
      SeparatorCuts(cfg, level, s);
      var parts := EachPlan(cfg, level, s, 0, pieces);
      plan := MergedPlan(cfg, s, [], parts);
      MergedFlat(cfg, s, [], parts);
      MergedRender(cfg, s, [], parts);
      assert Flat(plan) == Flat(parts);
    }
  }

  /** The pieces of `s` from `off` on: separators of the level only at their ends, cut at
      justified positions. */
  ghost predicate PiecesFrom(cfg: Config, level: nat, s: string, off: nat, pieces: seq<string>)
    requires level < |cfg.levels|
    decreases |pieces|
  {
    if pieces == [] then off == |s|
    else
      var end := off + |pieces[0]|;
      && end <= |s| && pieces[0] == s[off..end]
      && CleanAt(cfg, pieces[0], level)
      && (0 < end < |s| ==> Justified(cfg, level, s, end, end))
      && PiecesFrom(cfg, level, s, end, pieces[1..])
  }

  lemma {:induction false} CutAfterPrefix(pre: seq<string>, pieces: seq<string>)
    ensures IsCut(pre + pieces, |Concat(pre)|)
    decreases |pre|
  {
    if pre != [] {
      assert (pre + pieces)[1..] == pre[1..] + pieces;
      CutAfterPrefix(pre[1..], pieces);
    }
  }

  lemma {:induction false} CollectPieces(
      cfg: Config, level: nat, s: string, all: seq<string>, pre: seq<string>, pieces: seq<string>)
    requires level < |cfg.levels| && all == pre + pieces && Concat(all) == s
    requires forall i | 0 <= i < |all| :: CleanAt(cfg, all[i], level)
    requires forall c: nat | IsCut(all, c) && 0 < c < |s| :: Justified(cfg, level, s, c, c)
    ensures PiecesFrom(cfg, level, s, |Concat(pre)|, pieces)
    decreases |pieces|
  {
    ConcatAppend(pre, pieces);
    if pieces != [] {
      var pre' := pre + [pieces[0]];
      assert all == pre' + pieces[1..] && all[|pre|] == pieces[0];
      ConcatAppend(pre, [pieces[0]]);
      assert Concat([pieces[0]]) == pieces[0] + "";
      CutAfterPrefix(pre', pieces[1..]);
      CollectPieces(cfg, level, s, all, pre', pieces[1..]);
    }
  }

  lemma {:induction false} SeparatorCuts(cfg: Config, level: nat, s: string)
    requires level < |cfg.levels| && !Fits(cfg.tok, s, cfg.size)
    ensures PiecesFrom(cfg, level, s, 0, PiecesAt(cfg, level, s))
  {
    var pieces := PiecesAt(cfg, level, s);
    ByFacts([s], cfg.levels[level]);
    assert Concat([s]) == s;
    forall i | 0 <= i < |pieces| ensures CleanAt(cfg, pieces[i], level) {
      forall j | 0 <= j < |cfg.levels[level]| ensures Clean(pieces[i], cfg.levels[level][j]) {
        assert AllClean(pieces, cfg.levels[level][j]);
      }
    }
    forall c: nat | IsCut(pieces, c) && 0 < c < |s| ensures Justified(cfg, level, s, c, c) {
      assert !IsCut([s], c);
      assert s[0..|s|] == s;
      assert CutIn(cfg, level, s, c, c, 0, |s|, level);
    }
    CollectPieces(cfg, level, s, pieces, [], pieces);
  }

  lemma {:induction false} HalvesUnfold(cfg: Config, level: nat, s: string)
    requires level >= |cfg.levels| && |s| > 1 && !Fits(cfg.tok, s, cfg.size)
    ensures var p := |s| / 2;
      Split(cfg, level, s) == Split(cfg, level + 1, s[..p]) + Split(cfg, level + 1, s[OverlapStart(cfg, s, p)..])
  {
  }

  /** Below the last level a text that does not fit may be cut in the middle. */
  lemma {:induction false} MiddleJustified(cfg: Config, level: nat, s: string)
    requires level >= |cfg.levels| && |s| > 1 && !Fits(cfg.tok, s, cfg.size)
    ensures Justified(cfg, level, s, |s| / 2, OverlapStart(cfg, s, |s| / 2))
  {
    assert s[0..|s|] == s;
    OverlapRestarts(cfg, s, |s| / 2);
    assert CutIn(cfg, level, s, |s| / 2, OverlapStart(cfg, s, |s| / 2), 0, |s|, |cfg.levels|);
  }

  /** The right half begins with the longest overlap text that fits. */
  lemma {:induction false} OverlapRestarts(cfg: Config, s: string, p: nat)
    requires 0 < p <= |s|
    ensures RestartsAt(cfg, s, p, OverlapStart(cfg, s, p), 0)
  {
    var q, mid := OverlapStart(cfg, s, p), p / 2;
    OverlapFits(cfg, s, p);
    if cfg.overlap > 0 && mid > 0 && SuffixMonotone(cfg.tok) && Fits(cfg.tok, "", cfg.overlap) {
      forall j | mid <= j <= p && Fits(cfg.tok, s[j..p], cfg.overlap) ensures q <= j {
        OverlapIsLongest(cfg, s, p, j);
      }
    }
  }

  lemma {:induction false} OverlapIsLongest(cfg: Config, s: string, p: nat, j: nat)
    requires SuffixMonotone(cfg.tok) && Fits(cfg.tok, "", cfg.overlap) && cfg.overlap > 0
    requires 0 < p / 2 <= j <= p <= |s| && Fits(cfg.tok, s[j..p], cfg.overlap)
    ensures OverlapStart(cfg, s, p) <= j
  {
    var t := s[..p][p / 2..];
    assert t[j - p / 2..] == s[j..p];
    CutRightIsLongest(cfg.tok, t, cfg.overlap, j - p / 2);
  }

  lemma {:induction false} HalvesPlan(cfg: Config, level: nat, s: string)
    returns (plan: seq<Slices>)
    requires level >= |cfg.levels| && |s| > 1 && !Fits(cfg.tok, s, cfg.size)
    ensures Render(s, plan) == Split(cfg, level, s)
    ensures GoodPlan(cfg, level, s, plan, 0, |s|)
    decreases LevelsLeft(cfg, level), 0, |s|, 1
  {
    var p := |s| / 2;
    var q := OverlapStart(cfg, s, p);
    assert s[0..p] == s[..p] && s[q..|s|] == s[q..];
    var left := InnerPlan(cfg, level, s, 0, s[..p]);
    var right := InnerPlan(cfg, level, s, q, s[q..]);
    HalvesUnfold(cfg, level, s);
    JoinHalves(cfg, level, s, left, right);
    plan := left + right;
  }

  lemma {:induction false} JoinHalves(
      cfg: Config, level: nat, s: string, left: seq<Slices>, right: seq<Slices>)
    requires level >= |cfg.levels| && |s| > 1 && !Fits(cfg.tok, s, cfg.size)
    requires GoodPlan(cfg, level, s, left, 0, |s| / 2)
    requires GoodPlan(cfg, level, s, right, OverlapStart(cfg, s, |s| / 2), |s|)
    ensures GoodPlan(cfg, level, s, left + right, 0, |s|)
    ensures Render(s, left + right) == Render(s, left) + Render(s, right)
  {
    OverlapFits(cfg, s, |s| / 2);
    MiddleJustified(cfg, level, s);
    JoinPlans(cfg, level, s, left, right, 0, |s| / 2, OverlapStart(cfg, s, |s| / 2), |s|);
  }

  /** The overlap of two halves is never empty by accident: it holds at most `overlap` tokens. */
  lemma {:induction false} OverlapFits(cfg: Config, s: string, p: nat)
    requires 0 < p <= |s|
    ensures var q := OverlapStart(cfg, s, p);
      q < p ==> cfg.overlap > 0 && Fits(cfg.tok, s[q..p], cfg.overlap)
  {
    var q := OverlapStart(cfg, s, p);
    if q < p {
      var t := s[..p][p / 2..];
      CutRightFits(cfg.tok, t, cfg.overlap);
      assert CutRight(cfg.tok, t, cfg.overlap) == t[|t| - (p - q)..] == s[q..p];
    }
  }

  /** The plan of a part `t` of `s`, seen in `s`. */
  lemma {:induction false} InnerPlan(cfg: Config, level: nat, s: string, off: nat, t: string)
    returns (plan: seq<Slices>)
    requires off + |t| <= |s| && t == s[off..off + |t|]
    requires level < |cfg.levels| ==> CleanAt(cfg, t, level)
    ensures GoodPlan(cfg, level, s, plan, off, off + |t|)
    ensures Render(s, plan) == Split(cfg, level + 1, t)
    decreases LevelsLeft(cfg, level + 1), 0, |t|, 3
  {
    var inner := SplitPlan(cfg, level + 1, t);
    plan := LiftPlan(cfg, level, s, off, t, inner);
  }

  lemma {:induction false} EachPlan(cfg: Config, level: nat, s: string, off: nat, pieces: seq<string>)
    returns (plan: seq<Slices>)
    requires level < |cfg.levels| && off <= |s| && PiecesFrom(cfg, level, s, off, pieces)
    ensures Render(s, plan) == SplitEach(cfg, level + 1, pieces)
    ensures GoodPlan(cfg, level, s, plan, off, |s|)
    decreases LevelsLeft(cfg, level + 1), 1, |pieces|
  {
    if pieces == [] {
      plan := [];
    } else {
      var end := off + |pieces[0]|;
      var head := InnerPlan(cfg, level, s, off, pieces[0]);
      var tail := EachPlan(cfg, level, s, end, pieces[1..]);
      plan := head + tail;
      JoinPlans(cfg, level, s, head, tail, off, end, end, |s|);
    }
  }

  // ------------------------------------------------------------------
  // Main results
  // ------------------------------------------------------------------

  /** The chunks are groups of slices that run through the whole text without a gap, overlap
      only within the overlap budget, and are cut only where a stretch did not fit. */
  ghost predicate TextKept(cfg: Config, s: string, chunks: seq<string>) {
    exists plan: seq<Slices> ::
      && Render(s, plan) == chunks
      && Covers(cfg, s, Flat(plan), 0, |s|)
      && JustifiedCuts(cfg, 0, s, Flat(plan))
  }

  lemma {:induction false} NoTextLost(cfg: Config, s: string)
    ensures TextKept(cfg, s, Split(cfg, 0, s))
  {
    var plan := SplitPlan(cfg, 0, s);
  }

  lemma {:induction false} CoveredPosition(cfg: Config, s: string, spans: seq<Span>, a: nat, b: nat, k: nat)
    returns (i: nat)
    requires Covers(cfg, s, spans, a, b) && a <= k < b
    ensures i < |spans| && spans[i].lo <= k < spans[i].hi
  {
    i := 0;
    while spans[i].hi <= k
      invariant i < |spans| && spans[i].lo <= k
      decreases |spans| - i
    {
      assert Linked(cfg, s, spans, i + 1);
      i := i + 1;
    }
  }

  /** Without an overlap the chunks rejoin to exactly the text. */
  lemma {:induction false} WithoutOverlapChunksRejoin(cfg: Config, level: nat, s: string)
    requires cfg.overlap <= 0
    ensures Concat(Split(cfg, level, s)) == s
    decreases LevelsLeft(cfg, level), 0, |s|
  {
    if |s| > 1 && !Fits(cfg.tok, s, cfg.size) {
      if level >= |cfg.levels| {
        WithoutOverlapChunksRejoin(cfg, level + 1, s[..|s| / 2]);
        WithoutOverlapChunksRejoin(cfg, level + 1, s[|s| / 2..]);
        HalvesRejoin(cfg, level, s);
      } else {
        EachRejoins(cfg, level + 1, PiecesAt(cfg, level, s));
        PiecesRejoin(cfg, level, s);
      }
    } else {
      assert s != "" ==> Concat([s]) == s;
    }
  }

  /** Without an overlap the right half starts where the left one ends. */
  lemma {:induction false} HalvesRejoin(cfg: Config, level: nat, s: string)
    requires cfg.overlap <= 0 && level >= |cfg.levels| && |s| > 1 && !Fits(cfg.tok, s, cfg.size)
    requires Concat(Split(cfg, level + 1, s[..|s| / 2])) == s[..|s| / 2]
    requires Concat(Split(cfg, level + 1, s[|s| / 2..])) == s[|s| / 2..]
    ensures Concat(Split(cfg, level, s)) == s
  {
    var p := |s| / 2;
    assert Split(cfg, level, s) == Split(cfg, level + 1, s[..p]) + Split(cfg, level + 1, s[p..]);
    ConcatHalves(s, p, Split(cfg, level + 1, s[..p]), Split(cfg, level + 1, s[p..]));
  }

  lemma {:induction false} ConcatHalves(s: string, p: nat, left: seq<string>, right: seq<string>)
    requires p <= |s| && Concat(left) == s[..p] && Concat(right) == s[p..]
    ensures Concat(left + right) == s
  {
    ConcatAppend(left, right);
    assert s[..p] + s[p..] == s;
  }

  lemma {:induction false} PiecesRejoin(cfg: Config, level: nat, s: string)
    requires level < |cfg.levels| && |s| > 1 && !Fits(cfg.tok, s, cfg.size)
    requires Concat(SplitEach(cfg, level + 1, PiecesAt(cfg, level, s))) == Concat(PiecesAt(cfg, level, s))
    ensures Concat(Split(cfg, level, s)) == s
  {
    ByFacts([s], cfg.levels[level]);
    assert Concat([s]) == s;
    GreedyKeepsText(cfg.tok, cfg.size, "", SplitEach(cfg, level + 1, PiecesAt(cfg, level, s)));
  }

  lemma {:induction false} EachRejoins(cfg: Config, level: nat, pieces: seq<string>)
    requires cfg.overlap <= 0
    ensures Concat(SplitEach(cfg, level, pieces)) == Concat(pieces)
    decreases LevelsLeft(cfg, level), 1, |pieces|
  {
    if pieces != [] {
      WithoutOverlapChunksRejoin(cfg, level, pieces[0]);
      EachRejoins(cfg, level, pieces[1..]);
      ConcatAppend(Split(cfg, level, pieces[0]), SplitEach(cfg, level, pieces[1..]));
    }
  }

  // ------------------------------------------------------------------
  // The chunks are merged as far as they go
  // ------------------------------------------------------------------

  /** The chunks one level down, before they are merged. */
  function Unmerged(cfg: Config, level: nat, s: string): seq<string>
    requires level < |cfg.levels|
  {
    SplitEach(cfg, level + 1, PiecesAt(cfg, level, s))
  }

  /** No two neighbours in the answer would fit together. */
  lemma {:induction false} NeighboursDoNotFit(cfg: Config, level: nat, s: string, i: nat)
    requires SubstringMonotone(cfg.tok) && level < |cfg.levels|
    requires i + 1 < |Split(cfg, level, s)|
    ensures !Fits(cfg.tok, Split(cfg, level, s)[i] + Split(cfg, level, s)[i + 1], cfg.size)
  {
    GreedyNeighboursDoNotFit(cfg.tok, cfg.size, "", Unmerged(cfg, level, s));
  }

  /** No way to group the chunks one level down into consecutive runs that fit has fewer chunks. */
  lemma {:induction false} FewestChunks(cfg: Config, level: nat, s: string, runs: seq<seq<string>>)
    requires SubstringMonotone(cfg.tok) && level < |cfg.levels| && |s| > 1 && !Fits(cfg.tok, s, cfg.size)
    requires IsGrouping(cfg.tok, cfg.size, Unmerged(cfg, level, s), runs)
    ensures |Split(cfg, level, s)| <= |runs|
  {
    GreedyIsOptimal(cfg.tok, cfg.size, Unmerged(cfg, level, s), runs);
  }

  function Texts(runs: seq<seq<string>>): seq<string> {
    if runs == [] then [] else [Concat(runs[0])] + Texts(runs[1..])
  }

  lemma {:induction false} GroupingCons(
      tok: Tokenizer, size: int, run: seq<string>, pieces: seq<string>, more: seq<seq<string>>)
    requires run != [] && (|run| >= 2 ==> Fits(tok, Concat(run), size)) && IsGrouping(tok, size, pieces, more)
    ensures IsGrouping(tok, size, run + pieces, [run] + more)
    ensures Texts([run] + more) == [Concat(run)] + Texts(more)
  {
    var runs := [run] + more;
    assert runs[0] == run && runs[1..] == more;
    assert (run + pieces)[..|run|] == run && (run + pieces)[|run|..] == pieces;
  }

  lemma {:induction false} ConcatSnoc(pieces: seq<string>, last: string)
    ensures Concat(pieces + [last]) == Concat(pieces) + last
  {
    ConcatAppend(pieces, [last]);
    ConcatCons(last, []);
    assert last + "" == last;
  }

  /** Greedy merging is itself such a grouping; `open` are the pieces of the open chunk. */
  lemma {:induction false} GreedyIsGrouping(
      tok: Tokenizer, size: int, open: seq<string>, pieces: seq<string>)
    returns (runs: seq<seq<string>>)
    requires (forall p <- pieces :: p != "") && (open != [] ==> Concat(open) != "")
    requires |open| >= 2 ==> Fits(tok, Concat(open), size)
    ensures IsGrouping(tok, size, open + pieces, runs)
    ensures Texts(runs) == Greedy(tok, size, Concat(open), pieces)
    decreases |pieces|
  {
    if pieces == [] {
      runs := LastGroup(tok, size, open);
      assert open + pieces == open;
    } else {
      var p, rest := pieces[0], pieces[1..];
      assert p in pieces && forall r <- rest :: r in pieces;
      ConcatSnoc(open, p);
      ConcatSnoc([], p);
      assert [] + [p] == [p] && Concat([p]) == "" + p == p;
      if open == [] || Fits(tok, Concat(open) + p, size) {
        runs := GreedyIsGrouping(tok, size, open + [p], rest);
        assert open + pieces == open + [p] + rest;
      } else {
        var more := GreedyIsGrouping(tok, size, [p], rest);
        runs := [open] + more;
        assert [p] + rest == pieces;
        GroupingCons(tok, size, open, pieces, more);
      }
    }
  }

  lemma {:induction false} LastGroup(tok: Tokenizer, size: int, open: seq<string>) returns (runs: seq<seq<string>>)
    requires open != [] ==> Concat(open) != ""
    requires |open| >= 2 ==> Fits(tok, Concat(open), size)
    ensures IsGrouping(tok, size, open, runs)
    ensures Texts(runs) == Greedy(tok, size, Concat(open), [])
  {
    if open == [] {
      runs := [];
    } else {
      runs := [open];
      GroupingCons(tok, size, open, [], []);
      assert open + [] == open && [open] + [] == [open];
    }
  }

  /** The answer is such a grouping, so it is one with the fewest chunks. */
  lemma {:induction false} ChunksAreGrouping(cfg: Config, level: nat, s: string) returns (runs: seq<seq<string>>)
    requires level < |cfg.levels| && |s| > 1 && !Fits(cfg.tok, s, cfg.size)
    ensures IsGrouping(cfg.tok, cfg.size, Unmerged(cfg, level, s), runs)
    ensures Split(cfg, level, s) == Texts(runs)
  {
    EachFits(cfg, level + 1, PiecesAt(cfg, level, s));
    forall p <- Unmerged(cfg, level, s) ensures p != "" {
      assert GoodSize(cfg, p);
    }
    runs := GreedyIsGrouping(cfg.tok, cfg.size, [], Unmerged(cfg, level, s));
    assert [] + Unmerged(cfg, level, s) == Unmerged(cfg, level, s);
  }

  ghost predicate GoodSize(cfg: Config, chunk: string) {
    chunk != "" && (Fits(cfg.tok, chunk, cfg.size) || |chunk| == 1)
  }

  /** Every chunk is non-empty and fits, unless it is a single character. */
  lemma {:induction false} ChunksFit(cfg: Config, level: nat, s: string)
    ensures forall c <- Split(cfg, level, s) :: GoodSize(cfg, c)
    decreases LevelsLeft(cfg, level), 0, |s|
  {
    if s != "" && |s| > 1 && !Fits(cfg.tok, s, cfg.size) {
      if level >= |cfg.levels| {
        var p := |s| / 2;
        ChunksFit(cfg, level + 1, s[..p]);
        ChunksFit(cfg, level + 1, s[OverlapStart(cfg, s, p)..]);
      } else {
        var parts := SplitEach(cfg, level + 1, PiecesAt(cfg, level, s));
        EachFits(cfg, level + 1, PiecesAt(cfg, level, s));
        GreedySizes(cfg.tok, cfg.size, "", parts);
        forall c <- Greedy(cfg.tok, cfg.size, "", parts) ensures GoodSize(cfg, c) {
          var i :| 0 <= i < |Greedy(cfg.tok, cfg.size, "", parts)| && Greedy(cfg.tok, cfg.size, "", parts)[i] == c;
        }
      }
    }
  }

  lemma {:induction false} EachFits(cfg: Config, level: nat, pieces: seq<string>)
    ensures forall c <- SplitEach(cfg, level, pieces) :: GoodSize(cfg, c)
    decreases LevelsLeft(cfg, level), 1, |pieces|
  {
    if pieces != [] {
      ChunksFit(cfg, level, pieces[0]);
      EachFits(cfg, level, pieces[1..]);
    }
  }
}
