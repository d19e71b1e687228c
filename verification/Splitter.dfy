/** The code of `SimpleSemanticSplitter` (aperag/docparser/chunking.py). */
module Splitter {
  import opened SplitterSpec
  import opened SplitterProofs

  const LEVELED_SEPARATORS: seq<seq<string>> := [
    ["\n\n"],
    ["\n"],
    ["。”", "！”", "？”"],
    [".\"", "!\"", "?\""],
    ["。", "！", "？"],
    [".", "!", "?"],
    ["；", "，", "、"],
    [";", ","],
    ["》", "）", "】", "」", "’", "”"],
    ["“", ">", ")", "]", "}", "'", "\""],
    [" ", "\t"]
  ]

  method CutRightSide(tok: Tokenizer, s: string, size: int) returns (r: string)
    ensures r == CutRight(tok, s, size)
  {
    if |s| == 0 || Fits(tok, s, size) {
      return s;
    }
    if |s| <= 1 {
      return "";
    }
    var left, right := 0, |s|;
    while left < right
      invariant left <= right <= |s|
      invariant Bisect(tok, s, size, left, right) == Bisect(tok, s, size, 0, |s|)
    {
      var mid := (left + right) / 2;
      if Fits(tok, s[mid..], size) {
        right := mid;
      } else {
        left := mid + 1;
      }
    }
    return s[left..];
  }

  method MergeSmallChunks(tok: Tokenizer, chunks: seq<string>, size: int) returns (merged: seq<string>)
    ensures merged == Greedy(tok, size, "", chunks)
  {
    merged := [];
    var current := "";
    for i := 0 to |chunks|
      invariant merged + Greedy(tok, size, current, chunks[i..]) == Greedy(tok, size, "", chunks)
    {
      var chunk := chunks[i];
      assert chunks[i..][1..] == chunks[i + 1..];
      if |current| == 0 {
        current := chunk;
        continue;
      }
      if Fits(tok, current + chunk, size) {
        current := current + chunk;
      } else {
        merged := merged + [current];
        current := chunk;
      }
    }
    if |current| > 0 {
      merged := merged + [current];
    }
  }

  /** Cuts each chunk after each occurrence of one separator. */
  method SplitAtSeparator(chunks: seq<string>, sep: string) returns (newChunks: seq<string>)
    requires sep != ""
    ensures newChunks == KeepSplitEach(chunks, sep)
  {
    newChunks := [];
    for i := 0 to |chunks|
      invariant newChunks + KeepSplitEach(chunks[i..], sep) == KeepSplitEach(chunks, sep)
    {
      var parts := PySplit(chunks[i], sep);
      GlueIsKeepSplit(chunks[i], sep);
      assert chunks[i..][1..] == chunks[i + 1..];
      GlueShape(parts, sep);
      newChunks := newChunks + seq(|parts| - 1, j requires 0 <= j < |parts| - 1 => parts[j] + sep);
      newChunks := newChunks + [parts[|parts| - 1]];
    }
  }

  /** Cuts the text after each separator of a level. */
  method SplitAtLevel(cfg: Config, level: nat, s: string) returns (chunks: seq<string>)
    requires level < |cfg.levels|
    ensures chunks == PiecesAt(cfg, level, s)
  {
    chunks := [s];
    var seps := cfg.levels[level];
    for i := 0 to |seps|
      invariant KeepSplitBy(chunks, seps[i..]) == PiecesAt(cfg, level, s)
    {
      chunks := SplitAtSeparator(chunks, seps[i]);
      assert seps[i..][1..] == seps[i + 1..];
    }
  }

  method RecursiveSplit(cfg: Config, s: string, level: nat) returns (chunks: seq<string>)
    ensures chunks == Split(cfg, level, s)
    decreases LevelsLeft(cfg, level), |s|
  {
    if |s| == 0 {
      return [];
    }
    if |s| <= 1 || Fits(cfg.tok, s, cfg.size) {
      return [s];
    }
    if level >= |cfg.levels| {
      var p := |s| / 2;
      var left := RecursiveSplit(cfg, s[..p], level + 1);
      var overlap := "";
      if cfg.overlap > 0 {
        var mid := p / 2;
        if mid > 0 {
          overlap := CutRightSide(cfg.tok, s[..p][mid..], cfg.overlap);
        }
      }
      OverlapThenRight(cfg, s, p, overlap);
      var right := RecursiveSplit(cfg, overlap + s[p..], level + 1);
      return left + right;
    }

    chunks := SplitAtLevel(cfg, level, s);
    var newChunks := [];
    for i := 0 to |chunks|
      invariant newChunks + SplitEach(cfg, level + 1, chunks[i..]) == SplitEach(cfg, level + 1, chunks)
    {
      var parts := RecursiveSplit(cfg, chunks[i], level + 1);
      assert chunks[i..][1..] == chunks[i + 1..];
      newChunks := newChunks + parts;
    }
    assert newChunks == SplitEach(cfg, level + 1, PiecesAt(cfg, level, s));
    chunks := MergeSmallChunks(cfg.tok, newChunks, cfg.size);
  }

  /** The text the right half starts with is the overlap followed by the rest. */
  lemma {:induction false} OverlapThenRight(cfg: Config, s: string, p: nat, overlap: string)
    requires 0 < p <= |s|
    requires overlap == if cfg.overlap > 0 && p / 2 > 0 then CutRight(cfg.tok, s[..p][p / 2..], cfg.overlap) else ""
    ensures overlap + s[p..] == s[OverlapStart(cfg, s, p)..]
  {
    var q := OverlapStart(cfg, s, p);
    if cfg.overlap > 0 && p / 2 > 0 {
      var t := s[..p][p / 2..];
      assert overlap == t[|t| - |overlap|..] == s[q..p];
    }
  }

  /** The answer is merged as far as it goes. */
  lemma {:induction false} Merged(cfg: Config, s: string)
    requires |cfg.levels| > 0
    ensures var chunks := Split(cfg, 0, s);
      SubstringMonotone(cfg.tok) ==>
        && (forall i | 0 <= i < |chunks| - 1 :: !Fits(cfg.tok, chunks[i] + chunks[i + 1], cfg.size))
        && (|s| > 1 && !Fits(cfg.tok, s, cfg.size) ==>
              && (exists runs :: IsGrouping(cfg.tok, cfg.size, Unmerged(cfg, 0, s), runs) && Texts(runs) == chunks)
              && forall runs | IsGrouping(cfg.tok, cfg.size, Unmerged(cfg, 0, s), runs) :: |chunks| <= |runs|)
  {
    if SubstringMonotone(cfg.tok) {
      forall i | 0 <= i < |Split(cfg, 0, s)| - 1
        ensures !Fits(cfg.tok, Split(cfg, 0, s)[i] + Split(cfg, 0, s)[i + 1], cfg.size)
      {
        NeighboursDoNotFit(cfg, 0, s, i);
      }
      if |s| > 1 && !Fits(cfg.tok, s, cfg.size) {
        var runs := ChunksAreGrouping(cfg, 0, s);
        forall others | IsGrouping(cfg.tok, cfg.size, Unmerged(cfg, 0, s), others)
          ensures |Split(cfg, 0, s)| <= |others|
        {
          FewestChunks(cfg, 0, s, others);
        }
      }
    }
  }

  /** `split`: chunks of at most `size` tokens that lose no text. */
  method SplitText(tok: Tokenizer, s: string, size: int, overlap: int) returns (chunks: seq<string>)
    ensures chunks == Split(Config(tok, size, overlap, LEVELED_SEPARATORS), 0, s)
    ensures TextKept(Config(tok, size, overlap, LEVELED_SEPARATORS), s, chunks)
    ensures overlap <= 0 ==> Concat(chunks) == s
    ensures forall c <- chunks :: c != "" && (Fits(tok, c, size) || |c| == 1)
    ensures SubstringMonotone(tok) ==> forall i | 0 <= i < |chunks| - 1 :: !Fits(tok, chunks[i] + chunks[i + 1], size)
    ensures SubstringMonotone(tok) && |s| > 1 && !Fits(tok, s, size) ==>
      var pieces := Unmerged(Config(tok, size, overlap, LEVELED_SEPARATORS), 0, s);
      && (exists runs :: IsGrouping(tok, size, pieces, runs) && Texts(runs) == chunks)
      && forall runs | IsGrouping(tok, size, pieces, runs) :: |chunks| <= |runs|
  {
    var cfg := Config(tok, size, overlap, LEVELED_SEPARATORS);
    chunks := RecursiveSplit(cfg, s, 0);
    NoTextLost(cfg, s);
    ChunksFit(cfg, 0, s);
    Merged(cfg, s);
    if overlap <= 0 {
      WithoutOverlapChunksRejoin(cfg, 0, s);
    }
  }
}
