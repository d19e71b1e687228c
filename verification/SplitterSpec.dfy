/** Specification of the recursive semantic text splitter, `SimpleSemanticSplitter` of
    aperag/docparser/chunking.py. Module Splitter holds the code itself, module SplitterProofs
    says what these functions mean. */
module SplitterSpec {

  /** The number of tokens of a text. The tokenizer itself is arbitrary. */
  type Tokenizer = string -> nat

  predicate Usable(seps: seq<string>) {
    forall i | 0 <= i < |seps| :: seps[i] != ""
  }

  /** Separators by level; a Python split needs a separator that is not empty. */
  type Levels = levels: seq<seq<string>> | forall i | 0 <= i < |levels| :: Usable(levels[i]) witness []

  /** What one run of the splitter is given. */
  datatype Config = Config(tok: Tokenizer, size: int, overlap: int, levels: Levels)

  predicate Fits(tok: Tokenizer, s: string, size: int) {
    tok(s) <= size
  }

  function Concat(pieces: seq<string>): string {
    if pieces == [] then "" else pieces[0] + Concat(pieces[1..])
  }

  lemma {:induction false} ConcatAppend(a: seq<string>, b: seq<string>)
    ensures Concat(a + b) == Concat(a) + Concat(b)
  {
    if a == [] {
      assert a + b == b;
    } else {
      assert (a + b)[1..] == a[1..] + b;
      ConcatAppend(a[1..], b);
    }
  }

  // ------------------------------------------------------------------
  // Splitting at separators
  // ------------------------------------------------------------------

  /** The index of the first occurrence of `sub` in `s` at or after `from`, or -1. */
  function Find(s: string, sub: string, from: nat): (r: int)
    requires sub != "" && from <= |s|
    ensures -1 <= r && (r >= 0 ==> from <= r <= |s| - |sub|)
    decreases |s| - from
  {
    if from + |sub| > |s| then -1
    else if s[from..from + |sub|] == sub then from
    else Find(s, sub, from + 1)
  }

  /** Python's `s.split(sep)`. */
  function PySplit(s: string, sep: string): (parts: seq<string>)
    requires sep != ""
    ensures parts != []
    decreases |s|
  {
    var i := Find(s, sep, 0);
    if i < 0 then [s] else [s[..i]] + PySplit(s[i + |sep|..], sep)
  }

  /** Cuts `s` just after each separator. */
  function KeepSplit(s: string, sep: string): (pieces: seq<string>)
    requires sep != ""
    decreases |s|
  {
    var i := Find(s, sep, 0);
    if i < 0 then [s] else [s[..i + |sep|]] + KeepSplit(s[i + |sep|..], sep)
  }

  /** Gives each part but the last its separator back. */
  function GlueSeparator(parts: seq<string>, sep: string): seq<string>
    requires parts != []
  {
    if |parts| == 1 then parts else [parts[0] + sep] + GlueSeparator(parts[1..], sep)
  }

  lemma {:induction false} GlueShape(parts: seq<string>, sep: string)
    requires parts != []
    ensures GlueSeparator(parts, sep)
         == seq(|parts| - 1, i requires 0 <= i < |parts| - 1 => parts[i] + sep) + [parts[|parts| - 1]]
  {
    if |parts| > 1 {
      GlueShape(parts[1..], sep);
    }
  }

  lemma {:induction false} GlueIsKeepSplit(s: string, sep: string)
    requires sep != ""
    ensures GlueSeparator(PySplit(s, sep), sep) == KeepSplit(s, sep)
    decreases |s|
  {
    var i := Find(s, sep, 0);
    if i >= 0 {
      FindHits(s, sep, 0);
      assert s[..i] + sep == s[..i + |sep|];
      GlueIsKeepSplit(s[i + |sep|..], sep);
    }
  }

  function KeepSplitEach(chunks: seq<string>, sep: string): seq<string>
    requires sep != ""
  {
    if chunks == [] then [] else KeepSplit(chunks[0], sep) + KeepSplitEach(chunks[1..], sep)
  }

  function KeepSplitBy(chunks: seq<string>, seps: seq<string>): seq<string>
    requires Usable(seps)
    decreases |seps|
  {
    if seps == [] then chunks else KeepSplitBy(KeepSplitEach(chunks, seps[0]), seps[1..])
  }

  // ------------------------------------------------------------------
  // The overlap cutter and the greedy merger
  // ------------------------------------------------------------------

  function Bisect(tok: Tokenizer, s: string, size: int, left: nat, right: nat): (k: nat)
    requires left <= right <= |s|
    ensures left <= k <= right
    decreases right - left
  {
    if left == right then left
    else
      var mid := (left + right) / 2;
      if Fits(tok, s[mid..], size) then Bisect(tok, s, size, left, mid)
      else Bisect(tok, s, size, mid + 1, right)
  }

  function CutRight(tok: Tokenizer, s: string, size: int): (r: string)
    ensures |r| <= |s| && r == s[|s| - |r|..]
  {
    if s == "" || Fits(tok, s, size) then s
    else if |s| <= 1 then ""
    else s[Bisect(tok, s, size, 0, |s|)..]
  }

  /** Greedy merging of `pieces` into an open chunk `current`. */
  function Greedy(tok: Tokenizer, size: int, current: string, pieces: seq<string>): seq<string>
    decreases |pieces|
  {
    if pieces == [] then (if current == "" then [] else [current])
    else if current == "" then Greedy(tok, size, pieces[0], pieces[1..])
    else if Fits(tok, current + pieces[0], size) then Greedy(tok, size, current + pieces[0], pieces[1..])
    else [current] + Greedy(tok, size, pieces[0], pieces[1..])
  }

  // ------------------------------------------------------------------
  // The recursive splitter
  // ------------------------------------------------------------------

  function LevelsLeft(cfg: Config, level: nat): nat {
    if level < |cfg.levels| then |cfg.levels| - level else 0
  }

  function PiecesAt(cfg: Config, level: nat, s: string): seq<string>
    requires level < |cfg.levels|
  {
    KeepSplitBy([s], cfg.levels[level])
  }

  /** Where the right half starts when `s` is halved at `p`: the overlap is `s[q..p]`. */
  function OverlapStart(cfg: Config, s: string, p: nat): (q: nat)
    requires 0 < p <= |s|
    ensures 0 < q <= p
  {
    if cfg.overlap > 0 && p / 2 > 0 then p - |CutRight(cfg.tok, s[..p][p / 2..], cfg.overlap)| else p
  }

  function Split(cfg: Config, level: nat, s: string): seq<string>
    decreases LevelsLeft(cfg, level), 0, |s|
  {
    if s == "" then []
    else if |s| <= 1 || Fits(cfg.tok, s, cfg.size) then [s]
    else if level >= |cfg.levels| then
      var p := |s| / 2;
      Split(cfg, level + 1, s[..p]) + Split(cfg, level + 1, s[OverlapStart(cfg, s, p)..])
    else
      Greedy(cfg.tok, cfg.size, "", SplitEach(cfg, level + 1, PiecesAt(cfg, level, s)))
  }

  function SplitEach(cfg: Config, level: nat, pieces: seq<string>): seq<string>
    decreases LevelsLeft(cfg, level), 1, |pieces|
  {
    if pieces == [] then [] else Split(cfg, level, pieces[0]) + SplitEach(cfg, level, pieces[1..])
  }

  predicate OccursAt(s: string, sub: string, j: nat) {
    j + |sub| <= |s| && s[j..j + |sub|] == sub
  }

  lemma {:induction false} FindHits(s: string, sub: string, from: nat)
    requires sub != "" && from <= |s|
    ensures var i := Find(s, sub, from);
      if i < 0 then forall j | from <= j :: !OccursAt(s, sub, j)
      else OccursAt(s, sub, i) && forall j | from <= j < i :: !OccursAt(s, sub, j)
    decreases |s| - from
  {
    if from + |sub| <= |s| && s[from..from + |sub|] != sub {
      FindHits(s, sub, from + 1);
    }
  }
}
