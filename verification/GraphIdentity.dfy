/** aperag/mirofish_graph/graph_identity.py: names that normalize to the same text are one. */
module GraphIdentity {
  import opened Common

  /** `norm` is `normalize_name`, `cjk` is `contains_cjk`; `fold` is what the key digest does to an
      entity type (`normalize_text`). */
  datatype Naming = Naming(norm: string -> string, cjk: string -> bool, fold: string -> string)

  // ------------------------------------------------------------------
  // Specification
  // ------------------------------------------------------------------

  /** What decides whether a value is kept: its normalized form, or "" when there is nothing to keep. */
  function Canonical(norm: string -> string, value: string): string {
    var text := Strip(value);
    if text == "" then "" else norm(text)
  }

  /** The values in order, stripped, without those that say nothing or that were seen. */
  function Unique(norm: string -> string, values: seq<string>, seen: set<string>): seq<string> {
    if values == [] then []
    else
      var n := Canonical(norm, values[0]);
      if n == "" || n in seen then Unique(norm, values[1..], seen)
      else [Strip(values[0])] + Unique(norm, values[1..], seen + {n})
  }

  function Norms(norm: string -> string, names: seq<string>): (r: seq<string>)
    ensures |r| == |names| && forall i | 0 <= i < |r| :: r[i] == norm(names[i])
  {
    if names == [] then [] else [norm(names[0])] + Norms(norm, names[1..])
  }

  /** `collect_entity_aliases` when the further values are plain strings. */
  function Collect(norm: string -> string, name: string, more: seq<string>): seq<string> {
    Unique(norm, [name] + more, {})
  }

  function FirstCjk(cjk: string -> bool, values: seq<string>): Option<string> {
    if values == [] then None else if cjk(values[0]) then Some(values[0]) else FirstCjk(cjk, values[1..])
  }

  /** `choose_preferred_name`. */
  function Preferred(naming: Naming, candidates: seq<string>): string {
    var values := Unique(naming.norm, candidates, {});
    var first := FirstCjk(naming.cjk, values);
    if values == [] then "" else if first.Some? then first.value else values[0]
  }

  // ------------------------------------------------------------------
  // Properties
  // ------------------------------------------------------------------

  lemma {:induction false} StripIdempotent(s: string)
    ensures Strip(Strip(s)) == Strip(s)
  {
    RightSettled(StripLeft(s));
    LeftSettled(s);
    RightKeepsFirst(StripLeft(s));
  }

  lemma {:induction false} LeftSettled(s: string)
    ensures StripLeft(s) == "" || !IsSpace(StripLeft(s)[0])
  {
    if s != "" && IsSpace(s[0]) {
      LeftSettled(s[1..]);
    }
  }

  lemma {:induction false} RightSettled(s: string)
    ensures StripRight(s) == "" || !IsSpace(StripRight(s)[|StripRight(s)| - 1])
  {
    if s != "" && IsSpace(s[|s| - 1]) {
      RightSettled(s[..|s| - 1]);
    }
  }

  lemma {:induction false} RightKeepsFirst(s: string)
    ensures StripRight(s) != "" ==> s != "" && StripRight(s)[0] == s[0]
  {
    if s != "" && IsSpace(s[|s| - 1]) {
      RightKeepsFirst(s[..|s| - 1]);
    }
  }

  predicate Trimmed(name: string) {
    Strip(name) == name && name != ""
  }

  /** The names kept are trimmed, and their normalized forms are not empty and all different. */
  lemma {:induction false} UniqueIsUnique(norm: string -> string, values: seq<string>, seen: set<string>)
    ensures var names := Unique(norm, values, seen);
            && (forall x <- names :: Trimmed(x) && norm(x) != "" && norm(x) !in seen)
            && (forall i, j | 0 <= i < j < |names| :: norm(names[i]) != norm(names[j]))
  {
    if values != [] {
      var n := Canonical(norm, values[0]);
      StripIdempotent(values[0]);
      if n == "" || n in seen {
        UniqueIsUnique(norm, values[1..], seen);
      } else {
        UniqueIsUnique(norm, values[1..], seen + {n});
      }
    }
  }

  /** Exactly the non-empty normalized forms of the values are represented. */
  lemma {:induction false} UniqueIsExact(norm: string -> string, values: seq<string>, seen: set<string>, n: string)
    ensures n in Norms(norm, Unique(norm, values, seen))
       <==> n != "" && n !in seen && Among(norm, values, n)
  {
    if values != [] {
      var first := Canonical(norm, values[0]);
      if first == "" || first in seen {
        UniqueIsExact(norm, values[1..], seen, n);
      } else {
        UniqueIsExact(norm, values[1..], seen + {first}, n);
        var rest := Unique(norm, values[1..], seen + {first});
        assert Norms(norm, [Strip(values[0])] + rest) == [first] + Norms(norm, rest);
      }
    }
  }

  predicate Among(norm: string -> string, values: seq<string>, n: string) {
    values != [] && (Canonical(norm, values[0]) == n || Among(norm, values[1..], n))
  }

  lemma {:induction false} AmongConcat(norm: string -> string, a: seq<string>, b: seq<string>, n: string)
    ensures Among(norm, a + b, n) <==> Among(norm, a, n) || Among(norm, b, n)
  {
    if a == [] {
      assert a + b == b;
    } else {
      assert (a + b)[1..] == a[1..] + b;
      AmongConcat(norm, a[1..], b, n);
    }
  }

  /** A name kept once is kept again: what was kept represents the same forms. */
  lemma {:induction false} AmongKept(norm: string -> string, names: seq<string>, n: string)
    requires forall x <- names :: Trimmed(x)
    ensures Among(norm, names, n) <==> n in Norms(norm, names)
  {
    if names != [] {
      assert Trimmed(names[0]);
      AmongKept(norm, names[1..], n);
    }
  }

  lemma {:induction false} FirstCjkIsFirst(cjk: string -> bool, values: seq<string>)
    ensures match FirstCjk(cjk, values)
            case None => forall v <- values :: !cjk(v)
            case Some(v) => exists k :: 0 <= k < |values| && values[k] == v && cjk(v) && forall j | 0 <= j < k :: !cjk(values[j])
  {
    if values != [] && !cjk(values[0]) {
      FirstCjkIsFirst(cjk, values[1..]);
      if FirstCjk(cjk, values).Some? {
        var v := FirstCjk(cjk, values).value;
        var k :| 0 <= k < |values[1..]| && values[1..][k] == v && cjk(v) && forall j | 0 <= j < k :: !cjk(values[1..][j]);
        assert values[k + 1] == v;
        assert forall j | 0 < j < k + 1 :: values[j] == values[1..][j - 1];
      }
    }
  }

  /** The chosen name is the first kept candidate that is CJK, or the first kept one if none is, or
      empty if none is kept. */
  ghost predicate Chosen(naming: Naming, kept: seq<string>, name: string) {
    if kept == [] then name == ""
    else if exists v <- kept :: naming.cjk(v) then FirstOfKind(naming, kept, name)
    else name == kept[0]
  }

  ghost predicate FirstOfKind(naming: Naming, kept: seq<string>, name: string) {
    exists k | 0 <= k < |kept| ::
      kept[k] == name && naming.cjk(name) && forall j | 0 <= j < k :: !naming.cjk(kept[j])
  }

  lemma {:induction false} PreferredIsChosen(naming: Naming, candidates: seq<string>)
    ensures Chosen(naming, Unique(naming.norm, candidates, {}), Preferred(naming, candidates))
  {
    FirstCjkIsFirst(naming.cjk, Unique(naming.norm, candidates, {}));
  }

  // ------------------------------------------------------------------
  // Code
  // ------------------------------------------------------------------

  method UniqueNames(norm: string -> string, values: seq<string>) returns (deduped: seq<string>)
    ensures deduped == Unique(norm, values, {})
  {
    deduped := [];
    var seen: set<string> := {};
    for i := 0 to |values|
      invariant deduped + Unique(norm, values[i..], seen) == Unique(norm, values, {})
    {
      assert values[i..][1..] == values[i + 1..];
      var text := Strip(values[i]);
      if text == "" {
        continue;
      }
      var normalized := norm(text);
      if normalized == "" || normalized in seen {
        continue;
      }
      seen := seen + {normalized};
      assert deduped + ([text] + Unique(norm, values[i + 1..], seen)) == deduped + [text] + Unique(norm, values[i + 1..], seen);
      deduped := deduped + [text];
    }
  }

  method ChoosePreferredName(naming: Naming, candidates: seq<string>) returns (name: string)
    ensures name == Preferred(naming, candidates)
  {
    var values := UniqueNames(naming.norm, candidates);
    if values == [] {
      return "";
    }
    for i := 0 to |values|
      invariant FirstCjk(naming.cjk, values[i..]) == FirstCjk(naming.cjk, values)
    {
      assert values[i..][1..] == values[i + 1..];
      if naming.cjk(values[i]) {
        return values[i];
      }
    }
    return values[0];
  }
}
