/** Small types and Python string operations shared by the models. */
module Common {
  datatype Option<+T> = None | Some(value: T)

  /** The characters `str.strip` removes: those for which `str.isspace` holds. */
  predicate IsSpace(c: char) {
    var n := c as int;
    || 9 <= n <= 13 || 28 <= n <= 32 || n == 0x85 || n == 0xA0 || n == 0x1680 || 0x2000 <= n <= 0x200A
    || n == 0x2028 || n == 0x2029 || n == 0x202F || n == 0x205F || n == 0x3000
  }

  function StripLeft(s: string): string {
    if s != "" && IsSpace(s[0]) then StripLeft(s[1..]) else s
  }

  function StripRight(s: string): string {
    if s != "" && IsSpace(s[|s| - 1]) then StripRight(s[..|s| - 1]) else s
  }

  /** Python's `s.strip()`. */
  function Strip(s: string): string {
    StripRight(StripLeft(s))
  }

  lemma {:induction false} LeftTrims(s: string) returns (a: nat)
    ensures a <= |s| && StripLeft(s) == s[a..]
    ensures (forall i | 0 <= i < a :: IsSpace(s[i])) && (a < |s| ==> !IsSpace(s[a]))
  {
    if s != "" && IsSpace(s[0]) {
      a := LeftTrims(s[1..]);
      a := a + 1;
      assert forall i | 0 < i < a :: s[i] == s[1..][i - 1];
    } else {
      a := 0;
    }
  }

  lemma {:induction false} RightTrims(s: string) returns (b: nat)
    ensures b <= |s| && StripRight(s) == s[..b]
    ensures (forall i | b <= i < |s| :: IsSpace(s[i])) && (b > 0 ==> !IsSpace(s[b - 1]))
    decreases |s|
  {
    if s != "" && IsSpace(s[|s| - 1]) {
      b := RightTrims(s[..|s| - 1]);
    } else {
      b := |s|;
    }
  }

  /** `t` is what is left of `s` without the spaces at its ends. */
  ghost predicate TrimmedTo(s: string, t: string) {
    exists a: nat, b: nat | a <= b <= |s| :: Trims(s, t, a, b)
  }

  predicate Trims(s: string, t: string, a: nat, b: nat)
    requires a <= b <= |s|
  {
    && t == s[a..b]
    && (forall i | 0 <= i < a :: IsSpace(s[i])) && (forall i | b <= i < |s| :: IsSpace(s[i]))
    && (a < b ==> !IsSpace(s[a]) && !IsSpace(s[b - 1]))
  }

  /** Stripping takes off the spaces at both ends, and nothing else. */
  lemma {:induction false} StripTrims(s: string)
    ensures TrimmedTo(s, Strip(s))
  {
    var a := LeftTrims(s);
    var b := RightTrims(s[a..]);
    assert s[a..][..b] == s[a..a + b];
    assert forall i | a + b <= i < |s| :: s[i] == s[a..][i - a];
    assert Trims(s, Strip(s), a, a + b);
  }

  // ------------------------------------------------------------------
  // Sequences
  // ------------------------------------------------------------------

  lemma {:induction false} SuffixOfSuffix<T>(s: seq<T>, i: nat, j: nat)
    requires i <= j <= |s|
    ensures s[i..][j - i..] == s[j..]
  {
  }

  lemma {:induction false} PrefixGrows<T>(s: seq<T>, i: nat)
    requires i < |s|
    ensures s[..i + 1] == s[..i] + [s[i]] && s[..i + 1][..i] == s[..i]
  {
  }

  lemma {:induction false} Associate<T>(x: seq<T>, y: seq<T>, z: seq<T>)
    ensures x + (y + z) == x + y + z
  {
  }

  lemma {:induction false} PrefixPlusSlice<T>(s: seq<T>, i: nat, j: nat)
    requires i <= j <= |s|
    ensures s[..i] + s[i..j] == s[..j]
  {
  }
}
