/** What the markdown handlers do to the lines and the fences of a part. */
module MarkdownText {
  import opened Common
  import opened MarkdownSpec
  import opened SplitterSpec

  lemma {:induction false} ContainsIff(s: string, sub: string)
    requires sub != ""
    ensures Contains(s, sub) <==> exists j: nat :: OccursAt(s, sub, j)
  {
    FindHits(s, sub, 0);
  }

  // ------------------------------------------------------------------
  // Lines
  // ------------------------------------------------------------------

  predicate SingleLines(lines: seq<string>) {
    lines == [] || ('\n' !in lines[0] && SingleLines(lines[1..]))
  }

  lemma {:induction false} NewlineInLine(line: string, rest: string, j: nat)
    requires OccursAt(line + rest, "\n", j) && j < |line|
    ensures '\n' in line
  {
    assert (line + rest)[j..j + 1] == [line[j]];
    assert line[j] in line;
  }

  lemma {:induction false} FirstNewline(line: string, rest: string)
    requires '\n' !in line
    ensures Find(line, "\n", 0) < 0
    ensures Find(line + "\n" + rest, "\n", 0) == |line|
  {
    var s := line + "\n" + rest;
    assert line + "" == line && line + ("\n" + rest) == s;
    forall j: nat
      ensures !OccursAt(line, "\n", j) && (j < |line| ==> !OccursAt(s, "\n", j))
    {
      if OccursAt(line, "\n", j) {
        NewlineInLine(line, "", j);
      }
      if j < |line| && OccursAt(s, "\n", j) {
        NewlineInLine(line, "\n" + rest, j);
      }
    }
    FindHits(line, "\n", 0);
    FindHits(s, "\n", 0);
    assert s[|line|..|line| + 1] == "\n";
    assert OccursAt(s, "\n", |line|);
  }

  /** Splitting takes apart what joining put together. */
  lemma {:induction false} SplitOfJoined(lines: seq<string>)
    requires lines != [] && SingleLines(lines)
    ensures PySplit(JoinWith("\n", lines), "\n") == lines
    decreases |lines|
  {
    FirstNewline(lines[0], JoinWith("\n", lines[1..]));
    if |lines| > 1 {
      var rest := JoinWith("\n", lines[1..]);
      var s := lines[0] + "\n" + rest;
      SplitOfJoined(lines[1..]);
      assert s[..|lines[0]|] == lines[0] && s[|lines[0]| + 1..] == rest;
    }
  }

  lemma {:induction false} SplitIsSingleLines(s: string)
    ensures SingleLines(PySplit(s, "\n"))
    decreases |s|
  {
    var i := Find(s, "\n", 0);
    FindHits(s, "\n", 0);
    forall j: nat | j < (if i < 0 then |s| else i)
      ensures s[j] != '\n'
    {
      assert !OccursAt(s, "\n", j);
      assert s[j..j + 1] == [s[j]];
    }
    if i >= 0 {
      SplitIsSingleLines(s[i + 1..]);
    }
  }

  lemma {:induction false} PrefixedAreSingleLines(prefix: string, lines: seq<string>)
    requires '\n' !in prefix && SingleLines(lines)
    ensures SingleLines(PrefixAll(prefix, lines))
  {
    if lines != [] {
      PrefixedAreSingleLines(prefix, lines[1..]);
    }
  }

  /** Quoting and indenting put the prefix before every line and change nothing else. */
  lemma {:induction false} EveryLinePrefixed(prefix: string, content: string)
    requires '\n' !in prefix
    ensures PySplit(PrefixLines(prefix, content), "\n") == PrefixAll(prefix, PySplit(content, "\n"))
  {
    SplitIsSingleLines(content);
    PrefixedAreSingleLines(prefix, PySplit(content, "\n"));
    SplitOfJoined(PrefixAll(prefix, PySplit(content, "\n")));
  }

  lemma {:induction false} RepeatKeepsOut(s: string, n: nat, c: char)
    requires c !in s
    ensures c !in Repeat(s, n)
  {
    if n > 0 {
      RepeatKeepsOut(s, n - 1, c);
    }
  }

  /** The marker goes before the first line of an item and as many spaces before the others. */
  lemma {:induction false} MarkerOnFirstLineOnly(marker: string, content: string)
    requires '\n' !in marker
    ensures var lines := PySplit(content, "\n");
            PySplit(MarkLines(marker, content), "\n")
            == [marker + lines[0]] + PrefixAll(Repeat(" ", |marker|), lines[1..])
  {
    var lines, spaces := PySplit(content, "\n"), Repeat(" ", |marker|);
    SplitIsSingleLines(content);
    RepeatKeepsOut(" ", |marker|, '\n');
    PrefixedAreSingleLines(spaces, lines[1..]);
    var marked := [marker + lines[0]] + PrefixAll(spaces, lines[1..]);
    assert marked[1..] == PrefixAll(spaces, lines[1..]);
    SplitOfJoined(marked);
  }

  // ------------------------------------------------------------------
  // Code fences
  // ------------------------------------------------------------------

  lemma {:induction false} ContainsPart(s: string, a: string, b: string)
    requires a != "" && Contains(s, a + b)
    ensures Contains(s, a)
  {
    ContainsIff(s, a + b);
    ContainsIff(s, a);
    var j: nat :| OccursAt(s, a + b, j);
    assert s[j..j + |a|] == s[j..j + |a + b|][..|a|] == a;
    assert OccursAt(s, a, j);
  }

  lemma {:induction false} FenceGrows(code: string, fence: string, left: nat)
    requires fence != ""
    ensures fence <= Backticks(code, fence, left)
    ensures Contains(code, Backticks(code, fence, left)) <==> Contains(code, fence + Repeat("`", left))
    decreases left
  {
    if left == 0 {
      assert fence + Repeat("`", 0) == fence;
    } else if Contains(code, fence) {
      FenceGrows(code, fence + "`", left - 1);
      Associate(fence, "`", Repeat("`", left - 1));
    } else {
      FenceStays(code, fence, Repeat("`", left));
    }
  }

  lemma {:induction false} FenceStays(code: string, fence: string, more: string)
    requires fence != "" && !Contains(code, fence)
    ensures !Contains(code, fence + more)
  {
    if Contains(code, fence + more) {
      ContainsPart(code, fence, more);
    }
  }

  /** The fence put around code occurs inside it if and only if the code has thirteen backticks in
      a row: the loop gives up after ten. */
  lemma {:induction false} FenceIsSafe(code: string)
    ensures var fence := Backticks(code, "```", 10);
            && "```" <= fence
            && (Contains(code, fence) <==> Contains(code, "`````````````"))
  {
    FenceGrows(code, "```", 10);
    TenBackticks();
  }

  lemma {:induction false} TenBackticks()
    ensures "```" + Repeat("`", 10) == "`````````````"
  {
    assert Repeat("`", 10) == "``````````" by {
      assert Repeat("`", 0) == "";
      assert Repeat("`", 5) == "`````";
    }
  }

  // ------------------------------------------------------------------
  // Table cells
  // ------------------------------------------------------------------

  /** Every bar is preceded by a backslash. */
  predicate BarsEscaped(s: string) {
    forall i | 0 <= i < |s| && s[i] == '|' :: i > 0 && s[i - 1] == '\\'
  }

  lemma {:induction false} ReplaceMembers(s: string, c: char, into: string, x: char)
    ensures x in Replace(s, c, into) ==> (x in s && x != c) || x in into
  {
    if s != "" {
      ReplaceMembers(s[1..], c, into, x);
    }
  }

  lemma {:induction false} BarsEscapedConcat(a: string, b: string)
    requires BarsEscaped(a) && BarsEscaped(b)
    ensures BarsEscaped(a + b)
  {
    forall i | 0 <= i < |a + b| && (a + b)[i] == '|'
      ensures i > 0 && (a + b)[i - 1] == '\\'
    {
      if i >= |a| {
        assert b[i - |a|] == '|';
      }
    }
  }

  lemma {:induction false} BarsGetEscaped(s: string)
    ensures BarsEscaped(Replace(s, '|', "\\|"))
  {
    if s != "" {
      BarsGetEscaped(s[1..]);
      BarsEscapedConcat(if s[0] == '|' then "\\|" else [s[0]], Replace(s[1..], '|', "\\|"));
    }
  }

  /** Replacing a character that is neither a bar nor a backslash, by a text that has none and does
      not vanish before a bar, keeps bars escaped. */
  lemma {:induction false} ReplaceKeepsEscaped(s: string, c: char, into: string)
    requires BarsEscaped(s) && c != '|' && c != '\\' && '|' !in into
    ensures BarsEscaped(Replace(s, c, into))
    decreases |s|
  {
    if s != "" {
      if s[0] == '\\' && |s| > 1 && s[1] == '|' {
        ReplacePair(s, c, into);
        TailEscaped(s, 2);
        ReplaceKeepsEscaped(s[2..], c, into);
        BarsEscapedConcat("\\|", Replace(s[2..], c, into));
      } else {
        TailEscaped(s, 1);
        ReplaceKeepsEscaped(s[1..], c, into);
        BarsEscapedConcat(if s[0] == c then into else [s[0]], Replace(s[1..], c, into));
      }
    }
  }

  lemma {:induction false} ReplacePair(s: string, c: char, into: string)
    requires |s| > 1 && s[0] == '\\' && s[1] == '|' && c != '|' && c != '\\'
    ensures Replace(s, c, into) == "\\|" + Replace(s[2..], c, into)
  {
    assert s[1..][1..] == s[2..];
  }

  lemma {:induction false} TailEscaped(s: string, n: nat)
    requires BarsEscaped(s) && n <= |s| && (n < |s| ==> s[n] != '|')
    ensures BarsEscaped(s[n..])
  {
    forall i | 0 <= i < |s[n..]| && s[n..][i] == '|'
      ensures i > 0 && s[n..][i - 1] == '\\'
    {
      assert s[n + i] == '|';
    }
  }

  /** A cell stays in its row and column: no line break is left in it, and every bar is escaped. */
  lemma {:induction false} CellStaysInPlace(text: string)
    ensures '\n' !in EscapeCell(text) && '\r' !in EscapeCell(text) && BarsEscaped(EscapeCell(text))
  {
    var bars := Replace(text, '|', "\\|");
    var returns0 := Replace(bars, '\r', "");
    BarsGetEscaped(text);
    ReplaceKeepsEscaped(bars, '\r', "");
    ReplaceKeepsEscaped(returns0, '\n', "<br>");
    ReplaceMembers(returns0, '\n', "<br>", '\n');
    ReplaceMembers(returns0, '\n', "<br>", '\r');
    ReplaceMembers(bars, '\r', "", '\r');
  }
}
