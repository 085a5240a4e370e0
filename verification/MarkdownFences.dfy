/** Code fences in Markdown text as `MarkdownStreamState` in
    `repo-agent/backend/app/streaming/response_batcher.py` reads them, and what becomes of
    them when a text is cut in two. */
module MarkdownFences {
  import opened Texts

  /** Where the line going on at `i` stops being blank. */
  function Indent(text: string, i: nat): (n: nat)
    requires i <= |text|
    ensures i <= n <= |text|
    decreases |text| - i
  {
    if i < |text| && IsSpace(text[i]) && text[i] != '\n' then Indent(text, i + 1) else i
  }

  /** The line that begins at `i` is a fence: three backticks after its blanks. */
  predicate FenceAt(text: string, i: nat)
    requires i <= |text|
  {
    var j := Indent(text, i);
    j + 3 <= |text| && text[j] == '`' && text[j + 1] == '`' && text[j + 2] == '`'
  }

  function Mark(text: string, i: nat): nat
    requires i <= |text|
  {
    if FenceAt(text, i) then 1 else 0
  }

  /** Fence lines from the line that begins at `i` on. */
  function FencesFrom(text: string, i: nat): nat
    requires i <= |text|
    decreases |text| - i
  {
    if i == |text| then 0 else Mark(text, i) + FencesFrom(text, LineEnd(text, i))
  }

  function Fences(text: string): nat {
    FencesFrom(text, 0)
  }

  predicate Odd(n: nat) {
    n % 2 == 1
  }

  const ClosingFence := "\n```\n"

  class MarkdownStreamState {
    var insideCodeFence: bool

    constructor ()
      ensures !insideCodeFence
    {
      insideCodeFence := false;
    }

    method Observe(text: string)
      modifies this
      ensures insideCodeFence == (old(insideCodeFence) != Odd(Fences(text)))
    {
      var lines := SplitLines(text);
      ghost var p: nat := 0;
      for i := 0 to |lines|
        invariant p <= |text| && SplitFrom(text, p) == SplitKeep(text)[i..]
        invariant insideCodeFence == (old(insideCodeFence) != (Odd(Fences(text)) != Odd(FencesFrom(text, p))))
      {
        NextLine(text, p, i);
        p := LineEnd(text, p);
        if FenceAt(lines[i], 0) {
          insideCodeFence := !insideCodeFence;
        }
      }
    }

    method ClosingIfNeeded() returns (closing: string)
      ensures closing == if insideCodeFence then ClosingFence else ""
    {
      closing := if insideCodeFence then "\n```\n" else "";
    }
  }

  lemma {:induction false} NextLine(text: string, p: nat, i: nat)
    requires p <= |text| && i < |SplitKeep(text)| && SplitFrom(text, p) == SplitKeep(text)[i..]
    ensures p < |text| && SplitFrom(text, LineEnd(text, p)) == SplitKeep(text)[i + 1..]
    ensures FenceAt(SplitLines(text)[i], 0) == FenceAt(text, p)
    ensures FencesFrom(text, p) == Mark(text, p) + FencesFrom(text, LineEnd(text, p))
  {
    var kept := SplitKeep(text);
    assert kept[i..][0] == kept[i] && kept[i..][1..] == kept[i + 1..];
    ChompedFence(text, p);
  }

  lemma {:induction false} IndentSlice(text: string, p: nat, e: nat, i: nat)
    requires p <= i <= e <= |text| && (e == |text| || text[e] == '\n')
    ensures Indent(text, i) == p + Indent(text[p..e], i - p)
    decreases e - i
  {
    if i < e {
      assert text[p..e][i - p] == text[i];
      IndentSlice(text, p, e, i + 1);
    }
  }

  /** A line taken out of its text, without its newline, is a fence just when it was one there. */
  lemma {:induction false} ChompedFence(text: string, p: nat)
    requires p < |text|
    ensures FenceAt(Chomp(text[p..LineEnd(text, p)]), 0) == FenceAt(text, p)
  {
    var k := LineEnd(text, p);
    var e := if text[k - 1] == '\n' then k - 1 else k;
    var line := text[p..e];
    assert Chomp(text[p..k]) == line;
    IndentSlice(text, p, e, p);
    assert forall n :: 0 <= n < |line| ==> line[n] == text[p + n];
  }

  // ---- fences across a boundary --------------------------------------------

  /** Where the line a text leaves open begins, or the end of a text that leaves none. */
  function OpenStart(text: string, i: nat): (s: nat)
    requires i <= |text|
    ensures i <= s <= |text|
    decreases |text| - i
  {
    if i == |text| then i
    else if text[LineEnd(text, i) - 1] == '\n' then OpenStart(text, LineEnd(text, i))
    else i
  }

  /** The boundary between two texts cuts a line, and whether its halves are fences does not
      add up, modulo two, to whether the line is. */
  predicate Torn(before: string, after: string) {
    var s := OpenStart(before, 0);
    Odd(Mark(before, s) + Mark(after, 0) + Mark(before + after, s))
  }

  lemma {:induction false} IndentShift(a: string, text: string, i: nat)
    requires i <= |text|
    ensures Indent(a + text, |a| + i) == |a| + Indent(text, i)
    decreases |text| - i
  {
    if i < |text| && IsSpace(text[i]) && text[i] != '\n' {
      IndentShift(a, text, i + 1);
    }
  }

  lemma MarkShift(a: string, text: string, i: nat)
    requires i <= |text|
    ensures Mark(a + text, |a| + i) == Mark(text, i)
  {
    IndentShift(a, text, i);
  }

  lemma {:induction false} FencesShift(a: string, text: string, i: nat)
    requires i <= |text|
    ensures FencesFrom(a + text, |a| + i) == FencesFrom(text, i)
    decreases |text| - i
  {
    if i < |text| {
      MarkShift(a, text, i);
      LineEndShift(a, text, i);
      FencesShift(a, text, LineEnd(text, i));
    }
  }

  /** Up to a newline, or to the end of a text followed by one, blanks are the same in the whole. */
  lemma {:induction false} IndentPrefix(before: string, after: string, i: nat, k: nat)
    requires i <= k <= |before| && k < |before + after| && (before + after)[k] == '\n'
    ensures Indent(before + after, i) == Indent(before, i) <= k
    decreases k - i
  {
    if i < k {
      assert (before + after)[i] == before[i];
      IndentPrefix(before, after, i + 1, k);
    } else if k < |before| {
      assert (before + after)[k] == before[k];
    }
  }

  /** So a line that ends there is a fence in the whole just when it is one by itself. */
  lemma MarkPrefix(before: string, after: string, i: nat, k: nat)
    requires i <= k <= |before| && k < |before + after| && (before + after)[k] == '\n'
    ensures Mark(before + after, i) == Mark(before, i)
  {
    IndentPrefix(before, after, i, k);
    var whole := before + after;
    assert forall n :: 0 <= n < |before| ==> whole[n] == before[n];
  }

  lemma {:induction false} LineEndPrefix(before: string, after: string, i: nat)
    requires i < |before| && before[LineEnd(before, i) - 1] == '\n'
    ensures LineEnd(before + after, i) == LineEnd(before, i)
    decreases |before| - i
  {
    assert (before + after)[i] == before[i];
    if before[i] != '\n' && i + 1 < |before| {
      LineEndPrefix(before, after, i + 1);
    }
  }

  /** A line left open goes on to the end of the first line after it. */
  lemma {:induction false} LineEndOpen(before: string, after: string, i: nat)
    requires i < |before| && after != "" && before[LineEnd(before, i) - 1] != '\n'
    ensures LineEnd(before + after, i) == |before| + LineEnd(after, 0)
    decreases |before| - i
  {
    assert (before + after)[i] == before[i];
    if i + 1 < |before| {
      LineEndOpen(before, after, i + 1);
    } else {
      LineEndShift(before, after, 0);
    }
  }

  lemma {:induction false} FencesAcrossFrom(before: string, after: string, i: nat)
    requires i <= |before| && after != ""
    ensures var s, whole := OpenStart(before, i), before + after;
            FencesFrom(whole, i) + Mark(before, s) + Mark(after, 0)
            == FencesFrom(before, i) + FencesFrom(after, 0) + Mark(whole, s)
    decreases |before| - i
  {
    if i == |before| {
      FencesShift(before, after, 0);
      MarkShift(before, after, 0);
    } else {
      var k := LineEnd(before, i);
      if before[k - 1] == '\n' {
        assert (before + after)[k - 1] == '\n';
        LineEndPrefix(before, after, i);
        MarkPrefix(before, after, i, k - 1);
        FencesAcrossFrom(before, after, k);
      } else {
        LineEndOpen(before, after, i);
        FencesShift(before, after, LineEnd(after, 0));
      }
    }
  }

  /** Fences add up across a boundary, except for the line it may tear. */
  lemma FencesAcross(before: string, after: string)
    ensures Odd(Fences(before + after)) == (Odd(Fences(before) + Fences(after)) != Torn(before, after))
  {
    var s := OpenStart(before, 0);
    if after == "" {
      assert before + after == before;
    } else {
      FencesAcrossFrom(before, after, 0);
    }
    Parities(Fences(before + after), Fences(before) + Fences(after),
             Mark(before, s) + Mark(after, 0), Mark(before + after, s));
  }

  lemma Parities(whole: nat, sum: nat, halves: nat, line: nat)
    requires whole + halves == sum + line
    ensures Odd(whole) == (Odd(sum) != Odd(halves + line))
  {
    assert whole + 2 * halves == sum + (halves + line);
  }

  lemma {:induction false} LinesLeaveNoneOpen(text: string, i: nat)
    requires i <= |text| && EndsLine(text)
    ensures OpenStart(text, i) == |text|
    decreases |text| - i
  {
    if i < |text| {
      LinesLeaveNoneOpen(text, LineEnd(text, i));
    }
  }

  /** Text that ends its last line leaves nothing to tear. */
  lemma WholeLinesNotTorn(before: string, after: string)
    requires EndsLine(before)
    ensures !Torn(before, after)
  {
    LinesLeaveNoneOpen(before, 0);
    MarkShift(before, after, 0);
  }

  /** The closing fence is one fence, and ends whatever line it follows. */
  lemma ClosingIsOneFence(text: string)
    ensures Fences(ClosingFence) == 1 && !Torn(text, ClosingFence)
  {
    var s := OpenStart(text, 0);
    assert (text + ClosingFence)[|text|] == '\n';
    MarkPrefix(text, ClosingFence, s, |text|);
    assert Indent(ClosingFence, 0) == 0 && Indent(ClosingFence, 1) == 1;
    LineEndIs(ClosingFence, 1);
    assert LineEnd(ClosingFence, 1) == 5 by {
      assert LineEnd(ClosingFence, 3) == 5;
    }
  }

  /** A boundary inside a line can show a fence the line is not. */
  lemma TornExample()
    ensures Torn("a", "```") && Fences("a```") == 0
  {
    assert OpenStart("a", 0) == 0;
    assert Indent("a", 0) == Indent("```", 0) == Indent("a```", 0) == 0;
    assert "a" + "```" == "a```";
    assert FencesFrom("a```", 4) == 0;
    LineEndIs("a```", 4);
  }
}
