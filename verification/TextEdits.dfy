/** Model of the two text edits of `agentic-workspace-chat/backend/app/tools.py`: replacing
    a passage that must match exactly once, and replacing a range of lines. */
module TextEdits {
  import opened Wrappers
  import opened Texts

  datatype EditError = NotOneMatch(count: nat) | BackwardRange | OutsideFile

  predicate OccursAt(s: string, sub: string, i: nat) {
    i + |sub| <= |s| && s[i..i + |sub|] == sub
  }

  /** `s.find(sub, i)`; past the end of `s` stands for -1. */
  function Find(s: string, sub: string, i: nat): (j: nat)
    ensures j > |s| || (i <= j && OccursAt(s, sub, j))
    ensures forall k :: i <= k < j ==> !OccursAt(s, sub, k)
    decreases |s| - i
  {
    if i > |s| then i
    else if OccursAt(s, sub, i) then i
    else Find(s, sub, i + 1)
  }

  /** Matches from `i` on, each search starting after the match before. */
  function CountFrom(s: string, sub: string, i: nat): nat
    requires sub != ""
    decreases |s| - i
  {
    var j := Find(s, sub, i);
    if j > |s| then 0 else 1 + CountFrom(s, sub, j + |sub|)
  }

  /** `s.count(sub)`: the empty string matches around every character. */
  function Count(s: string, sub: string): nat {
    if sub == "" then |s| + 1 else CountFrom(s, sub, 0)
  }

  function ReplacePassage(content: string, passage: string, text: string): Result<string, EditError> {
    var count := Count(content, passage);
    if count != 1 then Failure(NotOneMatch(count))
    else
      var j := Find(content, passage, 0);
      if j > |content| then Success(content) else Success(content[..j] + text + content[j + |passage|..])
  }

  function Terminated(text: string): string {
    if text == "" || text[|text| - 1] == '\n' then text else text + "\n"
  }

  /** Bounds below one reach Python's negative slices, as in the source. */
  function ReplaceLines(content: string, first: int, last: int, text: string): Result<string, EditError> {
    if last < first then Failure(BackwardRange)
    else
      var lines := SplitKeep(content);
      if first > |lines| || last > |lines| then Failure(OutsideFile)
      else Success(Join(Slice(lines, 0, first - 1) + [Terminated(text)] + SliceFrom(lines, last)))
  }

  // ---- what the edits promise ----------------------------------------------

  /** A match at `j` that every other match follows and overlaps. */
  ghost predicate OnlyMatchAt(s: string, sub: string, j: nat) {
    && OccursAt(s, sub, j)
    && forall k: nat :: OccursAt(s, sub, k) ==> k == j || j < k < j + |sub|
  }

  lemma {:induction false} NoneCounted(s: string, sub: string, i: nat)
    requires sub != ""
    ensures CountFrom(s, sub, i) == 0 <==> forall k: nat :: i <= k ==> !OccursAt(s, sub, k)
  {
    var j := Find(s, sub, i);
    if j <= |s| {
      assert OccursAt(s, sub, j);
    }
  }

  /** The edit goes through exactly when the passage matches once, up to overlaps of the
      match with itself, and it then changes that first match alone. */
  lemma PassageReplaced(content: string, passage: string, text: string)
    ensures ReplacePassage(content, passage, text).Success? <==> exists j: nat :: OnlyMatchAt(content, passage, j)
    ensures forall j: nat :: OnlyMatchAt(content, passage, j) ==>
              ReplacePassage(content, passage, text) == Success(content[..j] + text + content[j + |passage|..])
  {
    var first := Find(content, passage, 0);
    if passage == "" {
      EmptyMatches(content);
      assert content == "" ==> OnlyMatchAt(content, passage, 0);
    } else {
      NoneCounted(content, passage, 0);
      if first <= |content| {
        NoneCounted(content, passage, first + |passage|);
        if CountFrom(content, passage, first + |passage|) == 0 {
          assert OnlyMatchAt(content, passage, first);
        }
      }
    }
  }

  lemma {:induction false} EmptyMatches(s: string)
    ensures forall k: nat :: OccursAt(s, "", k) <==> k <= |s|
    ensures Find(s, "", 0) == 0
    ensures (exists j: nat :: OnlyMatchAt(s, "", j)) ==> s == ""
  {
    if j: nat :| OnlyMatchAt(s, "", j) {
      assert OccursAt(s, "", 0) && OccursAt(s, "", |s|);
    }
  }

  lemma TailSplits(s: string, n: nat)
    requires n <= |SplitKeep(s)|
    ensures SplitKeep(Join(SplitKeep(s)[n..])) == SplitKeep(s)[n..]
  {
    var lines := SplitKeep(s);
    JoinSplit(s);
    if n == |lines| {
      assert lines[n..] == [];
    } else {
      InnerLinesTerminated(s);
      JoinAppend(lines[..n], lines[n..]);
      assert lines == lines[..n] + lines[n..];
      SplitAppend(lines[..n], Join(lines[n..]));
    }
  }

  /** Where the text kept in front of the new one stops: a start of zero or less is counted
      back from the end of the file. */
  function KeptBefore(first: int, n: nat): (k: nat)
    ensures k <= n
  {
    Bound(first - 1, n)
  }

  /** Where the text kept behind it resumes: so is a negative end. */
  function KeptFrom(last: int, n: nat): (k: nat)
    ensures k <= n
  {
    Bound(last, n)
  }

  /** For any bounds: the edit goes through exactly when the range does not run backward or end
      past the file, and what it writes. */
  lemma RangeWritten(content: string, first: int, last: int, text: string)
    ensures var lines, r := SplitKeep(content), ReplaceLines(content, first, last, text);
            && (r.Success? <==> first <= last <= |lines|)
            && (r.Success? ==>
                  SplitKeep(r.value) == lines[..KeptBefore(first, |lines|)] + SplitKeep(Terminated(text))
                                        + lines[KeptFrom(last, |lines|)..])
  {
    var lines := SplitKeep(content);
    if first <= last <= |lines| {
      var h, t := KeptBefore(first, |lines|), KeptFrom(last, |lines|);
      assert Slice(lines, 0, first - 1) == lines[..h] && SliceFrom(lines, last) == lines[t..];
      InnerLinesTerminated(content);
      TailSplits(content, t);
      RangeSplits(lines[..h], Terminated(text), lines[t..]);
    }
  }

  /** The lines numbered from `first` to `last`, counted from one, give way to the new ones;
      those numbered below and above are kept. */
  ghost predicate ReplacesRange(lines: seq<string>, first: int, last: int, new': seq<string>, result: seq<string>) {
    && result == lines[..Clamp(first - 1, |lines|)] + new' + lines[Clamp(last, |lines|)..]
  }

  function Clamp(i: int, n: nat): (k: nat)
    ensures k <= n
  {
    if i < 0 then 0 else if i < n then i else n
  }

  /** An edit that goes through replaces exactly the lines its range names if and only if the
      range starts at one or later, or counting back from the end overshoots the file. */
  lemma RangeReplacedIff(content: string, first: int, last: int, text: string)
    requires first <= last <= |SplitKeep(content)|
    ensures var lines, r := SplitKeep(content), ReplaceLines(content, first, last, text);
            && r.Success?
            && (ReplacesRange(lines, first, last, SplitKeep(Terminated(text)), SplitKeep(r.value))
                <==> first >= 1 || |lines| + (if last < 0 then last else first - 1) <= 0)
  {
    var lines := SplitKeep(content);
    var new' := SplitKeep(Terminated(text));
    RangeWritten(content, first, last, text);
    var written := lines[..KeptBefore(first, |lines|)] + new' + lines[KeptFrom(last, |lines|)..];
    var asked := lines[..Clamp(first - 1, |lines|)] + new' + lines[Clamp(last, |lines|)..];
    assert written == asked ==> |written| == |asked|;
  }

  /** A range counted from one, in particular. */
  lemma LinesReplaced(content: string, first: int, last: int, text: string)
    requires 1 <= first <= last
    ensures var lines, r := SplitKeep(content), ReplaceLines(content, first, last, text);
            && (r.Success? <==> last <= |lines|)
            && (r.Success? ==>
                  SplitKeep(r.value) == lines[..first - 1] + SplitKeep(Terminated(text)) + lines[last..])
  {
    RangeWritten(content, first, last, text);
  }

  /** What a range that starts at zero or before, and ends in the file, really does: with `h`
      lines kept in front and the rest resumed at `t`, the lines from `t` to `h` are written
      twice, before and after the new text, and those from `h` to `t` are lost. */
  lemma EarlyRange(content: string, first: int, last: int, text: string)
    requires first <= 0 && first <= last <= |SplitKeep(content)|
    ensures var lines, r := SplitKeep(content), ReplaceLines(content, first, last, text);
            var n, new' := |lines|, SplitKeep(Terminated(text));
            var h, t := Clamp(n + first - 1, n), if last < 0 then Clamp(n + last, n) else last;
            && r.Success?
            && SplitKeep(r.value) == (if t <= h then lines[..t] + lines[t..h] + new' + lines[t..h] + lines[h..]
                                      else lines[..h] + new' + lines[t..])
  {
    var lines := SplitKeep(content);
    var n := |lines|;
    var h, t := Clamp(n + first - 1, n), if last < 0 then Clamp(n + last, n) else last;
    RangeWritten(content, first, last, text);
    assert KeptBefore(first, n) == h && KeptFrom(last, n) == t;
    if t <= h {
      WrittenTwice(lines, SplitKeep(Terminated(text)), t, h);
    }
  }

  lemma WrittenTwice(lines: seq<string>, new': seq<string>, t: nat, h: nat)
    requires t <= h <= |lines|
    ensures lines[..h] + new' + lines[t..] == lines[..t] + lines[t..h] + new' + lines[t..h] + lines[h..]
  {
    assert lines[..h] == lines[..t] + lines[t..h];
    assert lines[t..] == lines[t..h] + lines[h..];
  }

  lemma {:induction false} RangeSplits(head: seq<string>, text: string, tail: seq<string>)
    requires AllLines(head) && SplitKeep(Join(tail)) == tail
    requires EndsLine(text)
    ensures SplitKeep(Join(head + [text] + tail)) == head + SplitKeep(text) + tail
  {
    var front := head + SplitKeep(text);
    TerminatedLines(text);
    JoinSplit(text);
    JoinAppend(head, SplitKeep(text));
    JoinMiddle(head, text, tail);
    SplitAppend(front, Join(tail));
  }

  lemma {:induction false} JoinMiddle(head: seq<string>, text: string, tail: seq<string>)
    ensures Join(head + [text] + tail) == Join(head) + text + Join(tail)
  {
    JoinAppend(head + [text], tail);
    JoinAppend(head, [text]);
    JoinCons(text, []);
    assert [text] + [] == [text];
  }

  const ThreeLines: seq<string> := ["a\n", "b\n", "c\n"]

  /** Replacing "lines 0 to 1" of three: line 1 stays, and line 2 is there twice. */
  lemma LineZeroDuplicates()
    ensures var r := ReplaceLines(Join(ThreeLines), 0, 1, "x");
            r.Success? && SplitKeep(r.value) == ["a\n", "b\n", "x\n", "b\n", "c\n"]
  {
    SplitJoin(ThreeLines);
    RangeWritten(Join(ThreeLines), 0, 1, "x");
    assert Terminated("x") == "x\n";
    SplitOneLine("x\n");
    assert ThreeLines[..2] == ["a\n", "b\n"] && ThreeLines[1..] == ["b\n", "c\n"];
  }

  lemma SplitOneLine(line: string)
    requires IsLine(line)
    ensures SplitKeep(line) == [line]
  {
    JoinCons(line, []);
    assert [line] + [] == [line] && line + "" == line;
    SplitJoin([line]);
  }
}
