/** Model of the reviewed-edit engine in
    `agentic-workspace-chat/backend/app/workspace.py`: `diff_hunks` reads the
    hunks of a unified diff, and `apply_hunks` applies the accepted ones. */
module UnifiedDiff {
  import opened Wrappers
  import opened Texts

  // ---- the code under study ------------------------------------------------

  /** One entry of the list `diff_hunks` returns. */
  datatype ParsedHunk = ParsedHunk(id: string, header: string, lines: seq<string>)

  datatype Error = ValueError

  function HunkId(n: nat): string {
    "hunk-" + Decimal(n)
  }

  predicate IsHeader(line: string) {
    "@@" <= line
  }

  /** How many leading lines belong to the body of the hunk just opened. */
  function BodyLength(lines: seq<string>): (k: nat)
    ensures k <= |lines|
    ensures forall i :: 0 <= i < k ==> !IsHeader(lines[i])
    ensures k < |lines| ==> IsHeader(lines[k])
  {
    if lines == [] || IsHeader(lines[0]) then 0 else 1 + BodyLength(lines[1..])
  }

  /** The hunks opened within `lines` when `n` hunks came before. */
  function HunksFrom(lines: seq<string>, n: nat): seq<ParsedHunk> {
    if lines == [] then []
    else if IsHeader(lines[0]) then
      var k := BodyLength(lines[1..]);
      [ParsedHunk(HunkId(n + 1), lines[0], lines[1..][..k])] + HunksFrom(lines[1..][k..], n + 1)
    else HunksFrom(lines[1..], n)
  }

  /** What the loop of `diff_hunks` still has to return: the hunks closed so far,
      the open one with the rest of its body, and the hunks after it. */
  function Pending(hunks: seq<ParsedHunk>, current: Option<ParsedHunk>, rest: seq<string>): seq<ParsedHunk> {
    match current
    case None => hunks + HunksFrom(rest, |hunks|)
    case Some(h) =>
      var k := BodyLength(rest);
      hunks + [h.(lines := h.lines + rest[..k])] + HunksFrom(rest[k..], |hunks| + 1)
  }

  /** Closing the open hunk, as the loop does on a header line and at the end. */
  function Closed(hunks: seq<ParsedHunk>, current: Option<ParsedHunk>): seq<ParsedHunk> {
    match current
    case None => hunks
    case Some(h) => hunks + [h]
  }

  lemma PendingHeader(hunks: seq<ParsedHunk>, current: Option<ParsedHunk>, line: string, rest: seq<string>)
    requires IsHeader(line)
    ensures Pending(hunks, current, [line] + rest)
         == Pending(Closed(hunks, current), Some(ParsedHunk(HunkId(|Closed(hunks, current)| + 1), line, [])), rest)
  {
    var done := Closed(hunks, current);
    HeaderOpens(line, rest, |done|);
    PendingOpened(done, HunkId(|done| + 1), line, rest);
    if current.Some? {
      PendingClosed(hunks, current.value, line, rest);
    }
  }

  lemma {:induction false} PendingOpened(hunks: seq<ParsedHunk>, id: string, line: string, rest: seq<string>)
    ensures var k, opening := BodyLength(rest), ParsedHunk(id, line, []);
            Pending(hunks, Some(opening), rest)
            == hunks + ([opening.(lines := rest[..k])] + HunksFrom(rest[k..], |hunks| + 1))
  {
    var k := BodyLength(rest);
    assert [] + rest[..k] == rest[..k];
  }

  lemma {:induction false} PendingClosed(hunks: seq<ParsedHunk>, h: ParsedHunk, line: string, rest: seq<string>)
    requires IsHeader(line)
    ensures Pending(hunks, Some(h), [line] + rest) == hunks + [h] + HunksFrom([line] + rest, |hunks| + 1)
  {
    var lines := [line] + rest;
    assert BodyLength(lines) == 0 && lines[..0] == [] && lines[0..] == lines;
    assert h.(lines := h.lines + []) == h;
  }

  lemma {:induction false} HeaderOpens(line: string, rest: seq<string>, n: nat)
    requires IsHeader(line)
    ensures var k := BodyLength(rest);
            HunksFrom([line] + rest, n) == [ParsedHunk(HunkId(n + 1), line, rest[..k])] + HunksFrom(rest[k..], n + 1)
  {
    assert ([line] + rest)[1..] == rest;
  }

  lemma PendingBody(hunks: seq<ParsedHunk>, current: Option<ParsedHunk>, line: string, rest: seq<string>)
    requires !IsHeader(line)
    ensures Pending(hunks, current, [line] + rest)
         == match current
            case None => Pending(hunks, None, rest)
            case Some(h) => Pending(hunks, Some(h.(lines := h.lines + [line])), rest)
  {
    var lines := [line] + rest;
    var k := BodyLength(rest);
    assert lines[1..] == rest;
    if current.Some? {
      var h := current.value;
      assert BodyLength(lines) == k + 1;
      assert h.lines + lines[..k + 1] == h.lines + [line] + rest[..k];
      assert lines[k + 1..] == rest[k..];
    }
  }

  lemma {:induction false} PendingNone(lines: seq<string>)
    ensures Pending([], None, lines[0..]) == HunksFrom(lines, 0)
  {
    assert lines[0..] == lines;
    assert [] + HunksFrom(lines, 0) == HunksFrom(lines, 0);
  }

  lemma PendingDone(hunks: seq<ParsedHunk>, current: Option<ParsedHunk>)
    ensures Pending(hunks, current, []) == Closed(hunks, current)
  {
    if current.Some? {
      assert current.value.(lines := current.value.lines + []) == current.value;
    }
  }

  /** The loop of `diff_hunks` over the diff's lines. */
  method HunksOfLines(lines: seq<string>) returns (hunks: seq<ParsedHunk>)
    ensures hunks == HunksFrom(lines, 0)
  {
    hunks := [];
    var current: Option<ParsedHunk> := None;
    PendingNone(lines);
    for i := 0 to |lines|
      invariant Pending(hunks, current, lines[i..]) == HunksFrom(lines, 0)
    {
      var line := lines[i];
      ghost var rest := lines[i + 1..];
      assert lines[i..] == [line] + rest;
      if IsHeader(line) {
        PendingHeader(hunks, current, line, rest);
        if current.Some? {
          hunks := hunks + [current.value];
        }
        current := Some(ParsedHunk(HunkId(|hunks| + 1), line, []));
      } else {
        PendingBody(hunks, current, line, rest);
        if current.Some? {
          current := Some(current.value.(lines := current.value.lines + [line]));
        }
      }
    }
    PendingDone(hunks, current);
    if current.Some? {
      hunks := hunks + [current.value];
    }
  }

  method DiffHunks(diff: string) returns (hunks: seq<ParsedHunk>)
    ensures hunks == HunksFrom(SplitLines(diff), 0)
  {
    hunks := HunksOfLines(SplitLines(diff));
  }

  /** The first word that starts with a minus sign, its sign dropped. */
  function OldRange(words: seq<string>): string {
    if words == [] then "1,0"
    else if "-" <= words[0] then words[0][1..]
    else OldRange(words[1..])
  }

  /** The zero-based line a header's old range starts at; `None` when `int` raises. */
  function OldStart(header: string): Option<int> {
    match ParseInt(BeforeComma(OldRange(Words(header))))
    case None => None
    case Some(n) => Some(n - 1)
  }

  function OldCount(header: string): Option<int> {
    var range := OldRange(Words(header));
    if ',' in range then ParseInt(BeforeComma(AfterComma(range))) else Some(1)
  }

  function WithNewline(s: string): string {
    if s != "" && s[|s| - 1] == '\n' then s else s + "\n"
  }

  /** The lines an accepted hunk writes. */
  function BodyOutput(lines: seq<string>): seq<string> {
    if lines == [] then []
    else if " " <= lines[0] || "+" <= lines[0] then [WithNewline(lines[0][1..])] + BodyOutput(lines[1..])
    else BodyOutput(lines[1..])
  }

  /** How far an accepted hunk moves the cursor. */
  function BodyConsumed(lines: seq<string>): nat {
    if lines == [] then 0
    else (if " " <= lines[0] || "-" <= lines[0] then 1 else 0) + BodyConsumed(lines[1..])
  }

  function Prepend(head: seq<string>, r: Result<seq<string>, Error>): Result<seq<string>, Error> {
    match r
    case Success(tail) => Success(head + tail)
    case Failure(e) => Failure(e)
  }

  /** What one hunk appends to the output, and where it leaves the cursor. */
  function HunkStep(source: seq<string>, h: ParsedHunk, accepted: set<string>, cursor: int)
    : Option<(seq<string>, int)>
  {
    match OldStart(h.header)
    case None => None
    case Some(start) =>
      var gap := Slice(source, cursor, start);
      if h.id in accepted then Some((gap + BodyOutput(h.lines), start + BodyConsumed(h.lines)))
      else
        match OldCount(h.header)
        case None => None
        case Some(count) => Some((gap + Slice(source, start, start + count), start + count))
  }

  /** What `apply_hunks` still has to write when it stands at `cursor`. */
  function ApplyFrom(source: seq<string>, hunks: seq<ParsedHunk>, accepted: set<string>, cursor: int)
    : Result<seq<string>, Error>
  {
    if hunks == [] then Success(SliceFrom(source, cursor)) else
    match HunkStep(source, hunks[0], accepted, cursor)
    case None => Failure(ValueError)
    case Some((piece, next)) => Prepend(piece, ApplyFrom(source, hunks[1..], accepted, next))
  }

  lemma PrependTwice(a: seq<string>, b: seq<string>, r: Result<seq<string>, Error>)
    ensures Prepend(a, Prepend(b, r)) == Prepend(a + b, r)
    ensures Prepend([], r) == r
  {
    if r.Success? {
      assert a + (b + r.value) == a + b + r.value;
      assert [] + r.value == r.value;
    }
  }

  function ApplyText(before: string, diff: string, accepted: set<string>): Result<string, Error> {
    match ApplyFrom(SplitKeep(before), HunksFrom(SplitLines(diff), 0), accepted, 0)
    case Success(lines) => Success(Join(lines))
    case Failure(e) => Failure(e)
  }

  method ApplyHunks(before: string, diff: string, accepted: set<string>) returns (r: Result<string, Error>)
    ensures r == ApplyText(before, diff, accepted)
  {
    var source := SplitKeep(before);
    var output: seq<string>, cursor: int := [], 0;
    var hunks := DiffHunks(diff);
    ghost var all := ApplyFrom(source, hunks, accepted, 0);
    assert hunks[0..] == hunks;
    PrependTwice([], [], all);
    for index := 0 to |hunks|
      invariant Prepend(output, ApplyFrom(source, hunks[index..], accepted, cursor)) == all
    {
      var hunk := hunks[index];
      assert hunks[index..] == [hunk] + hunks[index + 1..];
      var step := ApplyHunk(source, hunk, accepted, output, cursor);
      if step.None? {
        return Failure(ValueError);
      }
      ghost var next := HunkStep(source, hunk, accepted, cursor).value;
      PrependTwice(output, next.0, ApplyFrom(source, hunks[index + 1..], accepted, next.1));
      output, cursor := step.value.0, step.value.1;
    }
    output := output + SliceFrom(source, cursor);
    return Success(Join(output));
  }

  /** The body of the loop of `apply_hunks` (workspace.py:99-111); `None` when `int` raises. */
  method ApplyHunk(source: seq<string>, hunk: ParsedHunk, accepted: set<string>, output0: seq<string>, cursor0: int)
    returns (r: Option<(seq<string>, int)>)
    ensures r.Some? <==> HunkStep(source, hunk, accepted, cursor0).Some?
    ensures r.Some? ==> var step := HunkStep(source, hunk, accepted, cursor0).value;
                        r.value == (output0 + step.0, step.1)
  {
    var start := OldStart(hunk.header);
    if start.None? {
      return None;
    }
    var output, cursor := output0 + Slice(source, cursor0, start.value), start.value;
    if hunk.id !in accepted {
      var count := OldCount(hunk.header);
      if count.None? {
        return None;
      }
      output := output + Slice(source, cursor, cursor + count.value);
      cursor := cursor + count.value;
    } else {
      output, cursor := ApplyBody(hunk.lines, output, cursor);
    }
    assert output == output0 + HunkStep(source, hunk, accepted, cursor0).value.0;
    return Some((output, cursor));
  }

  /** The inner loop of `apply_hunks` (workspace.py:108-111). */
  method ApplyBody(lines: seq<string>, output0: seq<string>, cursor0: int)
    returns (output: seq<string>, cursor: int)
    ensures output == output0 + BodyOutput(lines)
    ensures cursor == cursor0 + BodyConsumed(lines)
  {
    output, cursor := output0, cursor0;
    assert lines[0..] == lines;
    for k := 0 to |lines|
      invariant output + BodyOutput(lines[k..]) == output0 + BodyOutput(lines)
      invariant cursor + BodyConsumed(lines[k..]) == cursor0 + BodyConsumed(lines)
    {
      var line := lines[k];
      assert lines[k..][1..] == lines[k + 1..];
      if " " <= line {
        output := output + [WithNewline(line[1..])];
        cursor := cursor + 1;
      } else if "-" <= line {
        cursor := cursor + 1;
      } else if "+" <= line {
        output := output + [WithNewline(line[1..])];
      }
    }
  }
}
