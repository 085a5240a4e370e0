/** What the reviewed-edit engine is for: reading back a rendered unified diff,
    and writing the old text with exactly the accepted hunks replaced. */
module ReviewedEdits {
  import opened Wrappers
  import opened Texts
  import opened UnifiedDiff

  // ---- unified diffs, as `difflib.unified_diff` writes them ----------------

  datatype Op = Keep(line: string) | Del(line: string) | Add(line: string)

  /** A hunk covers `OldLines(body)` from the zero-based line `oldStart` of the old
      text and `NewLines(body)` from `newStart` of the new text. */
  datatype Hunk = Hunk(oldStart: nat, newStart: nat, body: seq<Op>)

  function OldLines(body: seq<Op>): seq<string> {
    if body == [] then []
    else (if body[0].Add? then [] else [body[0].line]) + OldLines(body[1..])
  }

  function NewLines(body: seq<Op>): seq<string> {
    if body == [] then []
    else (if body[0].Del? then [] else [body[0].line]) + NewLines(body[1..])
  }

  function OldEnd(h: Hunk): nat {
    h.oldStart + |OldLines(h.body)|
  }

  function Range(start: nat, count: nat): string {
    if count == 1 then Decimal(start + 1)
    else if count == 0 then Decimal(start) + ",0"
    else Decimal(start + 1) + "," + Decimal(count)
  }

  function Header(h: Hunk): string {
    "@@ -" + Range(h.oldStart, |OldLines(h.body)|) + " +" + Range(h.newStart, |NewLines(h.body)|) + " @@"
  }

  function Mark(op: Op): string {
    match op
    case Keep(l) => " " + l
    case Del(l) => "-" + l
    case Add(l) => "+" + l
  }

  function Marks(body: seq<Op>): (r: seq<string>)
    ensures |r| == |body|
    ensures forall i :: 0 <= i < |body| ==> r[i] == Mark(body[i])
  {
    seq(|body|, i requires 0 <= i < |body| => Mark(body[i]))
  }

  function RenderHunks(hunks: seq<Hunk>): string {
    if hunks == [] then ""
    else Header(hunks[0]) + "\n" + Join(Marks(hunks[0].body)) + RenderHunks(hunks[1..])
  }

  /** The text of `diff_for`: nothing at all when nothing changed. */
  function Render(path: string, hunks: seq<Hunk>): string {
    if hunks == [] then "" else "--- a/" + path + "\n" + "+++ b/" + path + "\n" + RenderHunks(hunks)
  }

  /** Lines as a split produces them: only the last may lack its newline. */
  predicate IsPiece(s: string) {
    s != "" && '\n' !in s[..|s| - 1]
  }

  predicate Unterminated(s: string) {
    s != "" && s[|s| - 1] != '\n'
  }

  predicate TailOnly(lines: seq<string>) {
    forall i :: 0 <= i < |lines| ==> IsPiece(lines[i]) && (Unterminated(lines[i]) ==> i == |lines| - 1)
  }

  predicate TerminatedBody(body: seq<Op>) {
    forall i :: 0 <= i < |body| ==> IsLine(body[i].line)
  }

  /** `hunks` leads from `before[i..]` to `after[j..]`: the text between hunks is common
      to both, every hunk's old and new lines stand where its header says, and only
      the last hunk reaches an end of file. */
  predicate Describes(before: seq<string>, after: seq<string>, hunks: seq<Hunk>, i: nat, j: nat)
    requires i <= |before| && j <= |after|
    decreases hunks
  {
    if hunks == [] then before[i..] == after[j..] else
    var h := hunks[0];
    var oldEnd, newEnd := OldEnd(h), h.newStart + |NewLines(h.body)|;
    && i <= h.oldStart && j <= h.newStart && oldEnd <= |before| && newEnd <= |after|
    && before[i..h.oldStart] == after[j..h.newStart]
    && before[h.oldStart..oldEnd] == OldLines(h.body)
    && after[h.newStart..newEnd] == NewLines(h.body)
    && (OldLines(h.body) == [] ==> before == [])
    && (|hunks| > 1 ==> TerminatedBody(h.body))
    && Describes(before, after, hunks[1..], oldEnd, newEnd)
  }

  // ---- the reference meaning: splice the accepted ranges, last hunk first ---

  ghost predicate Ordered(hunks: seq<Hunk>, limit: nat) {
    && (forall i :: 0 <= i < |hunks| ==> OldEnd(hunks[i]) <= limit)
    && (forall i, j :: 0 <= i < j < |hunks| ==> OldEnd(hunks[i]) <= hunks[j].oldStart)
  }

  /** `source` with the old range of every accepted hunk replaced by its new lines;
      hunk `k` of the list is the one with id `n + k + 1`. */
  ghost function Patched(source: seq<string>, hunks: seq<Hunk>, n: nat, accepted: set<string>): seq<string>
    requires Ordered(hunks, |source|)
    decreases |hunks|
  {
    if hunks == [] then source else
    var last := |hunks| - 1;
    var h := hunks[last];
    var spliced :=
      if HunkId(n + |hunks|) in accepted
      then source[..h.oldStart] + NewLines(h.body) + source[OldEnd(h)..]
      else source;
    Patched(spliced, hunks[..last], n, accepted)
  }

  // ---- reading a rendered diff back ----------------------------------------

  /** Every hunk but the last is written in whole lines; the last in pieces. */
  predicate WellRendered(hunks: seq<Hunk>) {
    hunks != [] ==>
      if |hunks| > 1 then TerminatedBody(hunks[0].body) && WellRendered(hunks[1..])
      else forall i :: 0 <= i < |hunks[0].body| ==> IsPiece(hunks[0].body[i].line)
  }

  /** What `diff_hunks` sees of rendered hunks. */
  function Parsed(hunks: seq<Hunk>, n: nat): (r: seq<ParsedHunk>)
    ensures |r| == |hunks|
    ensures forall k :: 0 <= k < |hunks| ==> r[k] == ParsedAs(hunks[k], n + k)
  {
    seq(|hunks|, k requires 0 <= k < |hunks| => ParsedAs(hunks[k], n + k))
  }

  function ParsedAs(h: Hunk, n: nat): ParsedHunk {
    ParsedHunk(HunkId(n + 1), Header(h), RawLines(h.body))
  }

  /** The rendered body, read back line by line. */
  function RawLines(body: seq<Op>): seq<string> {
    SplitLines(Join(Marks(body)))
  }

  lemma ParsedCons(hunks: seq<Hunk>, n: nat)
    requires hunks != []
    ensures Parsed(hunks, n) == [ParsedAs(hunks[0], n)] + Parsed(hunks[1..], n + 1)
  {
    forall k | 0 < k < |hunks| ensures Parsed(hunks, n)[k] == Parsed(hunks[1..], n + 1)[k - 1] {
      assert hunks[1..][k - 1] == hunks[k] && n + 1 + (k - 1) == n + k;
    }
  }

  predicate Marked(line: string) {
    " " <= line || "-" <= line || "+" <= line
  }

  lemma RangeText(start: nat, count: nat)
    ensures forall i :: 0 <= i < |Range(start, count)| ==>
      IsDigit(Range(start, count)[i]) || Range(start, count)[i] == ','
    ensures Range(start, count) != ""
  {
  }

  lemma HeaderLine(h: Hunk)
    ensures IsHeader(Header(h)) && '\n' !in Header(h)
  {
    RangeText(h.oldStart, |OldLines(h.body)|);
    RangeText(h.newStart, |NewLines(h.body)|);
  }

  lemma MarkIsLine(op: Op)
    requires IsLine(op.line)
    ensures IsLine(Mark(op))
  {
    var l, m := op.line, Mark(op);
    assert m[..|m| - 1] == [m[0]] + l[..|l| - 1];
  }

  lemma MarkedLines(body: seq<Op>)
    requires TerminatedBody(body)
    ensures AllLines(Marks(body))
  {
    forall i | 0 <= i < |body| ensures IsLine(Marks(body)[i]) {
      MarkIsLine(body[i]);
    }
  }

  /** A piece without a newline is glued to the line that follows it. */
  lemma SplitGlued(p: string, rest: string)
    requires p != "" && '\n' !in p
    ensures SplitKeep(p + rest)
         == if rest == "" then [p] else [p + SplitKeep(rest)[0]] + SplitKeep(rest)[1..]
  {
    if rest == "" {
      assert p + rest == p;
      SplitOne(p);
    } else {
      SplitOpen(p, rest);
    }
  }

  /** However pieces are glued, every line of a rendered body starts with a mark. */
  lemma {:induction false} BodyLinesMarked(body: seq<Op>)
    requires forall i :: 0 <= i < |body| ==> IsPiece(body[i].line)
    ensures forall k :: 0 <= k < |SplitKeep(Join(Marks(body)))| ==> Marked(SplitKeep(Join(Marks(body)))[k])
  {
    if body != [] {
      BodyLinesMarked(body[1..]);
      assert Marks(body)[1..] == Marks(body[1..]);
      FirstLineMarked(body[0], Join(Marks(body[1..])));
    }
  }

  /** A marked piece in front of marked lines is a marked line, or begins the first of them. */
  lemma FirstLineMarked(op: Op, rest: string)
    requires IsPiece(op.line) && forall k :: 0 <= k < |SplitKeep(rest)| ==> Marked(SplitKeep(rest)[k])
    ensures forall k :: 0 <= k < |SplitKeep(Mark(op) + rest)| ==> Marked(SplitKeep(Mark(op) + rest)[k])
  {
    var l := op.line;
    if IsLine(l) {
      MarkIsLine(op);
      SplitCons(Mark(op), rest);
    } else {
      assert l == l[..|l| - 1] + [l[|l| - 1]];
      SplitGlued(Mark(op), rest);
    }
  }

  lemma {:induction false} BodyStops(body: seq<string>, rest: seq<string>)
    requires forall i :: 0 <= i < |body| ==> !IsHeader(body[i])
    requires rest == [] || IsHeader(rest[0])
    ensures BodyLength(body + rest) == |body|
  {
    if body == [] {
      assert body + rest == rest;
    } else {
      assert (body + rest)[1..] == body[1..] + rest;
      BodyStops(body[1..], rest);
    }
  }

  lemma {:induction false} HunksFromCons(header: string, body: seq<string>, rest: seq<string>, n: nat)
    requires IsHeader(header)
    requires forall i :: 0 <= i < |body| ==> !IsHeader(body[i])
    requires rest == [] || IsHeader(rest[0])
    ensures HunksFrom([header] + body + rest, n)
         == [ParsedHunk(HunkId(n + 1), header, body)] + HunksFrom(rest, n + 1)
  {
    BodyStops(body, rest);
    var lines := [header] + body + rest;
    assert lines[1..] == body + rest;
    assert (body + rest)[..|body|] == body && (body + rest)[|body|..] == rest;
  }

  /** The lines of rendered hunks: the first header, its body, then the later hunks. */
  lemma {:induction false} RenderedLines(hunks: seq<Hunk>)
    requires hunks != [] && WellRendered(hunks)
    ensures SplitLines(RenderHunks(hunks))
         == [Header(hunks[0])] + RawLines(hunks[0].body) + SplitLines(RenderHunks(hunks[1..]))
  {
    var header, body, rest := Header(hunks[0]), Join(Marks(hunks[0].body)), RenderHunks(hunks[1..]);
    HeaderLine(hunks[0]);
    BodyThenRest(hunks[0].body, rest, |hunks| > 1);
    HeadedLines(header, body, rest);
    assert RenderHunks(hunks) == header + "\n" + body + rest;
  }

  lemma HeadedLines(header: string, body: string, rest: string)
    requires '\n' !in header && SplitLines(body + rest) == SplitLines(body) + SplitLines(rest)
    ensures SplitLines(header + "\n" + body + rest) == [header] + SplitLines(body) + SplitLines(rest)
  {
    SplitLinesCons(header, body + rest);
    assert header + "\n" + body + rest == header + "\n" + (body + rest);
    assert [header] + (SplitLines(body) + SplitLines(rest)) == [header] + SplitLines(body) + SplitLines(rest);
  }

  lemma BodyThenRest(body: seq<Op>, rest: string, more: bool)
    requires if more then TerminatedBody(body) else rest == ""
    ensures SplitLines(Join(Marks(body)) + rest) == SplitLines(Join(Marks(body))) + SplitLines(rest)
  {
    if more {
      MarkedLines(body);
      SplitLinesAppend(Marks(body), rest);
    } else {
      assert Join(Marks(body)) + rest == Join(Marks(body));
    }
  }

  lemma {:induction false} ParseRendered(hunks: seq<Hunk>, n: nat)
    requires WellRendered(hunks)
    ensures HunksFrom(SplitLines(RenderHunks(hunks)), n) == Parsed(hunks, n)
    decreases hunks
  {
    if hunks != [] {
      var header, body := Header(hunks[0]), SplitLines(Join(Marks(hunks[0].body)));
      var rest := SplitLines(RenderHunks(hunks[1..]));
      RenderedLines(hunks);
      HeaderLine(hunks[0]);
      BodyLinesMarked(hunks[0].body);
      if |hunks| > 1 {
        RenderedLines(hunks[1..]);
        HeaderLine(hunks[1]);
      }
      HunksFromCons(header, body, rest, n);
      ParseRendered(hunks[1..], n + 1);
      ParsedCons(hunks, n);
    }
  }

  lemma {:induction false} ParseRender(path: string, hunks: seq<Hunk>)
    requires '\n' !in path && WellRendered(hunks)
    ensures HunksFrom(SplitLines(Render(path, hunks)), 0) == Parsed(hunks, 0)
  {
    if hunks != [] {
      RenderNames(path, RenderHunks(hunks));
      ParseRendered(hunks, 0);
    }
  }

  lemma RenderNames(path: string, rest: string)
    requires '\n' !in path
    ensures var text := "--- a/" + path + "\n" + "+++ b/" + path + "\n" + rest;
            HunksFrom(SplitLines(text), 0) == HunksFrom(SplitLines(rest), 0)
  {
    var from, to := "--- a/" + path, "+++ b/" + path;
    assert from[0] == '-' && to[0] == '+';
    FileLines(from, to, rest);
    Regrouped(from, "+++ b/", path, rest);
  }

  lemma Regrouped(from: string, mark: string, path: string, rest: string)
    ensures from + "\n" + mark + path + "\n" + rest == from + "\n" + ((mark + path) + "\n" + rest)
  {
  }

  /** The two lines that name the files are no headers, and are dropped. */
  lemma FileLines(from: string, to: string, rest: string)
    requires '\n' !in from && '\n' !in to && !IsHeader(from) && !IsHeader(to)
    ensures HunksFrom(SplitLines(from + "\n" + (to + "\n" + rest)), 0) == HunksFrom(SplitLines(rest), 0)
  {
    SplitLinesCons(from, to + "\n" + rest);
    SplitLinesCons(to, rest);
    SkipLine(from, [to] + SplitLines(rest));
    SkipLine(to, SplitLines(rest));
  }

  /** Before any header is open, a line that is not one is dropped. */
  lemma {:induction false} SkipLine(line: string, rest: seq<string>)
    requires !IsHeader(line)
    ensures HunksFrom([line] + rest, 0) == HunksFrom(rest, 0)
  {
    assert ([line] + rest)[1..] == rest;
  }

  /** Every line but the last is terminated. */
  predicate Separate(body: seq<Op>) {
    forall i :: 0 <= i < |body| - 1 ==> IsLine(body[i].line)
  }

  /** `diff_hunks` inverts rendering, for every diff of split texts: ids `hunk-1..n` and headers in
      order, no body line or file header ever taken for a hunk header, and each body line for
      line, if and only if no line but its last lacks a newline. */
  lemma {:induction false} RecoversHunks(path: string, hunks: seq<Hunk>)
    requires '\n' !in path && WellRendered(hunks)
    ensures var parsed := HunksFrom(SplitLines(Render(path, hunks)), 0);
            && |parsed| == |hunks|
            && forall k :: 0 <= k < |hunks| ==> Recovered(parsed[k], hunks[k], k)
  {
    ParseRender(path, hunks);
    AllRecovered(hunks, Parsed(hunks, 0));
  }

  lemma {:induction false} AllRecovered(hunks: seq<Hunk>, parsed: seq<ParsedHunk>)
    requires WellRendered(hunks) && parsed == Parsed(hunks, 0)
    ensures forall k :: 0 <= k < |hunks| ==> Recovered(parsed[k], hunks[k], k)
  {
    forall k | 0 <= k < |hunks| ensures Recovered(parsed[k], hunks[k], k) {
      assert parsed[k] == ParsedAs(hunks[k], 0 + k);
      HunkPieces(hunks, k);
      RecoversHunk(hunks[k], k);
    }
  }

  ghost predicate Recovered(parsed: ParsedHunk, h: Hunk, k: nat) {
    && parsed.id == HunkId(k + 1) && parsed.header == Header(h)
    && (parsed.lines == ChompAll(Marks(h.body)) <==> Separate(h.body))
  }

  lemma RecoversHunk(h: Hunk, k: nat)
    requires forall i :: 0 <= i < |h.body| ==> IsPiece(h.body[i].line)
    ensures Recovered(ParsedAs(h, k), h, k)
  {
    RawCount(h.body);
    if Separate(h.body) {
      RawOfSeparate(h.body);
    }
  }

  lemma {:induction false} HunkPieces(hunks: seq<Hunk>, k: nat)
    requires WellRendered(hunks) && k < |hunks|
    ensures forall i :: 0 <= i < |hunks[k].body| ==> IsPiece(hunks[k].body[i].line)
    decreases |hunks|
  {
    if k > 0 {
      HunkPieces(hunks[1..], k - 1);
    }
  }

  /** A line that loses its break makes the rendered body shorter. */
  lemma {:induction false} RawCount(body: seq<Op>)
    requires forall i :: 0 <= i < |body| ==> IsPiece(body[i].line)
    ensures if Separate(body) then |RawLines(body)| == |body| else |RawLines(body)| < |body|
    decreases |body|
  {
    if body == [] {
      RawEmpty();
    } else if IsLine(body[0].line) {
      RawCount(body[1..]);
      RawCons(body);
      SeparateCons(body);
    } else if |body| == 1 {
      PieceAlone(body[0]);
      assert body == [body[0]];
    } else {
      RawCount(body[1..]);
      NoNewline(body[0].line);
      MarksCons(body);
      MarksCons(body[1..]);
      SplitGlued(Mark(body[0]), Join(Marks(body[1..])));
      assert !Separate(body);
    }
  }

  lemma SeparateCons(body: seq<Op>)
    requires body != [] && IsLine(body[0].line)
    ensures Separate(body) <==> Separate(body[1..])
  {
    assert forall i :: 0 < i < |body| ==> body[i] == body[1..][i - 1];
  }

  lemma {:induction false} RawOfSeparate(body: seq<Op>)
    requires Separate(body) && forall i :: 0 <= i < |body| ==> IsPiece(body[i].line)
    ensures RawLines(body) == ChompAll(Marks(body))
    decreases |body|
  {
    if body == [] {
      RawEmpty();
    } else if IsLine(body[0].line) {
      SeparateCons(body);
      RawOfSeparate(body[1..]);
      RawCons(body);
      ChompCons(body);
    } else {
      assert body == [body[0]];
      RawOfOne(body[0]);
    }
  }

  lemma RawOfOne(op: Op)
    requires IsPiece(op.line) && Unterminated(op.line)
    ensures RawLines([op]) == ChompAll(Marks([op]))
  {
    PieceAlone(op);
    assert Marks([op]) == [Mark(op)] && Chomp(Mark(op)) == Mark(op);
  }

  lemma ChompCons(body: seq<Op>)
    requires body != []
    ensures ChompAll(Marks(body)) == [Chomp(Mark(body[0]))] + ChompAll(Marks(body[1..]))
  {
    var first := [Mark(body[0])];
    assert Marks(body) == first + Marks(body[1..]);
    ChompAppend(first, Marks(body[1..]));
    assert ChompAll(first) == [Chomp(Mark(body[0]))];
  }

  /** Ids never collide, so a set of accepted ids selects an arbitrary set of hunks. */
  lemma HunkIdInjective(m: nat, n: nat)
    requires HunkId(m) == HunkId(n)
    ensures m == n
  {
    assert HunkId(m)[5..] == Decimal(m) && HunkId(n)[5..] == Decimal(n);
    DecimalInjective(m, n);
  }

  // ---- applying the accepted hunks -----------------------------------------

  lemma HeaderFields(h: Hunk)
    ensures var count := |OldLines(h.body)|;
            && OldStart(Header(h)) == Some(if count == 0 then h.oldStart - 1 else h.oldStart)
            && OldCount(Header(h)) == Some(count)
  {
    HeaderRange(h);
    RangeReads(h.oldStart, |OldLines(h.body)|);
  }

  /** The word of the header that starts with a minus sign holds the old range. */
  lemma HeaderRange(h: Hunk)
    ensures OldRange(Words(Header(h))) == Range(h.oldStart, |OldLines(h.body)|)
  {
    var old', new' := Range(h.oldStart, |OldLines(h.body)|), Range(h.newStart, |NewLines(h.body)|);
    RangeText(h.oldStart, |OldLines(h.body)|);
    RangeText(h.newStart, |NewLines(h.body)|);
    HeaderWords("-" + old', "+" + new', Header(h));
    assert ["@@", "-" + old', "+" + new', "@@"][1..] == ["-" + old', "+" + new', "@@"];
    assert ("-" + old')[1..] == old';
  }

  /** A range gives back the line it was written for and its count, one when left out. */
  lemma RangeReads(start: nat, count: nat)
    ensures ParseInt(BeforeComma(Range(start, count))) == Some(if count == 0 then start else start + 1)
    ensures count == 1 <==> ',' !in Range(start, count)
    ensures count != 1 ==> ParseInt(BeforeComma(AfterComma(Range(start, count)))) == Some(count)
  {
    var range, first := Range(start, count), if count == 0 then start else start + 1;
    ParseDecimal(first);
    ParseDecimal(count);
    if count == 1 {
      NoComma(Decimal(first));
    } else {
      CommaSplit(Decimal(first), Decimal(count));
      NoComma(Decimal(count));
      assert range == Decimal(first) + "," + Decimal(count);
      assert range[|Decimal(first)|] == ',';
    }
  }

  lemma {:induction false} HeaderWords(a: string, b: string, header: string)
    requires IsWord(a) && IsWord(b) && header == "@@ " + a + " " + b + " @@"
    ensures Words(header) == ["@@", a, b, "@@"]
  {
    FourWords("@@", a, b, "@@");
    assert header == "@@" + " " + (a + " " + (b + " " + "@@"));
  }

  lemma {:induction false} FourWords(a: string, b: string, c: string, d: string)
    requires IsWord(a) && IsWord(b) && IsWord(c) && IsWord(d)
    ensures Words(a + " " + (b + " " + (c + " " + d))) == [a, b, c, d]
  {
    LastWord(d);
    WordThenSpace(c, d);
    var cd := c + " " + d;
    WordThenSpace(b, cd);
    var bcd := b + " " + cd;
    WordThenSpace(a, bcd);
  }

  /** Deletions come before additions wherever lines are replaced. */
  ghost predicate Tidy(body: seq<Op>) {
    forall i, j :: 0 <= i < j < |body| && j == i + 1 ==> !(body[i].Add? && body[j].Del?)
  }

  /** Every line is terminated, except perhaps a deletion that ends the diff. */
  predicate CleanTail(body: seq<Op>) {
    forall i :: 0 <= i < |body| ==> IsLine(body[i].line) || (i == |body| - 1 && body[i].Del?)
  }

  /** What the code writes for an accepted hunk. */
  function Written(body: seq<Op>): seq<string> {
    BodyOutput(RawLines(body))
  }

  function Consumed(body: seq<Op>): nat {
    BodyConsumed(RawLines(body))
  }

  lemma {:induction false} OutputCons(line: string, rest: seq<string>)
    ensures BodyOutput([line] + rest)
         == (if " " <= line || "+" <= line then [WithNewline(line[1..])] else []) + BodyOutput(rest)
    ensures BodyConsumed([line] + rest) == (if " " <= line || "-" <= line then 1 else 0) + BodyConsumed(rest)
  {
    assert ([line] + rest)[1..] == rest;
  }

  lemma RawEmpty()
    ensures RawLines([]) == [] && Written([]) == [] && Consumed([]) == 0
  {
    assert Marks([]) == [] && SplitKeep("") == [];
  }

  lemma MarksCons(body: seq<Op>)
    requires body != []
    ensures Join(Marks(body)) == Mark(body[0]) + Join(Marks(body[1..]))
  {
    assert Marks(body)[1..] == Marks(body[1..]);
  }

  lemma RawCons(body: seq<Op>)
    requires body != [] && IsLine(body[0].line)
    ensures RawLines(body) == [Chomp(Mark(body[0]))] + RawLines(body[1..])
  {
    var l := body[0].line;
    var text := Mark(body[0])[..|l|];
    assert text == [Mark(body[0])[0]] + l[..|l| - 1];
    assert Mark(body[0]) == text + "\n";
    MarksCons(body);
    SplitLinesCons(text, Join(Marks(body[1..])));
  }

  /** What one rendered line, read back without its newline, makes the code do. */
  lemma MarkedLine(op: Op, text: string)
    requires text == Chomp(Mark(op)) && IsPiece(op.line)
    ensures text != "" && text[0] == Mark(op)[0]
    ensures IsLine(op.line) ==> WithNewline(text[1..]) == op.line
  {
    var m, l := Mark(op), op.line;
    assert m == [m[0]] + l;
    if IsLine(l) {
      MarkedWhole(m[0], l);
    }
  }

  lemma MarkedWhole(mark: char, line: string)
    requires IsLine(line)
    ensures Chomp([mark] + line) == [mark] + line[..|line| - 1]
    ensures WithNewline(Chomp([mark] + line)[1..]) == line
  {
    var text := line[..|line| - 1];
    assert Chomp([mark] + line) == [mark] + text;
    assert ([mark] + text)[1..] == text;
    assert text + "\n" == line;
  }

  lemma WholeLineFirst(body: seq<Op>)
    requires body != [] && IsLine(body[0].line)
    ensures Written(body) == (if body[0].Del? then [] else [body[0].line]) + Written(body[1..])
    ensures Consumed(body) == (if body[0].Add? then 0 else 1) + Consumed(body[1..])
  {
    RawCons(body);
    var text, rest := Chomp(Mark(body[0])), RawLines(body[1..]);
    OutputCons(text, rest);
    MarkedLine(body[0], text);
  }

  lemma NoNewline(s: string)
    requires IsPiece(s) && Unterminated(s)
    ensures '\n' !in s
  {
    assert s == s[..|s| - 1] + [s[|s| - 1]];
  }

  lemma PieceAlone(op: Op)
    requires IsPiece(op.line) && Unterminated(op.line)
    ensures RawLines([op]) == [Mark(op)]
    ensures Written([op]) == if op.Del? then [] else [op.line + "\n"]
    ensures Consumed([op]) == if op.Add? then 0 else 1
  {
    var m := Mark(op);
    NoNewline(op.line);
    MarksCons([op]);
    RawEmpty();
    SplitGlued(m, "");
    assert [m] + [] == [m];
    OutputCons(m, []);
    assert m[1..] == op.line;
  }

  /** A deleted line without a newline swallows the added line after it. */
  lemma GluedDeletion(body: seq<Op>)
    requires |body| > 1 && body[0].Del? && body[1].Add?
    requires IsPiece(body[0].line) && Unterminated(body[0].line) && IsPiece(body[1].line)
    requires Unterminated(body[1].line) ==> |body| == 2
    ensures Written(body) == Written(body[2..])
    ensures Consumed(body) == 1 + Consumed(body[2..])
  {
    var m, rest := Mark(body[0]), Join(Marks(body[1..]));
    assert body[1..][1..] == body[2..];
    NoNewline(body[0].line);
    MarksCons(body);
    MarksCons(body[1..]);
    if IsLine(body[1].line) {
      RawCons(body[1..]);
    } else {
      assert body[1..] == [body[1]] && body[2..] == [];
      PieceAlone(body[1]);
      RawEmpty();
    }
    var glued := GluedHead(m, rest, RawLines(body[2..]));
    OutputCons(glued, RawLines(body[2..]));
  }

  lemma GluedHead(m: string, rest: string, tail: seq<string>) returns (glued: string)
    requires m != "" && '\n' !in m && rest != "" && |SplitLines(rest)| > 0 && SplitLines(rest)[1..] == tail
    ensures SplitLines(m + rest) == [glued] + tail && glued != "" && glued[0] == m[0]
  {
    var k := FirstLineLength(rest);
    SplitOpen(m, rest);
    glued := Chomp(m + rest[..k]);
    var later := SplitKeep(rest[k..]);
    ChompAppend([m + rest[..k]], later);
    ChompAppend([rest[..k]], later);
    assert ChompAll([m + rest[..k]]) == [glued];
  }

  lemma {:induction false} OutputEndsLine(lines: seq<string>)
    ensures EndsLine(Join(BodyOutput(lines)))
  {
    if lines != [] {
      OutputEndsLine(lines[1..]);
    }
  }

  lemma TailOnlyTail(lines: seq<string>)
    requires TailOnly(lines) && lines != []
    ensures TailOnly(lines[1..])
  {
    forall i | 0 <= i < |lines| - 1 ensures lines[1..][i] == lines[i + 1] {
    }
  }

  lemma {:induction false} JoinEndsLine(lines: seq<string>)
    requires TailOnly(lines) && lines != []
    ensures Join(lines) != ""
    ensures EndsLine(Join(lines)) <==> !Unterminated(lines[|lines| - 1])
  {
    if |lines| == 1 {
      assert Join(lines) == lines[0] + "";
    } else {
      TailOnlyTail(lines);
      JoinEndsLine(lines[1..]);
    }
  }

  lemma {:induction false} LinesCons(body: seq<Op>)
    requires body != []
    ensures NewLines(body) == (if body[0].Del? then [] else [body[0].line]) + NewLines(body[1..])
    ensures OldLines(body) == (if body[0].Add? then [] else [body[0].line]) + OldLines(body[1..])
  {
  }

  /** The shape of a body taken from two split texts. */
  ghost predicate FromTexts(body: seq<Op>) {
    TailOnly(OldLines(body)) && TailOnly(NewLines(body)) && Tidy(body)
  }

  lemma FromTextsTail(body: seq<Op>)
    requires body != [] && FromTexts(body)
    ensures FromTexts(body[1..]) && IsPiece(body[0].line)
  {
    LinesCons(body);
    if body[0].Add? {
      assert NewLines(body)[0] == body[0].line;
      TailOnlyTail(NewLines(body));
      assert NewLines(body)[1..] == NewLines(body[1..]);
      assert OldLines(body) == OldLines(body[1..]);
    } else {
      assert OldLines(body)[0] == body[0].line;
      TailOnlyTail(OldLines(body));
      assert OldLines(body)[1..] == OldLines(body[1..]);
      if body[0].Keep? {
        TailOnlyTail(NewLines(body));
        assert NewLines(body)[1..] == NewLines(body[1..]);
      } else {
        assert NewLines(body) == NewLines(body[1..]);
      }
    }
    forall i | 0 <= i < |body[1..]| ensures body[1..][i] == body[i + 1] {
    }
  }

  lemma {:induction false} NoNewLines(body: seq<Op>)
    requires NewLines(body) == []
    ensures forall k :: 0 <= k < |body| ==> body[k].Del?
  {
    if body != [] {
      LinesCons(body);
      NoNewLines(body[1..]);
    }
  }

  lemma {:induction false} NoOldLines(body: seq<Op>)
    requires OldLines(body) == []
    ensures Additions(body)
  {
    if body != [] {
      LinesCons(body);
      NoOldLines(body[1..]);
    }
  }

  predicate Additions(body: seq<Op>) {
    forall k :: 0 <= k < |body| ==> body[k].Add?
  }

  /** The first line, when it lacks its newline, is the last of each text it is in. */
  lemma {:induction false} FirstIsLast(body: seq<Op>)
    requires body != [] && FromTexts(body) && Unterminated(body[0].line)
    ensures !body[0].Del? ==> NewLines(body) == [body[0].line]
    ensures !body[0].Add? ==> OldLines(body) == [body[0].line]
    ensures |body| > 1 ==> body[0].Del? && Additions(body[1..])
  {
    LinesCons(body);
    if !body[0].Del? {
      assert NewLines(body)[0] == body[0].line;
      assert |NewLines(body)| == 1;
      NoNewLines(body[1..]);
    }
    if !body[0].Add? {
      assert OldLines(body)[0] == body[0].line;
      assert |OldLines(body)| == 1;
      NoOldLines(body[1..]);
    }
    if |body| > 1 {
      assert body[1] == body[1..][0];
    }
  }

  lemma CleanTailCons(body: seq<Op>)
    requires body != [] && IsLine(body[0].line)
    ensures CleanTail(body) <==> CleanTail(body[1..])
  {
    forall i | 0 < i < |body| ensures body[i] == body[1..][i - 1] {
    }
    if CleanTail(body) {
      forall i | 0 <= i < |body[1..]| ensures IsLine(body[1..][i].line) || (i == |body[1..]| - 1 && body[1..][i].Del?) {
        assert body[1..][i] == body[i + 1];
      }
    }
  }

  /** The code moves over the old lines of a body, and writes its new lines exactly
      when no rendered line loses its newline to the next, or gains one. */
  ghost predicate AppliesFaithfully(body: seq<Op>) {
    && Consumed(body) == |OldLines(body)|
    && (CleanTail(body) ==> Written(body) == NewLines(body))
    && (!CleanTail(body) ==> Join(Written(body)) != Join(NewLines(body)))
  }

  lemma {:induction false} WrittenBody(body: seq<Op>)
    requires FromTexts(body)
    ensures AppliesFaithfully(body)
    decreases |body|
  {
    if body == [] {
      RawEmpty();
    } else {
      FromTextsTail(body);
      if IsLine(body[0].line) {
        WrittenBody(body[1..]);
        WholeLineBody(body);
      } else {
        FirstIsLast(body);
        if |body| == 1 {
          LonePiece(body[0]);
          assert body == [body[0]];
        } else {
          LostAddition(body);
        }
      }
    }
  }

  lemma WholeLineBody(body: seq<Op>)
    requires body != [] && IsLine(body[0].line) && AppliesFaithfully(body[1..])
    ensures AppliesFaithfully(body)
  {
    WholeLineFirst(body);
    CleanTailCons(body);
    LinesCons(body);
    var head := if body[0].Del? then [] else [body[0].line];
    var w, n := Written(body[1..]), NewLines(body[1..]);
    JoinCancel(head, w, n);
    assert Written(body) == head + w && NewLines(body) == head + n;
  }

  lemma LonePiece(op: Op)
    requires IsPiece(op.line) && Unterminated(op.line)
    ensures AppliesFaithfully([op])
  {
    PieceAlone(op);
    LinesCons([op]);
    assert CleanTail([op]) <==> op.Del? by {
      assert [op][0] == op;
    }
    assert Join([op.line + "\n"]) == op.line + "\n" + "" && Join([op.line]) == op.line + "";
  }

  lemma {:induction false} LostLines(body: seq<Op>)
    requires |body| > 1 && FromTexts(body) && body[0].Del? && Additions(body[1..])
    ensures OldLines(body) == [body[0].line] && NewLines(body) == [body[1].line] + NewLines(body[2..])
    ensures FromTexts(body[1..]) && FromTexts(body[2..]) && IsPiece(body[0].line) && IsPiece(body[1].line)
  {
    assert body[1] == body[1..][0] && body[1..][1..] == body[2..];
    LinesCons(body);
    LinesCons(body[1..]);
    AdditionsHaveNoOld(body[1..]);
    FromTextsTail(body);
    FromTextsTail(body[1..]);
  }

  lemma LostWritten(body: seq<Op>)
    requires |body| > 1 && FromTexts(body[1..]) && body[0].Del? && Additions(body[1..])
    requires IsPiece(body[0].line) && IsPiece(body[1].line) && Unterminated(body[0].line)
    ensures Written(body) == Written(body[2..]) && Consumed(body) == 1 + Consumed(body[2..])
  {
    assert body[1] == body[1..][0] && body[1..][1..] == body[2..];
    if Unterminated(body[1].line) {
      FirstIsLast(body[1..]);
    }
    GluedDeletion(body);
  }

  /** A deletion without its newline in front of additions loses the first of them. */
  lemma LostAddition(body: seq<Op>)
    requires |body| > 1 && FromTexts(body) && body[0].Del? && Additions(body[1..])
    requires Unterminated(body[0].line)
    ensures AppliesFaithfully(body)
  {
    LostLines(body);
    LostWritten(body);
    OnlyAdditions(body[2..]);
    OutputEndsLine(RawLines(body));
    LostLine(body[1].line, Written(body), NewLines(body[2..]));
    assert !CleanTail(body) by {
      assert !IsLine(body[0].line);
    }
  }

  lemma {:induction false} AdditionsHaveNoOld(body: seq<Op>)
    requires Additions(body)
    ensures OldLines(body) == []
  {
    if body != [] {
      LinesCons(body);
      AdditionsHaveNoOld(body[1..]);
    }
  }

  lemma {:induction false} LostLine(line: string, written: seq<string>, rest: seq<string>)
    requires TailOnly([line] + rest) && EndsLine(Join(written))
    requires AllLines(rest) ==> written == rest
    ensures Join(written) != Join([line] + rest)
  {
    var lines := [line] + rest;
    assert IsPiece(lines[0]);
    JoinCons(line, rest);
    JoinEndsLine(lines);
    if EndsLine(Join(lines)) {
      forall i | 0 <= i < |rest| ensures IsLine(rest[i]) {
        assert rest[i] == lines[i + 1];
      }
    }
  }

  lemma {:induction false} OnlyAdditions(body: seq<Op>)
    requires Additions(body) && FromTexts(body)
    ensures Consumed(body) == 0
    ensures AllLines(NewLines(body)) ==> Written(body) == NewLines(body)
    decreases |body|
  {
    if body == [] {
      RawEmpty();
    } else {
      FromTextsTail(body);
      LinesCons(body);
      if IsLine(body[0].line) {
        WholeLineFirst(body);
        OnlyAdditions(body[1..]);
        assert NewLines(body)[1..] == NewLines(body[1..]);
      } else {
        FirstIsLast(body);
        assert body == [body[0]];
        PieceAlone(body[0]);
        assert !IsLine(NewLines(body)[0]);
      }
    }
  }

  // ---- the whole text ------------------------------------------------------

  ghost predicate AllFromTexts(hunks: seq<Hunk>) {
    forall k :: 0 <= k < |hunks| ==> FromTexts(hunks[k].body)
  }

  /** Left to right, from `cursor` on: common text, then each hunk's new or old lines.
      With `raw` the accepted lines are the ones the code writes. */
  function Copied(source: seq<string>, hunks: seq<Hunk>, n: nat, accepted: set<string>, cursor: nat, raw: bool)
    : seq<string>
    requires Within(hunks, cursor, |source|)
    decreases hunks
  {
    if hunks == [] then source[cursor..] else
    var h := hunks[0];
    var piece :=
      if HunkId(n + 1) !in accepted then source[h.oldStart..OldEnd(h)]
      else if raw then Written(h.body) else NewLines(h.body);
    source[cursor..h.oldStart] + piece + Copied(source, hunks[1..], n + 1, accepted, OldEnd(h), raw)
  }

  predicate Within(hunks: seq<Hunk>, cursor: nat, limit: nat)
    decreases hunks
  {
    if hunks == [] then cursor <= limit
    else cursor <= hunks[0].oldStart && OldEnd(hunks[0]) <= limit && Within(hunks[1..], OldEnd(hunks[0]), limit)
  }

  lemma {:induction false} DescribedWithin(before: seq<string>, after: seq<string>, hunks: seq<Hunk>, i: nat, j: nat)
    requires i <= |before| && j <= |after| && Describes(before, after, hunks, i, j)
    ensures Within(hunks, i, |before|)
    decreases hunks
  {
    if hunks != [] {
      DescribedWithin(before, after, hunks[1..], OldEnd(hunks[0]), hunks[0].newStart + |NewLines(hunks[0].body)|);
    }
  }

  lemma {:induction false} WithinOrdered(hunks: seq<Hunk>, cursor: nat, limit: nat)
    requires Within(hunks, cursor, limit)
    ensures Ordered(hunks, limit)
    ensures cursor <= limit && forall k :: 0 <= k < |hunks| ==> cursor <= hunks[k].oldStart
    decreases hunks
  {
    if hunks != [] {
      WithinOrdered(hunks[1..], OldEnd(hunks[0]), limit);
      forall k | 0 < k < |hunks| ensures hunks[k] == hunks[1..][k - 1] {
      }
    }
  }

  /** A hunk without old lines stands only in front of an empty source. */
  ghost predicate Anchored(source: seq<string>, hunks: seq<Hunk>) {
    source == [] || forall k :: 0 <= k < |hunks| ==> OldLines(hunks[k].body) != []
  }

  lemma {:induction false} DescribedAnchored(before: seq<string>, after: seq<string>, hunks: seq<Hunk>, i: nat, j: nat)
    requires i <= |before| && j <= |after| && Describes(before, after, hunks, i, j)
    ensures Anchored(before, hunks)
    decreases hunks
  {
    if hunks != [] {
      DescribedAnchored(before, after, hunks[1..], OldEnd(hunks[0]), hunks[0].newStart + |NewLines(hunks[0].body)|);
      assert forall k :: 0 < k < |hunks| ==> hunks[k] == hunks[1..][k - 1];
    }
  }

  /** `apply_hunks` on a rendered diff is the left-to-right copy. */
  lemma {:induction false} ApplyIsCopy(before: seq<string>, hunks: seq<Hunk>, i: nat, n: nat, accepted: set<string>,
                                       cursor: int)
    requires AllFromTexts(hunks) && Anchored(before, hunks) && Within(hunks, i, |before|)
    requires cursor == i || before == []
    ensures ApplyFrom(before, Parsed(hunks, n), accepted, cursor)
         == Success(Copied(before, hunks, n, accepted, i, true))
    decreases hunks
  {
    if hunks != [] {
      var h, rest := hunks[0], hunks[1..];
      assert AllFromTexts(rest) && Anchored(before, rest);
      HeaderFields(h);
      WrittenBody(h.body);
      StepIsCopy(before, h, ParsedAs(h, n), accepted, i, cursor);
      var step := HunkStep(before, ParsedAs(h, n), accepted, cursor).value;
      ApplyIsCopy(before, rest, OldEnd(h), n + 1, accepted, step.1);
      ParsedCons(hunks, n);
      ApplyCons(before, ParsedAs(h, n), Parsed(rest, n + 1), accepted, cursor, step,
                Copied(before, rest, n + 1, accepted, OldEnd(h), true));
    }
  }

  lemma {:induction false} ApplyCons(source: seq<string>, first: ParsedHunk, rest: seq<ParsedHunk>,
                                     accepted: set<string>, cursor: int, step: (seq<string>, int), tail: seq<string>)
    requires HunkStep(source, first, accepted, cursor) == Some(step)
    requires ApplyFrom(source, rest, accepted, step.1) == Success(tail)
    ensures ApplyFrom(source, [first] + rest, accepted, cursor) == Success(step.0 + tail)
  {
    assert ([first] + rest)[1..] == rest;
  }

  lemma StepIsCopy(before: seq<string>, h: Hunk, parsed: ParsedHunk, accepted: set<string>, i: nat, cursor: int)
    requires i <= h.oldStart && OldEnd(h) <= |before| && (OldLines(h.body) == [] ==> before == [])
    requires cursor == i || before == []
    requires parsed.lines == RawLines(h.body) && Consumed(h.body) == |OldLines(h.body)|
    requires var count := |OldLines(h.body)|;
             && OldStart(parsed.header) == Some(if count == 0 then h.oldStart - 1 else h.oldStart)
             && OldCount(parsed.header) == Some(count)
    ensures var step := HunkStep(before, parsed, accepted, cursor);
            && step.Some?
            && (step.value.1 == OldEnd(h) || before == [])
            && step.value.0 == before[i..h.oldStart]
                             + if parsed.id in accepted then Written(h.body) else before[h.oldStart..OldEnd(h)]
  {
    var count := |OldLines(h.body)|;
    StepValue(before, parsed, accepted, cursor, i,
              if count == 0 then h.oldStart - 1 else h.oldStart, count, h.oldStart);
  }

  lemma StepValue(before: seq<string>, parsed: ParsedHunk, accepted: set<string>, cursor: int,
                  i: nat, start: int, count: nat, lo: nat)
    requires OldStart(parsed.header) == Some(start) && OldCount(parsed.header) == Some(count)
    requires i <= lo && lo + count <= |before| && BodyConsumed(parsed.lines) == count
    requires before == [] || (cursor == i && start == lo)
    ensures HunkStep(before, parsed, accepted, cursor)
         == Some((before[i..lo] + (if parsed.id in accepted then BodyOutput(parsed.lines) else before[lo..lo + count]),
                  start + count))
  {
    SliceWithin(before, cursor, start, i, lo);
    SliceWithin(before, start, start + count, lo, lo + count);
  }

  /** Slicing within bounds is plain; an empty text has only empty slices. */
  lemma SliceWithin(lines: seq<string>, i: int, j: int, lo: nat, hi: nat)
    requires lo <= hi <= |lines| && (lines == [] || (i == lo && j == hi))
    ensures Slice(lines, i, j) == lines[lo..hi]
  {
  }

  /** The right-to-left splice agrees with the left-to-right copy. */
  lemma {:induction false} SpliceFirst(source: seq<string>, h: Hunk, rest: seq<Hunk>, n: nat, accepted: set<string>)
    requires Ordered([h] + rest, |source|) && Ordered(rest, |source|) && OldEnd(h) <= |source|
    ensures OldEnd(h) <= |Patched(source, rest, n + 1, accepted)|
    ensures Patched(source, rest, n + 1, accepted)[..OldEnd(h)] == source[..OldEnd(h)]
    ensures Patched(source, [h] + rest, n, accepted)
         == source[..h.oldStart]
            + (if HunkId(n + 1) in accepted then NewLines(h.body) else source[h.oldStart..OldEnd(h)])
            + Patched(source, rest, n + 1, accepted)[OldEnd(h)..]
    decreases |rest|
  {
    var all := [h] + rest;
    assert all[0] == h;
    if rest == [] {
      assert all[..0] == [] && |all| == 1;
      assert source == source[..h.oldStart] + source[h.oldStart..OldEnd(h)] + source[OldEnd(h)..];
    } else {
      var last := rest[|rest| - 1];
      assert all[|all| - 1] == last;
      assert all[..|all| - 1] == [h] + rest[..|rest| - 1];
      var spliced :=
        if HunkId(n + |all|) in accepted
        then source[..last.oldStart] + NewLines(last.body) + source[OldEnd(last)..]
        else source;
      assert OldEnd(h) <= last.oldStart;
      assert spliced[..OldEnd(h)] == source[..OldEnd(h)];
      assert spliced[..h.oldStart] == source[..h.oldStart];
      assert spliced[h.oldStart..OldEnd(h)] == source[h.oldStart..OldEnd(h)];
      OrderedPrefix(all, |source|);
      OrderedPrefix(rest, |source|);
      OrderedBelow(all[..|all| - 1], last.oldStart, |spliced|);
      OrderedBelow(rest[..|rest| - 1], last.oldStart, |spliced|);
      SpliceFirst(spliced, h, rest[..|rest| - 1], n, accepted);
    }
  }

  lemma OrderedPrefix(hunks: seq<Hunk>, limit: nat)
    requires hunks != [] && Ordered(hunks, limit)
    ensures Ordered(hunks[..|hunks| - 1], hunks[|hunks| - 1].oldStart)
  {
  }

  lemma OrderedBelow(hunks: seq<Hunk>, low: nat, high: nat)
    requires Ordered(hunks, low) && low <= high
    ensures Ordered(hunks, high)
  {
  }

  lemma {:induction false} SpliceIsCopy(source: seq<string>, hunks: seq<Hunk>, n: nat,
                                        accepted: set<string>, cursor: nat)
    requires Within(hunks, cursor, |source|) && Ordered(hunks, |source|)
    ensures Patched(source, hunks, n, accepted) == source[..cursor] + Copied(source, hunks, n, accepted, cursor, false)
    decreases hunks
  {
    if hunks == [] {
      assert source == source[..cursor] + source[cursor..];
    } else {
      var h, rest := hunks[0], hunks[1..];
      assert hunks == [h] + rest;
      WithinOrdered(rest, OldEnd(h), |source|);
      SpliceFirst(source, h, rest, n, accepted);
      SpliceIsCopy(source, rest, n + 1, accepted, OldEnd(h));
      var piece := if HunkId(n + 1) in accepted then NewLines(h.body) else source[h.oldStart..OldEnd(h)];
      Regroup(source, cursor, h.oldStart, OldEnd(h), piece,
              Patched(source, rest, n + 1, accepted), Copied(source, rest, n + 1, accepted, OldEnd(h), false));
    }
  }

  lemma Regroup(source: seq<string>, i: nat, j: nat, k: nat, piece: seq<string>,
                patched: seq<string>, tail: seq<string>)
    requires i <= j <= k <= |source| && patched == source[..k] + tail
    ensures source[..j] + piece + patched[k..] == source[..i] + (source[i..j] + piece + tail)
  {
    assert patched[k..] == tail;
    assert source[..j] == source[..i] + source[i..j];
  }

  predicate LastIsClean(hunks: seq<Hunk>, n: nat, accepted: set<string>) {
    hunks == [] || HunkId(n + |hunks|) !in accepted || CleanTail(hunks[|hunks| - 1].body)
  }

  /** The code's copy is the intended one exactly when the last hunk, if accepted, is clean. */
  lemma {:induction false} CopyIsExact(before: seq<string>, after: seq<string>, hunks: seq<Hunk>,
                                       i: nat, j: nat, n: nat, accepted: set<string>)
    requires i <= |before| && j <= |after| && Describes(before, after, hunks, i, j) && AllFromTexts(hunks)
    requires Within(hunks, i, |before|)
    ensures Join(Copied(before, hunks, n, accepted, i, true)) == Join(Copied(before, hunks, n, accepted, i, false))
       <==> LastIsClean(hunks, n, accepted)
    decreases hunks
  {
    if hunks != [] {
      var h, rest := hunks[0], hunks[1..];
      CopyIsExact(before, after, rest, OldEnd(h), h.newStart + |NewLines(h.body)|, n + 1, accepted);
      WrittenBody(h.body);
      var gap, old' := before[i..h.oldStart], before[h.oldStart..OldEnd(h)];
      var raw := Copied(before, rest, n + 1, accepted, OldEnd(h), true);
      var clean := Copied(before, rest, n + 1, accepted, OldEnd(h), false);
      if |hunks| > 1 {
        assert hunks[|hunks| - 1] == rest[|rest| - 1] && CleanTail(h.body);
        JoinCancel(gap + if HunkId(n + 1) in accepted then NewLines(h.body) else old', raw, clean);
      } else if HunkId(n + 1) in accepted {
        var w, l := Written(h.body), NewLines(h.body);
        JoinCancel(gap, w, l);
        JoinCancelTail(gap + w, gap + l, raw);
      }
    }
  }

  lemma {:induction false} SplitTailOnly(s: string)
    ensures TailOnly(SplitKeep(s))
  {
    if s != "" {
      var k := FirstLineLength(s);
      FirstLineHasNoBreak(s);
      SplitHead(s);
      SplitTailOnly(s[k..]);
      assert s[..k][..k - 1] == s[..k - 1];
      var lines := SplitKeep(s);
      forall i | 0 < i < |lines| ensures lines[i] == SplitKeep(s[k..])[i - 1] {
      }
    }
  }

  lemma TailOnlySlice(lines: seq<string>, i: nat, j: nat)
    requires TailOnly(lines) && i <= j <= |lines|
    ensures TailOnly(lines[i..j])
  {
    forall k | 0 <= k < j - i ensures lines[i..j][k] == lines[i + k] {
    }
  }

  /** Hunks between two split texts have the shape the code relies on. */
  lemma {:induction false} DescribedShape(before: seq<string>, after: seq<string>, hunks: seq<Hunk>, i: nat, j: nat)
    requires i <= |before| && j <= |after| && Describes(before, after, hunks, i, j)
    requires TailOnly(before) && TailOnly(after)
    requires forall k :: 0 <= k < |hunks| ==> Tidy(hunks[k].body)
    ensures AllFromTexts(hunks) && WellRendered(hunks)
    decreases hunks
  {
    if hunks != [] {
      var h, rest := hunks[0], hunks[1..];
      var oldEnd, newEnd := OldEnd(h), h.newStart + |NewLines(h.body)|;
      TailOnlySlice(before, h.oldStart, oldEnd);
      TailOnlySlice(after, h.newStart, newEnd);
      DescribedShape(before, after, rest, oldEnd, newEnd);
      BodyPieces(h.body);
      assert AllFromTexts(hunks) by {
        forall k | 0 <= k < |hunks| ensures FromTexts(hunks[k].body) {
          if k > 0 {
            assert hunks[k] == rest[k - 1];
          }
        }
      }
    }
  }

  lemma {:induction false} BodyPieces(body: seq<Op>)
    requires FromTexts(body)
    ensures forall i :: 0 <= i < |body| ==> IsPiece(body[i].line)
  {
    if body != [] {
      FromTextsTail(body);
      BodyPieces(body[1..]);
      forall i | 0 < i < |body| ensures body[i] == body[1..][i - 1] {
      }
    }
  }

  lemma {:induction false} NoneCopied(source: seq<string>, hunks: seq<Hunk>, n: nat, accepted: set<string>, cursor: nat)
    requires Within(hunks, cursor, |source|)
    requires forall k :: n < k <= n + |hunks| ==> HunkId(k) !in accepted
    ensures Copied(source, hunks, n, accepted, cursor, false) == source[cursor..]
    decreases hunks
  {
    if hunks != [] {
      NoneCopied(source, hunks[1..], n + 1, accepted, OldEnd(hunks[0]));
      SplitThree(source, cursor, hunks[0].oldStart, OldEnd(hunks[0]));
    }
  }

  lemma {:induction false} AllCopied(before: seq<string>, after: seq<string>, hunks: seq<Hunk>,
                                     i: nat, j: nat, n: nat, accepted: set<string>)
    requires i <= |before| && j <= |after| && Describes(before, after, hunks, i, j) && Within(hunks, i, |before|)
    requires forall k :: n < k <= n + |hunks| ==> HunkId(k) in accepted
    ensures Copied(before, hunks, n, accepted, i, false) == after[j..]
    decreases hunks
  {
    if hunks != [] {
      var h := hunks[0];
      var newEnd := h.newStart + |NewLines(h.body)|;
      AllCopied(before, after, hunks[1..], OldEnd(h), newEnd, n + 1, accepted);
      CopiedAccepted(before, hunks, n, accepted, i);
      SplitThree(after, j, h.newStart, newEnd);
    }
  }

  lemma {:induction false} CopiedAccepted(source: seq<string>, hunks: seq<Hunk>, n: nat, accepted: set<string>,
                                          cursor: nat)
    requires hunks != [] && Within(hunks, cursor, |source|) && HunkId(n + 1) in accepted
    ensures Copied(source, hunks, n, accepted, cursor, false)
         == source[cursor..hunks[0].oldStart] + NewLines(hunks[0].body)
            + Copied(source, hunks[1..], n + 1, accepted, OldEnd(hunks[0]), false)
  {
  }

  lemma SplitThree<T>(s: seq<T>, i: nat, j: nat, k: nat)
    requires i <= j <= k <= |s|
    ensures s[i..] == s[i..j] + s[j..k] + s[k..]
  {
  }

  /** A diff between two texts, in the order `difflib` writes one. */
  ghost predicate IsDiff(before: string, after: string, hunks: seq<Hunk>) {
    && Describes(SplitKeep(before), SplitKeep(after), hunks, 0, 0)
    && forall k :: 0 <= k < |hunks| ==> Tidy(hunks[k].body)
  }

  lemma {:induction false} DiffOrdered(before: string, after: string, hunks: seq<Hunk>)
    requires IsDiff(before, after, hunks)
    ensures Within(hunks, 0, |SplitKeep(before)|) && Ordered(hunks, |SplitKeep(before)|)
  {
    DescribedWithin(SplitKeep(before), SplitKeep(after), hunks, 0, 0);
    WithinOrdered(hunks, 0, |SplitKeep(before)|);
  }

  /** The text that review promises: the accepted ranges replaced, all else kept. */
  ghost function Reviewed(before: string, after: string, hunks: seq<Hunk>, accepted: set<string>): string
    requires IsDiff(before, after, hunks)
  {
    DiffOrdered(before, after, hunks);
    Join(Patched(SplitKeep(before), hunks, 0, accepted))
  }

  /** For every accepted set, `apply_hunks` succeeds, and it writes the promised text
      exactly when the last hunk is rejected, or no line of it lacks its newline but a
      deletion that ends the diff. */
  lemma AppliesAcceptedHunks(before: string, after: string, path: string, hunks: seq<Hunk>, accepted: set<string>)
    requires '\n' !in path && IsDiff(before, after, hunks)
    ensures var r := ApplyText(before, Render(path, hunks), accepted);
            r.Success? && (r.value == Reviewed(before, after, hunks, accepted) <==> LastIsClean(hunks, 0, accepted))
  {
    var old', new' := SplitKeep(before), SplitKeep(after);
    SplitTailOnly(before);
    SplitTailOnly(after);
    DescribedShape(old', new', hunks, 0, 0);
    DiffOrdered(before, after, hunks);
    ParseRender(path, hunks);
    DescribedAnchored(old', new', hunks, 0, 0);
    ApplyIsCopy(old', hunks, 0, 0, accepted, 0);
    SpliceIsCopy(old', hunks, 0, accepted, 0);
    assert old'[..0] + Copied(old', hunks, 0, accepted, 0, false) == Copied(old', hunks, 0, accepted, 0, false);
    CopyIsExact(old', new', hunks, 0, 0, 0, accepted);
  }

  lemma AcceptNone(before: string, after: string, path: string, hunks: seq<Hunk>, accepted: set<string>)
    requires '\n' !in path && IsDiff(before, after, hunks)
    requires forall k :: 0 < k <= |hunks| ==> HunkId(k) !in accepted
    ensures ApplyText(before, Render(path, hunks), accepted) == Success(before)
  {
    AppliesAcceptedHunks(before, after, path, hunks, accepted);
    NoneReviewed(before, after, hunks, accepted);
  }

  lemma {:induction false} NoneReviewed(before: string, after: string, hunks: seq<Hunk>, accepted: set<string>)
    requires IsDiff(before, after, hunks)
    requires forall k :: 0 < k <= |hunks| ==> HunkId(k) !in accepted
    ensures Reviewed(before, after, hunks, accepted) == before
  {
    var old' := SplitKeep(before);
    DiffOrdered(before, after, hunks);
    SpliceIsCopy(old', hunks, 0, accepted, 0);
    NoneCopied(old', hunks, 0, accepted, 0);
    assert old'[..0] + old'[0..] == old';
    JoinSplit(before);
  }

  lemma AcceptAll(before: string, after: string, path: string, hunks: seq<Hunk>, accepted: set<string>)
    requires '\n' !in path && IsDiff(before, after, hunks)
    requires forall k :: 0 < k <= |hunks| ==> HunkId(k) in accepted
    ensures ApplyText(before, Render(path, hunks), accepted) == Success(after)
       <==> hunks == [] || CleanTail(hunks[|hunks| - 1].body)
  {
    AppliesAcceptedHunks(before, after, path, hunks, accepted);
    AllReviewed(before, after, hunks, accepted);
  }

  lemma {:induction false} AllReviewed(before: string, after: string, hunks: seq<Hunk>, accepted: set<string>)
    requires IsDiff(before, after, hunks)
    requires forall k :: 0 < k <= |hunks| ==> HunkId(k) in accepted
    ensures Reviewed(before, after, hunks, accepted) == after
  {
    var old', new' := SplitKeep(before), SplitKeep(after);
    DiffOrdered(before, after, hunks);
    SpliceIsCopy(old', hunks, 0, accepted, 0);
    AllCopied(old', new', hunks, 0, 0, 0, accepted);
    assert old'[..0] + new'[0..] == new';
    JoinSplit(after);
  }

  /** Texts whose lines are all terminated are always reviewed exactly. */
  lemma TerminatedTexts(before: string, after: string, path: string, hunks: seq<Hunk>, accepted: set<string>)
    requires '\n' !in path && IsDiff(before, after, hunks)
    requires AllLines(SplitKeep(before)) && AllLines(SplitKeep(after))
    ensures ApplyText(before, Render(path, hunks), accepted) == Success(Reviewed(before, after, hunks, accepted))
  {
    AppliesAcceptedHunks(before, after, path, hunks, accepted);
    if hunks != [] {
      LastTerminated(SplitKeep(before), SplitKeep(after), hunks, 0, 0);
    }
  }

  lemma {:induction false} LastTerminated(before: seq<string>, after: seq<string>, hunks: seq<Hunk>, i: nat, j: nat)
    requires i <= |before| && j <= |after| && Describes(before, after, hunks, i, j) && hunks != []
    requires AllLines(before) && AllLines(after)
    ensures TerminatedBody(hunks[|hunks| - 1].body)
    decreases hunks
  {
    var h := hunks[0];
    var oldEnd, newEnd := OldEnd(h), h.newStart + |NewLines(h.body)|;
    if |hunks| > 1 {
      LastTerminated(before, after, hunks[1..], oldEnd, newEnd);
    } else {
      SliceTerminated(before, h.oldStart, oldEnd);
      SliceTerminated(after, h.newStart, newEnd);
      LinesTerminated(h.body);
    }
  }

  lemma SliceTerminated(lines: seq<string>, i: nat, j: nat)
    requires AllLines(lines) && i <= j <= |lines|
    ensures AllLines(lines[i..j])
  {
    forall k | 0 <= k < j - i ensures lines[i..j][k] == lines[i + k] {
    }
  }

  lemma {:induction false} LinesTerminated(body: seq<Op>)
    requires AllLines(OldLines(body)) && AllLines(NewLines(body))
    ensures TerminatedBody(body)
  {
    if body != [] {
      LinesCons(body);
      AllLinesAppend(if body[0].Add? then [] else [body[0].line], OldLines(body[1..]));
      AllLinesAppend(if body[0].Del? then [] else [body[0].line], NewLines(body[1..]));
      LinesTerminated(body[1..]);
      assert [body[0].line][0] == body[0].line;
      forall i | 0 < i < |body| ensures body[i] == body[1..][i - 1] {
      }
    }
  }

  lemma AllLinesAppend(a: seq<string>, b: seq<string>)
    requires AllLines(a + b)
    ensures AllLines(a) && AllLines(b)
  {
    forall i | 0 <= i < |a| ensures IsLine(a[i]) {
      assert (a + b)[i] == a[i];
    }
    forall i | 0 <= i < |b| ensures IsLine(b[i]) {
      assert (a + b)[|a| + i] == b[i];
    }
  }

  /** The smallest failure: replacing the only line of a file that does not end in a
      newline, and accepting it, loses the new text. */
  lemma UnterminatedReplacementIsLost()
    ensures IsDiff("a", "b\n", [Hunk(0, 0, [Del("a"), Add("b\n")])])
    ensures ApplyText("a", Render("f", [Hunk(0, 0, [Del("a"), Add("b\n")])]), {HunkId(1)}) != Success("b\n")
  {
    var body := [Del("a"), Add("b\n")];
    var hunks := [Hunk(0, 0, body)];
    ReplacementIsDiff(body);
    assert !CleanTail(body) by {
      assert !IsLine(body[0].line);
    }
    AcceptAll("a", "b\n", "f", hunks, {HunkId(1)});
  }

  /** One hunk that takes all of one text to all of the other. */
  lemma {:induction false} WholeIsDescribed(before: seq<string>, after: seq<string>, body: seq<Op>)
    requires OldLines(body) == before && NewLines(body) == after
    ensures Describes(before, after, [Hunk(0, 0, body)], 0, 0)
  {
    var hunks := [Hunk(0, 0, body)];
    assert hunks[1..] == [];
    assert before[0..|before|] == before && after[0..|after|] == after;
    assert Describes(before, after, hunks[1..], |before|, |after|);
  }

  lemma {:induction false} ReplacedLines(body: seq<Op>)
    requires |body| == 2 && body[0].Del? && body[1].Add?
    ensures OldLines(body) == [body[0].line] && NewLines(body) == [body[1].line] && Tidy(body)
  {
    LinesCons(body);
    LinesCons(body[1..]);
    assert body[1..][1..] == [];
  }

  lemma ReplacedTexts()
    ensures SplitKeep("a") == ["a"] && SplitKeep("b\n") == ["b\n"]
  {
    SplitOne("a");
    SplitCons("b\n", "");
    assert "b\n" + "" == "b\n" && SplitKeep("") == [];
  }

  lemma ReplacementIsDiff(body: seq<Op>)
    requires body == [Del("a"), Add("b\n")]
    ensures IsDiff("a", "b\n", [Hunk(0, 0, body)])
  {
    ReplacedLines(body);
    ReplacedTexts();
    WholeIsDescribed(["a"], ["b\n"], body);
  }
}
