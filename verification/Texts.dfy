/** The Python text primitives the modelled code relies on, over strings whose
    only line separator is `\n`. */
module Texts {
  import opened Wrappers

  // ---- lines ---------------------------------------------------------------

  /** One newline-terminated line. */
  predicate IsLine(s: string) {
    |s| > 0 && s[|s| - 1] == '\n' && '\n' !in s[..|s| - 1]
  }

  predicate EndsLine(s: string) {
    s == "" || s[|s| - 1] == '\n'
  }

  predicate AllLines(lines: seq<string>) {
    forall i :: 0 <= i < |lines| ==> IsLine(lines[i])
  }

  /** Where the line that goes on at `i` ends, its newline included when it has one. */
  function LineEnd(s: string, i: nat): (k: nat)
    requires i < |s|
    ensures i < k <= |s|
    ensures s[k - 1] == '\n' || k == |s|
    decreases |s| - i
  {
    if s[i] == '\n' || i + 1 == |s| then i + 1 else LineEnd(s, i + 1)
  }

  /** The length of the first line of `s`, its newline included when it has one. */
  function FirstLineLength(s: string): (k: nat)
    requires s != ""
    ensures 0 < k <= |s|
    ensures s[k - 1] == '\n' || k == |s|
  {
    LineEnd(s, 0)
  }

  lemma {:induction false} NoBreakBefore(s: string, i: nat)
    requires i < |s|
    ensures forall j :: i <= j < LineEnd(s, i) - 1 ==> s[j] != '\n'
    decreases |s| - i
  {
    if s[i] != '\n' && i + 1 < |s| {
      NoBreakBefore(s, i + 1);
    }
  }

  lemma FirstLineHasNoBreak(s: string)
    requires s != ""
    ensures '\n' !in s[..FirstLineLength(s) - 1]
  {
    NoBreakBefore(s, 0);
  }

  lemma LineEndIs(s: string, k: nat)
    requires 0 < k <= |s| && (s[k - 1] == '\n' || k == |s|)
    requires forall j :: 0 <= j < k - 1 ==> s[j] != '\n'
    ensures FirstLineLength(s) == k
  {
    NoBreakBefore(s, 0);
  }

  /** The lines of `s` from the place `i` on. */
  function SplitFrom(s: string, i: nat): seq<string>
    requires i <= |s|
    decreases |s| - i
  {
    if i == |s| then [] else [s[i..LineEnd(s, i)]] + SplitFrom(s, LineEnd(s, i))
  }

  /** `s.splitlines(keepends=True)` */
  function SplitKeep(s: string): seq<string> {
    SplitFrom(s, 0)
  }

  /** `"".join(lines)` */
  function Join(lines: seq<string>): string {
    if lines == [] then "" else lines[0] + Join(lines[1..])
  }

  function Chomp(line: string): string {
    if line != "" && line[|line| - 1] == '\n' then line[..|line| - 1] else line
  }

  function ChompAll(lines: seq<string>): (r: seq<string>)
    ensures |r| == |lines|
    ensures forall i :: 0 <= i < |lines| ==> r[i] == Chomp(lines[i])
  {
    seq(|lines|, i requires 0 <= i < |lines| => Chomp(lines[i]))
  }

  /** `s.splitlines()` */
  function SplitLines(s: string): seq<string> {
    ChompAll(SplitKeep(s))
  }

  lemma {:induction false} LineEndShift(a: string, s: string, i: nat)
    requires i < |s|
    ensures LineEnd(a + s, |a| + i) == |a| + LineEnd(s, i)
    decreases |s| - i
  {
    if s[i] != '\n' && i + 1 < |s| {
      LineEndShift(a, s, i + 1);
    }
  }

  /** Lines from a place on do not depend on what is before it. */
  lemma {:induction false} SplitShift(a: string, s: string, i: nat)
    requires i <= |s|
    ensures SplitFrom(a + s, |a| + i) == SplitFrom(s, i)
    decreases |s| - i
  {
    if i < |s| {
      var k := LineEnd(s, i);
      LineEndShift(a, s, i);
      SplitShift(a, s, k);
      SliceShift(a, s, i, k);
      calc {
        SplitFrom(a + s, |a| + i);
        [(a + s)[|a| + i..|a| + k]] + SplitFrom(a + s, |a| + k);
        [s[i..k]] + SplitFrom(s, k);
      }
    }
  }

  lemma SliceShift(a: string, s: string, i: nat, k: nat)
    requires i <= k <= |s|
    ensures (a + s)[|a| + i..|a| + k] == s[i..k]
  {
  }

  /** The first line comes off the front. */
  lemma SplitHead(s: string)
    requires s != ""
    ensures var k := FirstLineLength(s); SplitKeep(s) == [s[..k]] + SplitKeep(s[k..])
  {
    var k := FirstLineLength(s);
    SplitShift(s[..k], s[k..], 0);
    assert s[..k] + s[k..] == s;
  }

  lemma {:induction false} JoinSplit(s: string)
    ensures Join(SplitKeep(s)) == s
  {
    if s != "" {
      SplitHead(s);
      JoinSplit(s[FirstLineLength(s)..]);
    }
  }

  lemma {:induction false} JoinAppend(a: seq<string>, b: seq<string>)
    ensures Join(a + b) == Join(a) + Join(b)
  {
    if a == [] {
      assert a + b == b;
    } else {
      assert (a + b)[1..] == a[1..] + b;
      JoinAppend(a[1..], b);
    }
  }

  lemma {:induction false} JoinCons(line: string, rest: seq<string>)
    ensures Join([line] + rest) == line + Join(rest)
  {
    assert ([line] + rest)[1..] == rest;
  }

  lemma {:induction false} JoinCancel(head: seq<string>, a: seq<string>, b: seq<string>)
    ensures Join(head + a) == Join(head + b) <==> Join(a) == Join(b)
  {
    JoinAppend(head, a);
    JoinAppend(head, b);
    assert (Join(head) + Join(a))[|Join(head)|..] == Join(a);
    assert (Join(head) + Join(b))[|Join(head)|..] == Join(b);
  }

  lemma {:induction false} JoinCancelTail(a: seq<string>, b: seq<string>, tail: seq<string>)
    ensures Join(a + tail) == Join(b + tail) <==> Join(a) == Join(b)
  {
    JoinAppend(a, tail);
    JoinAppend(b, tail);
    if Join(a + tail) == Join(b + tail) {
      assert |Join(a)| == |Join(b)|;
      assert (Join(a) + Join(tail))[..|Join(a)|] == Join(a);
      assert (Join(b) + Join(tail))[..|Join(b)|] == Join(b);
    }
  }

  lemma FirstLineOf(line: string, rest: string)
    requires IsLine(line)
    ensures line + rest != "" && FirstLineLength(line + rest) == |line|
  {
    var s := line + rest;
    assert s[|line| - 1] == '\n';
    assert forall i :: 0 <= i < |line| - 1 ==> line[..|line| - 1][i] == s[i];
    LineEndIs(s, |line|);
  }

  /** A terminated line in front is split off whole. */
  lemma SplitCons(line: string, rest: string)
    requires IsLine(line)
    ensures SplitKeep(line + rest) == [line] + SplitKeep(rest)
  {
    FirstLineOf(line, rest);
    SplitHead(line + rest);
    assert (line + rest)[..|line|] == line;
    assert (line + rest)[|line|..] == rest;
  }

  lemma {:induction false} SplitAppend(lines: seq<string>, rest: string)
    requires AllLines(lines)
    ensures SplitKeep(Join(lines) + rest) == lines + SplitKeep(rest)
  {
    if lines == [] {
      assert Join(lines) + rest == rest;
    } else {
      assert Join(lines) + rest == lines[0] + (Join(lines[1..]) + rest);
      SplitCons(lines[0], Join(lines[1..]) + rest);
      SplitAppend(lines[1..], rest);
      assert lines == [lines[0]] + lines[1..];
    }
  }

  lemma {:induction false} SplitJoin(lines: seq<string>)
    requires AllLines(lines)
    ensures SplitKeep(Join(lines)) == lines
  {
    assert Join(lines) + "" == Join(lines);
    SplitAppend(lines, "");
  }

  lemma ChompAppend(a: seq<string>, b: seq<string>)
    ensures ChompAll(a + b) == ChompAll(a) + ChompAll(b)
  {
  }

  lemma SplitLinesCons(text: string, rest: string)
    requires '\n' !in text
    ensures SplitLines(text + "\n" + rest) == [text] + SplitLines(rest)
  {
    var line := text + "\n";
    assert line[..|line| - 1] == text;
    SplitCons(line, rest);
    ChompAppend([line], SplitKeep(rest));
    assert ChompAll([line]) == [text];
  }

  lemma {:induction false} SplitLinesAppend(lines: seq<string>, rest: string)
    requires AllLines(lines)
    ensures SplitLines(Join(lines) + rest) == ChompAll(lines) + SplitLines(rest)
    ensures SplitLines(Join(lines)) == ChompAll(lines)
  {
    SplitAppend(lines, rest);
    SplitJoin(lines);
    ChompAppend(lines, SplitKeep(rest));
  }

  /** Every line but the last of a file is terminated. */
  lemma {:induction false} InnerLinesTerminated(s: string)
    ensures forall i :: 0 <= i < |SplitKeep(s)| - 1 ==> IsLine(SplitKeep(s)[i])
  {
    if s != "" {
      var k := FirstLineLength(s);
      FirstLineHasNoBreak(s);
      SplitHead(s);
      InnerLinesTerminated(s[k..]);
      if k < |s| {
        assert s[..k][..k - 1] == s[..k - 1];
      }
    }
  }

  /** Text that ends a line is made of whole lines. */
  lemma {:induction false} TerminatedLines(text: string)
    requires EndsLine(text)
    ensures AllLines(SplitKeep(text))
  {
    if text != "" {
      var k := FirstLineLength(text);
      FirstLineHasNoBreak(text);
      SplitHead(text);
      assert text[..k][..k - 1] == text[..k - 1];
      TerminatedLines(text[k..]);
    }
  }

  /** A piece without a newline in front of a text goes on into the text's first line. */
  lemma SplitOpen(begun: string, text: string)
    requires '\n' !in begun && text != ""
    ensures var k := FirstLineLength(text);
            && SplitKeep(begun + text) == [begun + text[..k]] + SplitKeep(text[k..])
            && SplitKeep(text) == [text[..k]] + SplitKeep(text[k..])
  {
    var s, k := begun + text, FirstLineLength(text);
    NoBreakBefore(text, 0);
    assert forall j :: 0 <= j < |begun| + k - 1 ==> s[j] == if j < |begun| then begun[j] else text[j - |begun|];
    LineEndIs(s, |begun| + k);
    SplitHead(s);
    SplitHead(text);
    assert s[..|begun| + k] == begun + text[..k] && s[|begun| + k..] == text[k..];
  }

  /** Text without a newline is one line. */
  lemma SplitOne(text: string)
    requires text != "" && '\n' !in text
    ensures FirstLineLength(text) == |text| && SplitKeep(text) == [text] && Chomp(text) == text
  {
    LineEndIs(text, |text|);
    SplitHead(text);
    assert text[..|text|] == text && text[|text|..] == "";
  }

  // ---- slices --------------------------------------------------------------

  /** A Python slice bound: negative bounds count from the end, all are clamped. */
  function Bound(i: int, n: nat): (k: nat)
    ensures k <= n
  {
    if i < 0 then (if n + i < 0 then 0 else n + i) else if i > n then n else i
  }

  /** `s[i:j]` */
  function Slice<T>(s: seq<T>, i: int, j: int): seq<T> {
    var lo, hi := Bound(i, |s|), Bound(j, |s|);
    if lo < hi then s[lo..hi] else []
  }

  /** `s[i:]` */
  function SliceFrom<T>(s: seq<T>, i: int): seq<T> {
    s[Bound(i, |s|)..]
  }

  // ---- words ---------------------------------------------------------------

  predicate IsSpace(c: char) {
    c == ' ' || c == '\t' || c == '\n' || c == '\r' || c == '\U{0B}' || c == '\U{0C}'
  }

  predicate IsWord(s: string) {
    s != "" && forall i :: 0 <= i < |s| ==> !IsSpace(s[i])
  }

  /** The length of the leading run of non-space characters. */
  function WordLength(s: string): (k: nat)
    ensures k <= |s|
    ensures forall i :: 0 <= i < k ==> !IsSpace(s[i])
    ensures k < |s| ==> IsSpace(s[k])
  {
    if s == "" || IsSpace(s[0]) then 0 else 1 + WordLength(s[1..])
  }

  /** `s.split()` */
  function Words(s: string): seq<string> {
    if s == "" then []
    else if IsSpace(s[0]) then Words(s[1..])
    else
      var k := WordLength(s);
      [s[..k]] + Words(s[k..])
  }

  lemma {:induction false} WordThenSpace(w: string, rest: string)
    requires IsWord(w)
    ensures Words(w + " " + rest) == [w] + Words(rest)
  {
    var s := w + " " + rest;
    var k := WordLength(s);
    assert s[|w|] == ' ';
    assert forall i :: 0 <= i < |w| ==> s[i] == w[i];
    assert s[..k] == w;
    assert s[k..] == " " + rest;
    assert (" " + rest)[1..] == rest;
  }

  lemma {:induction false} LastWord(w: string)
    requires IsWord(w)
    ensures Words(w) == [w]
  {
    var k := WordLength(w);
    assert w[..k] == w && w[k..] == "";
  }

  /** `text.split(',')[0]` */
  function BeforeComma(s: string): (r: string)
    ensures ',' !in r
  {
    if s == "" || s[0] == ',' then "" else [s[0]] + BeforeComma(s[1..])
  }

  /** What follows the first comma. */
  function AfterComma(s: string): string {
    if s == "" then "" else if s[0] == ',' then s[1..] else AfterComma(s[1..])
  }

  lemma {:induction false} CommaSplit(a: string, b: string)
    requires ',' !in a
    ensures BeforeComma(a + "," + b) == a
    ensures AfterComma(a + "," + b) == b
  {
    if a == "" {
      assert a + "," + b == "," + b;
    } else {
      assert (a + "," + b)[1..] == a[1..] + "," + b;
      CommaSplit(a[1..], b);
    }
  }

  lemma {:induction false} NoComma(a: string)
    requires ',' !in a
    ensures BeforeComma(a) == a
  {
    if a != "" {
      NoComma(a[1..]);
    }
  }

  // ---- decimals ------------------------------------------------------------

  predicate IsDigit(c: char) {
    '0' <= c <= '9'
  }

  /** `str(n)` */
  function Decimal(n: nat): (s: string)
    ensures s != ""
    ensures forall i :: 0 <= i < |s| ==> IsDigit(s[i])
  {
    if n < 10 then ['0' + n as char] else Decimal(n / 10) + ['0' + (n % 10) as char]
  }

  function DigitsValue(s: string): int
    requires forall i :: 0 <= i < |s| ==> IsDigit(s[i])
  {
    if s == "" then 0
    else 10 * DigitsValue(s[..|s| - 1]) + (s[|s| - 1] as int - '0' as int)
  }

  /** `int(s)` for an optionally signed run of decimal digits; anything else raises. */
  function ParseInt(s: string): Option<int> {
    var digits := if s != "" && (s[0] == '-' || s[0] == '+') then s[1..] else s;
    if digits == "" || exists i :: 0 <= i < |digits| && !IsDigit(digits[i]) then None
    else if s[0] == '-' then Some(-DigitsValue(digits))
    else Some(DigitsValue(digits))
  }

  lemma {:induction false} DecimalValue(n: nat)
    ensures DigitsValue(Decimal(n)) == n
  {
    if n >= 10 {
      DecimalValue(n / 10);
      var s := Decimal(n);
      assert s[..|s| - 1] == Decimal(n / 10);
    } else {
      assert Decimal(n)[..0] == "";
    }
  }

  lemma {:induction false} ParseDecimal(n: nat)
    ensures ParseInt(Decimal(n)) == Some(n)
  {
    DecimalValue(n);
    assert IsDigit(Decimal(n)[0]);
  }

  lemma {:induction false} DecimalInjective(m: nat, n: nat)
    requires Decimal(m) == Decimal(n)
    ensures m == n
  {
    DecimalValue(m);
    DecimalValue(n);
  }
}
