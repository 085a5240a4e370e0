/** Model of `_extract_first_json_document` in
    `api-agent/worktop/api_agent/app/llm/worktop_model_client_adapter.py`: a scanner
    with a bracket stack, a string flag and an escape flag. */
module JsonDocument {
  import opened Wrappers

  // ---- the scanner ---------------------------------------------------------

  datatype Error = NoDocument | Incomplete

  /** Where the scanner stands; `Closed` once its stack has emptied. */
  datatype Scan = Open(stack: seq<char>, inString: bool, escaped: bool) | Closed

  predicate IsOpener(c: char) {
    c == '{' || c == '['
  }

  function Closer(c: char): char
    requires IsOpener(c)
  {
    if c == '{' then '}' else ']'
  }

  const Fresh: Scan := Open([], false, false)

  function Step(st: Scan, c: char): Scan {
    match st
    case Closed => Closed
    case Open(stack, inString, escaped) =>
      if inString then
        if escaped then Open(stack, true, false)
        else if c == '\\' then Open(stack, true, true)
        else if c == '"' then Open(stack, false, false)
        else st
      else if c == '"' then Open(stack, true, escaped)
      else if IsOpener(c) then Open(stack + [Closer(c)], false, escaped)
      else if stack != [] && c == stack[|stack| - 1] then
        if |stack| == 1 then Closed else Open(stack[..|stack| - 1], false, escaped)
      else st
  }

  function Run(st: Scan, text: string): Scan
    decreases |text|
  {
    if text == "" then st else Run(Step(st, text[0]), text[1..])
  }

  lemma {:induction false} RunAppend(st: Scan, a: string, b: string)
    ensures Run(st, a + b) == Run(Run(st, a), b)
    decreases |a|
  {
    if a == "" {
      assert a + b == b;
    } else {
      assert (a + b)[1..] == a[1..] + b;
      RunAppend(Step(st, a[0]), a[1..], b);
    }
  }

  lemma {:induction false} StaysClosed(text: string)
    ensures Run(Closed, text) == Closed
  {
    if text != "" {
      StaysClosed(text[1..]);
    }
  }

  /** `text[start..end]` is the document: it starts at the first opener of `text`, and
      `end` is the first place after which the scanner's stack is empty. */
  ghost predicate IsDocument(text: string, start: nat, end: nat) {
    && start < end <= |text|
    && IsOpener(text[start]) && (forall k :: 0 <= k < start ==> !IsOpener(text[k]))
    && Run(Fresh, text[start..end]) == Closed
    && (forall e :: start <= e < end ==> Run(Fresh, text[start..e]) != Closed)
  }

  /** What a call returns: the document, or which of the two errors it raises. */
  ghost predicate Extracted(text: string, r: Result<string, Error>) {
    match r
    case Success(document) =>
      exists start: nat, end: nat :: IsDocument(text, start, end) && document == text[start..end]
    case Failure(NoDocument) => forall k :: 0 <= k < |text| ==> !IsOpener(text[k])
    case Failure(Incomplete) =>
      && (exists k :: 0 <= k < |text| && IsOpener(text[k]))
      && (forall start: nat, end: nat :: !IsDocument(text, start, end))
  }

  method ExtractFirst(text: string) returns (r: Result<string, Error>)
    ensures Extracted(text, r)
  {
    var start := 0;
    while start < |text| && !IsOpener(text[start])
      invariant start <= |text| && forall k :: 0 <= k < start ==> !IsOpener(text[k])
    {
      start := start + 1;
    }
    if start == |text| {
      return Failure(NoDocument);
    }
    var stack: seq<char>, inString, escaped := [], false, false;
    for index := start to |text|
      invariant Run(Fresh, text[start..index]) == Open(stack, inString, escaped)
      invariant forall e :: start <= e <= index ==> Run(Fresh, text[start..e]) != Closed
    {
      var c := text[index];
      RunAppend(Fresh, text[start..index], [c]);
      assert text[start..index + 1] == text[start..index] + [c];
      if inString {
        if escaped {
          escaped := false;
        } else if c == '\\' {
          escaped := true;
        } else if c == '"' {
          inString := false;
        }
        continue;
      }
      if c == '"' {
        inString := true;
      } else if IsOpener(c) {
        stack := stack + [Closer(c)];
      } else if stack != [] && c == stack[|stack| - 1] {
        stack := stack[..|stack| - 1];
        if stack == [] {
          assert IsDocument(text, start, index + 1);
          return Success(text[start..index + 1]);
        }
      }
    }
    return Failure(Incomplete);
  }

  // ---- JSON texts (RFC 8259, sections 2 to 7) ------------------------------

  /** One character of a JSON string as it is written. */
  datatype Piece = Plain(c: char) | Escape(c: char) | Unicode(hex: string)

  /** A JSON value with the white space it is written with. */
  datatype Json =
    | Scalar(text: string)
    | Text(pieces: seq<Piece>)
    | Array(open: string, items: Items)
    | Object(open: string, members: Members)

  datatype Items = NoItems | Item(value: Json, after: string, before: string, rest: Items)

  datatype Members =
    | NoMembers
    | Member(key: seq<Piece>, afterKey: string, beforeValue: string, value: Json, after: string, before: string,
             rest: Members)

  predicate IsWhite(s: string) {
    forall i :: 0 <= i < |s| ==> s[i] == ' ' || s[i] == '\t' || s[i] == '\n' || s[i] == '\r'
  }

  predicate IsPiece(p: Piece) {
    match p
    case Plain(c) => ' ' <= c && c != '"' && c != '\\'
    case Escape(c) => c in "\"\\/bfnrt"
    case Unicode(hex) => |hex| == 4 && forall i :: 0 <= i < 4 ==> hex[i] in "0123456789abcdefABCDEF"
  }

  predicate IsScalar(s: string) {
    || s == "true" || s == "false" || s == "null"
    || (s != "" && forall i :: 0 <= i < |s| ==> s[i] in "0123456789+-.eE")
  }

  predicate ValidPieces(pieces: seq<Piece>) {
    forall i :: 0 <= i < |pieces| ==> IsPiece(pieces[i])
  }

  predicate Valid(v: Json) {
    match v
    case Scalar(text) => IsScalar(text)
    case Text(pieces) => ValidPieces(pieces)
    case Array(open, items) => IsWhite(open) && ValidItems(items)
    case Object(open, members) => IsWhite(open) && ValidMembers(members)
  }

  predicate ValidItems(items: Items) {
    match items
    case NoItems => true
    case Item(v, after, before, rest) => Valid(v) && IsWhite(after) && IsWhite(before) && ValidItems(rest)
  }

  predicate ValidMembers(members: Members) {
    match members
    case NoMembers => true
    case Member(key, afterKey, beforeValue, v, after, before, rest) =>
      && ValidPieces(key) && IsWhite(afterKey) && IsWhite(beforeValue) && Valid(v)
      && IsWhite(after) && IsWhite(before) && ValidMembers(rest)
  }

  function PrintPiece(p: Piece): string {
    match p
    case Plain(c) => [c]
    case Escape(c) => ['\\', c]
    case Unicode(hex) => "\\u" + hex
  }

  function PrintPieces(pieces: seq<Piece>): string {
    if pieces == [] then "" else PrintPiece(pieces[0]) + PrintPieces(pieces[1..])
  }

  function PrintText(pieces: seq<Piece>): string {
    "\"" + PrintPieces(pieces) + "\""
  }

  function Print(v: Json): string {
    match v
    case Scalar(text) => text
    case Text(pieces) => PrintText(pieces)
    case Array(open, items) => "[" + (open + PrintItems(items)) + "]"
    case Object(open, members) => "{" + (open + PrintMembers(members)) + "}"
  }

  function PrintItems(items: Items): string {
    match items
    case NoItems => ""
    case Item(v, after, before, rest) =>
      Print(v) + (after + ((if rest.NoItems? then "" else ",") + (before + PrintItems(rest))))
  }

  function PrintMembers(members: Members): string {
    match members
    case NoMembers => ""
    case Member(key, afterKey, beforeValue, v, after, before, rest) =>
      PrintText(key) + ((afterKey + ":" + beforeValue) +
        (Print(v) + ((after + (if rest.NoMembers? then "" else ",") + before) + PrintMembers(rest))))
  }

  // ---- scanning what was printed -------------------------------------------

  predicate IsStructural(c: char) {
    c == '"' || c == '{' || c == '}' || c == '[' || c == ']'
  }

  /** Text outside strings that leaves the scanner where it was. */
  predicate Inert(s: string) {
    forall i :: 0 <= i < |s| ==> !IsStructural(s[i])
  }

  predicate Closers(stack: seq<char>) {
    stack != [] && forall i :: 0 <= i < |stack| ==> stack[i] == '}' || stack[i] == ']'
  }

  lemma {:induction false} RunInert(stack: seq<char>, s: string)
    requires Inert(s) && Closers(stack)
    ensures Run(Open(stack, false, false), s) == Open(stack, false, false)
  {
    if s != "" {
      assert !IsStructural(s[0]);
      RunInert(stack, s[1..]);
    }
  }

  lemma ScalarIsInert(s: string)
    requires IsScalar(s)
    ensures Inert(s)
  {
  }

  lemma RunPiece(stack: seq<char>, p: Piece)
    requires IsPiece(p)
    ensures Run(Open(stack, true, false), PrintPiece(p)) == Open(stack, true, false)
  {
    var st := Open(stack, true, false);
    match p
    case Plain(c) =>
      assert Run(st, [c]) == Run(Step(st, c), [c][1..]);
    case Escape(c) =>
      var s := ['\\', c];
      assert s[1..] == [c] && [c][1..] == "";
      assert Run(st, s) == Run(Step(st, '\\'), [c]);
      assert Run(Open(stack, true, true), [c]) == Run(st, "");
    case Unicode(hex) =>
      var s := "\\u" + hex;
      assert s[1..] == "u" + hex && ("u" + hex)[1..] == hex;
      assert Run(st, s) == Run(Open(stack, true, true), "u" + hex) == Run(st, hex);
      RunHex(stack, hex);
  }

  lemma {:induction false} RunHex(stack: seq<char>, hex: string)
    requires forall i :: 0 <= i < |hex| ==> hex[i] in "0123456789abcdefABCDEF"
    ensures Run(Open(stack, true, false), hex) == Open(stack, true, false)
  {
    if hex != "" {
      assert hex[0] != '"' && hex[0] != '\\';
      RunHex(stack, hex[1..]);
    }
  }

  lemma {:induction false} RunPieces(stack: seq<char>, pieces: seq<Piece>)
    requires ValidPieces(pieces)
    ensures Run(Open(stack, true, false), PrintPieces(pieces)) == Open(stack, true, false)
  {
    if pieces != [] {
      RunPiece(stack, pieces[0]);
      RunAppend(Open(stack, true, false), PrintPiece(pieces[0]), PrintPieces(pieces[1..]));
      RunPieces(stack, pieces[1..]);
    }
  }

  lemma RunText(stack: seq<char>, pieces: seq<Piece>)
    requires ValidPieces(pieces)
    ensures Run(Open(stack, false, false), PrintText(pieces)) == Open(stack, false, false)
  {
    var st, body := Open(stack, false, false), PrintPieces(pieces);
    RunAppend(st, "\"" + body, "\"");
    RunAppend(st, "\"", body);
    assert "\""[1..] == "";
    RunPieces(stack, pieces);
  }

  /** Inside an open bracket, a whole value leaves the scanner where it was. */
  lemma {:induction false} RunValue(stack: seq<char>, v: Json)
    requires Valid(v) && Closers(stack)
    ensures Run(Open(stack, false, false), Print(v)) == Open(stack, false, false)
    decreases v
  {
    match v
    case Scalar(text) =>
      ScalarIsInert(text);
      RunInert(stack, text);
    case Text(pieces) => RunText(stack, pieces);
    case Array(open, items) =>
      var inner := stack + [']'];
      RunInert(inner, open);
      RunItems(inner, items);
      RunBracketed(stack, '[', open, PrintItems(items));
    case Object(open, members) =>
      var inner := stack + ['}'];
      RunInert(inner, open);
      RunMembers(inner, members);
      RunBracketed(stack, '{', open, PrintMembers(members));
  }

  lemma {:induction false} RunBracketed(stack: seq<char>, opener: char, open: string, body: string)
    requires IsOpener(opener)
    requires var inner := Open(stack + [Closer(opener)], false, false);
             Run(inner, open) == inner && Run(inner, body) == inner
    ensures Run(Open(stack, false, false), [opener] + (open + body) + [Closer(opener)])
         == if stack == [] then Closed else Open(stack, false, false)
    ensures Run(Open(stack, false, false), [opener] + (open + body)) == Open(stack + [Closer(opener)], false, false)
  {
    var st, inner := Open(stack, false, false), Open(stack + [Closer(opener)], false, false);
    RunBracket(stack, opener);
    RunAppend(inner, open, body);
    RunAppend(st, [opener], open + body);
    RunAppend(st, [opener] + (open + body), [Closer(opener)]);
  }

  lemma {:induction false} RunOne(st: Scan, c: char)
    ensures Run(st, [c]) == Step(st, c)
  {
    assert [c][1..] == "";
  }

  /** An opener pushes its closer, and the closer pops it. */
  lemma RunBracket(stack: seq<char>, opener: char)
    requires IsOpener(opener)
    ensures Run(Open(stack, false, false), [opener]) == Open(stack + [Closer(opener)], false, false)
    ensures Run(Open(stack + [Closer(opener)], false, false), [Closer(opener)])
         == if stack == [] then Closed else Open(stack, false, false)
  {
    var pushed := stack + [Closer(opener)];
    RunOne(Open(stack, false, false), opener);
    RunOne(Open(pushed, false, false), Closer(opener));
    assert pushed[..|pushed| - 1] == stack && pushed[|pushed| - 1] == Closer(opener);
    assert |pushed| == 1 <==> stack == [];
  }

  lemma {:induction false} RunItems(stack: seq<char>, items: Items)
    requires ValidItems(items) && Closers(stack)
    ensures Run(Open(stack, false, false), PrintItems(items)) == Open(stack, false, false)
    decreases items
  {
    match items
    case NoItems =>
    case Item(v, after, before, rest) =>
      var st, comma := Open(stack, false, false), if rest.NoItems? then "" else ",";
      RunValue(stack, v);
      RunItems(stack, rest);
      RunInert(stack, after);
      RunInert(stack, comma);
      RunInert(stack, before);
      RunFour(st, Print(v), after, comma, before, PrintItems(rest));
  }

  lemma {:induction false} RunFour(st: Scan, a: string, b: string, c: string, d: string, rest: string)
    requires Run(st, a) == st && Run(st, b) == st && Run(st, c) == st && Run(st, d) == st
    ensures Run(st, a + (b + (c + (d + rest)))) == Run(st, rest)
  {
    RunAppend(st, a, b + (c + (d + rest)));
    RunAppend(st, b, c + (d + rest));
    RunAppend(st, c, d + rest);
    RunAppend(st, d, rest);
  }

  /** White space around a colon, a comma or nothing. */
  lemma BetweenIsInert(before: string, mark: string, after: string)
    requires IsWhite(before) && IsWhite(after) && mark in ["", ":", ","]
    ensures Inert(before + mark + after)
  {
  }

  lemma {:induction false} RunMembers(stack: seq<char>, members: Members)
    requires ValidMembers(members) && Closers(stack)
    ensures Run(Open(stack, false, false), PrintMembers(members)) == Open(stack, false, false)
    decreases members
  {
    match members
    case NoMembers =>
    case Member(key, afterKey, beforeValue, v, after, before, rest) =>
      var st, comma := Open(stack, false, false), if rest.NoMembers? then "" else ",";
      var colon, sep := afterKey + ":" + beforeValue, after + comma + before;
      RunText(stack, key);
      BetweenIsInert(afterKey, ":", beforeValue);
      RunInert(stack, colon);
      RunValue(stack, v);
      BetweenIsInert(after, comma, before);
      RunInert(stack, sep);
      RunMembers(stack, rest);
      RunFour(st, PrintText(key), colon, Print(v), sep, PrintMembers(rest));
  }

  predicate IsContainer(v: Json) {
    v.Array? || v.Object?
  }

  /** A printed object or array closes the scanner with its last character only. */
  lemma {:induction false} PrintedCloses(v: Json)
    requires Valid(v) && IsContainer(v)
    ensures var p := Print(v);
            && p != "" && IsOpener(p[0]) && Run(Fresh, p) == Closed
            && forall e :: 0 <= e < |p| ==> Run(Fresh, p[..e]) != Closed
  {
    var p := Print(v);
    var opener, open, body :=
      if v.Array? then '[' else '{', v.open, if v.Array? then PrintItems(v.items) else PrintMembers(v.members);
    RunInert([Closer(opener)], open);
    if v.Array? {
      RunItems([']'], v.items);
    } else {
      RunMembers(['}'], v.members);
    }
    assert [] + [Closer(opener)] == [Closer(opener)];
    RunBracketed([], opener, open, body);
    var inside := [opener] + (open + body);
    assert p == inside + [Closer(opener)];
    forall e | 0 <= e < |p| ensures Run(Fresh, p[..e]) != Closed {
      assert inside == p[..e] + inside[e..];
      RunAppend(Fresh, p[..e], inside[e..]);
      StaysClosed(inside[e..]);
    }
  }

  lemma DocumentUnique(text: string, s1: nat, e1: nat, s2: nat, e2: nat)
    requires IsDocument(text, s1, e1) && IsDocument(text, s2, e2)
    ensures s1 == s2 && e1 == e2
  {
  }

  /** While it is open, the closer of the first opener waits at the bottom of the stack. */
  lemma {:induction false} FirstWaits(text: string, k: nat)
    requires 0 < k <= |text| && IsOpener(text[0]) && Run(Fresh, text[..k]).Open?
    ensures var st := Run(Fresh, text[..k]); st.stack != [] && st.stack[0] == Closer(text[0])
  {
    var before := Run(Fresh, text[..k - 1]);
    assert text[..k] == text[..k - 1] + [text[k - 1]];
    RunAppend(Fresh, text[..k - 1], [text[k - 1]]);
    if k > 1 && before.Open? {
      FirstWaits(text, k - 1);
    }
  }

  /** Whatever text it is found in, well formed or not, a document ends with the closer of its
      opener. */
  lemma {:induction false} EndsWithCloser(text: string, start: nat, end: nat)
    requires IsDocument(text, start, end)
    ensures text[end - 1] == Closer(text[start])
  {
    var document := text[start..end];
    var k := |document| - 1;
    assert document == document[..k] + [document[k]] && document[..k] == text[start..end - 1];
    RunAppend(Fresh, document[..k], [document[k]]);
    if k > 0 {
      FirstWaits(document, k);
    }
  }

  /** In prose around a printed object or array, the document found is the printed one
      exactly when the prose before it holds no opening bracket. */
  lemma {:induction false} FindsPrinted(prefix: string, v: Json, suffix: string)
    requires Valid(v) && IsContainer(v)
    ensures IsDocument(prefix + Print(v) + suffix, |prefix|, |prefix| + |Print(v)|)
       <==> forall k :: 0 <= k < |prefix| ==> !IsOpener(prefix[k])
  {
    var p := Print(v);
    var text := prefix + p + suffix;
    PrintedCloses(v);
    forall e | |prefix| <= e <= |prefix| + |p| ensures text[|prefix|..e] == p[..e - |prefix|] {
    }
    assert p[..|p|] == p;
    assert text[|prefix|] == p[0];
    forall k | 0 <= k < |prefix| ensures text[k] == prefix[k] {
    }
  }

  /** Extraction returns the printed document, for any suffix and opener-free prefix. */
  lemma {:induction false} ExtractsPrinted(prefix: string, v: Json, suffix: string, r: Result<string, Error>)
    requires Valid(v) && IsContainer(v)
    requires forall k :: 0 <= k < |prefix| ==> !IsOpener(prefix[k])
    requires Extracted(prefix + Print(v) + suffix, r)
    ensures r == Success(Print(v))
  {
    var p := Print(v);
    var text := prefix + p + suffix;
    FindsPrinted(prefix, v, suffix);
    assert IsOpener(text[|prefix|]);
    var start: nat, end: nat :| IsDocument(text, start, end) && r.value == text[start..end];
    DocumentUnique(text, start, end, |prefix|, |prefix| + |p|);
  }
}
