/** Model of `repo-agent/backend/app/streaming/response_batcher.py`: streaming a section as
    deltas while keeping its Markdown code fences closed. The publishes do not raise. */
module ResponseBatches {
  import opened Texts
  import opened MarkdownFences

  datatype Event = Started | Delta(index: nat, text: string) | Completed

  /** The deltas a section publishes for what the model yields: empty ones are skipped. */
  function NonEmpty(deltas: seq<string>, k: nat): seq<string>
    requires k <= |deltas|
  {
    if k == 0 then []
    else if deltas[k - 1] == "" then NonEmpty(deltas, k - 1)
    else NonEmpty(deltas, k - 1) + [deltas[k - 1]]
  }

  /** A count of marks in a text, and whether cutting a text there changes its parity. */
  type Count = string -> nat
  type Tear = (string, string) -> bool

  /** Marks of the first `k` deltas, each read by itself. */
  function Apart(count: Count, deltas: seq<string>, k: nat): nat
    requires k <= |deltas|
  {
    if k == 0 then 0 else Apart(count, deltas, k - 1) + count(deltas[k - 1])
  }

  /** How many of the first `k` deltas begin where a cut changes the parity. */
  function Tears(torn: Tear, deltas: seq<string>, k: nat): nat
    requires k <= |deltas|
  {
    if k == 0 then 0
    else Tears(torn, deltas, k - 1) + if torn(Joined(deltas, k - 1), deltas[k - 1]) then 1 else 0
  }

  /** Whether the deltas, read one by one, leave a fence open. */
  predicate LeftOpen(count: Count, deltas: seq<string>) {
    Odd(Apart(count, deltas, |deltas|))
  }

  function Pieces(count: Count, deltas: seq<string>): seq<string> {
    var kept := NonEmpty(deltas, |deltas|);
    if LeftOpen(count, deltas) then kept + [ClosingFence] else kept
  }

  /** The events of a section: its pieces numbered from one, between a start and an end. */
  function Numbered(pieces: seq<string>, k: nat): seq<Event>
    requires k <= |pieces|
  {
    if k == 0 then [Started] else Numbered(pieces, k - 1) + [Delta(k, pieces[k - 1])]
  }

  /** The first `k` texts end to end. */
  function Joined(texts: seq<string>, k: nat): string
    requires k <= |texts|
  {
    if k == 0 then "" else Joined(texts, k - 1) + texts[k - 1]
  }

  function Saved(count: Count, deltas: seq<string>): string {
    Joined(Pieces(count, deltas), |Pieces(count, deltas)|)
  }

  /** A batch being streamed. `sent` are the pieces published so far. */
  class ResponseBatch {
    var markdown: string
    var events: seq<Event>
    var sequence: nat
    ghost var sent: seq<string>

    ghost predicate Valid()
      reads this
    {
      && sequence == |sent|
      && markdown == Joined(sent, |sent|)
      && events == Numbered(sent, |sent|)
    }

    constructor ()
      ensures Valid() && sent == []
    {
      markdown, events, sequence, sent := "", [Started], 0, [];
    }

    method Send(delta: string)
      requires Valid()
      modifies this
      ensures Valid() && sent == old(sent) + [delta]
    {
      sequence := sequence + 1;
      markdown := markdown + delta;
      events := events + [Delta(sequence, delta)];
      PiecesSnoc(sent, delta, |sent|);
      sent := sent + [delta];
    }

    /** Streams a section: whatever the model yields, the saved markdown is the published
        pieces end to end, numbered from one. */
    method StreamSection(deltas: seq<string>)
      requires Valid() && sent == []
      modifies this
      ensures markdown == Saved(Fences, deltas)
      ensures events == Numbered(Pieces(Fences, deltas), |Pieces(Fences, deltas)|) + [Completed]
    {
      var state := new MarkdownStreamState();
      for i := 0 to |deltas|
        invariant Valid() && sent == NonEmpty(deltas, i)
        invariant state.insideCodeFence == Odd(Apart(Fences, deltas, i))
        invariant fresh(state)
      {
        if deltas[i] != "" {
          state.Observe(deltas[i]);
          Send(deltas[i]);
        }
      }
      var closing := state.ClosingIfNeeded();
      if closing != "" {
        Send(closing);
      }
      events := events + [Completed];
    }
  }

  lemma {:induction false} PiecesSnoc(pieces: seq<string>, piece: string, k: nat)
    requires k <= |pieces|
    ensures Numbered(pieces + [piece], k) == Numbered(pieces, k)
    ensures Joined(pieces + [piece], k) == Joined(pieces, k)
  {
    if k > 0 {
      PiecesSnoc(pieces, piece, k - 1);
    }
  }

  // ---- parity across any chunking ------------------------------------------

  ghost predicate AddsUp(count: Count, torn: Tear, before: string, after: string) {
    Odd(count(before + after)) == (Odd(count(before) + count(after)) != torn(before, after))
  }

  ghost predicate Additive(count: Count, torn: Tear) {
    forall before, after :: AddsUp(count, torn, before, after)
  }

  ghost predicate NeverTornBy(torn: Tear, after: string) {
    forall before :: !torn(before, after)
  }

  ghost predicate NeverTornAfterLines(torn: Tear) {
    forall before, after :: EndsLine(before) ==> !torn(before, after)
  }

  /** Counts add up, modulo two, except where a cut tears; the closing fence counts one and is
      never torn; whole lines are never torn from what follows. */
  ghost predicate Lawful(count: Count, torn: Tear) {
    && count("") == 0 && count(ClosingFence) == 1
    && Additive(count, torn) && NeverTornBy(torn, ClosingFence) && NeverTornAfterLines(torn)
  }

  lemma FencesAddUp(before: string, after: string)
    ensures AddsUp(Fences, Torn, before, after)
  {
    FencesAcross(before, after);
  }

  lemma FencesAdditive()
    ensures Additive(Fences, Torn)
  {
    forall before, after {
      FencesAddUp(before, after);
    }
  }

  lemma FencesNotTorn()
    ensures NeverTornBy(Torn, ClosingFence) && NeverTornAfterLines(Torn)
  {
    forall before {
      ClosingIsOneFence(before);
    }
    forall before, after | EndsLine(before) {
      WholeLinesNotTorn(before, after);
    }
  }

  lemma FencesLawful()
    ensures Lawful(Fences, Torn)
  {
    ClosingIsOneFence("");
    FencesAdditive();
    FencesNotTorn();
  }

  lemma {:induction false} ApartParity(count: Count, torn: Tear, deltas: seq<string>, k: nat)
    requires Lawful(count, torn) && k <= |deltas|
    ensures Odd(Apart(count, deltas, k)) == (Odd(count(Joined(deltas, k))) != Odd(Tears(torn, deltas, k)))
  {
    if k > 0 {
      ApartParity(count, torn, deltas, k - 1);
      assert AddsUp(count, torn, Joined(deltas, k - 1), deltas[k - 1]);
    }
  }

  lemma {:induction false} NonEmptyJoins(deltas: seq<string>, k: nat)
    requires k <= |deltas|
    ensures var kept := NonEmpty(deltas, k); Joined(kept, |kept|) == Joined(deltas, k)
  {
    if k > 0 {
      NonEmptyJoins(deltas, k - 1);
      var kept := NonEmpty(deltas, k - 1);
      if deltas[k - 1] != "" {
        PiecesSnoc(kept, deltas[k - 1], |kept|);
      }
    }
  }

  lemma {:induction false} SavedIs(count: Count, deltas: seq<string>)
    ensures Saved(count, deltas)
              == if LeftOpen(count, deltas) then Joined(deltas, |deltas|) + ClosingFence else Joined(deltas, |deltas|)
  {
    var kept := NonEmpty(deltas, |deltas|);
    NonEmptyJoins(deltas, |deltas|);
    PiecesSnoc(kept, ClosingFence, |kept|);
  }

  lemma ClosedParity(count: Count, torn: Tear, text: string, open: bool)
    requires Lawful(count, torn)
    ensures Odd(count(if open then text + ClosingFence else text)) == (Odd(count(text)) != open)
  {
    assert AddsUp(count, torn, text, ClosingFence);
  }

  lemma {:induction false} SavedParity(count: Count, torn: Tear, deltas: seq<string>)
    requires Lawful(count, torn)
    ensures Odd(count(Saved(count, deltas))) == Odd(Tears(torn, deltas, |deltas|))
  {
    SavedIs(count, deltas);
    ApartParity(count, torn, deltas, |deltas|);
    ClosedParity(count, torn, Joined(deltas, |deltas|), LeftOpen(count, deltas));
  }

  lemma {:induction false} JoinedEndsLine(deltas: seq<string>, k: nat)
    requires k <= |deltas| && forall i :: 0 <= i < k ==> EndsLine(deltas[i])
    ensures EndsLine(Joined(deltas, k))
  {
    if k > 0 {
      JoinedEndsLine(deltas, k - 1);
    }
  }

  lemma {:induction false} NoTears(count: Count, torn: Tear, deltas: seq<string>, k: nat)
    requires Lawful(count, torn) && k <= |deltas| && forall i :: 0 <= i < k - 1 ==> EndsLine(deltas[i])
    ensures Tears(torn, deltas, k) == 0
  {
    if k > 0 {
      NoTears(count, torn, deltas, k - 1);
      JoinedEndsLine(deltas, k - 1);
    }
  }

  // ---- the whole section ---------------------------------------------------

  /** A saved batch has its fences closed if and only if an even number of delta boundaries
      tear a line. */
  lemma {:induction false} SavedIsClosedIff(deltas: seq<string>)
    ensures !Odd(Fences(Saved(Fences, deltas))) <==> !Odd(Tears(Torn, deltas, |deltas|))
  {
    FencesLawful();
    SavedParity(Fences, Torn, deltas);
  }

  /** When every delta but the last ends a line, the state after them is the parity of the
      fence lines of the whole text, however it was chunked, and the saved batch is closed. */
  lemma {:induction false} LineDeltasClose(deltas: seq<string>)
    requires forall i :: 0 <= i < |deltas| - 1 ==> EndsLine(deltas[i])
    ensures LeftOpen(Fences, deltas) == Odd(Fences(Joined(deltas, |deltas|)))
    ensures !Odd(Fences(Saved(Fences, deltas)))
  {
    FencesLawful();
    NoTears(Fences, Torn, deltas, |deltas|);
    ApartParity(Fences, Torn, deltas, |deltas|);
    SavedParity(Fences, Torn, deltas);
  }

  /** A boundary inside a line can open a fence the text does not have. */
  lemma TornFence()
    ensures Fences("a```") == 0 && Odd(Fences(Saved(Fences, ["a", "```"])))
  {
    var deltas := ["a", "```"];
    TornExample();
    FencesLawful();
    assert Joined(deltas, 0) == "" && Joined(deltas, 1) == "" + "a" == "a";
    assert !Torn("", "a");
    assert Tears(Torn, deltas, 1) == 0;
    SavedParity(Fences, Torn, deltas);
  }
}
