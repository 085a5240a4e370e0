/** Model of `build_batches` in `repo-agent/backend/app/context/batch_builder.py`: ranked
    files are grouped, in order, into batches bounded by a file cap and a token cap. */
module ContextBatches {
  import opened Wrappers

  /** The fields of the source's dataclass that the loop reads or updates. */
  class ContextBatch {
    const objective: string
    var files: seq<string>
    var estimatedTokens: nat

    constructor (objective: string)
      ensures this.objective == objective && files == [] && estimatedTokens == 0
    {
      this.objective, files, estimatedTokens := objective, [], 0;
    }

    method Add(file: string, tokens: nat)
      modifies this
      ensures files == old(files) + [file] && estimatedTokens == old(estimatedTokens) + tokens
    {
      files := files + [file];
      estimatedTokens := estimatedTokens + tokens;
    }
  }

  /** The two settings and what the workspace says of each file: `read` gives `None`
      where reading raises `OSError`, and such a file costs nothing. */
  datatype Limits = Limits(maxFiles: int, maxTokens: int, read: string -> Option<string>, estimate: string -> nat) {

    function Cost(file: string): nat {
      match read(file)
      case None => 0
      case Some(text) => estimate(text)
    }

    function Tokens(files: seq<string>): nat {
      if files == [] then 0 else Cost(files[0]) + Tokens(files[1..])
    }

    /** A batch within both caps, or of a single file. */
    predicate Fits(batch: seq<string>) {
      |batch| == 1 || (batch != [] && |batch| <= maxFiles && Tokens(batch) <= maxTokens)
    }
  }

  function Concat(batches: seq<seq<string>>): seq<string> {
    if batches == [] then [] else batches[0] + Concat(batches[1..])
  }

  /** An order-preserving division of `files` into batches that fit. */
  ghost predicate IsDivision(lim: Limits, batches: seq<seq<string>>, files: seq<string>) {
    Concat(batches) == files && forall i :: 0 <= i < |batches| ==> lim.Fits(batches[i])
  }

  /** The open batch has files, and one more would take it over a cap. */
  predicate Overflows(lim: Limits, current: seq<string>, file: string) {
    current != [] && (|current| >= lim.maxFiles || lim.Tokens(current) + lim.Cost(file) > lim.maxTokens)
  }

  /** The batches the loop still produces with `current` open and `rest` to come. */
  function Greedy(lim: Limits, current: seq<string>, rest: seq<string>): seq<seq<string>>
    decreases rest
  {
    if rest == [] then (if current == [] then [] else [current])
    else if Overflows(lim, current, rest[0])
    then [current] + Greedy(lim, [rest[0]], rest[1..])
    else Greedy(lim, current + [rest[0]], rest[1..])
  }

  /** The closed batches and the open one after the first `k` files. */
  function Batched(lim: Limits, files: seq<string>, k: nat): (seq<seq<string>>, seq<string>)
    requires k <= |files|
  {
    if k == 0 then ([], [])
    else
      var (closed, open) := Batched(lim, files, k - 1);
      if Overflows(lim, open, files[k - 1]) then (closed + [open], [files[k - 1]]) else (closed, open + [files[k - 1]])
  }

  lemma {:induction false} BatchedIsGreedy(lim: Limits, files: seq<string>, k: nat)
    requires k <= |files|
    ensures var (closed, open) := Batched(lim, files, k);
            Greedy(lim, [], files) == closed + Greedy(lim, open, files[k..])
  {
    if k == 0 {
      assert files[0..] == files;
    } else {
      BatchedIsGreedy(lim, files, k - 1);
      var (closed, open) := Batched(lim, files, k - 1);
      assert files[k - 1..][1..] == files[k..];
      GreedyStep(lim, closed, open, files[k - 1..]);
    }
  }

  lemma {:induction false} BatchedAll(lim: Limits, files: seq<string>)
    ensures var (closed, open) := Batched(lim, files, |files|);
            Greedy(lim, [], files) == if open != [] then closed + [open] else closed
  {
    BatchedIsGreedy(lim, files, |files|);
  }

  // ---- the loop ------------------------------------------------------------

  function Files(batches: seq<ContextBatch>): (r: seq<seq<string>>)
    reads batches
    ensures |r| == |batches|
    ensures forall i :: 0 <= i < |batches| ==> r[i] == batches[i].files
  {
    seq(|batches|, i requires 0 <= i < |batches| reads batches => batches[i].files)
  }

  /** A batch with its running token count. */
  predicate Built(lim: Limits, objective: string, batch: ContextBatch)
    reads batch
  {
    batch.objective == objective && batch.estimatedTokens == lim.Tokens(batch.files)
  }

  predicate AllBuilt(lim: Limits, objective: string, batches: seq<ContextBatch>)
    reads batches
  {
    forall k :: 0 <= k < |batches| ==> Built(lim, objective, batches[k])
  }

  method BuildBatches(lim: Limits, ranked: seq<string>, objective: string) returns (batches: seq<ContextBatch>)
    ensures Files(batches) == Greedy(lim, [], ranked)
    ensures fresh(batches) && AllBuilt(lim, objective, batches)
  {
    batches := [];
    var current := new ContextBatch(objective);
    ghost var closed: seq<seq<string>> := [];
    for i := 0 to |ranked|
      invariant fresh(current) && fresh(batches) && current !in batches
      invariant Built(lim, objective, current) && AllBuilt(lim, objective, batches)
      invariant Holds(batches, closed) && (closed, current.files) == Batched(lim, ranked, i)
    {
      ghost var files := current.files;
      var full, open := PlaceFile(lim, objective, current, ranked[i]);
      if full {
        closed := closed + [files];
        batches := batches + [current];
      }
      current := open;
    }
    BatchedAll(lim, ranked);
    if current.files != [] {
      closed := closed + [current.files];
      batches := batches + [current];
    }
    FilesHeld(batches, closed);
  }

  /** One turn of the loop: a file that does not fit closes the open batch for a new one. */
  method PlaceFile(lim: Limits, objective: string, current: ContextBatch, rel: string)
    returns (full: bool, open: ContextBatch)
    requires Built(lim, objective, current)
    modifies current
    ensures full <==> Overflows(lim, old(current.files), rel)
    ensures full ==> fresh(open) && open.files == [rel] && current.files == old(current.files)
    ensures !full ==> open == current && open.files == old(current.files) + [rel]
    ensures Built(lim, objective, open) && Built(lim, objective, current)
  {
    var tokens := lim.Cost(rel);
    var overFiles := |current.files| >= lim.maxFiles;
    var overTokens := current.estimatedTokens + tokens > lim.maxTokens;
    full, open := false, current;
    if current.files != [] && (overFiles || overTokens) {
      full := true;
      open := new ContextBatch(objective);
    }
    TokensAppend(lim, open.files, [rel]);
    open.Add(rel, tokens);
  }

  ghost predicate Holds(batches: seq<ContextBatch>, closed: seq<seq<string>>)
    reads batches
  {
    |batches| == |closed| && forall k :: 0 <= k < |batches| ==> batches[k].files == closed[k]
  }

  lemma FilesHeld(batches: seq<ContextBatch>, closed: seq<seq<string>>)
    requires Holds(batches, closed)
    ensures Files(batches) == closed
  {
  }

  /** One file closes the open batch or joins it. */
  lemma {:induction false} GreedyStep(lim: Limits, closed: seq<seq<string>>, current: seq<string>, rest: seq<string>)
    requires rest != []
    ensures closed + Greedy(lim, current, rest) ==
            if Overflows(lim, current, rest[0])
            then closed + [current] + Greedy(lim, [] + [rest[0]], rest[1..])
            else closed + Greedy(lim, current + [rest[0]], rest[1..])
  {
    assert [] + [rest[0]] == [rest[0]];
    assert closed + ([current] + Greedy(lim, [rest[0]], rest[1..]))
        == closed + [current] + Greedy(lim, [rest[0]], rest[1..]);
  }

  // ---- what the greedy batches are -----------------------------------------

  lemma {:induction false} TokensAppend(lim: Limits, a: seq<string>, b: seq<string>)
    ensures lim.Tokens(a + b) == lim.Tokens(a) + lim.Tokens(b)
  {
    if a == [] {
      assert a + b == b;
    } else {
      assert (a + b)[1..] == a[1..] + b;
      TokensAppend(lim, a[1..], b);
    }
  }

  /** Nothing is lost, repeated or reordered, and every batch fits. */
  lemma {:induction false} GreedyDivides(lim: Limits, current: seq<string>, rest: seq<string>)
    requires current == [] || lim.Fits(current)
    ensures IsDivision(lim, Greedy(lim, current, rest), current + rest)
    decreases rest
  {
    var batches := Greedy(lim, current, rest);
    if rest != [] {
      var f := rest[0];
      TokensAppend(lim, current, [f]);
      if current != [] && (|current| >= lim.maxFiles || lim.Tokens(current) + lim.Cost(f) > lim.maxTokens) {
        GreedyDivides(lim, [f], rest[1..]);
        assert batches[1..] == Greedy(lim, [f], rest[1..]);
        assert current + rest == current + ([f] + rest[1..]);
      } else {
        GreedyDivides(lim, current + [f], rest[1..]);
        assert current + rest == current + [f] + rest[1..];
      }
    } else if current != [] {
      assert Concat([current]) == current + Concat([current][1..]);
      assert current + rest == current;
    }
  }

  lemma {:induction false} GreedyWithinCaps(lim: Limits, files: seq<string>)
    ensures forall b :: b in Greedy(lim, [], files) ==>
      && b != [] && (|b| <= lim.maxFiles || |b| == 1) && (lim.Tokens(b) <= lim.maxTokens || |b| == 1)
  {
    GreedyDivides(lim, [], files);
  }

  /** A stretch of a batch that fits, fits. */
  lemma StretchFits(lim: Limits, before: seq<string>, middle: seq<string>, after: seq<string>)
    requires middle != [] && lim.Fits(before + middle + after)
    ensures lim.Fits(middle)
  {
    TokensAppend(lim, before + middle, after);
    TokensAppend(lim, before, middle);
    if |before + middle + after| == 1 {
      assert |middle| == 1;
    }
  }

  /** Greedy stays ahead of any division `q` of the same files. `block` is the part of
      `q[0]` already passed. With `current` a suffix of it greedy needs no more batches
      than `q` has; with any other open batch it needs at most one more. */
  lemma {:induction false} StaysAhead(lim: Limits, current: seq<string>, block: seq<string>, rest: seq<string>,
                                      q: seq<seq<string>>, passed: seq<string>, even: bool)
    requires current != [] && block != [] && q != [] && block <= q[0]
    requires IsDivision(lim, q, block + rest)
    requires even ==> block == passed + current
    ensures |Greedy(lim, current, rest)| <= if even then |q| else |q| + 1
    decreases rest
  {
    if rest != [] {
      var f, more := rest[0], rest[1..];
      assert Concat(q) == q[0] + Concat(q[1..]);
      if |q[0]| > |block| {
        assert q[0] == (block + rest)[..|q[0]|];
        assert block + [f] <= q[0] && block + rest == (block + [f]) + more;
        if even {
          var tail := q[0][|block| + 1..];
          assert q[0] == passed + (current + [f]) + tail;
          StretchFits(lim, passed, current + [f], tail);
          TokensAppend(lim, current, [f]);
          assert block + [f] == passed + (current + [f]);
          StaysAhead(lim, current + [f], block + [f], more, q, passed, true);
        } else {
          StaysAhead(lim, current + [f], block + [f], more, q, [], false);
          StaysAhead(lim, [f], block + [f], more, q, block, true);
        }
      } else {
        assert q[0] == block;
        assert Concat(q[1..]) == rest by {
          assert (q[0] + Concat(q[1..]))[|block|..] == Concat(q[1..]);
          assert (block + rest)[|block|..] == rest;
        }
        assert q[1..] != [];
        assert rest == [f] + more;
        assert Concat(q[1..]) == q[1..][0] + Concat(q[1..][1..]);
        assert lim.Fits(q[1]);
        assert [f] <= q[1];
        assert forall i :: 0 <= i < |q[1..]| ==> q[1..][i] == q[i + 1];
        StaysAhead(lim, [f], [f], more, q[1..], [], true);
        StaysAhead(lim, current + [f], [f], more, q[1..], [], false);
      }
    }
  }

  /** No other order-preserving division within the caps has fewer batches. */
  lemma {:induction false} GreedyIsOptimal(lim: Limits, files: seq<string>, other: seq<seq<string>>)
    requires IsDivision(lim, other, files)
    ensures |Greedy(lim, [], files)| <= |other|
  {
    if files != [] {
      var f, more := files[0], files[1..];
      assert other != [];
      assert Concat(other) == other[0] + Concat(other[1..]);
      assert lim.Fits(other[0]);
      assert files == [f] + more && [f] <= other[0];
      assert [] + [f] == [f];
      StaysAhead(lim, [f], [f], more, other, [], true);
    }
  }
}
