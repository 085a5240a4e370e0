/** Model of plan progress: `Planner.advance` in
    `repo-agent/backend/app/agents/planner.py` over the plan of
    `repo-agent/backend/app/models/plan.py`. */
module PlanProgress {
  import opened Wrappers

  datatype StepStatus = Pending | InProgress | Completed | Blocked | Skipped

  datatype PlanStep = PlanStep(id: string, status: StepStatus, summary: Option<string>)

  datatype Plan = Plan(steps: seq<PlanStep>, current: Option<string>, revision: int)

  predicate IsIncomplete(s: PlanStep) {
    s.status.Pending? || s.status.InProgress?
  }

  /** `plan.step(id)`, looked for from step `k` on: the index of the first step with this
      id, or how many steps there are. */
  function StepFrom(steps: seq<PlanStep>, id: string, k: nat): (i: nat)
    requires k <= |steps|
    ensures k <= i <= |steps|
    ensures i < |steps| ==> steps[i].id == id
    ensures forall n :: k <= n < i ==> steps[n].id != id
    decreases |steps| - k
  {
    if k == |steps| || steps[k].id == id then k else StepFrom(steps, id, k + 1)
  }

  /** `plan.first_incomplete()` from step `k` on, by index. */
  function FirstFrom(steps: seq<PlanStep>, k: nat): (i: nat)
    requires k <= |steps|
    ensures k <= i <= |steps|
    ensures i < |steps| ==> IsIncomplete(steps[i])
    ensures forall n :: k <= n < i ==> !IsIncomplete(steps[n])
    decreases |steps| - k
  {
    if k == |steps| || IsIncomplete(steps[k]) then k else FirstFrom(steps, k + 1)
  }

  function FirstIncomplete(steps: seq<PlanStep>): (i: nat)
    ensures i <= |steps|
    ensures i < |steps| ==> IsIncomplete(steps[i])
    ensures forall n :: 0 <= n < i ==> !IsIncomplete(steps[n])
  {
    FirstFrom(steps, 0)
  }

  function Clip(s: string): (r: string)
    ensures r <= s && |r| <= 200 && (|r| < 200 ==> r == s)
  {
    if |s| > 200 then s[..200] else s
  }

  /** The step an advance completes; an empty current id counts as none. */
  function CurrentIndex(p: Plan): (i: nat)
    ensures i <= |p.steps|
  {
    if p.current.None? || p.current.value == "" then |p.steps| else StepFrom(p.steps, p.current.value, 0)
  }

  function Advanced(p: Plan, observation: string): Plan {
    var i := CurrentIndex(p);
    var done := if i < |p.steps| then p.steps[i := p.steps[i].(status := Completed, summary := Some(Clip(observation)))]
                else p.steps;
    var j := FirstIncomplete(done);
    if j < |done|
    then Plan(done[j := done[j].(status := InProgress)], Some(done[j].id), p.revision + 1)
    else Plan(done, None, p.revision + 1)
  }

  /** The plan object the planner updates in place. */
  class ExecutionPlan {
    var steps: seq<PlanStep>
    var current: Option<string>
    var revision: int

    function View(): Plan
      reads this
    {
      Plan(steps, current, revision)
    }

    constructor (p: Plan)
      ensures View() == p
    {
      steps, current, revision := p.steps, p.current, p.revision;
    }

    method Advance(observation: string)
      modifies this
      ensures View() == Advanced(old(View()), observation)
    {
      var i := CurrentIndex(View());
      if i < |steps| {
        steps := steps[i := steps[i].(status := Completed, summary := Some(Clip(observation)))];
      }
      var j := FirstIncomplete(steps);
      if j < |steps| {
        steps := steps[j := steps[j].(status := InProgress)];
        current := Some(steps[j].id);
      } else {
        current := None;
      }
      revision := revision + 1;
    }
  }

  // ---- what advancing does -------------------------------------------------

  /** The places of the incomplete steps from `i` on, in order. */
  function OpenFrom(steps: seq<PlanStep>, i: nat): (r: seq<nat>)
    requires i <= |steps|
    decreases |steps| - i
  {
    if i == |steps| then []
    else
      var rest := OpenFrom(steps, i + 1);
      if IsIncomplete(steps[i]) then [i] + rest else rest
  }

  function Open(steps: seq<PlanStep>): seq<nat> {
    OpenFrom(steps, 0)
  }

  ghost predicate Places(todo: seq<nat>, from: nat, bound: nat) {
    && (forall n :: 0 <= n < |todo| ==> from <= todo[n] < bound)
    && (forall a, b :: 0 <= a < b < |todo| ==> todo[a] < todo[b])
  }

  /** They are places in the plan, each once and in order. */
  lemma {:induction false} OpenPlaces(steps: seq<PlanStep>, i: nat)
    requires i <= |steps|
    ensures Places(OpenFrom(steps, i), i, |steps|)
    decreases |steps| - i
  {
    if i < |steps| {
      OpenPlaces(steps, i + 1);
      var rest := OpenFrom(steps, i + 1);
      assert forall n :: 0 < n < |[i] + rest| ==> ([i] + rest)[n] == rest[n - 1];
    }
  }

  /** They are exactly the incomplete steps. */
  lemma {:induction false} OpenIsExact(steps: seq<PlanStep>, i: nat, k: nat)
    requires i <= k < |steps|
    ensures k in OpenFrom(steps, i) <==> IsIncomplete(steps[k])
    decreases |steps| - i
  {
    if i < k {
      OpenIsExact(steps, i + 1, k);
    } else {
      OpenPlaces(steps, i + 1);
    }
  }

  predicate DistinctIds(steps: seq<PlanStep>) {
    && (forall i :: 0 <= i < |steps| ==> steps[i].id != "")
    && (forall i, j :: 0 <= i < j < |steps| ==> steps[i].id != steps[j].id)
  }

  /** Looking for the step's id finds the step. */
  predicate OwnsId(steps: seq<PlanStep>, t: nat)
    requires t < |steps|
  {
    steps[t].id != "" && forall k :: 0 <= k < t ==> steps[k].id != steps[t].id
  }

  /** Every incomplete step does: less than that all ids differ. */
  predicate OwnIds(steps: seq<PlanStep>) {
    forall t :: 0 <= t < |steps| && IsIncomplete(steps[t]) ==> OwnsId(steps, t)
  }

  lemma DistinctIdsOwn(steps: seq<PlanStep>)
    requires DistinctIds(steps)
    ensures OwnIds(steps)
  {
  }

  /** The plan's current id is that of its first incomplete step. */
  predicate AtFirst(p: Plan) {
    var f := FirstIncomplete(p.steps);
    p.current == if f < |p.steps| then Some(p.steps[f].id) else None
  }

  /** The plan works on its first incomplete step, and on no other. */
  ghost predicate OnTrack(p: Plan) {
    && OwnIds(p.steps) && AtFirst(p)
    && forall k :: 0 <= k < |p.steps| && p.steps[k].status.InProgress? ==> k == FirstIncomplete(p.steps)
  }

  function Finished(s: PlanStep, observation: string): PlanStep {
    s.(status := Completed, summary := Some(Clip(observation)))
  }

  function Started(s: PlanStep): PlanStep {
    s.(status := InProgress)
  }

  /** The open places from `i` on depend only on which steps from `i` on are incomplete. */
  lemma {:induction false} OpenDependsOn(a: seq<PlanStep>, b: seq<PlanStep>, i: nat)
    requires i <= |a| == |b|
    requires forall k :: i <= k < |a| ==> (IsIncomplete(a[k]) <==> IsIncomplete(b[k]))
    ensures OpenFrom(a, i) == OpenFrom(b, i)
    decreases |a| - i
  {
    if i < |a| {
      OpenDependsOn(a, b, i + 1);
    }
  }

  lemma {:induction false} OpenSkips(steps: seq<PlanStep>, i: nat, f: nat)
    requires i <= f <= |steps|
    requires forall k :: i <= k < f ==> !IsIncomplete(steps[k])
    ensures OpenFrom(steps, i) == OpenFrom(steps, f)
    decreases f - i
  {
    if i < f {
      OpenSkips(steps, i + 1, f);
    }
  }

  /** The first incomplete step heads the open ones. */
  lemma {:induction false} FirstIsOpenHead(steps: seq<PlanStep>)
    ensures var f := FirstIncomplete(steps);
            Open(steps) == if f < |steps| then [f] + OpenFrom(steps, f + 1) else []
  {
    OpenSkips(steps, 0, FirstIncomplete(steps));
  }

  lemma FirstIncompleteIs(steps: seq<PlanStep>, j: nat)
    requires j <= |steps|
    requires j < |steps| ==> IsIncomplete(steps[j])
    requires forall k :: 0 <= k < j ==> !IsIncomplete(steps[k])
    ensures FirstIncomplete(steps) == j
  {
    var f := FirstIncomplete(steps);
    assert f < |steps| ==> IsIncomplete(steps[f]);
    assert forall k :: 0 <= k < f ==> !IsIncomplete(steps[k]);
  }

  /** Completing the first incomplete step takes it off the open ones and keeps the rest. */
  lemma FinishFirst(steps: seq<PlanStep>, f: nat, observation: string)
    requires f == FirstIncomplete(steps) < |steps|
    ensures var done := steps[f := Finished(steps[f], observation)];
            Open(steps) == [f] + Open(done)
  {
    var done := steps[f := Finished(steps[f], observation)];
    FirstIsOpenHead(steps);
    OpenSkips(done, 0, f + 1);
    OpenDependsOn(steps, done, f + 1);
  }

  /** Starting the first incomplete step leaves the open ones, and it stays the first. */
  lemma StartFirst(steps: seq<PlanStep>, j: nat)
    requires j == FirstIncomplete(steps) < |steps|
    ensures var more := steps[j := Started(steps[j])];
            Open(more) == Open(steps) && FirstIncomplete(more) == j
  {
    var more := steps[j := Started(steps[j])];
    OpenDependsOn(steps, more, 0);
    FirstIncompleteIs(more, j);
  }

  lemma CurrentIsFirst(p: Plan)
    requires OnTrack(p)
    ensures CurrentIndex(p) == FirstIncomplete(p.steps)
  {
    var f := FirstIncomplete(p.steps);
    if f < |p.steps| {
      var i := StepFrom(p.steps, p.steps[f].id, 0);
      assert i <= f;
    }
  }

  /** `q` is `p` with exactly the first incomplete step finished, the next one started and no
      other touched; with nothing left only the revision has moved. */
  ghost predicate Stepped(p: Plan, q: Plan, observation: string) {
    var f, j := FirstIncomplete(p.steps), FirstIncomplete(q.steps);
    && q.revision == p.revision + 1 && |q.steps| == |p.steps|
    && (if f < |p.steps| then Open(p.steps) == [f] + Open(q.steps) else Open(q.steps) == Open(p.steps) == [])
    && (f < |p.steps| ==> q.steps[f] == Finished(p.steps[f], observation))
    && (f < |p.steps| && j < |q.steps| ==> j != f && q.steps[j] == Started(p.steps[j]))
    && forall k :: 0 <= k < |p.steps| && k != f && k != j ==> q.steps[k] == p.steps[k]
  }

  lemma AdvanceFirst(p: Plan, observation: string)
    requires CurrentIndex(p) == FirstIncomplete(p.steps)
    ensures Stepped(p, Advanced(p, observation), observation)
  {
    var f := FirstIncomplete(p.steps);
    FirstIsOpenHead(p.steps);
    if f < |p.steps| {
      var done := p.steps[f := Finished(p.steps[f], observation)];
      FinishFirst(p.steps, f, observation);
      FirstIsOpenHead(done);
      var j := FirstIncomplete(done);
      if j < |done| {
        StartFirst(done, j);
      }
    }
  }

  /** For any plan: an advance does what it should if and only if the current id finds the first
      incomplete step or, with no step left to do, finds none or would rewrite a step as it is. */
  lemma AdvanceOne(p: Plan, observation: string)
    ensures var f, i := FirstIncomplete(p.steps), CurrentIndex(p);
            Stepped(p, Advanced(p, observation), observation)
            <==> i == f || (f == |p.steps| && p.steps[i] == Finished(p.steps[i], observation))
  {
    var f, i := FirstIncomplete(p.steps), CurrentIndex(p);
    if i == f {
      AdvanceFirst(p, observation);
    } else if f < |p.steps| {
      OffFirst(p, observation);
    } else {
      NothingLeft(p, observation);
    }
  }

  /** An advance that finds another step than the first incomplete one leaves that one to do. */
  lemma OffFirst(p: Plan, observation: string)
    requires FirstIncomplete(p.steps) < |p.steps| && CurrentIndex(p) != FirstIncomplete(p.steps)
    ensures var f, q := FirstIncomplete(p.steps), Advanced(p, observation);
            FirstIncomplete(q.steps) == f && q.steps[f] == Started(p.steps[f]) && q.current == Some(p.steps[f].id)
    ensures !Stepped(p, Advanced(p, observation), observation)
  {
    var f, i := FirstIncomplete(p.steps), CurrentIndex(p);
    var done := if i < |p.steps| then p.steps[i := Finished(p.steps[i], observation)] else p.steps;
    FirstIncompleteIs(done, f);
    StartFirst(done, f);
  }

  lemma NothingLeft(p: Plan, observation: string)
    requires FirstIncomplete(p.steps) == |p.steps| && CurrentIndex(p) < |p.steps|
    ensures Stepped(p, Advanced(p, observation), observation)
       <==> p.steps[CurrentIndex(p)] == Finished(p.steps[CurrentIndex(p)], observation)
  {
    var i := CurrentIndex(p);
    var done := p.steps[i := Finished(p.steps[i], observation)];
    FirstIncompleteIs(done, |done|);
    FirstIsOpenHead(done);
    FirstIsOpenHead(p.steps);
  }

  /** The plan stays on its first incomplete step, with at most that one in progress. */
  lemma AdvanceKeepsTrack(p: Plan, observation: string)
    requires OnTrack(p)
    ensures OnTrack(Advanced(p, observation))
  {
    var f := FirstIncomplete(p.steps);
    CurrentIsFirst(p);
    if f < |p.steps| {
      var done := p.steps[f := Finished(p.steps[f], observation)];
      var j := FirstIncomplete(done);
      if j < |done| {
        StartFirst(done, j);
      }
    }
  }

  /** The plan after the first `k` of these observations. */
  function AdvancedBy(p: Plan, observations: seq<string>, k: nat): Plan
    requires k <= |observations|
  {
    if k == 0 then p else Advanced(AdvancedBy(p, observations, k - 1), observations[k - 1])
  }

  function Min(a: nat, b: nat): nat {
    if a < b then a else b
  }

  /** How the steps stand after `k` advances: of the places `todo`, open at the start, the
      first ones are finished, each with its own observation, and the next is started. */
  ghost predicate Progressed(was: seq<PlanStep>, now: seq<PlanStep>, todo: seq<nat>, observations: seq<string>, k: nat)
    requires Places(todo, 0, |was|) && k <= |observations|
  {
    && |now| == |was|
    && (forall n :: 0 <= n < k && n < |todo| ==> now[todo[n]] == Finished(was[todo[n]], observations[n]))
    && (0 < k < |todo| ==> now[todo[k]] == Started(was[todo[k]]))
    && (forall n :: k < n < |todo| ==> now[todo[n]] == was[todo[n]])
    && (k == 0 < |todo| ==> now[todo[k]] == was[todo[k]])
    && (forall i :: 0 <= i < |was| && i !in todo ==> now[i] == was[i])
  }

  /** Finishing place `k` of the open ones and starting place `k + 1` is one more advance. */
  lemma ProgressStep(was: seq<PlanStep>, mid: seq<PlanStep>, now: seq<PlanStep>, todo: seq<nat>,
                     observations: seq<string>, k: nat)
    requires k < |observations| && |now| == |was|
    requires Places(todo, 0, |was|) && Progressed(was, mid, todo, observations, k)
    requires k < |todo| ==> now[todo[k]] == Finished(mid[todo[k]], observations[k])
    requires k + 1 < |todo| ==> now[todo[k + 1]] == Started(mid[todo[k + 1]])
    requires forall i :: 0 <= i < |was| && (k < |todo| ==> i != todo[k]) && (k + 1 < |todo| ==> i != todo[k + 1])
                         ==> now[i] == mid[i]
    ensures Progressed(was, now, todo, observations, k + 1)
  {
  }

  lemma {:induction false} StaysOnTrack(p: Plan, observations: seq<string>, k: nat)
    requires OnTrack(p) && k <= |observations|
    ensures OnTrack(AdvancedBy(p, observations, k))
  {
    if k > 0 {
      StaysOnTrack(p, observations, k - 1);
      AdvanceKeepsTrack(AdvancedBy(p, observations, k - 1), observations[k - 1]);
    }
  }

  lemma HeadOfOpen(steps: seq<PlanStep>, todo: seq<nat>, k: nat)
    requires Open(steps) == todo[Min(k, |todo|)..]
    ensures FirstIncomplete(steps) == if k < |todo| then todo[k] else |steps|
  {
    FirstIsOpenHead(steps);
    if k < |todo| {
      assert todo[k..][0] == todo[k];
    }
  }

  /** The advance after `k` others works on places `k` and `k + 1` of those open at the start. */
  lemma NextOfOpen(mid: Plan, q: Plan, todo: seq<nat>, k: nat, observation: string)
    requires Stepped(mid, q, observation)
    requires Places(todo, 0, |mid.steps|) && Open(mid.steps) == todo[Min(k, |todo|)..]
    ensures Open(q.steps) == todo[Min(k + 1, |todo|)..]
    ensures k < |todo| ==> q.steps[todo[k]] == Finished(mid.steps[todo[k]], observation)
    ensures k + 1 < |todo| ==> q.steps[todo[k + 1]] == Started(mid.steps[todo[k + 1]])
    ensures forall i :: 0 <= i < |mid.steps| && (k < |todo| ==> i != todo[k]) && (k + 1 < |todo| ==> i != todo[k + 1])
                        ==> q.steps[i] == mid.steps[i]
  {
    HeadOfOpen(mid.steps, todo, k);
    if k < |todo| {
      assert todo[k..] == [todo[k]] + todo[k + 1..];
    }
    HeadOfOpen(q.steps, todo, k + 1);
  }

  ghost predicate After(p: Plan, q: Plan, todo: seq<nat>, observations: seq<string>, k: nat)
    requires k <= |observations|
  {
    && Places(todo, 0, |p.steps|)
    && q.revision == p.revision + k
    && Open(q.steps) == todo[Min(k, |todo|)..]
    && Progressed(p.steps, q.steps, todo, observations, k)
  }

  lemma AfterNone(p: Plan, todo: seq<nat>, observations: seq<string>)
    requires Places(todo, 0, |p.steps|) && todo == Open(p.steps)
    ensures After(p, p, todo, observations, 0)
  {
    assert todo[0..] == todo;
  }

  lemma AfterStep(p: Plan, mid: Plan, todo: seq<nat>, observations: seq<string>, k: nat)
    requires k < |observations| && OnTrack(mid) && After(p, mid, todo, observations, k)
    ensures After(p, Advanced(mid, observations[k]), todo, observations, k + 1)
  {
    var q := Advanced(mid, observations[k]);
    CurrentIsFirst(mid);
    AdvanceFirst(mid, observations[k]);
    NextOfOpen(mid, q, todo, k, observations[k]);
    ProgressStep(p.steps, mid.steps, q.steps, todo, observations, k);
  }

  /** After `k` advances the first min(k, m) of the m incomplete steps are finished in
      order, each with its own observation, the next is in progress, all else is
      untouched, and the revision has grown by `k`. */
  lemma {:induction false} AdvanceMany(p: Plan, observations: seq<string>, k: nat)
    requires OnTrack(p) && k <= |observations|
    ensures After(p, AdvancedBy(p, observations, k), Open(p.steps), observations, k)
  {
    if k == 0 {
      OpenPlaces(p.steps, 0);
      AfterNone(p, Open(p.steps), observations);
    } else {
      AdvanceMany(p, observations, k - 1);
      StaysOnTrack(p, observations, k - 1);
      AfterStep(p, AdvancedBy(p, observations, k - 1), Open(p.steps), observations, k - 1);
    }
  }

  /** With distinct ids, in particular. */
  lemma {:induction false} DistinctIdsAdvance(p: Plan, observations: seq<string>, k: nat)
    requires DistinctIds(p.steps) && AtFirst(p) && k <= |observations|
    requires forall i :: 0 <= i < |p.steps| && p.steps[i].status.InProgress? ==> i == FirstIncomplete(p.steps)
    ensures OnTrack(AdvancedBy(p, observations, k))
    ensures After(p, AdvancedBy(p, observations, k), Open(p.steps), observations, k)
  {
    DistinctIdsOwn(p.steps);
    StaysOnTrack(p, observations, k);
    AdvanceMany(p, observations, k);
  }

  /** A plan without a current step spends its first advance on starting one. */
  lemma FirstAdvanceStarts(p: Plan, observation: string)
    requires OwnIds(p.steps) && p.current == None
    requires forall k :: 0 <= k < |p.steps| ==> !p.steps[k].status.InProgress?
    ensures var q := Advanced(p, observation);
            && OnTrack(q) && q.revision == p.revision + 1
            && Open(q.steps) == Open(p.steps)
  {
    var j := FirstIncomplete(p.steps);
    if j < |p.steps| {
      StartFirst(p.steps, j);
    }
  }

  // ---- steps that share an id ----------------------------------------------

  /** An incomplete step whose id finds another step, or none, is never finished: whatever the
      plan's current id, and over any advances. */
  lemma {:induction false} SharedIdStalls(p: Plan, t: nat, observations: seq<string>, k: nat)
    requires k <= |observations| && t < |p.steps| && IsIncomplete(p.steps[t]) && !OwnsId(p.steps, t)
    ensures var q := AdvancedBy(p, observations, k);
            |q.steps| == |p.steps| && IsIncomplete(q.steps[t]) && !OwnsId(q.steps, t)
  {
    if k > 0 {
      SharedIdStalls(p, t, observations, k - 1);
      StaysUnfinished(AdvancedBy(p, observations, k - 1), t, observations[k - 1]);
    }
  }

  lemma StaysUnfinished(p: Plan, t: nat, observation: string)
    requires t < |p.steps| && IsIncomplete(p.steps[t]) && !OwnsId(p.steps, t)
    ensures var q := Advanced(p, observation);
            |q.steps| == |p.steps| && IsIncomplete(q.steps[t]) && !OwnsId(q.steps, t)
  {
    var q := Advanced(p, observation);
    assert CurrentIndex(p) != t;
    assert forall k :: 0 <= k < |p.steps| ==> q.steps[k].id == p.steps[k].id;
  }

  /** Once such a step is the first incomplete one and current, every advance leaves all open
      steps open: it rewrites the step its id finds, if any, and counts a revision. */
  lemma {:induction false} StallsForever(p: Plan, observations: seq<string>, k: nat)
    requires k <= |observations| && FirstIncomplete(p.steps) < |p.steps|
    requires AtFirst(p) && CurrentIndex(p) != FirstIncomplete(p.steps)
    ensures var f, i, q := FirstIncomplete(p.steps), CurrentIndex(p), AdvancedBy(p, observations, k);
            && Open(q.steps) == Open(p.steps) && FirstIncomplete(q.steps) == f && q.current == p.current
            && q.revision == p.revision + k && |q.steps| == |p.steps| && CurrentIndex(q) == i
            && (forall n :: 0 <= n < |p.steps| && n != i && n != f ==> q.steps[n] == p.steps[n])
            && (k > 0 ==> q.steps[f] == Started(p.steps[f]))
            && (k > 0 && i < |p.steps| ==> q.steps[i] == Finished(p.steps[i], observations[k - 1]))
  {
    if k > 0 {
      StallsForever(p, observations, k - 1);
      StallsOnce(AdvancedBy(p, observations, k - 1), observations[k - 1]);
    }
  }

  lemma StallsOnce(p: Plan, observation: string)
    requires FirstIncomplete(p.steps) < |p.steps| && AtFirst(p) && CurrentIndex(p) != FirstIncomplete(p.steps)
    ensures var f, i, q := FirstIncomplete(p.steps), CurrentIndex(p), Advanced(p, observation);
            && Open(q.steps) == Open(p.steps) && FirstIncomplete(q.steps) == f && q.current == p.current
            && q.revision == p.revision + 1 && |q.steps| == |p.steps| && CurrentIndex(q) == i
            && (forall n :: 0 <= n < |p.steps| && n != i && n != f ==> q.steps[n] == p.steps[n])
            && q.steps[f] == Started(p.steps[f])
            && (i < |p.steps| ==> q.steps[i] == Finished(p.steps[i], observation))
  {
    var i, q := CurrentIndex(p), Advanced(p, observation);
    OffFirst(p, observation);
    FoundIsEarlier(p);
    OpenDependsOn(p.steps, q.steps, 0);
    if q.current.value != "" {
      SameSearch(p.steps, q.steps, q.current.value, 0);
    }
  }

  /** An id that does not find the first incomplete step finds one that is not incomplete. */
  lemma FoundIsEarlier(p: Plan)
    requires FirstIncomplete(p.steps) < |p.steps| && AtFirst(p) && CurrentIndex(p) != FirstIncomplete(p.steps)
    ensures CurrentIndex(p) == |p.steps| || CurrentIndex(p) < FirstIncomplete(p.steps)
  {
  }

  lemma {:induction false} SameSearch(a: seq<PlanStep>, b: seq<PlanStep>, id: string, k: nat)
    requires k <= |a| == |b| && forall n :: 0 <= n < |a| ==> a[n].id == b[n].id
    ensures StepFrom(a, id, k) == StepFrom(b, id, k)
    decreases |a| - k
  {
    if k < |a| {
      SameSearch(a, b, id, k + 1);
    }
  }

  /** So a plan at its first incomplete step gets through them all, in as many advances, if and
      only if the id of each one finds it. */
  lemma {:induction false} PlanFinishesIff(p: Plan, observations: seq<string>)
    requires |Open(p.steps)| <= |observations| && AtFirst(p)
    requires forall k :: 0 <= k < |p.steps| && p.steps[k].status.InProgress? ==> k == FirstIncomplete(p.steps)
    ensures Open(AdvancedBy(p, observations, |Open(p.steps)|).steps) == [] <==> OwnIds(p.steps)
  {
    var m := |Open(p.steps)|;
    if OwnIds(p.steps) {
      AdvanceMany(p, observations, m);
    } else {
      var t :| 0 <= t < |p.steps| && IsIncomplete(p.steps[t]) && !OwnsId(p.steps, t);
      SharedIdStalls(p, t, observations, m);
      OpenIsExact(AdvancedBy(p, observations, m).steps, 0, t);
    }
  }

  /** The smallest such plan: two steps called "a", the first finished. */
  lemma {:induction false} TwoUnderOneId(observations: seq<string>)
    ensures var p := Plan([PlanStep("a", Completed, None), PlanStep("a", InProgress, None)], Some("a"), 1);
            Open(AdvancedBy(p, observations, |observations|).steps) == [1]
  {
    var p := Plan([PlanStep("a", Completed, None), PlanStep("a", InProgress, None)], Some("a"), 1);
    FirstIncompleteIs(p.steps, 1);
    assert OpenFrom(p.steps, 2) == [];
    assert OpenFrom(p.steps, 1) == [1] + [];
    assert CurrentIndex(p) == 0;
    StallsForever(p, observations, |observations|);
  }
}
