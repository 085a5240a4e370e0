/** Model of `api-agent/worktop/api_agent/app/services/scenario_value_service.py`: scoring
    generated scenarios against existing tests and each other, and consolidating them. The
    tokenizer, and the signals read from existing tests, are parameters; overlaps are exact. */
module ScenarioValue {
  import opened Wrappers

  datatype Scenario = Scenario(id: string, endpoint: string, verb: string, assertions: seq<string>,
                               steps: seq<string>, kind: string)

  datatype Lexicon = Lexicon(tokens: string -> set<string>, upper: string -> string)

  datatype Verdict = LowValue | FullDuplicate | PartialDuplicate | MeaningfulVariation | NewCoverage

  datatype Source = ExistingTest | GeneratedScenario

  /** Something a scenario is compared with. */
  datatype Candidate = Candidate(of: string, source: Source, signals: set<string>)

  datatype Assessment = Assessment(id: string, verdict: Verdict, overlap: real,
                                   duplicateOf: Option<string>, duplicateSource: Option<Source>)

  function TokensOf(lex: Lexicon, mark: string, texts: seq<string>): set<string> {
    set i, t | 0 <= i < |texts| && t in lex.tokens(texts[i]) :: mark + t
  }

  /** `_signals`: never empty, for the scenario's type is always among them. */
  function Signals(lex: Lexicon, s: Scenario): (r: set<string>)
    ensures "type:" + s.kind in r
  {
    (if s.endpoint != "" then {"endpoint:" + s.endpoint} else {}) +
    (if s.verb != "" then {"method:" + lex.upper(s.verb)} else {}) +
    TokensOf(lex, "assert:", s.assertions) + TokensOf(lex, "step:", s.steps) + {"type:" + s.kind}
  }

  /** How a scenario is turned into signals; what follows holds of any such reading. */
  type Reading = Scenario -> set<string>

  function Jaccard(left: set<string>, right: set<string>): real {
    if left == {} || right == {} then 0.0
    else
      assert left + right != {};
      |left * right| as real / |left + right| as real
  }

  function VerdictOf(s: Scenario, overlap: real): Verdict {
    if s.assertions == [] then LowValue
    else if overlap >= 0.85 then FullDuplicate
    else if overlap >= 0.55 then PartialDuplicate
    else if overlap >= 0.25 then MeaningfulVariation
    else NewCoverage
  }

  datatype Match = Match(overlap: real, of: Option<string>, source: Option<Source>)

  /** The best of the first `k` candidates; a later equal one does not replace it. */
  function Best(signals: set<string>, candidates: seq<Candidate>, k: nat): Match
    requires k <= |candidates|
  {
    if k == 0 then Match(0.0, None, None)
    else
      var m, c := Best(signals, candidates, k - 1), candidates[k - 1];
      var overlap := Jaccard(signals, c.signals);
      if overlap > m.overlap then Match(overlap, Some(c.of), Some(c.source)) else m
  }

  function Assessed(s: Scenario, m: Match): Assessment {
    var verdict := VerdictOf(s, m.overlap);
    var names := verdict.FullDuplicate? || verdict.PartialDuplicate?;
    Assessment(s.id, verdict, m.overlap, if names then m.of else None, if names then m.source else None)
  }

  function AsCandidate(read: Reading, s: Scenario): Candidate {
    Candidate(s.id, GeneratedScenario, read(s))
  }

  function Earlier(read: Reading, scenarios: seq<Scenario>, i: nat): (r: seq<Candidate>)
    requires i <= |scenarios|
    ensures |r| == i && forall k :: 0 <= k < i ==> r[k] == AsCandidate(read, scenarios[k])
  {
    seq(i, k requires 0 <= k < |scenarios| => AsCandidate(read, scenarios[k]))
  }

  /** What scenario `i` is compared with: existing tests, then every earlier scenario. */
  function Rivals(read: Reading, scenarios: seq<Scenario>, existing: seq<Candidate>, i: nat): (r: seq<Candidate>)
    requires i <= |scenarios|
  {
    existing + Earlier(read, scenarios, i)
  }

  function AssessmentAt(read: Reading, scenarios: seq<Scenario>, existing: seq<Candidate>, i: nat): Assessment
    requires i < |scenarios|
  {
    var rivals := Rivals(read, scenarios, existing, i);
    Assessed(scenarios[i], Best(read(scenarios[i]), rivals, |rivals|))
  }

  /** The assessments of the first `k` scenarios. */
  function AssessmentsUpTo(read: Reading, scenarios: seq<Scenario>, existing: seq<Candidate>, k: nat)
    : (r: seq<Assessment>)
    requires k <= |scenarios|
    ensures |r| == k && forall i :: 0 <= i < k ==> r[i] == AssessmentAt(read, scenarios, existing, i)
  {
    seq(k, i requires 0 <= i < |scenarios| => AssessmentAt(read, scenarios, existing, i))
  }

  function Assessments(read: Reading, scenarios: seq<Scenario>, existing: seq<Candidate>): (r: seq<Assessment>)
    ensures |r| == |scenarios|
  {
    AssessmentsUpTo(read, scenarios, existing, |scenarios|)
  }

  /** The last assessment filed under an id. */
  function Last(assessments: seq<Assessment>, id: string): Option<Assessment> {
    if assessments == [] then None
    else
      var last := assessments[|assessments| - 1];
      if last.id == id then Some(last) else Last(assessments[..|assessments| - 1], id)
  }

  predicate Drops(assessments: seq<Assessment>, s: Scenario) {
    Last(assessments, s.id).Some? && Last(assessments, s.id).value.verdict.FullDuplicate?
  }

  /** The places of the kept scenarios among the first `k`. */
  function KeptPlaces(scenarios: seq<Scenario>, assessments: seq<Assessment>, k: nat): (r: seq<nat>)
    requires k <= |scenarios|
    ensures forall n :: 0 <= n < |r| ==> r[n] < k && !Drops(assessments, scenarios[r[n]])
    ensures forall m, n :: 0 <= m < n < |r| ==> r[m] < r[n]
  {
    if k == 0 then []
    else
      var r := KeptPlaces(scenarios, assessments, k - 1);
      if Drops(assessments, scenarios[k - 1]) then r else r + [k - 1]
  }

  function At(scenarios: seq<Scenario>, places: seq<nat>): (r: seq<Scenario>)
    requires forall n :: 0 <= n < |places| ==> places[n] < |scenarios|
    ensures |r| == |places| && forall n :: 0 <= n < |r| ==> r[n] == scenarios[places[n]]
  {
    seq(|places|, n requires 0 <= n < |places| => scenarios[places[n]])
  }

  function Kept(scenarios: seq<Scenario>, assessments: seq<Assessment>): seq<Scenario> {
    At(scenarios, KeptPlaces(scenarios, assessments, |scenarios|))
  }

  function Dropped(scenarios: seq<Scenario>, assessments: seq<Assessment>, k: nat): seq<Assessment>
    requires k <= |scenarios|
  {
    if k == 0 then []
    else
      var r := Dropped(scenarios, assessments, k - 1);
      if Drops(assessments, scenarios[k - 1]) then r + [Last(assessments, scenarios[k - 1].id).value] else r
  }

  // ---- the service ---------------------------------------------------------

  method Assess(s: Scenario, signals: set<string>, existing: seq<Candidate>, earlier: seq<Candidate>)
    returns (a: Assessment)
    ensures a == Assessed(s, Best(signals, existing + earlier, |existing + earlier|))
  {
    ghost var rivals := existing + earlier;
    var best := Match(0.0, None, None);
    for i := 0 to |existing|
      invariant best == Best(signals, rivals, i)
    {
      var overlap := Jaccard(signals, existing[i].signals);
      if overlap > best.overlap {
        best := Match(overlap, Some(existing[i].of), Some(existing[i].source));
      }
    }
    for i := 0 to |earlier|
      invariant best == Best(signals, rivals, |existing| + i)
    {
      var overlap := Jaccard(signals, earlier[i].signals);
      assert rivals[|existing| + i] == earlier[i];
      if overlap > best.overlap {
        best := Match(overlap, Some(earlier[i].of), Some(earlier[i].source));
      }
    }
    a := Assessed(s, best);
  }

  method Evaluate(read: Reading, scenarios: seq<Scenario>, existing: seq<Candidate>)
    returns (assessments: seq<Assessment>, requiresApproval: bool)
    ensures assessments == Assessments(read, scenarios, existing)
    ensures requiresApproval <==> exists i :: 0 <= i < |assessments| && assessments[i].verdict.FullDuplicate?
  {
    assessments := [];
    var earlier: seq<Candidate> := [];
    for i := 0 to |scenarios|
      invariant earlier == Earlier(read, scenarios, i)
      invariant assessments == AssessmentsUpTo(read, scenarios, existing, i)
    {
      var signals := read(scenarios[i]);
      var a := Assess(scenarios[i], signals, existing, earlier);
      assessments := assessments + [a];
      earlier := earlier + [Candidate(scenarios[i].id, GeneratedScenario, signals)];
    }
    requiresApproval := false;
    for i := 0 to |assessments|
      invariant requiresApproval <==> exists k :: 0 <= k < i && assessments[k].verdict.FullDuplicate?
    {
      requiresApproval := requiresApproval || assessments[i].verdict.FullDuplicate?;
    }
  }

  method Consolidate(scenarios: seq<Scenario>, assessments: seq<Assessment>)
    returns (kept: seq<Scenario>, dropped: seq<Assessment>)
    ensures kept == Kept(scenarios, assessments)
    ensures dropped == Dropped(scenarios, assessments, |scenarios|)
  {
    var byId: map<string, Assessment> := map[];
    for i := 0 to |assessments|
      invariant forall id :: id in byId <==> Last(assessments[..i], id).Some?
      invariant forall id :: id in byId ==> Last(assessments[..i], id) == Some(byId[id])
    {
      assert assessments[..i + 1][..i] == assessments[..i];
      byId := byId[assessments[i].id := assessments[i]];
    }
    assert assessments[..|assessments|] == assessments;
    kept, dropped := [], [];
    for i := 0 to |scenarios|
      invariant kept == At(scenarios, KeptPlaces(scenarios, assessments, i))
      invariant dropped == Dropped(scenarios, assessments, i)
    {
      var id := scenarios[i].id;
      if id in byId && byId[id].verdict.FullDuplicate? {
        dropped := dropped + [byId[id]];
      } else {
        kept := kept + [scenarios[i]];
      }
    }
  }

  // ---- what overlaps and verdicts mean -------------------------------------

  lemma {:induction false} Disjoint(left: set<string>, right: set<string>)
    requires left * right == {}
    ensures |left + right| == |left| + |right|
  {
    if left == {} {
      assert left + right == right;
    } else {
      var x :| x in left;
      assert x !in right by {
        assert x in right ==> x in left * right;
      }
      Disjoint(left - {x}, right);
      assert (left - {x}) + right == (left + right) - {x};
    }
  }

  /** The signals both have and those either has add up to all they have. */
  lemma {:induction false} BothAndEither(left: set<string>, right: set<string>)
    ensures |left * right| + |left + right| == |left| + |right|
  {
    Disjoint(left - right, right);
    assert (left - right) + right == left + right;
    Disjoint(left - right, left * right);
    assert (left - right) + (left * right) == left;
  }

  lemma {:induction false} SubsetIsWhole(part: set<string>, whole: set<string>)
    requires part <= whole && |part| == |whole|
    ensures part == whole
  {
    Disjoint(part, whole - part);
    assert part + (whole - part) == whole;
    assert whole - part == {};
  }

  /** Overlap is symmetric, never more than one, one only between equal sets, zero only between
      sets that share nothing, and what it says of any shared part is its share of all signals. */
  lemma {:induction false} JaccardIs(left: set<string>, right: set<string>)
    ensures Jaccard(left, right) == Jaccard(right, left)
    ensures 0.0 <= Jaccard(left, right) <= 1.0
    ensures Jaccard(left, right) == 0.0 <==> left * right == {}
    ensures Jaccard(left, right) == 1.0 <==> left == right && left != {}
    ensures var both := |left * right|;
            Jaccard(left, right) * (|left| + |right| - both) as real == both as real
  {
    assert left * right == right * left && left + right == right + left;
    BothAndEither(left, right);
    if left != {} && right != {} {
      var both, either := |left * right|, |left + right|;
      Disjoint(left * right, (left + right) - left * right);
      assert left * right + ((left + right) - left * right) == left + right;
      Share(both, either);
      if both == either {
        SubsetIsWhole(left * right, left + right);
      }
      if left == right {
        assert left * right == left + right;
      }
    }
  }

  lemma Share(both: nat, either: nat)
    requires both <= either && either > 0
    ensures var share := both as real / either as real;
            0.0 <= share <= 1.0 && (share == 0.0 <==> both == 0) && (share == 1.0 <==> both == either)
    ensures both as real / either as real * either as real == both as real
  {
  }

  /** Some of what the scenario is compared with overlaps it at least this much. */
  ghost predicate SomeOverlaps(signals: set<string>, rivals: seq<Candidate>, least: real) {
    exists i :: 0 <= i < |rivals| && Jaccard(signals, rivals[i].signals) >= least
  }

  lemma {:induction false} BestReached(signals: set<string>, candidates: seq<Candidate>, k: nat)
    requires k <= |candidates| && Best(signals, candidates, k).overlap > 0.0
    ensures exists i :: 0 <= i < k && Jaccard(signals, candidates[i].signals) == Best(signals, candidates, k).overlap
  {
    var m, c := Best(signals, candidates, k - 1), candidates[k - 1];
    if Jaccard(signals, c.signals) <= m.overlap {
      BestReached(signals, candidates, k - 1);
    }
  }

  lemma {:induction false} BestIsLeast(signals: set<string>, rivals: seq<Candidate>, least: real)
    requires least > 0.0
    ensures Best(signals, rivals, |rivals|).overlap >= least <==> SomeOverlaps(signals, rivals, least)
  {
    BestBounds(signals, rivals, |rivals|);
    if Best(signals, rivals, |rivals|).overlap >= least {
      BestReached(signals, rivals, |rivals|);
    }
  }

  /** The verdict on a scenario, by what of its rivals overlaps it how much. */
  lemma {:induction false} VerdictByRivals(s: Scenario, signals: set<string>, rivals: seq<Candidate>)
    ensures var verdict := Assessed(s, Best(signals, rivals, |rivals|)).verdict;
            var full, partial, some := SomeOverlaps(signals, rivals, 0.85), SomeOverlaps(signals, rivals, 0.55),
                                       SomeOverlaps(signals, rivals, 0.25);
            && (verdict.LowValue? <==> s.assertions == [])
            && (s.assertions != [] ==>
                  && (verdict.FullDuplicate? <==> full)
                  && (verdict.PartialDuplicate? <==> partial && !full)
                  && (verdict.MeaningfulVariation? <==> some && !partial)
                  && (verdict.NewCoverage? <==> !some))
  {
    BestIsLeast(signals, rivals, 0.85);
    BestIsLeast(signals, rivals, 0.55);
    BestIsLeast(signals, rivals, 0.25);
  }

  lemma {:induction false} BestBounds(signals: set<string>, candidates: seq<Candidate>, k: nat)
    requires k <= |candidates|
    ensures Best(signals, candidates, k).overlap >= 0.0
    ensures forall i :: 0 <= i < k ==> Jaccard(signals, candidates[i].signals) <= Best(signals, candidates, k).overlap
  {
    if k > 0 {
      BestBounds(signals, candidates, k - 1);
    }
  }

  /** Candidate `i` is the first to reach the best overlap. */
  ghost predicate FirstBest(signals: set<string>, candidates: seq<Candidate>, k: nat, i: nat)
    requires i < k <= |candidates|
  {
    var m := Best(signals, candidates, k);
    && m == Match(Jaccard(signals, candidates[i].signals), Some(candidates[i].of), Some(candidates[i].source))
    && forall j :: 0 <= j < i ==> Jaccard(signals, candidates[j].signals) < m.overlap
  }

  lemma {:induction false} BestIsFirst(signals: set<string>, candidates: seq<Candidate>, k: nat)
    requires k <= |candidates|
    ensures if Best(signals, candidates, k).overlap == 0.0 then Best(signals, candidates, k) == Match(0.0, None, None)
            else exists i: nat :: i < k && FirstBest(signals, candidates, k, i)
  {
    BestBounds(signals, candidates, k);
    if k > 0 {
      var p := k - 1;
      BestIsFirst(signals, candidates, p);
      BestBounds(signals, candidates, p);
      if Best(signals, candidates, k) != Best(signals, candidates, p) {
        assert FirstBest(signals, candidates, k, p);
      } else if Best(signals, candidates, p).overlap > 0.0 {
        var i: nat :| i < p && FirstBest(signals, candidates, p, i);
        assert FirstBest(signals, candidates, k, i);
      }
    }
  }

  predicate Overlaps(read: Reading, s: Scenario, c: Candidate) {
    Jaccard(read(s), c.signals) >= 0.85
  }

  lemma {:induction false} FullDuplicateOf(s: Scenario, signals: set<string>, rivals: seq<Candidate>)
    ensures var a := Assessed(s, Best(signals, rivals, |rivals|));
            && (a.verdict.FullDuplicate? <==>
                  s.assertions != [] && exists k :: 0 <= k < |rivals| && Jaccard(signals, rivals[k].signals) >= 0.85)
            && (a.verdict.FullDuplicate? ==>
                  exists k: nat :: k < |rivals| && FirstBest(signals, rivals, |rivals|, k)
                                   && a.duplicateOf == Some(rivals[k].of)
                                   && a.duplicateSource == Some(rivals[k].source))
  {
    BestBounds(signals, rivals, |rivals|);
    BestIsFirst(signals, rivals, |rivals|);
    if Best(signals, rivals, |rivals|).overlap >= 0.85 {
      var k: nat :| k < |rivals| && FirstBest(signals, rivals, |rivals|, k);
      assert Jaccard(signals, rivals[k].signals) >= 0.85;
    }
  }

  lemma AssessmentIs(read: Reading, scenarios: seq<Scenario>, existing: seq<Candidate>, i: nat)
    requires i < |scenarios|
    ensures Assessments(read, scenarios, existing)[i] == AssessmentAt(read, scenarios, existing, i)
    ensures Assessments(read, scenarios, existing)[i].id == scenarios[i].id
  {
  }

  /** Some existing test or earlier scenario overlaps scenario `i` by 0.85. */
  ghost predicate HasRival(read: Reading, scenarios: seq<Scenario>, existing: seq<Candidate>, i: nat)
    requires i < |scenarios|
  {
    || (exists k :: 0 <= k < |existing| && Overlaps(read, scenarios[i], existing[k]))
    || (exists k :: 0 <= k < i && Overlaps(read, scenarios[i], AsCandidate(read, scenarios[k])))
  }

  lemma RivalOverlaps(read: Reading, scenarios: seq<Scenario>, existing: seq<Candidate>, i: nat)
    requires i < |scenarios|
    ensures var rivals := Rivals(read, scenarios, existing, i);
            HasRival(read, scenarios, existing, i) <==>
              exists k :: 0 <= k < |rivals| && Overlaps(read, scenarios[i], rivals[k])
  {
    var rivals, earlier := Rivals(read, scenarios, existing, i), Earlier(read, scenarios, i);
    assert forall k :: 0 <= k < |existing| ==> rivals[k] == existing[k];
    assert forall k :: 0 <= k < i ==> rivals[|existing| + k] == earlier[k];
    forall k | 0 <= k < |rivals| && Overlaps(read, scenarios[i], rivals[k])
      ensures HasRival(read, scenarios, existing, i)
    {
      if k >= |existing| {
        assert rivals[k] == AsCandidate(read, scenarios[k - |existing|]);
      }
    }
    if k :| 0 <= k < i && Overlaps(read, scenarios[i], AsCandidate(read, scenarios[k])) {
      assert Overlaps(read, scenarios[i], rivals[|existing| + k]);
    }
  }

  /** A scenario is a full duplicate exactly when it asserts something and overlaps an
      existing test or any earlier scenario by 0.85; the one named is the first best. */
  lemma FullDuplicateIff(read: Reading, scenarios: seq<Scenario>, existing: seq<Candidate>, i: nat)
    requires i < |scenarios|
    ensures var rivals := Rivals(read, scenarios, existing, i);
            var s, a := scenarios[i], Assessments(read, scenarios, existing)[i];
            && (a.verdict.FullDuplicate? <==> s.assertions != [] && HasRival(read, scenarios, existing, i))
            && (a.verdict.FullDuplicate? ==>
                  exists k: nat :: k < |rivals| && FirstBest(read(s), rivals, |rivals|, k)
                                   && a.duplicateOf == Some(rivals[k].of)
                                   && a.duplicateSource == Some(rivals[k].source))
  {
    AssessmentIs(read, scenarios, existing, i);
    RivalOverlaps(read, scenarios, existing, i);
    var rivals := Rivals(read, scenarios, existing, i);
    FullDuplicateOf(scenarios[i], read(scenarios[i]), rivals);
    assert forall k :: 0 <= k < |rivals| ==>
      (Overlaps(read, scenarios[i], rivals[k]) <==> Jaccard(read(scenarios[i]), rivals[k].signals) >= 0.85);
  }

  // ---- what consolidating leaves -------------------------------------------

  predicate DistinctIds(scenarios: seq<Scenario>) {
    forall i, j :: 0 <= i < j < |scenarios| ==> scenarios[i].id != scenarios[j].id
  }

  lemma {:induction false} LastIsOwn(assessments: seq<Assessment>, i: nat)
    requires i < |assessments|
    requires forall j :: i < j < |assessments| ==> assessments[j].id != assessments[i].id
    ensures Last(assessments, assessments[i].id) == Some(assessments[i])
    decreases |assessments|
  {
    var n := |assessments| - 1;
    if i < n {
      assert assessments[..n][i] == assessments[i];
      LastIsOwn(assessments[..n], i);
    }
  }

  /** The last scenario that carries the id of scenario `i`. */
  function LastPlace(scenarios: seq<Scenario>, i: nat): (l: nat)
    requires i < |scenarios|
    ensures i <= l < |scenarios| && scenarios[l].id == scenarios[i].id
    ensures forall j :: l < j < |scenarios| ==> scenarios[j].id != scenarios[i].id
  {
    LastNamed(scenarios, i, |scenarios| - 1)
  }

  function LastNamed(scenarios: seq<Scenario>, i: nat, k: nat): (l: nat)
    requires i <= k < |scenarios|
    ensures i <= l <= k && scenarios[l].id == scenarios[i].id
    ensures forall j :: l < j <= k ==> scenarios[j].id != scenarios[i].id
  {
    if scenarios[k].id == scenarios[i].id then k else LastNamed(scenarios, i, k - 1)
  }

  /** Scenario `i` asserts something and overlaps an existing test or any earlier scenario. */
  ghost predicate IsDuplicate(read: Reading, scenarios: seq<Scenario>, existing: seq<Candidate>, i: nat)
    requires i < |scenarios|
  {
    scenarios[i].assertions != [] && HasRival(read, scenarios, existing, i)
  }

  /** For any list, ids repeated or not: a scenario is dropped exactly when the last one that
      carries its id is a duplicate. */
  lemma DropsByLast(read: Reading, scenarios: seq<Scenario>, existing: seq<Candidate>, i: nat)
    requires i < |scenarios|
    ensures Drops(Assessments(read, scenarios, existing), scenarios[i])
       <==> IsDuplicate(read, scenarios, existing, LastPlace(scenarios, i))
  {
    var assessments := Assessments(read, scenarios, existing);
    forall k | 0 <= k < |scenarios| ensures assessments[k].id == scenarios[k].id {
      AssessmentIs(read, scenarios, existing, k);
    }
    LastIsOwn(assessments, LastPlace(scenarios, i));
    FullDuplicateIff(read, scenarios, existing, LastPlace(scenarios, i));
  }

  /** So it is judged by its own overlap exactly when the last scenario under its id is a
      duplicate like it, or like it none; among distinct ids it is that last one itself. */
  lemma DropsIff(read: Reading, scenarios: seq<Scenario>, existing: seq<Candidate>, i: nat)
    requires i < |scenarios|
    ensures (Drops(Assessments(read, scenarios, existing), scenarios[i]) <==> IsDuplicate(read, scenarios, existing, i))
       <==> (IsDuplicate(read, scenarios, existing, i)
             <==> IsDuplicate(read, scenarios, existing, LastPlace(scenarios, i)))
    ensures DistinctIds(scenarios) ==> LastPlace(scenarios, i) == i
  {
    DropsByLast(read, scenarios, existing, i);
  }

  /** No scenario of the list that asserts something overlaps an existing test or one before it. */
  ghost predicate NoOverlap(read: Reading, scenarios: seq<Scenario>, existing: seq<Candidate>) {
    forall i :: 0 <= i < |scenarios| && scenarios[i].assertions != [] ==> !HasRival(read, scenarios, existing, i)
  }

  /** A duplicate that a later scenario of its id, no duplicate, keeps from being dropped. */
  ghost predicate Spared(read: Reading, scenarios: seq<Scenario>, existing: seq<Candidate>, i: nat)
    requires i < |scenarios|
  {
    && IsDuplicate(read, scenarios, existing, i)
    && !IsDuplicate(read, scenarios, existing, LastPlace(scenarios, i))
  }

  /** Scenario `i` overlaps no existing test, and no earlier scenario but such as are dropped. */
  ghost predicate RivalsDropped(read: Reading, scenarios: seq<Scenario>, existing: seq<Candidate>, i: nat)
    requires i < |scenarios|
  {
    && (forall k :: 0 <= k < |existing| ==> !Overlaps(read, scenarios[i], existing[k]))
    && (forall k :: 0 <= k < i && Overlaps(read, scenarios[i], AsCandidate(read, scenarios[k])) ==>
          IsDuplicate(read, scenarios, existing, LastPlace(scenarios, k)))
  }

  /** For any list: nothing overlaps among what is kept if and only if every duplicate that is
      spared had rivals only among what is dropped. */
  lemma KeptNoOverlapIff(read: Reading, scenarios: seq<Scenario>, existing: seq<Candidate>)
    ensures NoOverlap(read, Kept(scenarios, Assessments(read, scenarios, existing)), existing)
       <==> forall i :: 0 <= i < |scenarios| && Spared(read, scenarios, existing, i) ==>
              RivalsDropped(read, scenarios, existing, i)
  {
    var assessments := Assessments(read, scenarios, existing);
    var places := KeptPlaces(scenarios, assessments, |scenarios|);
    var kept := At(scenarios, places);
    forall n | 0 <= n < |places|
      ensures HasRival(read, kept, existing, n) <==> !RivalsDropped(read, scenarios, existing, places[n])
    {
      KeptRival(read, scenarios, existing, n);
    }
    forall i | 0 <= i < |scenarios| && Spared(read, scenarios, existing, i)
      ensures NoOverlap(read, kept, existing) ==> RivalsDropped(read, scenarios, existing, i)
    {
      DropsByLast(read, scenarios, existing, i);
      KeptOrDropped(scenarios, assessments, |scenarios|);
      var n :| 0 <= n < |places| && places[n] == i;
      assert kept[n] == scenarios[i];
    }
    forall n | 0 <= n < |kept| && HasRival(read, kept, existing, n) && kept[n].assertions != []
      ensures Spared(read, scenarios, existing, places[n]) && !RivalsDropped(read, scenarios, existing, places[n])
    {
      DropsByLast(read, scenarios, existing, places[n]);
    }
  }

  /** A kept scenario has a rival among what is kept exactly when not all its rivals are dropped. */
  lemma {:induction false} KeptRival(read: Reading, scenarios: seq<Scenario>, existing: seq<Candidate>, n: nat)
    requires n < |KeptPlaces(scenarios, Assessments(read, scenarios, existing), |scenarios|)|
    ensures var places := KeptPlaces(scenarios, Assessments(read, scenarios, existing), |scenarios|);
            HasRival(read, At(scenarios, places), existing, n)
            <==> !RivalsDropped(read, scenarios, existing, places[n])
  {
    var places := KeptPlaces(scenarios, Assessments(read, scenarios, existing), |scenarios|);
    if HasRival(read, At(scenarios, places), existing, n) {
      RivalIsKept(read, scenarios, existing, n);
    }
    if !RivalsDropped(read, scenarios, existing, places[n]) {
      RivalStays(read, scenarios, existing, n);
    }
  }

  lemma {:induction false} RivalIsKept(read: Reading, scenarios: seq<Scenario>, existing: seq<Candidate>, n: nat)
    requires n < |KeptPlaces(scenarios, Assessments(read, scenarios, existing), |scenarios|)|
    requires var places := KeptPlaces(scenarios, Assessments(read, scenarios, existing), |scenarios|);
             HasRival(read, At(scenarios, places), existing, n)
    ensures var places := KeptPlaces(scenarios, Assessments(read, scenarios, existing), |scenarios|);
            !RivalsDropped(read, scenarios, existing, places[n])
  {
    var places := KeptPlaces(scenarios, Assessments(read, scenarios, existing), |scenarios|);
    var kept := At(scenarios, places);
    if k :| 0 <= k < n && Overlaps(read, kept[n], AsCandidate(read, kept[k])) {
      DropsByLast(read, scenarios, existing, places[k]);
      assert Overlaps(read, scenarios[places[n]], AsCandidate(read, scenarios[places[k]]));
    }
  }

  lemma {:induction false} RivalStays(read: Reading, scenarios: seq<Scenario>, existing: seq<Candidate>, n: nat)
    requires n < |KeptPlaces(scenarios, Assessments(read, scenarios, existing), |scenarios|)|
    requires var places := KeptPlaces(scenarios, Assessments(read, scenarios, existing), |scenarios|);
             !RivalsDropped(read, scenarios, existing, places[n])
    ensures var places := KeptPlaces(scenarios, Assessments(read, scenarios, existing), |scenarios|);
            HasRival(read, At(scenarios, places), existing, n)
  {
    var assessments := Assessments(read, scenarios, existing);
    var i := KeptPlaces(scenarios, assessments, |scenarios|)[n];
    if k :| 0 <= k < i && Overlaps(read, scenarios[i], AsCandidate(read, scenarios[k]))
            && !IsDuplicate(read, scenarios, existing, LastPlace(scenarios, k))
    {
      DropsByLast(read, scenarios, existing, k);
      KeptBefore(scenarios, assessments, k, n);
    }
  }

  lemma {:induction false} KeptBefore(scenarios: seq<Scenario>, assessments: seq<Assessment>, k: nat, n: nat)
    requires n < |KeptPlaces(scenarios, assessments, |scenarios|)|
    requires k < KeptPlaces(scenarios, assessments, |scenarios|)[n] && !Drops(assessments, scenarios[k])
    ensures var places := KeptPlaces(scenarios, assessments, |scenarios|);
            exists m :: 0 <= m < n && At(scenarios, places)[m] == scenarios[k]
  {
    var places := KeptPlaces(scenarios, assessments, |scenarios|);
    KeptOrDropped(scenarios, assessments, |scenarios|);
    var m :| 0 <= m < |places| && places[m] == k;
    assert m < n && At(scenarios, places)[m] == scenarios[k];
  }

  /** Consolidating distinct scenarios keeps, in order, a list in which nothing overlaps. */
  lemma KeptNoOverlap(read: Reading, scenarios: seq<Scenario>, existing: seq<Candidate>)
    requires DistinctIds(scenarios)
    ensures var kept := Kept(scenarios, Assessments(read, scenarios, existing));
            DistinctIds(kept) && NoOverlap(read, kept, existing)
  {
    KeptNoOverlapIff(read, scenarios, existing);
    forall i | 0 <= i < |scenarios| ensures !Spared(read, scenarios, existing, i) {
      DropsIff(read, scenarios, existing, i);
    }
    KeptIsDistinct(scenarios, Assessments(read, scenarios, existing));
  }

  lemma KeptIsDistinct(scenarios: seq<Scenario>, assessments: seq<Assessment>)
    requires DistinctIds(scenarios)
    ensures DistinctIds(Kept(scenarios, assessments))
  {
  }

  /** A list is kept whole if and only if no duplicate in it is the last of its id. */
  lemma KeptWholeIff(read: Reading, scenarios: seq<Scenario>, existing: seq<Candidate>)
    ensures Kept(scenarios, Assessments(read, scenarios, existing)) == scenarios
       <==> forall i :: 0 <= i < |scenarios| && IsDuplicate(read, scenarios, existing, i) ==>
              LastPlace(scenarios, i) != i
  {
    var assessments := Assessments(read, scenarios, existing);
    forall i | 0 <= i < |scenarios|
      ensures Drops(assessments, scenarios[i]) <==> IsDuplicate(read, scenarios, existing, LastPlace(scenarios, i))
      ensures LastPlace(scenarios, LastPlace(scenarios, i)) == LastPlace(scenarios, i)
    {
      DropsByLast(read, scenarios, existing, i);
    }
    if forall i :: 0 <= i < |scenarios| ==> !Drops(assessments, scenarios[i]) {
      NoneDropped(scenarios, assessments, |scenarios|);
    }
    if i :| 0 <= i < |scenarios| && Drops(assessments, scenarios[i]) {
      KeptOrDropped(scenarios, assessments, |scenarios|);
      SomeDropped(scenarios, assessments, |scenarios|, i);
    }
  }

  lemma {:induction false} SomeDropped(scenarios: seq<Scenario>, assessments: seq<Assessment>, k: nat, i: nat)
    requires i < k <= |scenarios| && Drops(assessments, scenarios[i])
    ensures Dropped(scenarios, assessments, k) != []
  {
    if i < k - 1 {
      SomeDropped(scenarios, assessments, k - 1, i);
    }
  }

  /** Among distinct ids, a list in which nothing overlaps is kept whole. */
  lemma NoOverlapIsKept(read: Reading, scenarios: seq<Scenario>, existing: seq<Candidate>)
    requires DistinctIds(scenarios) && NoOverlap(read, scenarios, existing)
    ensures Kept(scenarios, Assessments(read, scenarios, existing)) == scenarios
  {
    KeptWholeIff(read, scenarios, existing);
  }

  lemma {:induction false} NoneDropped(scenarios: seq<Scenario>, assessments: seq<Assessment>, k: nat)
    requires k <= |scenarios| && forall i :: 0 <= i < k ==> !Drops(assessments, scenarios[i])
    ensures At(scenarios, KeptPlaces(scenarios, assessments, k)) == scenarios[..k]
  {
    if k > 0 {
      NoneDropped(scenarios, assessments, k - 1);
    }
  }

  /** Consolidating again changes nothing. */
  lemma ConsolidateIdempotent(read: Reading, scenarios: seq<Scenario>, existing: seq<Candidate>)
    requires DistinctIds(scenarios)
    ensures var kept := Kept(scenarios, Assessments(read, scenarios, existing));
            Kept(kept, Assessments(read, kept, existing)) == kept
  {
    KeptNoOverlap(read, scenarios, existing);
    NoOverlapIsKept(read, Kept(scenarios, Assessments(read, scenarios, existing)), existing);
  }

  /** Every scenario is kept once or accounted for by one dropped assessment, by the last
      verdict under its id, whatever report is used. */
  lemma {:induction false} KeptOrDropped(scenarios: seq<Scenario>, assessments: seq<Assessment>, k: nat)
    requires k <= |scenarios|
    ensures |KeptPlaces(scenarios, assessments, k)| + |Dropped(scenarios, assessments, k)| == k
    ensures forall i :: 0 <= i < k ==>
              (i in KeptPlaces(scenarios, assessments, k) <==> !Drops(assessments, scenarios[i]))
  {
    if k > 0 {
      KeptOrDropped(scenarios, assessments, k - 1);
    }
  }

  function ReadingOf(lex: Lexicon): Reading {
    s => Signals(lex, s)
  }

  /** `consolidate` without a report: the scenarios are evaluated first. */
  method ConsolidateUnscored(lex: Lexicon, scenarios: seq<Scenario>, existing: seq<Candidate>)
    returns (kept: seq<Scenario>, dropped: seq<Assessment>)
    ensures kept == Kept(scenarios, Assessments(ReadingOf(lex), scenarios, existing))
    ensures |kept| + |dropped| == |scenarios|
    ensures DistinctIds(scenarios) ==> NoOverlap(ReadingOf(lex), kept, existing)
  {
    var assessments, _ := Evaluate(ReadingOf(lex), scenarios, existing);
    kept, dropped := Consolidate(scenarios, assessments);
    KeptOrDropped(scenarios, assessments, |scenarios|);
    if DistinctIds(scenarios) {
      KeptNoOverlap(ReadingOf(lex), scenarios, existing);
    }
  }

  lemma JaccardSelf(a: set<string>)
    requires a != {}
    ensures Jaccard(a, a) == 1.0
  {
    assert a * a == a && a + a == a;
  }

  /** A scenario that asserts something, repeated under its own id, is lost altogether: the
      second is a duplicate of the first, and its verdict drops both. */
  lemma RepeatedIdDropsBoth(read: Reading, s: Scenario, existing: seq<Candidate>)
    requires s.assertions != [] && read(s) != {}
    ensures Kept([s, s], Assessments(read, [s, s], existing)) == []
  {
    var both := [s, s];
    JaccardSelf(read(s));
    assert Overlaps(read, both[1], AsCandidate(read, both[0]));
    assert IsDuplicate(read, both, existing, 1);
    BothByLast(read, s, s, existing);
  }

  /** Two scenarios under one id are both dropped or both kept, as the second one alone says. */
  lemma BothByLast(read: Reading, s: Scenario, t: Scenario, existing: seq<Candidate>)
    requires s.id == t.id
    ensures Kept([s, t], Assessments(read, [s, t], existing))
         == if IsDuplicate(read, [s, t], existing, 1) then [] else [s, t]
  {
    var both := [s, t];
    var assessments := Assessments(read, both, existing);
    DropsByLast(read, both, existing, 0);
    DropsByLast(read, both, existing, 1);
    assert LastPlace(both, 0) == LastPlace(both, 1) == 1;
    if !IsDuplicate(read, both, existing, 1) {
      NoneDropped(both, assessments, 2);
    } else {
      assert KeptPlaces(both, assessments, 1) == [];
    }
  }

  /** A scenario that an existing test covers fully, and a novel one under its id: with the novel
      one last the duplicate is kept, and with the duplicate last the novel one is lost. */
  lemma NamesakeDecides(read: Reading, copied: Scenario, novel: Scenario, test: Candidate)
    requires copied.id == novel.id && copied.assertions != []
    requires Overlaps(read, copied, test) && !Overlaps(read, novel, test)
    requires !Overlaps(read, novel, AsCandidate(read, copied))
    ensures IsDuplicate(read, [copied, novel], [test], 0) && !IsDuplicate(read, [novel, copied], [test], 0)
    ensures Kept([copied, novel], Assessments(read, [copied, novel], [test])) == [copied, novel]
    ensures Kept([novel, copied], Assessments(read, [novel, copied], [test])) == []
  {
    CoveredIsDuplicate(read, [copied, novel], test, 0);
    CoveredIsDuplicate(read, [novel, copied], test, 1);
    NovelHasNoRival(read, [copied, novel], test, 1);
    NovelHasNoRival(read, [novel, copied], test, 0);
    BothByLast(read, copied, novel, [test]);
    BothByLast(read, novel, copied, [test]);
  }

  lemma CoveredIsDuplicate(read: Reading, scenarios: seq<Scenario>, test: Candidate, i: nat)
    requires i < |scenarios| && scenarios[i].assertions != [] && Overlaps(read, scenarios[i], test)
    ensures IsDuplicate(read, scenarios, [test], i)
  {
    assert Overlaps(read, scenarios[i], [test][0]);
  }

  lemma NovelHasNoRival(read: Reading, scenarios: seq<Scenario>, test: Candidate, i: nat)
    requires i < |scenarios| && !Overlaps(read, scenarios[i], test)
    requires forall k :: 0 <= k < i ==> !Overlaps(read, scenarios[i], AsCandidate(read, scenarios[k]))
    ensures !IsDuplicate(read, scenarios, [test], i)
  {
  }

  const Copied := Scenario("s-1", "/a", "GET", ["ok"], [], "copied")

  const Novel := Scenario("s-1", "/b", "GET", ["ok"], [], "novel")

  const Tested := Candidate("test", ExistingTest, {"copied"})

  function ByKind(s: Scenario): set<string> {
    {s.kind}
  }

  /** The smallest such pair. */
  lemma DuplicateIsKept()
    ensures Kept([Copied, Novel], Assessments(ByKind, [Copied, Novel], [Tested])) == [Copied, Novel]
    ensures Kept([Novel, Copied], Assessments(ByKind, [Novel, Copied], [Tested])) == []
  {
    JaccardSelf({"copied"});
    assert {"novel"} * {"copied"} == {};
    NamesakeDecides(ByKind, Copied, Novel, Tested);
  }
}
