/** Model of writing accepted changes to disk: `apply_change` in
    `agentic-workspace-chat/backend/app/workspace.py`, called in order on the accepted ones
    by the `apply` route of `agentic-workspace-chat/backend/app/main.py`. */
module ChangeApplication {
  import opened Wrappers
  import opened EditOverlay

  datatype ApplyError = OutsideWorkspace | ChangedAfterReview

  /** The name a new text is first written under. */
  function Temporary(path: string): string {
    path + ".agent-tmp"
  }

  predicate Stale(disk: Files, c: Change) {
    c.original.Some? && Sha(TextOf(disk, c.path)) != c.original.value
  }

  function TextOfChange(c: Change): string {
    if c.content.Some? then c.content.value else ""
  }

  function Applied(cfg: Config, disk: Files, c: Change): Result<Files, ApplyError> {
    if !cfg.resolves(c.path) then Failure(OutsideWorkspace)
    else if Stale(disk, c) then Failure(ChangedAfterReview)
    else if c.operation.Delete? then Success(disk - {c.path})
    else Success((disk - {Temporary(c.path)})[c.path := TextOfChange(c)])
  }

  /** The accepted changes from `i` on, in the order they were proposed. */
  function Picked(changes: seq<Change>, accepted: set<string>, i: nat): seq<Change>
    requires i <= |changes|
    decreases |changes| - i
  {
    if i == |changes| then []
    else if changes[i].path in accepted then [changes[i]] + Picked(changes, accepted, i + 1)
    else Picked(changes, accepted, i + 1)
  }

  /** The disk once the first `k` have been applied, or where the first failure left it. */
  function AppliedUpTo(cfg: Config, disk: Files, picks: seq<Change>, k: nat): (Files, Option<ApplyError>)
    requires k <= |picks|
  {
    if k == 0 then (disk, None)
    else
      var (files, error) := AppliedUpTo(cfg, disk, picks, k - 1);
      if error.Some? then (files, error)
      else
        match Applied(cfg, files, picks[k - 1])
        case Failure(e) => (files, Some(e))
        case Success(next) => (next, None)
  }

  method ApplyChange(cfg: Config, workspace: Workspace, c: Change) returns (error: Option<ApplyError>)
    modifies workspace
    ensures match Applied(cfg, old(workspace.files), c)
            case Failure(e) => error == Some(e) && workspace.files == old(workspace.files)
            case Success(files) => error == None && workspace.files == files
  {
    if !cfg.resolves(c.path) {
      return Some(OutsideWorkspace);
    }
    var before := if c.path in workspace.files then workspace.files[c.path] else "";
    if c.original.Some? && Sha(before) != c.original.value {
      return Some(ChangedAfterReview);
    }
    if c.operation.Delete? {
      workspace.files := workspace.files - {c.path};
      return None;
    }
    var temporary := Temporary(c.path);
    workspace.files := workspace.files[temporary := TextOfChange(c)];
    workspace.files := (workspace.files - {temporary})[c.path := workspace.files[temporary]];
    assert workspace.files == (old(workspace.files) - {temporary})[c.path := TextOfChange(c)];
    error := None;
  }

  method ApplyAccepted(cfg: Config, workspace: Workspace, changes: seq<Change>, accepted: set<string>)
    returns (error: Option<ApplyError>)
    modifies workspace
    ensures var picks := Picked(changes, accepted, 0);
            (workspace.files, error) == AppliedUpTo(cfg, old(workspace.files), picks, |picks|)
  {
    ghost var disk := workspace.files;
    ghost var picks := Picked(changes, accepted, 0);
    ghost var k := 0;
    error := None;
    var i := 0;
    while i < |changes|
      invariant 0 <= i <= |changes| && k <= |picks| && picks[k..] == Picked(changes, accepted, i)
      invariant (workspace.files, None) == AppliedUpTo(cfg, disk, picks, k)
    {
      if changes[i].path in accepted {
        assert picks[k] == picks[k..][0] == changes[i] && picks[k + 1..] == picks[k..][1..];
        error := ApplyChange(cfg, workspace, changes[i]);
        NextApplied(cfg, disk, picks, k);
        k := k + 1;
        if error.Some? {
          FailureStays(cfg, disk, picks, k, |picks|);
          return;
        }
      }
      i := i + 1;
    }
    error := None;
  }

  lemma NextApplied(cfg: Config, disk: Files, picks: seq<Change>, k: nat)
    requires k < |picks| && AppliedUpTo(cfg, disk, picks, k).1 == None
    ensures var files := AppliedUpTo(cfg, disk, picks, k).0;
            AppliedUpTo(cfg, disk, picks, k + 1) == match Applied(cfg, files, picks[k])
                                                    case Failure(e) => (files, Some(e))
                                                    case Success(next) => (next, None)
  {
  }

  lemma {:induction false} FailureStays(cfg: Config, disk: Files, picks: seq<Change>, k: nat, n: nat)
    requires k <= n <= |picks| && AppliedUpTo(cfg, disk, picks, k).1.Some?
    ensures AppliedUpTo(cfg, disk, picks, n) == AppliedUpTo(cfg, disk, picks, k)
    decreases n
  {
    if k < n {
      FailureStays(cfg, disk, picks, k, n - 1);
    }
  }

  // ---- what applying does --------------------------------------------------

  function Written(disk: Files, c: Change): Files {
    if c.operation.Delete? then disk - {c.path} else disk[c.path := TextOfChange(c)]
  }

  /** What the first `k` changes ask for, with no temporary file involved. */
  function WrittenUpTo(disk: Files, picks: seq<Change>, k: nat): Files
    requires k <= |picks|
  {
    if k == 0 then disk else Written(WrittenUpTo(disk, picks, k - 1), picks[k - 1])
  }

  /** The temporary name a change goes through, if any, is not in use. */
  predicate NameFree(disk: Files, c: Change) {
    c.operation.Delete? || Temporary(c.path) !in disk
  }

  /** A single change is written exactly as asked, other paths untouched, if and only if its
      temporary name is not in use on disk. */
  lemma ChangeIsWritten(cfg: Config, disk: Files, c: Change)
    requires cfg.resolves(c.path) && !Stale(disk, c)
    ensures Applied(cfg, disk, c) == Success(Written(disk, c)) <==> NameFree(disk, c)
  {
    var t := Temporary(c.path);
    assert |t| > |c.path|;
    if !c.operation.Delete? {
      var got, want := (disk - {t})[c.path := TextOfChange(c)], disk[c.path := TextOfChange(c)];
      assert t !in got;
      if t in disk {
        assert t in want;
      } else {
        assert disk - {t} == disk;
      }
    }
  }

  /** Proposed by a runner whose overlay was built over this disk. */
  ghost predicate FromOverlay(s: State, picks: seq<Change>) {
    && (forall i :: 0 <= i < |picks| ==>
          && picks[i].path in s.overlays && picks[i].path in s.originals
          && picks[i] == ChangeOf(s, picks[i].path))
    && (forall i, j :: 0 <= i < j < |picks| ==> picks[i].path != picks[j].path)
  }

  /** `p` is the path of one of the changes. */
  ghost predicate Names(picks: seq<Change>, p: string) {
    exists k :: 0 <= k < |picks| && picks[k].path == p
  }

  lemma NamesCons(c: Change, tail: seq<Change>, p: string)
    ensures Names([c] + tail, p) <==> c.path == p || Names(tail, p)
  {
    var picks := [c] + tail;
    assert picks[0] == c;
    if k :| 0 <= k < |tail| && tail[k].path == p {
      assert picks[k + 1].path == p;
    }
  }

  lemma {:induction false} PickedNames(s: State, accepted: set<string>, i: nat, p: string)
    requires Listed(s) && i <= |s.order|
    ensures Names(Picked(Changes(s), accepted, i), p)
       <==> p in accepted && exists k :: i <= k < |s.order| && s.order[k] == p
    decreases |s.order| - i
  {
    if i < |s.order| {
      PickedNames(s, accepted, i + 1, p);
      NamesCons(Changes(s)[i], Picked(Changes(s), accepted, i + 1), p);
    }
  }

  lemma {:induction false} PickedComesFromOverlay(cfg: Config, disk: Files, s: State, accepted: set<string>, i: nat)
    requires Inv(cfg, disk, s) && Listed(s) && i <= |s.order|
    ensures FromOverlay(s, Picked(Changes(s), accepted, i))
    decreases |s.order| - i
  {
    if i < |s.order| {
      PickedComesFromOverlay(cfg, disk, s, accepted, i + 1);
      PickedNames(s, accepted, i + 1, s.order[i]);
      ConsFromOverlay(s, Changes(s)[i], Picked(Changes(s), accepted, i + 1));
    }
  }

  lemma ConsFromOverlay(s: State, c: Change, tail: seq<Change>)
    requires FromOverlay(s, tail) && !Names(tail, c.path)
    requires c.path in s.overlays && c.path in s.originals && c == ChangeOf(s, c.path)
    ensures FromOverlay(s, [c] + tail)
  {
    var picks := [c] + tail;
    assert forall k :: 1 <= k < |picks| ==> picks[k] == tail[k - 1];
  }

  /** No change up to `k` is written through a temporary name then in use. */
  predicate NamesFree(disk: Files, picks: seq<Change>, k: nat)
    requires k <= |picks|
  {
    k == 0 || (NamesFree(disk, picks, k - 1) && NameFree(WrittenUpTo(disk, picks, k - 1), picks[k - 1]))
  }

  /** Up to `k`, every step leaves exactly what the changes so far ask for. */
  predicate Faithful(cfg: Config, disk: Files, picks: seq<Change>, k: nat)
    requires k <= |picks|
  {
    AsAsked(cfg, disk, picks, k) && (k == 0 || Faithful(cfg, disk, picks, k - 1))
  }

  /** The first `i` changes went through and left exactly what they ask for. */
  predicate AsAsked(cfg: Config, disk: Files, picks: seq<Change>, i: nat)
    requires i <= |picks|
  {
    AppliedUpTo(cfg, disk, picks, i) == (WrittenUpTo(disk, picks, i), None)
  }

  lemma {:induction false} OthersUntouched(disk: Files, picks: seq<Change>, k: nat, p: string)
    requires k <= |picks| && forall i :: 0 <= i < k ==> picks[i].path != p
    ensures p in WrittenUpTo(disk, picks, k) <==> p in disk
    ensures p in disk ==> WrittenUpTo(disk, picks, k)[p] == disk[p]
  {
    if k > 0 {
      OthersUntouched(disk, picks, k - 1, p);
    }
  }

  /** Changes to different paths, each reviewed against this disk. */
  ghost predicate Reviewed(cfg: Config, disk: Files, picks: seq<Change>) {
    && (forall i :: 0 <= i < |picks| ==>
          cfg.resolves(picks[i].path) && picks[i].original == Some(Sha(TextOf(disk, picks[i].path))))
    && (forall i, j :: 0 <= i < j < |picks| ==> picks[i].path != picks[j].path)
  }

  lemma OverlayIsReviewed(cfg: Config, disk: Files, s: State, picks: seq<Change>)
    requires Inv(cfg, disk, s) && FromOverlay(s, picks)
    ensures Reviewed(cfg, disk, picks)
  {
  }

  lemma NextIsFaithful(cfg: Config, disk: Files, picks: seq<Change>, k: nat)
    requires Reviewed(cfg, disk, picks) && k < |picks|
    requires AsAsked(cfg, disk, picks, k)
    ensures AppliedUpTo(cfg, disk, picks, k + 1).1 == None
    ensures AsAsked(cfg, disk, picks, k + 1) <==> NameFree(WrittenUpTo(disk, picks, k), picks[k])
  {
    var before := WrittenUpTo(disk, picks, k);
    OthersUntouched(disk, picks, k, picks[k].path);
    assert !Stale(before, picks[k]);
    ChangeIsWritten(cfg, before, picks[k]);
  }

  /** Reviewed changes are never refused as stale and are written step by step as proposed,
      if and only if no temporary name they go through is in use when they do. */
  lemma {:induction false} AppliesAsProposed(cfg: Config, disk: Files, picks: seq<Change>, k: nat)
    requires Reviewed(cfg, disk, picks) && k <= |picks|
    ensures Faithful(cfg, disk, picks, k) <==> NamesFree(disk, picks, k)
  {
    if k > 0 {
      AppliesAsProposed(cfg, disk, picks, k - 1);
      if AsAsked(cfg, disk, picks, k - 1) {
        NextIsFaithful(cfg, disk, picks, k - 1);
      }
    }
  }

  /** A change proposed by any session is refused on a disk that no longer holds, at its path, the
      text the session found, and goes through on any other where its path resolves. */
  lemma {:induction false} RefusedIffChanged(cfg: Config, disk: Files, now: Files, calls: seq<Call>, i: nat)
    requires i < |Session(cfg, disk, calls, |calls|).order|
    ensures Listed(Session(cfg, disk, calls, |calls|))
    ensures var c := Changes(Session(cfg, disk, calls, |calls|))[i];
            && (Applied(cfg, now, c) == Failure(ChangedAfterReview) <==> TextOf(now, c.path) != TextOf(disk, c.path))
            && (Applied(cfg, now, c).Success? <==> TextOf(now, c.path) == TextOf(disk, c.path))
  {
    SessionRefinesEditing(cfg, disk, calls, |calls|);
    ProposedAs(cfg, disk, calls, i);
  }

  // ---- when the end result is as asked -------------------------------------

  /** The name change `i` clears is itself the path of a later change to an empty or missing
      file, which will neither miss it nor leave it missing. */
  predicate Refilled(disk: Files, picks: seq<Change>, i: nat)
    requires i < |picks|
  {
    exists j :: i < j < |picks| && picks[j].path == Temporary(picks[i].path) && TextOf(disk, picks[j].path) == ""
  }

  /** No change clears a name in use, but for such a one. */
  predicate Harmless(disk: Files, picks: seq<Change>) {
    forall i :: 0 <= i < |picks| ==> ClearsNothing(disk, picks, i)
  }

  predicate ClearsNothing(disk: Files, picks: seq<Change>, i: nat)
    requires i < |picks|
  {
    NameFree(WrittenUpTo(disk, picks, i), picks[i]) || Refilled(disk, picks, i)
  }

  /** After `k` changes the disk is as asked, but for some cleared paths that were empty and are
      still to be written. */
  ghost predicate Lagging(cfg: Config, disk: Files, picks: seq<Change>, k: nat, missing: set<string>)
    requires k <= |picks|
  {
    && AppliedUpTo(cfg, disk, picks, k) == (WrittenUpTo(disk, picks, k) - missing, None)
    && forall t :: t in missing ==> TextOf(disk, t) == "" && Awaited(picks, k, t)
  }

  predicate Awaited(picks: seq<Change>, k: nat, t: string) {
    exists j :: k <= j < |picks| && picks[j].path == t
  }

  lemma LagsNone(cfg: Config, disk: Files, picks: seq<Change>)
    ensures Lagging(cfg, disk, picks, 0, {})
  {
    assert disk - {} == disk;
  }

  lemma {:induction false} LagsBehind(cfg: Config, disk: Files, picks: seq<Change>, k: nat)
    returns (missing: set<string>)
    requires Reviewed(cfg, disk, picks) && Harmless(disk, picks) && k <= |picks|
    ensures Lagging(cfg, disk, picks, k, missing)
  {
    if k == 0 {
      missing := {};
      LagsNone(cfg, disk, picks);
    } else {
      var before := LagsBehind(cfg, disk, picks, k - 1);
      assert ClearsNothing(disk, picks, k - 1);
      missing := LagsOn(cfg, disk, picks, k - 1, before);
    }
  }

  lemma LagsOn(cfg: Config, disk: Files, picks: seq<Change>, k: nat, before: set<string>) returns (missing: set<string>)
    requires Reviewed(cfg, disk, picks) && k < |picks| && Lagging(cfg, disk, picks, k, before)
    requires ClearsNothing(disk, picks, k)
    ensures Lagging(cfg, disk, picks, k + 1, missing)
  {
    var c, asked := picks[k], WrittenUpTo(disk, picks, k);
    var t := Temporary(c.path);
    OthersUntouched(disk, picks, k, c.path);
    assert !Stale(asked - before, c);
    missing := before - {c.path};
    if c.operation.Delete? {
      assert asked - before - {c.path} == (asked - {c.path}) - missing;
    } else {
      if t in asked {
        missing := missing + {t};
      }
      assert |t| > |c.path|;
      assert (asked - before - {t})[c.path := TextOfChange(c)] == asked[c.path := TextOfChange(c)] - missing;
    }
    forall p | p in missing ensures TextOf(disk, p) == "" && Awaited(picks, k + 1, p) {
      StillAwaited(picks, k, p);
    }
  }

  lemma StillAwaited(picks: seq<Change>, k: nat, t: string)
    requires k < |picks|
    ensures Awaited(picks, k, t) && t != picks[k].path ==> Awaited(picks, k + 1, t)
  {
  }

  lemma {:induction false} AbsentStays(cfg: Config, disk: Files, picks: seq<Change>, a: nat, b: nat, t: string)
    requires a <= b <= |picks| && AppliedUpTo(cfg, disk, picks, b).1 == None
    requires t !in AppliedUpTo(cfg, disk, picks, a).0 && forall j :: a <= j < b ==> picks[j].path != t
    ensures t !in AppliedUpTo(cfg, disk, picks, b).0
    decreases b
  {
    if a < b {
      AbsentStays(cfg, disk, picks, a, b - 1, t);
    }
  }

  lemma {:induction false} WrittenStays(disk: Files, picks: seq<Change>, a: nat, b: nat, t: string)
    requires a <= b <= |picks| && t in WrittenUpTo(disk, picks, a) && forall j :: a <= j < b ==> picks[j].path != t
    ensures t in WrittenUpTo(disk, picks, b)
    decreases b
  {
    if a < b {
      WrittenStays(disk, picks, a, b - 1, t);
    }
  }

  lemma {:induction false} NoFailureBefore(cfg: Config, disk: Files, picks: seq<Change>, k: nat)
    requires k <= |picks| && AppliedUpTo(cfg, disk, picks, |picks|).1 == None
    ensures AppliedUpTo(cfg, disk, picks, k).1 == None
  {
    if AppliedUpTo(cfg, disk, picks, k).1.Some? {
      FailureStays(cfg, disk, picks, k, |picks|);
    }
  }

  /** A name in use that a change clears is gone right after it. */
  lemma ClearsName(cfg: Config, disk: Files, picks: seq<Change>, i: nat)
    requires i < |picks| && AppliedUpTo(cfg, disk, picks, i + 1).1 == None && !picks[i].operation.Delete?
    ensures Temporary(picks[i].path) !in AppliedUpTo(cfg, disk, picks, i + 1).0
  {
    assert |Temporary(picks[i].path)| > |picks[i].path|;
  }

  /** A later change to a cleared path finds it empty, and is refused unless it was. */
  lemma {:induction false} RefusedLater(cfg: Config, disk: Files, picks: seq<Change>, i: nat, j: nat)
    requires Reviewed(cfg, disk, picks) && i < j < |picks| && AppliedUpTo(cfg, disk, picks, |picks|).1 == None
    requires !picks[i].operation.Delete? && picks[j].path == Temporary(picks[i].path)
    ensures TextOf(disk, picks[j].path) == ""
  {
    NoFailureBefore(cfg, disk, picks, i + 1);
    ClearsName(cfg, disk, picks, i);
    NotStale(cfg, disk, picks, j);
    AbsentStays(cfg, disk, picks, i + 1, j, picks[j].path);
  }

  lemma {:induction false} NotStale(cfg: Config, disk: Files, picks: seq<Change>, j: nat)
    requires j < |picks| && AppliedUpTo(cfg, disk, picks, |picks|).1 == None
    ensures AppliedUpTo(cfg, disk, picks, j).1 == None && !Stale(AppliedUpTo(cfg, disk, picks, j).0, picks[j])
  {
    NoFailureBefore(cfg, disk, picks, j);
    NoFailureBefore(cfg, disk, picks, j + 1);
  }

  /** Reviewed changes all go through and leave exactly what they ask for if and only if none of
      them clears a name in use, save one that a later change to an empty file is for. */
  lemma {:induction false} EndsAsAskedIff(cfg: Config, disk: Files, picks: seq<Change>)
    requires Reviewed(cfg, disk, picks)
    ensures AsAsked(cfg, disk, picks, |picks|) <==> Harmless(disk, picks)
  {
    if Harmless(disk, picks) {
      var missing := LagsBehind(cfg, disk, picks, |picks|);
      assert missing == {};
      var asked := WrittenUpTo(disk, picks, |picks|);
      assert asked - {} == asked;
    }
    if AsAsked(cfg, disk, picks, |picks|) {
      forall i | 0 <= i < |picks| ensures ClearsNothing(disk, picks, i) {
        MustClearNothing(cfg, disk, picks, i);
      }
    }
  }

  lemma MustClearNothing(cfg: Config, disk: Files, picks: seq<Change>, i: nat)
    requires Reviewed(cfg, disk, picks) && AsAsked(cfg, disk, picks, |picks|) && i < |picks|
    ensures ClearsNothing(disk, picks, i)
  {
    var t := Temporary(picks[i].path);
    if !NameFree(WrittenUpTo(disk, picks, i), picks[i]) {
      if j :| i < j < |picks| && picks[j].path == t {
        RefusedLater(cfg, disk, picks, i, j);
      } else {
        ClearedForGood(cfg, disk, picks, i);
      }
    }
  }

  /** A name in use that no later change is for would be missing at the end. */
  lemma {:induction false} ClearedForGood(cfg: Config, disk: Files, picks: seq<Change>, i: nat)
    requires i < |picks| && AppliedUpTo(cfg, disk, picks, |picks|).1 == None && !picks[i].operation.Delete?
    requires Temporary(picks[i].path) in WrittenUpTo(disk, picks, i)
    requires forall j :: i < j < |picks| ==> picks[j].path != Temporary(picks[i].path)
    ensures !AsAsked(cfg, disk, picks, |picks|)
  {
    var t := Temporary(picks[i].path);
    assert |t| > |picks[i].path|;
    NoFailureBefore(cfg, disk, picks, i + 1);
    ClearsName(cfg, disk, picks, i);
    AbsentStays(cfg, disk, picks, i + 1, |picks|, t);
    WrittenStays(disk, picks, i, |picks|, t);
  }

  // ---- the overlay on disk -------------------------------------------------

  /** The writes asked for show the overlay on the accepted paths and the disk elsewhere. */
  lemma {:induction false} WritesShowOverlay(disk: Files, s: State, picks: seq<Change>, k: nat)
    requires FromOverlay(s, picks) && k <= |picks|
    ensures forall i :: 0 <= i < k ==> Agree(WrittenUpTo(disk, picks, k), Seen(disk, s), picks[i].path)
  {
    if k > 0 {
      WritesShowOverlay(disk, s, picks, k - 1);
    }
  }

  predicate Agree(a: Files, b: Files, p: string) {
    (p in a <==> p in b) && (p in a && p in b ==> a[p] == b[p])
  }

  /** What a path is to read as: the overlay where a change is accepted, else the disk. */
  function Target(disk: Files, s: State, accepted: set<string>, p: string): Files {
    if p in s.overlays && p in accepted then Seen(disk, s) else disk
  }

  lemma {:induction false} WritesEverywhere(cfg: Config, disk: Files, s: State, accepted: set<string>, p: string)
    requires Inv(cfg, disk, s) && Listed(s)
    ensures var picks := Picked(Changes(s), accepted, 0);
            Agree(WrittenUpTo(disk, picks, |picks|), Target(disk, s, accepted, p), p)
  {
    var picks := Picked(Changes(s), accepted, 0);
    PickedComesFromOverlay(cfg, disk, s, accepted, 0);
    PickedNames(s, accepted, 0, p);
    if Names(picks, p) {
      WritesShowOverlay(disk, s, picks, |picks|);
    } else {
      OthersUntouched(disk, picks, |picks|, p);
    }
  }

  /** Applying the accepted proposals goes through, makes accepted paths read as the overlay
      shows them, and leaves every other path as it was. */
  ghost predicate ShowsAccepted(cfg: Config, disk: Files, s: State, accepted: set<string>)
    requires Listed(s)
  {
    var picks := Picked(Changes(s), accepted, 0);
    var (after, error) := AppliedUpTo(cfg, disk, picks, |picks|);
    && error == None
    && forall p :: Agree(after, Target(disk, s, accepted, p), p)
  }

  /** Only one set of files reads as the target on every path. */
  lemma TargetIsOne(a: Files, b: Files, disk: Files, s: State, accepted: set<string>)
    requires forall p :: Agree(b, Target(disk, s, accepted, p), p)
    ensures a == b <==> forall p :: Agree(a, Target(disk, s, accepted, p), p)
  {
    if forall p :: Agree(a, Target(disk, s, accepted, p), p) {
      forall p ensures Agree(a, b, p) {
        assert Agree(a, Target(disk, s, accepted, p), p) && Agree(b, Target(disk, s, accepted, p), p);
      }
      assert forall p :: p in a ==> Agree(a, b, p);
      assert forall p :: p in b ==> Agree(a, b, p);
    }
  }

  lemma {:induction false} AcceptedOf(cfg: Config, disk: Files, s: State, accepted: set<string>)
    requires Inv(cfg, disk, s) && Listed(s)
    ensures ShowsAccepted(cfg, disk, s, accepted) <==> Harmless(disk, Picked(Changes(s), accepted, 0))
  {
    var picks := Picked(Changes(s), accepted, 0);
    PickedComesFromOverlay(cfg, disk, s, accepted, 0);
    OverlayIsReviewed(cfg, disk, s, picks);
    EndsAsAskedIff(cfg, disk, picks);
    forall p ensures Agree(WrittenUpTo(disk, picks, |picks|), Target(disk, s, accepted, p), p) {
      WritesEverywhere(cfg, disk, s, accepted, p);
    }
    TargetIsOne(AppliedUpTo(cfg, disk, picks, |picks|).0, WrittenUpTo(disk, picks, |picks|), disk, s, accepted);
  }

  /** For any accepted subset of what a session of tool calls proposes, on the disk the session
      ran over: it is applied so that the disk shows the overlay on the accepted paths and stays
      as it was elsewhere, if and only if the picks are harmless. */
  lemma {:induction false} AcceptedSubset(cfg: Config, disk: Files, calls: seq<Call>, accepted: set<string>)
    ensures Listed(Session(cfg, disk, calls, |calls|))
    ensures var s := Session(cfg, disk, calls, |calls|);
            ShowsAccepted(cfg, disk, s, accepted) <==> Harmless(disk, Picked(Changes(s), accepted, 0))
  {
    var s := Session(cfg, disk, calls, |calls|);
    SessionRefinesEditing(cfg, disk, calls, |calls|);
    assert Listed(s);
    AcceptedOf(cfg, disk, s, accepted);
  }

  const TwoFiles: Files := map["a" := "1", "a.agent-tmp" := "2"]

  const TwoEdits: seq<Change> :=
    [Change("a", Some("x"), Update, Some(Sha("1"))), Change("a.agent-tmp", Some("y"), Update, Some(Sha("2")))]

  /** Two accepted edits, one to a file whose name is the other's temporary name: writing the
      first destroys the second's file, and the second is then refused as stale. */
  lemma {:induction false} TemporaryNameClobbers(cfg: Config)
    requires cfg.resolves("a") && cfg.resolves("a.agent-tmp")
    ensures AppliedUpTo(cfg, TwoFiles, TwoEdits, 2) == (map["a" := "x"], Some(ChangedAfterReview))
    ensures WrittenUpTo(TwoFiles, TwoEdits, 2) == map["a" := "x", "a.agent-tmp" := "y"]
  {
    assert Temporary("a") == "a.agent-tmp";
    assert (TwoFiles - {"a.agent-tmp"})["a" := "x"] == map["a" := "x"];
    assert AppliedUpTo(cfg, TwoFiles, TwoEdits, 1) == (map["a" := "x"], None);
    assert WrittenUpTo(TwoFiles, TwoEdits, 1) == TwoFiles["a" := "x"];
    assert TwoFiles["a" := "x"]["a.agent-tmp" := "y"] == map["a" := "x", "a.agent-tmp" := "y"];
  }
}
