/** Model of the `apply` route of `agentic-workspace-chat/backend/app/main.py` where the user
    has picked hunks of some updates: each such change is first cut down to its accepted hunks,
    read off the disk of the moment, and then written like any other. */
module HunkSelection {
  import opened Wrappers
  import opened EditOverlay
  import opened ChangeApplication
  import opened Texts
  import Diffs = UnifiedDiff
  import Edits = ReviewedEdits

  /** `difflib.unified_diff`, as the hunks it finds between two texts. */
  type Differ = (string, string) -> seq<Edits.Hunk>

  ghost predicate IsDiffer(diff: Differ) {
    forall before, after :: Edits.IsDiff(before, after, diff(before, after))
  }

  /** The accepted hunk ids of the paths for which any were sent. */
  type Selection = map<string, set<string>>

  datatype SelectionError = Refused(why: ApplyError) | MissingFile | BadHeader

  predicate Selects(c: Change, hunks: Selection) {
    c.path in hunks && c.operation.Update?
  }

  /** The change that is applied, its content cut down to the accepted hunks. */
  function Selected(cfg: Config, files: Files, diff: Differ, c: Change, hunks: Selection)
    : Result<Change, SelectionError>
  {
    if !Selects(c, hunks) then Success(c)
    else if !cfg.resolves(c.path) then Failure(Refused(OutsideWorkspace))
    else if c.path !in files then Failure(MissingFile)
    else
      match CutText(files[c.path], diff, c, hunks)
      case Failure(_) => Failure(BadHeader)
      case Success(text) => Success(c.(content := Some(text)))
  }

  function CutText(current: string, diff: Differ, c: Change, hunks: Selection): Result<string, Diffs.Error>
    requires Selects(c, hunks)
  {
    Diffs.ApplyText(current, Edits.Render(c.path, diff(current, TextOfChange(c))), hunks[c.path])
  }

  function SelectAndApply(cfg: Config, files: Files, diff: Differ, c: Change, hunks: Selection)
    : (Files, Option<SelectionError>)
  {
    match Selected(cfg, files, diff, c, hunks)
    case Failure(e) => (files, Some(e))
    case Success(cut) =>
      match Applied(cfg, files, cut)
      case Failure(e) => (files, Some(Refused(e)))
      case Success(next) => (next, None)
  }

  /** The disk once the first `k` picks have been applied, or where the first failure left it. */
  function SelectedUpTo(cfg: Config, disk: Files, diff: Differ, picks: seq<Change>, hunks: Selection, k: nat)
    : (Files, Option<SelectionError>)
    requires k <= |picks|
  {
    if k == 0 then (disk, None)
    else
      var (files, error) := SelectedUpTo(cfg, disk, diff, picks, hunks, k - 1);
      if error.Some? then (files, error) else SelectAndApply(cfg, files, diff, picks[k - 1], hunks)
  }

  method SelectAndApplyChange(cfg: Config, workspace: Workspace, diff: Differ, c: Change, hunks: Selection)
    returns (error: Option<SelectionError>)
    modifies workspace
    ensures (workspace.files, error) == SelectAndApply(cfg, old(workspace.files), diff, c, hunks)
  {
    var cut := c;
    if c.path in hunks && c.operation == Update {
      if !cfg.resolves(c.path) {
        return Some(Refused(OutsideWorkspace));
      }
      if c.path !in workspace.files {
        return Some(MissingFile);
      }
      var current := workspace.files[c.path];
      var text := Diffs.ApplyHunks(current, Edits.Render(c.path, diff(current, TextOfChange(c))), hunks[c.path]);
      if text.Failure? {
        return Some(BadHeader);
      }
      cut := c.(content := Some(text.value));
    }
    var refused := ApplyChange(cfg, workspace, cut);
    error := if refused.Some? then Some(Refused(refused.value)) else None;
  }

  method ApplySelected(cfg: Config, workspace: Workspace, diff: Differ, changes: seq<Change>,
                       accepted: set<string>, hunks: Selection)
    returns (error: Option<SelectionError>)
    modifies workspace
    ensures var picks := Picked(changes, accepted, 0);
            (workspace.files, error) == SelectedUpTo(cfg, old(workspace.files), diff, picks, hunks, |picks|)
  {
    ghost var disk := workspace.files;
    ghost var picks := Picked(changes, accepted, 0);
    ghost var k := 0;
    error := None;
    var i := 0;
    while i < |changes|
      invariant 0 <= i <= |changes| && k <= |picks| && picks[k..] == Picked(changes, accepted, i)
      invariant (workspace.files, None) == SelectedUpTo(cfg, disk, diff, picks, hunks, k)
    {
      if changes[i].path in accepted {
        assert picks[k] == picks[k..][0] == changes[i] && picks[k + 1..] == picks[k..][1..];
        error := SelectAndApplyChange(cfg, workspace, diff, changes[i], hunks);
        k := k + 1;
        if error.Some? {
          SelectionFailureStays(cfg, disk, diff, picks, hunks, k, |picks|);
          return;
        }
      }
      i := i + 1;
    }
    error := None;
  }

  lemma {:induction false} SelectionFailureStays(cfg: Config, disk: Files, diff: Differ, picks: seq<Change>,
                                                 hunks: Selection, k: nat, n: nat)
    requires k <= n <= |picks| && SelectedUpTo(cfg, disk, diff, picks, hunks, k).1.Some?
    ensures SelectedUpTo(cfg, disk, diff, picks, hunks, n) == SelectedUpTo(cfg, disk, diff, picks, hunks, k)
    decreases n
  {
    if k < n {
      SelectionFailureStays(cfg, disk, diff, picks, hunks, k, n - 1);
    }
  }

  // ---- what the user is promised -------------------------------------------

  /** Reviewed changes with one-line paths, each update to a file that holds some text. */
  ghost predicate Proposed(cfg: Config, disk: Files, picks: seq<Change>) {
    && Reviewed(cfg, disk, picks)
    && forall i :: 0 <= i < |picks| ==>
         '\n' !in picks[i].path && (picks[i].operation.Update? ==> TextOf(disk, picks[i].path) != "")
  }

  /** A change with the text that review promises: the accepted ranges replaced, all else kept. */
  ghost function Promised(disk: Files, diff: Differ, c: Change, hunks: Selection): Change
    requires IsDiffer(diff)
  {
    if !Selects(c, hunks) then c
    else
      var before, after := TextOf(disk, c.path), TextOfChange(c);
      c.(content := Some(Edits.Reviewed(before, after, diff(before, after), hunks[c.path])))
  }

  /** The same change with the text the code makes of it. */
  ghost function Cut(disk: Files, diff: Differ, c: Change, hunks: Selection): Change {
    if Selects(c, hunks) && CutText(TextOf(disk, c.path), diff, c, hunks).Success?
    then c.(content := Some(CutText(TextOf(disk, c.path), diff, c, hunks).value)) else c
  }

  ghost function AllPromised(disk: Files, diff: Differ, picks: seq<Change>, hunks: Selection): (r: seq<Change>)
    requires IsDiffer(diff)
    ensures |r| == |picks| && forall i :: 0 <= i < |r| ==> r[i] == Promised(disk, diff, picks[i], hunks)
  {
    seq(|picks|, i requires 0 <= i < |picks| => Promised(disk, diff, picks[i], hunks))
  }

  ghost function AllCut(disk: Files, diff: Differ, picks: seq<Change>, hunks: Selection): (r: seq<Change>)
    ensures |r| == |picks| && forall i :: 0 <= i < |r| ==> r[i] == Cut(disk, diff, picks[i], hunks)
  {
    seq(|picks|, i requires 0 <= i < |picks| => Cut(disk, diff, picks[i], hunks))
  }

  /** The last hunk of the change's diff is not accepted, or ends cleanly. */
  ghost predicate Clean(disk: Files, diff: Differ, c: Change, hunks: Selection) {
    Selects(c, hunks) ==>
      Edits.LastIsClean(diff(TextOf(disk, c.path), TextOfChange(c)), 0, hunks[c.path])
  }

  /** On the text it was reviewed against, a change is always cut, and as promised exactly when
      its diff is clean. */
  lemma CutIsPromised(disk: Files, diff: Differ, c: Change, hunks: Selection)
    requires IsDiffer(diff) && '\n' !in c.path
    ensures Selects(c, hunks) ==> CutText(TextOf(disk, c.path), diff, c, hunks).Success?
    ensures Cut(disk, diff, c, hunks) == Promised(disk, diff, c, hunks) <==> Clean(disk, diff, c, hunks)
  {
    if Selects(c, hunks) {
      var before, after := TextOf(disk, c.path), TextOfChange(c);
      Edits.AppliesAcceptedHunks(before, after, c.path, diff(before, after), hunks[c.path]);
    }
  }

  /** On any disk that holds the text it was reviewed against, a change is cut as there. */
  lemma SelectedIsCut(cfg: Config, disk: Files, files: Files, diff: Differ, c: Change, hunks: Selection)
    requires IsDiffer(diff) && '\n' !in c.path && cfg.resolves(c.path)
    requires TextOf(files, c.path) == TextOf(disk, c.path) && (c.operation.Update? ==> TextOf(disk, c.path) != "")
    ensures Selected(cfg, files, diff, c, hunks) == Success(Cut(disk, diff, c, hunks))
  {
    CutIsPromised(disk, diff, c, hunks);
  }

  /** On any other it is refused, cut or not. */
  lemma StaleIsRefused(cfg: Config, disk: Files, files: Files, diff: Differ, c: Change, hunks: Selection)
    requires cfg.resolves(c.path) && Stale(files, c)
    ensures SelectAndApply(cfg, files, diff, c, hunks).1.Some?
    ensures Applied(cfg, files, Cut(disk, diff, c, hunks)).Failure?
  {
  }

  /** A change goes through, on the disk of its turn, exactly when the cut change would. */
  lemma SelectsLikeCut(cfg: Config, disk: Files, files: Files, diff: Differ, c: Change, hunks: Selection)
    requires IsDiffer(diff) && '\n' !in c.path && cfg.resolves(c.path)
    requires c.original == Some(Sha(TextOf(disk, c.path))) && (c.operation.Update? ==> TextOf(disk, c.path) != "")
    ensures var (next, error) := SelectAndApply(cfg, files, diff, c, hunks);
            match Applied(cfg, files, Cut(disk, diff, c, hunks))
            case Failure(_) => error.Some?
            case Success(want) => error == None && next == want
  {
    if Stale(files, c) {
      StaleIsRefused(cfg, disk, files, diff, c, hunks);
    } else {
      SelectedIsCut(cfg, disk, files, diff, c, hunks);
    }
  }

  lemma {:induction false} SelectedLikeCut(cfg: Config, disk: Files, diff: Differ, picks: seq<Change>, hunks: Selection,
                                           k: nat)
    requires IsDiffer(diff) && Proposed(cfg, disk, picks) && k <= |picks|
    ensures var got, want := SelectedUpTo(cfg, disk, diff, picks, hunks, k),
                             AppliedUpTo(cfg, disk, AllCut(disk, diff, picks, hunks), k);
            (got.1 == None <==> want.1 == None) && (got.1 == None ==> got.0 == want.0)
  {
    if k > 0 {
      SelectedLikeCut(cfg, disk, diff, picks, hunks, k - 1);
      if SelectedUpTo(cfg, disk, diff, picks, hunks, k - 1).1 == None {
        SelectsLikeCut(cfg, disk, SelectedUpTo(cfg, disk, diff, picks, hunks, k - 1).0, diff, picks[k - 1], hunks);
      }
    }
  }

  // ---- that there are such diffs -------------------------------------------

  function Replacement(before: seq<string>, after: seq<string>): seq<Edits.Op> {
    if before != [] then [Edits.Del(before[0])] + Replacement(before[1..], after)
    else if after != [] then [Edits.Add(after[0])] + Replacement([], after[1..])
    else []
  }

  /** The coarsest diff: all old lines go, all new ones come. */
  function WholeDiff(before: string, after: string): seq<Edits.Hunk> {
    if before == after then []
    else [Edits.Hunk(0, 0, Replacement(SplitKeep(before), SplitKeep(after)))]
  }

  lemma {:induction false} ReplacementLines(before: seq<string>, after: seq<string>)
    ensures var body := Replacement(before, after);
            && Edits.OldLines(body) == before && Edits.NewLines(body) == after && Edits.Tidy(body)
            && (before == [] ==> Edits.Additions(body))
    decreases |before| + |after|
  {
    if before != [] {
      ReplacementLines(before[1..], after);
    } else if after != [] {
      ReplacementLines([], after[1..]);
    }
  }

  lemma WholeDiffIsDiff()
    ensures IsDiffer(WholeDiff)
  {
    forall before, after ensures Edits.IsDiff(before, after, WholeDiff(before, after)) {
      if before != after {
        var old', new' := SplitKeep(before), SplitKeep(after);
        ReplacementLines(old', new');
        Edits.WholeIsDescribed(old', new', Replacement(old', new'));
      }
    }
  }

  // ---- writing one text or another -----------------------------------------

  /** The same changes, but for the contents of some that write. */
  ghost predicate SameShape(a: seq<Change>, b: seq<Change>) {
    && |a| == |b|
    && forall i :: 0 <= i < |a| ==>
         a[i].path == b[i].path && a[i].operation == b[i].operation && a[i].original == b[i].original
  }

  lemma {:induction false} SamePathsWritten(disk: Files, a: seq<Change>, b: seq<Change>, k: nat)
    requires SameShape(a, b) && k <= |a|
    ensures WrittenUpTo(disk, a, k).Keys == WrittenUpTo(disk, b, k).Keys
  {
    if k > 0 {
      SamePathsWritten(disk, a, b, k - 1);
    }
  }

  /** Whether changes are harmless does not depend on what they write. */
  lemma {:induction false} HarmlessAlike(disk: Files, a: seq<Change>, b: seq<Change>)
    requires SameShape(a, b)
    ensures Harmless(disk, a) ==> Harmless(disk, b)
  {
    if Harmless(disk, a) {
      forall i | 0 <= i < |b| ensures ClearsNothing(disk, b, i) {
        assert ClearsNothing(disk, a, i);
        SamePathsWritten(disk, a, b, i);
        if j :| i < j < |a| && a[j].path == Temporary(a[i].path) && TextOf(disk, a[j].path) == "" {
          assert b[j].path == Temporary(b[i].path);
        }
      }
    }
  }

  /** What has been applied is part of what was asked: only cleared names can be missing. */
  lemma {:induction false} AppliedIsPart(cfg: Config, disk: Files, picks: seq<Change>, k: nat)
    requires k <= |picks| && AppliedUpTo(cfg, disk, picks, k).1 == None
    ensures var got, asked := AppliedUpTo(cfg, disk, picks, k).0, WrittenUpTo(disk, picks, k);
            forall p :: p in got ==> p in asked && asked[p] == got[p]
  {
    if k > 0 {
      AppliedIsPart(cfg, disk, picks, k - 1);
    }
  }

  /** A path keeps what its one change wrote. */
  lemma {:induction false} WrittenAtPath(disk: Files, picks: seq<Change>, k: nat, i: nat)
    requires i < k <= |picks| && !picks[i].operation.Delete?
    requires forall j :: i < j < k ==> picks[j].path != picks[i].path
    ensures picks[i].path in WrittenUpTo(disk, picks, k)
    ensures WrittenUpTo(disk, picks, k)[picks[i].path] == TextOfChange(picks[i])
  {
    if i < k - 1 {
      WrittenAtPath(disk, picks, k - 1, i);
    }
  }

  /** Everything as applied equals everything as promised only if each text is. */
  lemma {:induction false} PromisedTexts(disk: Files, cut: seq<Change>, promised: seq<Change>)
    requires SameShape(cut, promised) && WrittenUpTo(disk, cut, |cut|) == WrittenUpTo(disk, promised, |cut|)
    requires forall i, j :: 0 <= i < j < |cut| ==> cut[i].path != cut[j].path
    ensures forall i :: 0 <= i < |cut| && !cut[i].operation.Delete? ==>
              TextOfChange(cut[i]) == TextOfChange(promised[i])
  {
    forall i | 0 <= i < |cut| && !cut[i].operation.Delete? ensures TextOfChange(cut[i]) == TextOfChange(promised[i]) {
      WrittenAtPath(disk, cut, |cut|, i);
      WrittenAtPath(disk, promised, |cut|, i);
    }
  }

  // ---- end to end ----------------------------------------------------------

  lemma Shapes(cfg: Config, disk: Files, diff: Differ, picks: seq<Change>, hunks: Selection)
    requires IsDiffer(diff) && Proposed(cfg, disk, picks)
    ensures var cut, promised := AllCut(disk, diff, picks, hunks), AllPromised(disk, diff, picks, hunks);
            SameShape(picks, cut) && SameShape(cut, picks) && SameShape(cut, promised) && Reviewed(cfg, disk, cut)
    ensures AllCut(disk, diff, picks, hunks) == AllPromised(disk, diff, picks, hunks)
       <==> forall i :: 0 <= i < |picks| ==> Clean(disk, diff, picks[i], hunks)
  {
    var cut, promised := AllCut(disk, diff, picks, hunks), AllPromised(disk, diff, picks, hunks);
    forall i | 0 <= i < |picks| ensures cut[i] == promised[i] <==> Clean(disk, diff, picks[i], hunks) {
      CutIsPromised(disk, diff, picks[i], hunks);
    }
  }

  /** For every proposal, every accepted subset of it and every selection of hunks: the route
      leaves exactly the promised texts on the accepted paths, and all else as it was asked, if
      and only if no temporary name does harm and the diff of every cut change is clean. */
  lemma {:induction false} SelectionEndsAsPromised(cfg: Config, disk: Files, diff: Differ, picks: seq<Change>,
                                                   hunks: Selection)
    requires IsDiffer(diff) && Proposed(cfg, disk, picks)
    ensures SelectedUpTo(cfg, disk, diff, picks, hunks, |picks|)
            == (WrittenUpTo(disk, AllPromised(disk, diff, picks, hunks), |picks|), None)
       <==> Harmless(disk, picks) && forall i :: 0 <= i < |picks| ==> Clean(disk, diff, picks[i], hunks)
  {
    var cut, promised := AllCut(disk, diff, picks, hunks), AllPromised(disk, diff, picks, hunks);
    Shapes(cfg, disk, diff, picks, hunks);
    SelectedLikeCut(cfg, disk, diff, picks, hunks, |picks|);
    EndsAsAskedIff(cfg, disk, cut);
    HarmlessAlike(disk, picks, cut);
    HarmlessAlike(disk, cut, picks);
    if AppliedUpTo(cfg, disk, cut, |cut|) == (WrittenUpTo(disk, promised, |cut|), None) {
      PromisedIsCut(cfg, disk, cut, promised);
      AllEqual(disk, diff, picks, hunks);
    }
  }

  /** If applying the cut changes leaves the promised files, each cut text is the promised one. */
  lemma {:induction false} PromisedIsCut(cfg: Config, disk: Files, cut: seq<Change>, promised: seq<Change>)
    requires SameShape(cut, promised) && Reviewed(cfg, disk, cut)
    requires AppliedUpTo(cfg, disk, cut, |cut|) == (WrittenUpTo(disk, promised, |cut|), None)
    ensures AsAsked(cfg, disk, cut, |cut|)
    ensures forall i :: 0 <= i < |cut| && !cut[i].operation.Delete? ==>
              TextOfChange(cut[i]) == TextOfChange(promised[i])
  {
    AppliedIsPart(cfg, disk, cut, |cut|);
    SamePathsWritten(disk, cut, promised, |cut|);
    SameFiles(WrittenUpTo(disk, cut, |cut|), WrittenUpTo(disk, promised, |cut|));
    PromisedTexts(disk, cut, promised);
  }

  lemma AllEqual(disk: Files, diff: Differ, picks: seq<Change>, hunks: Selection)
    requires IsDiffer(diff) && forall i :: 0 <= i < |picks| ==> '\n' !in picks[i].path
    requires var cut, promised := AllCut(disk, diff, picks, hunks), AllPromised(disk, diff, picks, hunks);
             forall i :: 0 <= i < |cut| && !cut[i].operation.Delete? ==>
               TextOfChange(cut[i]) == TextOfChange(promised[i])
    ensures AllCut(disk, diff, picks, hunks) == AllPromised(disk, diff, picks, hunks)
  {
    var cut, promised := AllCut(disk, diff, picks, hunks), AllPromised(disk, diff, picks, hunks);
    forall i | 0 <= i < |picks| ensures cut[i] == promised[i] {
      CutIsPromised(disk, diff, picks[i], hunks);
      assert !cut[i].operation.Delete? ==> TextOfChange(cut[i]) == TextOfChange(promised[i]);
    }
  }

  /** What a session proposes is such a list, so this holds of any subset of it. */
  lemma {:induction false} SessionIsProposed(cfg: Config, disk: Files, calls: seq<Call>, accepted: set<string>)
    requires var s := Session(cfg, disk, calls, |calls|); forall p :: p in s.overlays ==> '\n' !in p
    ensures Listed(Session(cfg, disk, calls, |calls|))
    ensures Proposed(cfg, disk, Picked(Changes(Session(cfg, disk, calls, |calls|)), accepted, 0))
  {
    var s := Session(cfg, disk, calls, |calls|);
    SessionRefinesEditing(cfg, disk, calls, |calls|);
    assert Listed(s);
    PickedComesFromOverlay(cfg, disk, s, accepted, 0);
    OverlayIsReviewed(cfg, disk, s, Picked(Changes(s), accepted, 0));
  }

  // ---- the session, the route and the disk ---------------------------------

  /** The text a path is to hold: shown by the session if it was accepted, cut down to the accepted
      hunks if some were sent for it and it held text before; else what it held before. */
  ghost function Wanted(disk: Files, diff: Differ, s: State, accepted: set<string>, hunks: Selection, path: string)
    : Option<string>
    requires IsDiffer(diff)
  {
    if path !in s.overlays || path !in accepted then TextAt(disk, path)
    else if s.overlays[path].None? then None
    else if path in hunks && TextOf(disk, path) != "" then
      var before, after := TextOf(disk, path), s.overlays[path].value;
      Some(Edits.Reviewed(before, after, diff(before, after), hunks[path]))
    else s.overlays[path]
  }

  function TextAt(files: Files, path: string): Option<string> {
    if path in files then Some(files[path]) else None
  }

  /** Every accepted text that is cut has a diff whose last hunk is rejected or ends cleanly. */
  ghost predicate AllClean(disk: Files, diff: Differ, s: State, accepted: set<string>, hunks: Selection) {
    forall path :: CleanAt(disk, diff, s, accepted, hunks, path)
  }

  ghost predicate CleanAt(disk: Files, diff: Differ, s: State, accepted: set<string>, hunks: Selection, path: string) {
    path in s.overlays && path in accepted && path in hunks
    && s.overlays[path].Some? && TextOf(disk, path) != "" ==>
      Edits.LastIsClean(diff(TextOf(disk, path), s.overlays[path].value), 0, hunks[path])
  }

  lemma TextsAreFiles(a: Files, b: Files)
    ensures a == b <==> forall path :: TextAt(a, path) == TextAt(b, path)
  {
    if forall path :: TextAt(a, path) == TextAt(b, path) {
      forall path ensures (path in a <==> path in b) && (path in a && path in b ==> a[path] == b[path]) {
        assert TextAt(a, path) == TextAt(b, path);
      }
      SameFiles(a, b);
    }
  }

  lemma {:induction false} DeletedAtPath(disk: Files, picks: seq<Change>, k: nat, i: nat)
    requires i < k <= |picks| && picks[i].operation.Delete?
    requires forall j :: i < j < k ==> picks[j].path != picks[i].path
    ensures picks[i].path !in WrittenUpTo(disk, picks, k)
  {
    if i < k - 1 {
      DeletedAtPath(disk, picks, k - 1, i);
    }
  }

  /** What the promised changes leave at the path of change `i`. */
  lemma {:induction false} PromisedAtPath(disk: Files, diff: Differ, picks: seq<Change>, hunks: Selection, i: nat)
    requires IsDiffer(diff) && i < |picks|
    requires forall j, k :: 0 <= j < k < |picks| ==> picks[j].path != picks[k].path
    ensures var promised := AllPromised(disk, diff, picks, hunks);
            TextAt(WrittenUpTo(disk, promised, |picks|), picks[i].path)
            == if picks[i].operation.Delete? then None else Some(TextOfChange(promised[i]))
  {
    var promised := AllPromised(disk, diff, picks, hunks);
    if picks[i].operation.Delete? {
      DeletedAtPath(disk, promised, |picks|, i);
    } else {
      WrittenAtPath(disk, promised, |picks|, i);
    }
  }

  /** An accepted change of a session promises the wanted text, and is clean exactly when that is. */
  lemma {:induction false} PickWanted(cfg: Config, disk: Files, diff: Differ, s: State, accepted: set<string>,
                                      hunks: Selection, c: Change)
    requires IsDiffer(diff) && Inv(cfg, disk, s) && c.path in s.overlays && c.path in accepted
    requires c == ChangeOf(s, c.path)
    ensures (if c.operation.Delete? then None else Some(TextOfChange(Promised(disk, diff, c, hunks))))
         == Wanted(disk, diff, s, accepted, hunks, c.path)
    ensures Clean(disk, diff, c, hunks) <==> CleanAt(disk, diff, s, accepted, hunks, c.path)
  {
  }

  /** The promised changes leave the wanted text on every path. */
  lemma {:induction false} PromisedIsWanted(cfg: Config, disk: Files, diff: Differ, s: State, accepted: set<string>,
                                            hunks: Selection, path: string)
    requires IsDiffer(diff) && Inv(cfg, disk, s) && Listed(s)
    ensures var picks := Picked(Changes(s), accepted, 0);
            TextAt(WrittenUpTo(disk, AllPromised(disk, diff, picks, hunks), |picks|), path)
            == Wanted(disk, diff, s, accepted, hunks, path)
  {
    var picks := Picked(Changes(s), accepted, 0);
    var promised := AllPromised(disk, diff, picks, hunks);
    PickedComesFromOverlay(cfg, disk, s, accepted, 0);
    PickedNames(s, accepted, 0, path);
    if i :| 0 <= i < |picks| && picks[i].path == path {
      PromisedAtPath(disk, diff, picks, hunks, i);
      PickWanted(cfg, disk, diff, s, accepted, hunks, picks[i]);
      assert promised[i] == Promised(disk, diff, picks[i], hunks);
    } else {
      OthersUntouched(disk, promised, |picks|, path);
    }
  }

  lemma {:induction false} PicksClean(cfg: Config, disk: Files, diff: Differ, s: State, accepted: set<string>,
                                      hunks: Selection)
    requires IsDiffer(diff) && Inv(cfg, disk, s) && Listed(s)
    ensures var picks := Picked(Changes(s), accepted, 0);
            (forall i :: 0 <= i < |picks| ==> Clean(disk, diff, picks[i], hunks))
            <==> AllClean(disk, diff, s, accepted, hunks)
  {
    var picks := Picked(Changes(s), accepted, 0);
    PickedComesFromOverlay(cfg, disk, s, accepted, 0);
    forall i | 0 <= i < |picks|
      ensures Clean(disk, diff, picks[i], hunks) <==> CleanAt(disk, diff, s, accepted, hunks, picks[i].path)
    {
      PickedNames(s, accepted, 0, picks[i].path);
      PickWanted(cfg, disk, diff, s, accepted, hunks, picks[i]);
    }
    forall path ensures Names(picks, path) || CleanAt(disk, diff, s, accepted, hunks, path) {
      PickedNames(s, accepted, 0, path);
    }
  }

  /** From the calls of any session to the disk: the route goes through and leaves the wanted text
      on every path, if and only if no temporary name does harm and what is cut is clean. */
  lemma {:induction false} SessionEndsAsWanted(cfg: Config, disk: Files, diff: Differ, calls: seq<Call>,
                                               accepted: set<string>, hunks: Selection)
    requires IsDiffer(diff)
    requires forall p :: p in Session(cfg, disk, calls, |calls|).overlays ==> '\n' !in p
    ensures Listed(Session(cfg, disk, calls, |calls|))
    ensures var s := Session(cfg, disk, calls, |calls|);
            var picks := Picked(Changes(s), accepted, 0);
            var (after, error) := SelectedUpTo(cfg, disk, diff, picks, hunks, |picks|);
            (error == None && forall path :: TextAt(after, path) == Wanted(disk, diff, s, accepted, hunks, path))
            <==> Harmless(disk, picks) && AllClean(disk, diff, s, accepted, hunks)
  {
    var s := Session(cfg, disk, calls, |calls|);
    SessionRefinesEditing(cfg, disk, calls, |calls|);
    SessionIsProposed(cfg, disk, calls, accepted);
    var picks := Picked(Changes(s), accepted, 0);
    SelectionEndsAsPromised(cfg, disk, diff, picks, hunks);
    PicksClean(cfg, disk, diff, s, accepted, hunks);
    WantedIsPromised(cfg, disk, diff, s, accepted, hunks, SelectedUpTo(cfg, disk, diff, picks, hunks, |picks|).0);
  }

  /** Files hold the wanted text on every path exactly when they are the promised ones. */
  lemma {:induction false} WantedIsPromised(cfg: Config, disk: Files, diff: Differ, s: State, accepted: set<string>,
                                            hunks: Selection, after: Files)
    requires IsDiffer(diff) && Inv(cfg, disk, s) && Listed(s)
    ensures var picks := Picked(Changes(s), accepted, 0);
            after == WrittenUpTo(disk, AllPromised(disk, diff, picks, hunks), |picks|)
            <==> forall path :: TextAt(after, path) == Wanted(disk, diff, s, accepted, hunks, path)
  {
    var picks := Picked(Changes(s), accepted, 0);
    var promised := WrittenUpTo(disk, AllPromised(disk, diff, picks, hunks), |picks|);
    forall path ensures TextAt(promised, path) == Wanted(disk, diff, s, accepted, hunks, path) {
      PromisedIsWanted(cfg, disk, diff, s, accepted, hunks, path);
    }
    TextsAreFiles(after, promised);
  }
}
