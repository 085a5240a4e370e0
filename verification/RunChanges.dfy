/** Model of `repo-agent/backend/app/changes/change_manager.py` (recording file changes
    and reverting a run), with the write tools of
    `repo-agent/backend/app/tools/implementations/write_tools.py` that report them. Files
    hold text, and every path has one spelling inside the workspace. */
module RunChanges {
  import opened Wrappers

  type Files = map<string, string>

  datatype ChangeType = Created | Modified | Deleted | Moved

  /** The stored part of a change. */
  datatype FileChange = FileChange(path: string, changeType: ChangeType)

  /** What a write tool reports in `metadata["file_change"]`. */
  datatype Report = Report(change: FileChange, before: Option<string>)

  function At(files: Files, path: string): Option<string> {
    if path in files then Some(files[path]) else None
  }

  // ---- the write tools -----------------------------------------------------

  datatype Write =
    | CreateFile(path: string, text: string, overwrite: bool)
    | ChangeFile(path: string, text: string)
    | DeleteFile(path: string)
    | MoveFile(src: string, dst: string)

  /** The files a tool leaves, and its report; `None` for a tool that fails. */
  function Apply(files: Files, w: Write): Option<(Files, Report)> {
    match w
    case CreateFile(path, text, overwrite) =>
      if path in files && !overwrite then None
      else Some((files[path := text],
                 Report(FileChange(path, if path in files then Modified else Created), At(files, path))))
    case ChangeFile(path, text) =>
      if path !in files then None
      else Some((files[path := text], Report(FileChange(path, Modified), At(files, path))))
    case DeleteFile(path) =>
      if path !in files then None
      else Some((files - {path}, Report(FileChange(path, Deleted), At(files, path))))
    case MoveFile(src, dst) =>
      if src !in files then None
      else Some(((files - {src})[dst := files[src]], Report(FileChange(dst, Moved), At(files, src))))
  }

  // ---- recording and reverting ---------------------------------------------

  /** One step of the loop of `revert`: the files after it, and whether it did anything. */
  function Undo(files: Files, c: FileChange, content: map<string, Option<string>>): (Files, bool) {
    var before := if c.path in content then content[c.path] else None;
    if c.changeType.Created? then (files - {c.path}, c.path in files)
    else if before.Some? then (files[c.path := before.value], true)
    else (files, false)
  }

  /** The files after undoing `changes` from the last back to the first. */
  function Reverted(files: Files, changes: seq<FileChange>, content: map<string, Option<string>>): Files {
    if changes == [] then files
    else Undo(Reverted(files, changes[1..], content), changes[0], content).0
  }

  /** The paths `revert` returns. */
  function RevertedPaths(files: Files, changes: seq<FileChange>, content: map<string, Option<string>>): seq<string> {
    if changes == [] then []
    else RevertedPaths(files, changes[1..], content)
         + if Undo(Reverted(files, changes[1..], content), changes[0], content).1 then [changes[0].path] else []
  }

  class Workspace {
    var files: Files

    constructor (files: Files)
      ensures this.files == files
    {
      this.files := files;
    }
  }

  /** `ChangeManager` over its repository: stored changes and kept contents by run. */
  class ChangeManager {
    var stored: map<string, seq<FileChange>>
    var contents: map<string, map<string, Option<string>>>

    /** Over the repository it finds: stored changes outlive the process, contents do not. */
    constructor (stored: map<string, seq<FileChange>>)
      ensures forall run :: Changes(run) == (if run in stored then stored[run] else []) && Content(run) == map[]
    {
      this.stored, contents := stored, map[];
    }

    function Changes(run: string): seq<FileChange>
      reads this
    {
      if run in stored then stored[run] else []
    }

    function Content(run: string): map<string, Option<string>>
      reads this
    {
      if run in contents then contents[run] else map[]
    }

    method RecordFromTool(run: string, report: Option<Report>) returns (change: Option<FileChange>)
      modifies this
      ensures report.None? ==>
        change.None? && forall r :: Changes(r) == old(Changes(r)) && Content(r) == old(Content(r))
      ensures report.Some? ==>
        && change == Some(report.value.change)
        && Changes(run) == old(Changes(run)) + [report.value.change]
        && Content(run) == old(Content(run))[report.value.change.path := report.value.before]
        && forall r :: r != run ==> Changes(r) == old(Changes(r)) && Content(r) == old(Content(r))
    {
      if report.None? {
        return None;
      }
      var c := report.value.change;
      stored := stored[run := Changes(run) + [c]];
      contents := contents[run := Content(run)[c.path := report.value.before]];
      return Some(c);
    }

    method Revert(run: string, workspace: Workspace) returns (reverted: seq<string>)
      modifies workspace
      ensures workspace.files == Reverted(old(workspace.files), Changes(run), Content(run))
      ensures reverted == RevertedPaths(old(workspace.files), Changes(run), Content(run))
    {
      reverted := [];
      var changes := Changes(run);
      assert changes[|changes|..] == [];
      var i := |changes|;
      while i > 0
        invariant 0 <= i <= |changes|
        invariant workspace.files == Reverted(old(workspace.files), changes[i..], Content(run))
        invariant reverted == RevertedPaths(old(workspace.files), changes[i..], Content(run))
      {
        i := i - 1;
        var change := changes[i];
        assert changes[i..][0] == change && changes[i..][1..] == changes[i + 1..];
        var before := if change.path in Content(run) then Content(run)[change.path] else None;
        if change.changeType.Created? {
          if change.path in workspace.files {
            workspace.files := workspace.files - {change.path};
            reverted := reverted + [change.path];
          } else {
            assert workspace.files - {change.path} == workspace.files;
          }
        } else if before.Some? {
          workspace.files := workspace.files[change.path := before.value];
          reverted := reverted + [change.path];
        }
      }
      assert changes[0..] == changes;
    }
  }

  // ---- what a revert reports -----------------------------------------------

  /** A change to `path` that is undone by putting its kept content back. */
  predicate PutsBack(c: FileChange, path: string, content: map<string, Option<string>>) {
    c.path == path && !c.changeType.Created? && path in content && content[path].Some?
  }

  predicate UndoesCreation(c: FileChange, path: string) {
    c.path == path && c.changeType.Created?
  }

  ghost predicate AnyPutsBack(changes: seq<FileChange>, path: string, content: map<string, Option<string>>) {
    exists i :: 0 <= i < |changes| && PutsBack(changes[i], path, content)
  }

  ghost predicate AnyCreated(changes: seq<FileChange>, path: string) {
    exists i :: 0 <= i < |changes| && UndoesCreation(changes[i], path)
  }

  /** A revert reports exactly the paths it puts a kept content back under and those it takes
      away; one it does not report it leaves alone, and one it reports is gone or has its content. */
  lemma {:induction false} RevertReports(files: Files, changes: seq<FileChange>, content: map<string, Option<string>>,
                                         path: string)
    ensures var told, after := path in RevertedPaths(files, changes, content), Reverted(files, changes, content);
            && (told <==> AnyPutsBack(changes, path, content) || (path in files && AnyCreated(changes, path)))
            && (!told ==> At(after, path) == At(files, path))
            && (told ==> path !in after || (path in content && At(after, path) == content[path]))
  {
    if changes != [] {
      var c, rest := changes[0], changes[1..];
      RevertReports(files, rest, content, path);
      FirstOrRest(changes, path, content);
    }
  }

  lemma FirstOrRest(changes: seq<FileChange>, path: string, content: map<string, Option<string>>)
    requires changes != []
    ensures var c, rest := changes[0], changes[1..];
            && (AnyPutsBack(changes, path, content) <==> PutsBack(c, path, content) || AnyPutsBack(rest, path, content))
            && (AnyCreated(changes, path) <==> UndoesCreation(c, path) || AnyCreated(rest, path))
  {
    assert forall i :: 1 <= i < |changes| ==> changes[i] == changes[1..][i - 1];
  }

  // ---- a run, recorded and reverted ----------------------------------------

  /** The files, and the reports recorded, after a run's tool calls in order. */
  datatype Run = Run(files: Files, reports: seq<Report>)

  function Step(r: Run, w: Write): Run {
    match Apply(r.files, w)
    case None => r
    case Some((files, report)) => Run(files, r.reports + [report])
  }

  function Perform(r: Run, writes: seq<Write>): Run
    decreases |writes|
  {
    if writes == [] then r else Step(Perform(r, writes[..|writes| - 1]), writes[|writes| - 1])
  }

  function ChangesOf(reports: seq<Report>): (r: seq<FileChange>)
    ensures |r| == |reports| && forall i :: 0 <= i < |r| ==> r[i] == reports[i].change
  {
    seq(|reports|, i requires 0 <= i < |reports| => reports[i].change)
  }

  /** What `RecordFromTool` has kept of these reports: the latest before-content by path. */
  function ContentOf(reports: seq<Report>): map<string, Option<string>> {
    if reports == [] then map[]
    else
      var last := reports[|reports| - 1];
      ContentOf(reports[..|reports| - 1])[last.change.path := last.before]
  }

  predicate Touches(reports: seq<Report>, path: string) {
    exists i :: 0 <= i < |reports| && reports[i].change.path == path
  }

  /** The first report of a path. */
  function First(reports: seq<Report>, path: string): (r: Report)
    requires Touches(reports, path)
    ensures r.change.path == path
  {
    if reports[0].change.path == path then reports[0]
    else
      assert Touches(reports[1..], path) by {
        var i :| 0 <= i < |reports| && reports[i].change.path == path;
        assert reports[1..][i - 1] == reports[i];
      }
      First(reports[1..], path)
  }

  /** The last report of a path. */
  function Last(reports: seq<Report>, path: string): (r: Report)
    requires Touches(reports, path)
    ensures r.change.path == path
  {
    var n := |reports| - 1;
    if reports[n].change.path == path then reports[n]
    else
      assert Touches(reports[..n], path) by {
        var i :| 0 <= i < |reports| && reports[i].change.path == path;
        assert reports[..n][i] == reports[i];
      }
      Last(reports[..n], path)
  }

  predicate NoMove(writes: seq<Write>) {
    forall i :: 0 <= i < |writes| ==> !writes[i].MoveFile?
  }

  /** Where no file moves, the reports tell how each path stood before its first touch, and an
      untouched path stands as it did. */
  ghost predicate Truthful(before: Files, r: Run) {
    forall path ::
      if Touches(r.reports, path)
      then First(r.reports, path).before == At(before, path)
      else At(r.files, path) == At(before, path)
  }

  /** Only what was created has no content before. */
  predicate WellTyped(reports: seq<Report>) {
    forall i :: 0 <= i < |reports| ==> (reports[i].change.changeType.Created? <==> reports[i].before.None?)
  }

  /** Write `k` moves the file at `path` away. */
  predicate TakesAway(before: Files, writes: seq<Write>, k: nat, path: string)
    requires k < |writes|
  {
    writes[k].MoveFile? && writes[k].src == path && path in Perform(Run(before, []), writes[..k]).files
  }

  predicate MovedAway(before: Files, writes: seq<Write>, path: string) {
    exists k :: 0 <= k < |writes| && TakesAway(before, writes, k, path)
  }

  lemma TouchesAppend(reports: seq<Report>, r: Report, path: string)
    ensures Touches(reports + [r], path) <==> Touches(reports, path) || r.change.path == path
  {
    var all := reports + [r];
    assert all[|reports|] == r;
    if Touches(reports, path) {
      var i :| 0 <= i < |reports| && reports[i].change.path == path;
      assert all[i] == reports[i];
    }
    if Touches(all, path) && r.change.path != path {
      var i :| 0 <= i < |all| && all[i].change.path == path;
      assert reports[i] == all[i];
    }
  }

  lemma {:induction false} FirstAppend(reports: seq<Report>, r: Report, path: string)
    requires Touches(reports + [r], path)
    ensures First(reports + [r], path) == if Touches(reports, path) then First(reports, path) else r
    decreases |reports|
  {
    TouchesAppend(reports, r, path);
    if reports != [] && reports[0].change.path != path {
      assert (reports + [r])[1..] == reports[1..] + [r];
      TouchesAppend(reports[1..], r, path);
      TouchesTail(reports, path);
      FirstAppend(reports[1..], r, path);
    }
  }

  lemma TouchesTail(reports: seq<Report>, path: string)
    requires reports != []
    ensures Touches(reports, path) <==> reports[0].change.path == path || Touches(reports[1..], path)
  {
    if Touches(reports[1..], path) {
      var i :| 0 <= i < |reports[1..]| && reports[1..][i].change.path == path;
      assert reports[i + 1] == reports[1..][i];
    }
    if Touches(reports, path) && reports[0].change.path != path {
      var i :| 0 <= i < |reports| && reports[i].change.path == path;
      assert reports[1..][i - 1] == reports[i];
    }
  }

  lemma ApplyTruthful(before: Files, r: Run, w: Write)
    requires Truthful(before, r) && !w.MoveFile? && Apply(r.files, w).Some?
    ensures var (files, report) := Apply(r.files, w).value; Truthful(before, Run(files, r.reports + [report]))
  {
    var (files, report) := Apply(r.files, w).value;
    var next := Run(files, r.reports + [report]);
    forall path
      ensures if Touches(next.reports, path)
              then First(next.reports, path).before == At(before, path)
              else At(next.files, path) == At(before, path)
    {
      TouchesAppend(r.reports, report, path);
      if Touches(next.reports, path) {
        FirstAppend(r.reports, report, path);
      }
    }
  }

  lemma {:induction false} RunIsTruthful(before: Files, writes: seq<Write>)
    requires NoMove(writes)
    ensures Truthful(before, Perform(Run(before, []), writes))
    decreases |writes|
  {
    if writes != [] {
      var init, w := writes[..|writes| - 1], writes[|writes| - 1];
      RunIsTruthful(before, init);
      var r := Perform(Run(before, []), init);
      if Apply(r.files, w).Some? {
        ApplyTruthful(before, r, w);
      }
    }
  }

  lemma {:induction false} RunIsWellTyped(before: Files, writes: seq<Write>)
    ensures WellTyped(Perform(Run(before, []), writes).reports)
    decreases |writes|
  {
    if writes != [] {
      RunIsWellTyped(before, writes[..|writes| - 1]);
    }
  }

  /** Over any writes, report `i` was made by some write, over the files as the writes of the
      reports before it had left them. */
  lemma {:induction false} ReportsAreTrue(before: Files, writes: seq<Write>, i: nat) returns (k: nat)
    requires i < |Perform(Run(before, []), writes).reports|
    ensures k < |writes|
    ensures var all, was := Perform(Run(before, []), writes).reports, Perform(Run(before, []), writes[..k]);
            && was.reports == all[..i]
            && Apply(was.files, writes[k]).Some? && Apply(was.files, writes[k]).value.1 == all[i]
    decreases |writes|
  {
    var n := |writes| - 1;
    var r := Perform(Run(before, []), writes[..n]);
    if i < |r.reports| {
      k := ReportsAreTrue(before, writes[..n], i);
      assert writes[..n][..k] == writes[..k] && writes[..n][k] == writes[k];
    } else {
      k := n;
    }
  }

  lemma StepStands(r: Run, w: Write, path: string)
    requires !Touches(Step(r, w).reports, path)
    ensures !Touches(r.reports, path)
    ensures At(Step(r, w).files, path) == if w.MoveFile? && w.src == path then None else At(r.files, path)
  {
    if Apply(r.files, w).Some? {
      TouchesAppend(r.reports, Apply(r.files, w).value.1, path);
    }
  }

  /** A path no report names stands as it did, unless a move took it away. */
  lemma {:induction false} UntouchedStands(before: Files, writes: seq<Write>, path: string)
    requires !Touches(Perform(Run(before, []), writes).reports, path)
    ensures At(Perform(Run(before, []), writes).files, path)
         == if MovedAway(before, writes, path) then None else At(before, path)
    decreases |writes|
  {
    if writes != [] {
      var n := |writes| - 1;
      var init, w := writes[..n], writes[n];
      StepStands(Perform(Run(before, []), init), w, path);
      UntouchedStands(before, init, path);
      MovedSnoc(before, init, w, path);
      assert writes == init + [w];
    }
  }

  lemma {:induction false} MovedSnoc(before: Files, init: seq<Write>, w: Write, path: string)
    ensures MovedAway(before, init + [w], path)
       <==> MovedAway(before, init, path) || TakesAway(before, init + [w], |init|, path)
  {
    var writes := init + [w];
    forall k | 0 <= k < |init| ensures TakesAway(before, writes, k, path) <==> TakesAway(before, init, k, path) {
      assert writes[..k] == init[..k];
    }
  }

  /** The kept content of a path is the before-content of its last touch. */
  lemma {:induction false} ContentIsLast(reports: seq<Report>, path: string)
    ensures path in ContentOf(reports) <==> Touches(reports, path)
    ensures Touches(reports, path) ==> ContentOf(reports)[path] == Last(reports, path).before
    decreases |reports|
  {
    if reports != [] {
      var n := |reports| - 1;
      ContentIsLast(reports[..n], path);
      assert reports == reports[..n] + [reports[n]];
      TouchesAppend(reports[..n], reports[n], path);
    }
  }

  /** Where a path stands after a revert: gone if its first touch created it, else the
      kept content; with none kept, gone if any touch created it. */
  lemma {:induction false} RevertedAt(files: Files, reports: seq<Report>, content: map<string, Option<string>>,
                                      path: string)
    requires Touches(reports, path) ==> path in content
    ensures var after := At(Reverted(files, ChangesOf(reports), content), path);
            if !Touches(reports, path) then after == At(files, path)
            else if First(reports, path).change.changeType.Created? then after == None
            else if content[path].Some? then after == content[path]
            else CreatedIn(reports, path) ==> after == None
    decreases |reports|
  {
    if reports != [] {
      var tail := reports[1..];
      assert ChangesOf(reports)[1..] == ChangesOf(tail);
      TouchesTail(reports, path);
      RevertedAt(files, tail, content, path);
      CreatedTail(reports, path);
    }
  }

  /** Some report says the run created this path. */
  predicate CreatedIn(reports: seq<Report>, path: string) {
    exists i :: 0 <= i < |reports| && reports[i].change == FileChange(path, Created)
  }

  lemma CreatedTail(reports: seq<Report>, path: string)
    requires reports != []
    ensures CreatedIn(reports, path)
       <==> reports[0].change == FileChange(path, Created) || CreatedIn(reports[1..], path)
    ensures CreatedIn(reports[1..], path) ==> Touches(reports[1..], path)
  {
    if i :| 0 <= i < |reports[1..]| && reports[1..][i].change == FileChange(path, Created) {
      assert reports[i + 1] == reports[1..][i];
    }
    if i :| 0 < i < |reports| && reports[i].change == FileChange(path, Created) {
      assert reports[1..][i - 1] == reports[i];
    }
  }

  /** The condition under which a revert restores a path. No report names it: no move took it
      away. Its first touch created it: it did not exist before the run, moved away since.
      Otherwise: its last touch found what stood there before the run. */
  predicate Recoverable(before: Files, writes: seq<Write>, path: string) {
    var reports := Perform(Run(before, []), writes).reports;
    if !Touches(reports, path) then !MovedAway(before, writes, path)
    else if First(reports, path).change.changeType.Created? then path !in before
    else Last(reports, path).before == At(before, path)
  }

  /** In a run without moves the reports alone tell: its first touch created it, or its last
      touch found what its first touch found. */
  predicate Restorable(reports: seq<Report>, path: string)
    requires Touches(reports, path)
  {
    First(reports, path).change.changeType.Created? || Last(reports, path).before == First(reports, path).before
  }

  lemma {:induction false} LastIsReported(reports: seq<Report>, path: string)
    requires Touches(reports, path)
    ensures exists i :: 0 <= i < |reports| && reports[i] == Last(reports, path)
    decreases |reports|
  {
    var n := |reports| - 1;
    if reports[n].change.path != path {
      assert reports == reports[..n] + [reports[n]];
      TouchesAppend(reports[..n], reports[n], path);
      LastIsReported(reports[..n], path);
      var i :| 0 <= i < n && reports[..n][i] == Last(reports[..n], path);
      assert reports[i] == Last(reports, path);
    }
  }

  lemma {:induction false} FirstIsReported(reports: seq<Report>, path: string)
    requires Touches(reports, path)
    ensures exists i :: 0 <= i < |reports| && reports[i] == First(reports, path)
    decreases |reports|
  {
    if reports[0].change.path != path {
      TouchesTail(reports, path);
      FirstIsReported(reports[1..], path);
      var i :| 0 <= i < |reports[1..]| && reports[1..][i] == First(reports[1..], path);
      assert reports[i + 1] == First(reports, path);
    }
  }

  /** The files a revert leaves after these writes. */
  function Undone(before: Files, writes: seq<Write>): Files {
    var r := Perform(Run(before, []), writes);
    Reverted(r.files, ChangesOf(r.reports), ContentOf(r.reports))
  }

  lemma {:induction false} PathRestored(before: Files, writes: seq<Write>, path: string)
    ensures At(Undone(before, writes), path) == At(before, path) <==> Recoverable(before, writes, path)
  {
    var r := Perform(Run(before, []), writes);
    ContentIsLast(r.reports, path);
    RevertedAt(r.files, r.reports, ContentOf(r.reports), path);
    RunIsWellTyped(before, writes);
    if Touches(r.reports, path) {
      LastIsReported(r.reports, path);
    } else {
      UntouchedStands(before, writes, path);
      MovedWasThere(before, writes, path);
    }
  }

  /** What a move takes away, and no report names, was there before the run. */
  lemma {:induction false} MovedWasThere(before: Files, writes: seq<Write>, path: string)
    requires !Touches(Perform(Run(before, []), writes).reports, path)
    ensures MovedAway(before, writes, path) ==> path in before
  {
    if k :| 0 <= k < |writes| && TakesAway(before, writes, k, path) {
      UntouchedBefore(before, writes, k, path);
      UntouchedStands(before, writes[..k], path);
    }
  }

  lemma {:induction false} UntouchedBefore(before: Files, writes: seq<Write>, k: nat, path: string)
    requires k <= |writes| && !Touches(Perform(Run(before, []), writes).reports, path)
    ensures !Touches(Perform(Run(before, []), writes[..k]).reports, path)
    decreases |writes|
  {
    if k < |writes| {
      var n := |writes| - 1;
      StepStands(Perform(Run(before, []), writes[..n]), writes[n], path);
      UntouchedBefore(before, writes[..n], k, path);
      assert writes[..n][..k] == writes[..k];
    } else {
      assert writes[..k] == writes;
    }
  }

  lemma SameFiles(a: Files, b: Files)
    ensures a == b <==> forall path :: At(a, path) == At(b, path)
  {
    if forall path :: At(a, path) == At(b, path) {
      forall path ensures path in a <==> path in b {
        assert At(a, path) == At(b, path);
      }
      forall path | path in a ensures a[path] == b[path] {
        assert At(a, path) == At(b, path);
      }
    }
  }

  /** Over any writes, moves among them, a revert gives back the files as they were before
      the run if and only if every path is recoverable. */
  lemma {:induction false} RevertUndoesRun(before: Files, writes: seq<Write>)
    ensures Undone(before, writes) == before <==> forall path :: Recoverable(before, writes, path)
  {
    SameFiles(Undone(before, writes), before);
    forall path
      ensures At(Undone(before, writes), path) == At(before, path) <==> Recoverable(before, writes, path)
    {
      PathRestored(before, writes, path);
    }
  }

  /** Where no file moved, each touched path must have been first created by the run, or last
      found as it was first found; an untouched path is safe. */
  lemma {:induction false} RecoverableWithoutMoves(before: Files, writes: seq<Write>, path: string)
    requires NoMove(writes)
    ensures var reports := Perform(Run(before, []), writes).reports;
            Recoverable(before, writes, path) <==> !Touches(reports, path) || Restorable(reports, path)
  {
    var r := Perform(Run(before, []), writes);
    RunIsTruthful(before, writes);
    RunIsWellTyped(before, writes);
    if Touches(r.reports, path) {
      FirstIsReported(r.reports, path);
    }
  }

  /** In particular a path touched once is restorable. */
  lemma TouchedOnceIsRestorable(reports: seq<Report>, path: string, k: nat)
    requires k < |reports| && reports[k].change.path == path
    requires forall i :: 0 <= i < |reports| && reports[i].change.path == path ==> i == k
    ensures Touches(reports, path) && Restorable(reports, path)
  {
    FirstIsReported(reports, path);
    LastIsReported(reports, path);
  }

  /** Two edits of one file: the revert stops at the first edit's result. */
  lemma SecondEditIsKept()
    ensures Undone(map["f" := "a"], [ChangeFile("f", "b"), ChangeFile("f", "c")]) != map["f" := "a"]
  {
    var before: Files := map["f" := "a"];
    var writes := [ChangeFile("f", "b"), ChangeFile("f", "c")];
    assert writes[..1] == [ChangeFile("f", "b")] && writes[..1][..0] == [];
    var one := Report(FileChange("f", Modified), Some("a"));
    var two := Report(FileChange("f", Modified), Some("b"));
    var r := Perform(Run(before, []), writes);
    assert Perform(Run(before, []), writes[..1]) == Run(map["f" := "b"], [one]);
    assert r.reports == [one, two];
    assert Touches(r.reports, "f") by {
      assert r.reports[0].change.path == "f";
    }
    assert !Recoverable(before, writes, "f");
    RevertUndoesRun(before, writes);
  }

  // ---- moves ---------------------------------------------------------------

  /** A file moved to a name that was free is taken away again by a revert only if a later
      write of the run created that name. */
  lemma {:induction false} MoveToNewName(before: Files, writes: seq<Write>, path: string)
    requires path !in before
    requires var reports := Perform(Run(before, []), writes).reports;
             Touches(reports, path) && First(reports, path).change.changeType.Moved?
    ensures Recoverable(before, writes, path)
       <==> Last(Perform(Run(before, []), writes).reports, path).change.changeType.Created?
  {
    RunIsWellTyped(before, writes);
    LastIsReported(Perform(Run(before, []), writes).reports, path);
  }

  const EditThenMove: seq<Write> := [ChangeFile("a", "x"), MoveFile("a", "b")]

  const EditedAndMoved: seq<Report> :=
    [Report(FileChange("a", Modified), Some("c")), Report(FileChange("b", Moved), Some("x"))]

  lemma EditThenMoveRuns()
    ensures Perform(Run(map["a" := "c"], []), EditThenMove) == Run(map["b" := "x"], EditedAndMoved)
  {
    assert EditThenMove[..1] == [ChangeFile("a", "x")] && EditThenMove[..1][..0] == [];
    assert Perform(Run(map["a" := "c"], []), EditThenMove[..1]) == Run(map["a" := "x"], EditedAndMoved[..1]);
  }

  /** A file edited and then moved: the revert writes the old content back to the old name, and
      leaves the edited file under the new one. */
  lemma MoveLeavesCopy()
    ensures Undone(map["a" := "c"], EditThenMove) == map["a" := "c", "b" := "x"]
  {
    EditThenMoveRuns();
    var reports := EditedAndMoved;
    assert reports[..1][..0] == [];
    assert ContentOf(reports[..1]) == map["a" := Some("c")];
    var changes := [FileChange("a", Modified), FileChange("b", Moved)];
    assert ChangesOf(reports) == changes && changes[1..] == [FileChange("b", Moved)] && changes[1..][1..] == [];
    assert Reverted(map["b" := "x"], changes[1..], ContentOf(reports)) == map["b" := "x"];
  }

  // ---- a revert after a restart --------------------------------------------

  /** With the contents gone, a revert removes what some report says was created, and does
      nothing else. */
  lemma {:induction false} RevertedAfterRestart(files: Files, reports: seq<Report>, path: string)
    ensures At(Reverted(files, ChangesOf(reports), map[]), path)
         == if CreatedIn(reports, path) then None else At(files, path)
    decreases |reports|
  {
    if reports != [] {
      assert ChangesOf(reports)[1..] == ChangesOf(reports[1..]);
      CreatedTail(reports, path);
      RevertedAfterRestart(files, reports[1..], path);
    }
  }

  /** So it restores the files before the run if and only if every path the run created
      was new, and every other path already stands as it did. */
  lemma {:induction false} RestartRevertIff(before: Files, writes: seq<Write>)
    ensures var r := Perform(Run(before, []), writes);
            Reverted(r.files, ChangesOf(r.reports), map[]) == before
            <==> forall path :: if CreatedIn(r.reports, path) then path !in before
                                else At(r.files, path) == At(before, path)
  {
    var r := Perform(Run(before, []), writes);
    SameFiles(Reverted(r.files, ChangesOf(r.reports), map[]), before);
    forall path
      ensures At(Reverted(r.files, ChangesOf(r.reports), map[]), path)
           == if CreatedIn(r.reports, path) then None else At(r.files, path)
    {
      RevertedAfterRestart(r.files, r.reports, path);
    }
  }
}
