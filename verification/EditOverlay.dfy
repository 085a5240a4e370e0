/** Model of the edit overlay of `ToolRunner` in `agentic-workspace-chat/backend/app/tools.py`:
    proposed edits kept in memory over an unchanged disk. A path has one spelling and names
    a text file; which paths resolve inside the workspace and which texts fit the size limit
    are parameters. */
module EditOverlay {
  import opened Wrappers
  import opened TextEdits

  type Files = map<string, string>

  datatype Config = Config(resolves: string -> bool, fits: string -> bool)

  datatype Error = Forbidden | Unreadable | ProposedForDeletion | AlreadyExists | BadEdit(why: EditError)

  /** The overlay dictionary, with its insertion order, and the remembered originals. */
  datatype State = State(overlays: map<string, Option<string>>, order: seq<string>, originals: map<string, string>)

  datatype Call =
    | ReplaceInFile(path: string, passage: string, text: string)
    | ReplaceLineRange(path: string, first: int, last: int, text: string)
    | CreateFile(path: string, content: string)
    | DeleteFile(path: string)
    | MergeOutput(inputs: seq<string>, output: seq<(string, Option<string>)>)

  const Fresh := State(map[], [], map[])

  function TextOf(disk: Files, path: string): string {
    if path in disk then disk[path] else ""
  }

  /** `_content`: the proposed text of a path, or else its text on disk. */
  function Content(cfg: Config, disk: Files, s: State, path: string): Result<string, Error> {
    if path in s.overlays then
      if s.overlays[path].None? then Failure(ProposedForDeletion) else Success(s.overlays[path].value)
    else if !cfg.resolves(path) then Failure(Forbidden)
    else if path !in disk || !cfg.fits(disk[path]) then Failure(Unreadable)
    else Success(disk[path])
  }

  /** What a single-path call proposes for its path, before anything is remembered. */
  function Proposal(cfg: Config, disk: Files, s: State, c: Call): Result<Option<string>, Error>
    requires !c.MergeOutput?
  {
    match c
    case ReplaceInFile(path, passage, text) =>
      (match Content(cfg, disk, s, path)
       case Failure(e) => Failure(e)
       case Success(content) => Edited(ReplacePassage(content, passage, text)))
    case ReplaceLineRange(path, first, last, text) =>
      if last < first then Failure(BadEdit(BackwardRange))
      else
        (match Content(cfg, disk, s, path)
         case Failure(e) => Failure(e)
         case Success(content) => Edited(ReplaceLines(content, first, last, text)))
    case CreateFile(path, content) =>
      if !cfg.resolves(path) then Failure(Forbidden)
      else if path in disk || path in s.overlays then Failure(AlreadyExists)
      else Success(Some(content))
    case DeleteFile(path) =>
      (match Content(cfg, disk, s, path)
       case Failure(e) => Failure(e)
       case Success(_) => Success(None))
  }

  function Edited(r: Result<string, EditError>): Result<Option<string>, Error> {
    match r
    case Success(text) => Success(Some(text))
    case Failure(why) => Failure(BadEdit(why))
  }

  /** `_remember(path)` followed by `overlays[path] = content`, when the path may be remembered. */
  function Propose(disk: Files, s: State, path: string, content: Option<string>): State {
    State(s.overlays[path := content],
          if path in s.overlays then s.order else s.order + [path],
          if path in s.originals then s.originals else s.originals[path := TextOf(disk, path)])
  }

  predicate CanRemember(cfg: Config, s: State, path: string) {
    path in s.originals || cfg.resolves(path)
  }

  /** `_merge_output`: stops where a path cannot be remembered, keeping what came before. */
  function Merged(cfg: Config, disk: Files, s: State, output: seq<(string, Option<string>)>): (State, bool)
    decreases |output|
  {
    if output == [] then (s, true)
    else if !CanRemember(cfg, s, output[0].0) then (s, false)
    else Merged(cfg, disk, Propose(disk, s, output[0].0, output[0].1), output[1..])
  }

  predicate AllReadable(cfg: Config, disk: Files, s: State, inputs: seq<string>) {
    forall i :: 0 <= i < |inputs| ==> Content(cfg, disk, s, inputs[i]).Success?
  }

  /** One call: the state it leaves, and whether it returned without raising. */
  function Step(cfg: Config, disk: Files, s: State, c: Call): (State, bool) {
    if c.MergeOutput? then
      if AllReadable(cfg, disk, s, c.inputs) then Merged(cfg, disk, s, c.output) else (s, false)
    else
      match Proposal(cfg, disk, s, c)
      case Failure(_) => (s, false)
      case Success(content) =>
        if CanRemember(cfg, s, c.path) then (Propose(disk, s, c.path, content), true) else (s, false)
  }

  // ---- proposed changes ----------------------------------------------------

  /** SHA-256 as an injective function. */
  datatype Digest = Sha(of: string)

  datatype Operation = Create | Update | Delete

  datatype Change = Change(path: string, content: Option<string>, operation: Operation, original: Option<Digest>)

  function ChangeOf(s: State, path: string): Change
    requires path in s.overlays && path in s.originals
  {
    var content, original := s.overlays[path], s.originals[path];
    Change(path, content,
           if content.None? then Delete else if original == "" then Create else Update,
           Some(Sha(original)))
  }

  ghost predicate Listed(s: State) {
    forall i :: 0 <= i < |s.order| ==> s.order[i] in s.overlays && s.order[i] in s.originals
  }

  ghost function Changes(s: State): (r: seq<Change>)
    requires Listed(s)
    ensures |r| == |s.order| && forall i :: 0 <= i < |r| ==> r[i] == ChangeOf(s, s.order[i])
  {
    seq(|s.order|, i requires 0 <= i < |s.order| => ChangeOf(s, s.order[i]))
  }

  // ---- the tool runner -----------------------------------------------------

  datatype Event = Event(call: Call, ok: bool)

  class Workspace {
    var files: Files

    constructor (files: Files)
      ensures this.files == files
    {
      this.files := files;
    }
  }

  class ToolRunner {
    const cfg: Config
    const workspace: Workspace
    var overlays: map<string, Option<string>>
    var order: seq<string>
    var originals: map<string, string>
    var events: seq<Event>

    function View(): State
      reads this
    {
      State(overlays, order, originals)
    }

    constructor (cfg: Config, workspace: Workspace)
      ensures this.cfg == cfg && this.workspace == workspace && View() == Fresh && events == []
    {
      this.cfg, this.workspace := cfg, workspace;
      overlays, order, originals, events := map[], [], map[], [];
    }

    method Remember(path: string) returns (ok: bool)
      modifies this`originals
      ensures ok == CanRemember(cfg, old(View()), path)
      ensures originals == if ok && path !in old(originals) then old(originals)[path := TextOf(workspace.files, path)]
                           else old(originals)
    {
      if path !in originals {
        if !cfg.resolves(path) {
          return false;
        }
        originals := originals[path := if path in workspace.files then workspace.files[path] else ""];
      }
      ok := true;
    }

    method Overlay(path: string, content: Option<string>)
      modifies this`overlays, this`order
      ensures overlays == old(overlays)[path := content]
      ensures order == if path in old(overlays) then old(order) else old(order) + [path]
    {
      if path !in overlays {
        order := order + [path];
      }
      overlays := overlays[path := content];
    }

    /** `replace_in_file`, `replace_line_range`, `create_file` and `delete_file`: work out the
        proposal, remember the original, then overlay. */
    method Edit(c: Call) returns (ok: bool)
      requires !c.MergeOutput?
      modifies this`overlays, this`order, this`originals
      ensures (View(), ok) == Step(cfg, workspace.files, old(View()), c)
    {
      var proposal := Proposal(cfg, workspace.files, View(), c);
      if proposal.Failure? {
        return false;
      }
      ok := Remember(c.path);
      if ok {
        Overlay(c.path, proposal.value);
      }
    }

    method Merge(output: seq<(string, Option<string>)>) returns (ok: bool)
      modifies this`overlays, this`order, this`originals
      ensures (View(), ok) == Merged(cfg, workspace.files, old(View()), output)
    {
      var i := 0;
      while i < |output|
        invariant 0 <= i <= |output|
        invariant Merged(cfg, workspace.files, View(), output[i..])
               == Merged(cfg, workspace.files, old(View()), output)
      {
        assert output[i..][1..] == output[i + 1..];
        ok := Remember(output[i].0);
        if !ok {
          return;
        }
        Overlay(output[i].0, output[i].1);
        i := i + 1;
      }
      ok := true;
    }

    /** A custom tool: every input must be readable before its output is merged. */
    method RunCustom(inputs: seq<string>, output: seq<(string, Option<string>)>) returns (ok: bool)
      modifies this`overlays, this`order, this`originals
      ensures (View(), ok) == Step(cfg, workspace.files, old(View()), MergeOutput(inputs, output))
    {
      var i := 0;
      while i < |inputs|
        invariant 0 <= i <= |inputs|
        invariant forall k :: 0 <= k < i ==> Content(cfg, workspace.files, View(), inputs[k]).Success?
        invariant View() == old(View())
      {
        if Content(cfg, workspace.files, View(), inputs[i]).Failure? {
          return false;
        }
        i := i + 1;
      }
      ok := Merge(output);
    }

    /** `execute`: every call is logged, and one that raises is logged as an error. */
    method Execute(c: Call) returns (ok: bool)
      modifies this
      ensures (View(), ok) == Step(cfg, workspace.files, old(View()), c)
      ensures events == old(events) + [Event(c, ok)]
    {
      if c.MergeOutput? {
        ok := RunCustom(c.inputs, c.output);
      } else {
        ok := Edit(c);
      }
      events := events + [Event(c, ok)];
    }

    method ProposedChanges() returns (result: seq<Change>)
      requires Listed(View())
      ensures result == Changes(View())
    {
      result := [];
      for i := 0 to |order|
        invariant |result| == i && forall k :: 0 <= k < i ==> result[k] == ChangeOf(View(), order[k])
      {
        result := result + [ChangeOf(View(), order[i])];
      }
    }
  }

  // ---- direct editing ------------------------------------------------------

  /** What a reader of the runner sees: the overlay over the disk. */
  function Seen(disk: Files, s: State): Files {
    map p | p in disk.Keys + s.overlays.Keys && (p in s.overlays ==> s.overlays[p].Some?) ::
      if p in s.overlays then s.overlays[p].value else disk[p]
  }

  function Put(files: Files, path: string, content: Option<string>): Files {
    if content.Some? then files[path := content.value] else files - {path}
  }

  function PutAll(files: Files, output: seq<(string, Option<string>)>): Files
    decreases |output|
  {
    if output == [] then files else PutAll(Put(files, output[0].0, output[0].1), output[1..])
  }

  /** After a merge a path holds what the last output under it says, or stands as before. */
  lemma {:induction false} PutAllIs(files: Files, output: seq<(string, Option<string>)>, path: string)
    ensures var after := PutAll(files, output);
            && ((forall i :: 0 <= i < |output| ==> output[i].0 != path) ==>
                  (path in after <==> path in files) && (path in files ==> after[path] == files[path]))
            && (forall i :: 0 <= i < |output| && IsLastOutput(output, i) && output[i].0 == path ==>
                  (path in after <==> output[i].1.Some?) && (path in after ==> Some(after[path]) == output[i].1))
    decreases |output|
  {
    if output != [] {
      PutAllIs(Put(files, output[0].0, output[0].1), output[1..], path);
      assert forall i :: 1 <= i < |output| ==> output[i] == output[1..][i - 1];
      forall i | 1 <= i < |output| && IsLastOutput(output, i) ensures IsLastOutput(output[1..], i - 1) {
        assert forall j :: i <= j < |output| ==> output[j] == output[1..][j - 1];
      }
    }
  }

  predicate IsLastOutput(output: seq<(string, Option<string>)>, i: nat)
    requires i < |output|
  {
    forall j :: i < j < |output| ==> output[j].0 != output[i].0
  }

  /** The call done at once to a file map; `None` when it does not apply there. */
  function Direct(files: Files, c: Call): Option<Files> {
    match c
    case ReplaceInFile(path, passage, text) =>
      if path in files && ReplacePassage(files[path], passage, text).Success?
      then Some(files[path := ReplacePassage(files[path], passage, text).value]) else None
    case ReplaceLineRange(path, first, last, text) =>
      if path in files && ReplaceLines(files[path], first, last, text).Success?
      then Some(files[path := ReplaceLines(files[path], first, last, text).value]) else None
    case CreateFile(path, content) => if path in files then None else Some(files[path := content])
    case DeleteFile(path) => if path in files then Some(files - {path}) else None
    case MergeOutput(inputs, output) =>
      if forall i :: 0 <= i < |inputs| ==> inputs[i] in files then Some(PutAll(files, output)) else None
  }

  /** The list names each of the paths once. */
  ghost predicate Lists(order: seq<string>, paths: set<string>) {
    && (forall i :: 0 <= i < |order| ==> order[i] in paths)
    && (forall p :: p in paths ==> p in order)
    && (forall i, j :: 0 <= i < j < |order| ==> order[i] != order[j])
  }

  lemma ListsMore(order: seq<string>, paths: set<string>, path: string)
    requires Lists(order, paths) && path !in paths
    ensures Lists(order + [path], paths + {path})
  {
    var more := order + [path];
    assert more[|order|] == path;
    forall p | p in paths ensures p in more {
      var i :| 0 <= i < |order| && order[i] == p;
      assert more[i] == p;
    }
  }

  /** Overlaid paths are exactly the remembered ones, resolve, and are listed once each; each
      original is the text on disk. */
  ghost predicate Inv(cfg: Config, disk: Files, s: State) {
    && s.overlays.Keys == s.originals.Keys
    && (forall p :: p in s.originals ==> cfg.resolves(p) && s.originals[p] == TextOf(disk, p))
    && Lists(s.order, s.overlays.Keys)
  }

  lemma SameFiles(a: Files, b: Files)
    requires forall p :: p in a <==> p in b
    requires forall p :: p in a && p in b ==> a[p] == b[p]
    ensures a == b
  {
  }

  lemma ProposeKeeps(cfg: Config, disk: Files, s: State, path: string, content: Option<string>)
    requires Inv(cfg, disk, s) && CanRemember(cfg, s, path)
    ensures Inv(cfg, disk, Propose(disk, s, path, content))
  {
    var t := Propose(disk, s, path, content);
    if path in s.overlays {
      assert t.overlays.Keys == s.overlays.Keys;
    } else {
      assert t.overlays.Keys == s.overlays.Keys + {path};
      assert t.originals.Keys == s.originals.Keys + {path};
      ListsMore(s.order, s.overlays.Keys, path);
    }
  }

  lemma ProposeSeen(disk: Files, s: State, path: string, content: Option<string>)
    ensures Seen(disk, Propose(disk, s, path, content)) == Put(Seen(disk, s), path, content)
  {
    SameFiles(Seen(disk, Propose(disk, s, path, content)), Put(Seen(disk, s), path, content));
  }

  /** The leading outputs whose paths resolve. */
  function Mergeable(cfg: Config, output: seq<(string, Option<string>)>): (k: nat)
    ensures k <= |output|
  {
    if output == [] || !cfg.resolves(output[0].0) then 0 else 1 + Mergeable(cfg, output[1..])
  }

  lemma {:induction false} MergedSeen(cfg: Config, disk: Files, s: State, output: seq<(string, Option<string>)>)
    requires Inv(cfg, disk, s)
    ensures var (t, ok) := Merged(cfg, disk, s, output);
            && Inv(cfg, disk, t)
            && ok == (Mergeable(cfg, output) == |output|)
            && Seen(disk, t) == PutAll(Seen(disk, s), output[..Mergeable(cfg, output)])
    decreases |output|
  {
    if output != [] && cfg.resolves(output[0].0) {
      var t := Propose(disk, s, output[0].0, output[0].1);
      ProposeKeeps(cfg, disk, s, output[0].0, output[0].1);
      ProposeSeen(disk, s, output[0].0, output[0].1);
      MergedSeen(cfg, disk, t, output[1..]);
      var taken := output[..Mergeable(cfg, output)];
      assert taken[1..] == output[1..][..Mergeable(cfg, output[1..])];
    }
  }

  /** The part of a call the overlay takes: all of a single-path call, the leading outputs
      of a merge. */
  function Taken(cfg: Config, c: Call): Call {
    if c.MergeOutput? then MergeOutput(c.inputs, c.output[..Mergeable(cfg, c.output)]) else c
  }

  /** Whether the runner may read this path: proposed text always, disk text only inside the
      workspace and the size limit. */
  predicate MayRead(cfg: Config, disk: Files, s: State, path: string) {
    path in s.overlays || (cfg.resolves(path) && path in disk && cfg.fits(disk[path]))
  }

  predicate MayReadAll(cfg: Config, disk: Files, s: State, inputs: seq<string>) {
    forall i :: 0 <= i < |inputs| ==> MayRead(cfg, disk, s, inputs[i])
  }

  /** What the runner asks of a call beyond its making sense on the files it sees. A path
      once proposed, even for deletion, can no longer be created. */
  predicate Permitted(cfg: Config, disk: Files, s: State, c: Call) {
    match c
    case MergeOutput(inputs, _) => MayReadAll(cfg, disk, s, inputs)
    case CreateFile(path, _) => cfg.resolves(path) && path !in s.overlays
    case _ => MayRead(cfg, disk, s, c.path)
  }

  ghost predicate StepRefines(cfg: Config, disk: Files, s: State, c: Call) {
    var (t, ok) := Step(cfg, disk, s, c);
    var applies := Permitted(cfg, disk, s, c) && Direct(Seen(disk, s), c).Some?;
    && Inv(cfg, disk, t)
    && (ok <==> applies && Taken(cfg, c) == c)
    && (if applies then Direct(Seen(disk, s), Taken(cfg, c)) == Some(Seen(disk, t)) else t == s)
  }

  /** A single-path proposal is made exactly when the edit applies to the files seen and is
      permitted, and it is what the edit would write. */
  lemma ProposalIsDirect(cfg: Config, disk: Files, s: State, seen: Files, c: Call)
    requires !c.MergeOutput?
    requires c.path in seen <==> if c.path in s.overlays then s.overlays[c.path].Some? else c.path in disk
    requires c.path in seen ==> seen[c.path] == if c.path in s.overlays then s.overlays[c.path].value else disk[c.path]
    ensures Proposal(cfg, disk, s, c).Success? <==> Permitted(cfg, disk, s, c) && Direct(seen, c).Some?
    ensures Proposal(cfg, disk, s, c).Success? ==>
              && (c.path in s.overlays || cfg.resolves(c.path))
              && Direct(seen, c) == Some(Put(seen, c.path, Proposal(cfg, disk, s, c).value))
  {
  }

  lemma EditRefines(cfg: Config, disk: Files, s: State, c: Call)
    requires Inv(cfg, disk, s) && !c.MergeOutput?
    ensures StepRefines(cfg, disk, s, c)
  {
    ProposalIsDirect(cfg, disk, s, Seen(disk, s), c);
    var proposal := Proposal(cfg, disk, s, c);
    if proposal.Success? {
      assert CanRemember(cfg, s, c.path);
      ProposeKeeps(cfg, disk, s, c.path, proposal.value);
      ProposeSeen(disk, s, c.path, proposal.value);
    }
  }

  lemma ReadableInputs(cfg: Config, disk: Files, s: State, inputs: seq<string>)
    ensures AllReadable(cfg, disk, s, inputs) <==>
              MayReadAll(cfg, disk, s, inputs) && forall i :: 0 <= i < |inputs| ==> inputs[i] in Seen(disk, s)
  {
    var seen := Seen(disk, s);
    forall i | 0 <= i < |inputs|
      ensures Content(cfg, disk, s, inputs[i]).Success? <==> inputs[i] in seen && MayRead(cfg, disk, s, inputs[i])
    {
    }
  }

  lemma MergeRefines(cfg: Config, disk: Files, s: State, c: Call)
    requires Inv(cfg, disk, s) && c.MergeOutput?
    ensures StepRefines(cfg, disk, s, c)
  {
    var k := Mergeable(cfg, c.output);
    ReadableInputs(cfg, disk, s, c.inputs);
    MergedSeen(cfg, disk, s, c.output);
    assert k == |c.output| ==> c.output[..k] == c.output;
    assert |c.output[..k]| == k;
  }

  /** One call against the overlay is the same call done to the files it shows: it goes
      through exactly when the direct edit applies and the runner permits it, it then shows
      the directly edited files, and otherwise it changes nothing; only a merge can stop
      half-way, having done its leading outputs. */
  lemma CallRefinesEdit(cfg: Config, disk: Files, s: State, c: Call)
    requires Inv(cfg, disk, s)
    ensures StepRefines(cfg, disk, s, c)
  {
    if c.MergeOutput? {
      MergeRefines(cfg, disk, s, c);
    } else {
      EditRefines(cfg, disk, s, c);
    }
  }

  // ---- whole sessions ------------------------------------------------------

  /** The runner's state after the first `k` calls. */
  function Session(cfg: Config, disk: Files, calls: seq<Call>, k: nat): State
    requires k <= |calls|
  {
    if k == 0 then Fresh else Step(cfg, disk, Session(cfg, disk, calls, k - 1), calls[k - 1]).0
  }

  /** Doing directly to `disk` those of the first `k` calls, or parts of them, that took effect;
      `None` should one not apply. */
  function Replayed(cfg: Config, disk: Files, calls: seq<Call>, k: nat): Option<Files>
    requires k <= |calls|
  {
    if k == 0 then Some(disk)
    else
      var before, s, c := Replayed(cfg, disk, calls, k - 1), Session(cfg, disk, calls, k - 1), calls[k - 1];
      if before.None? then None
      else if Permitted(cfg, disk, s, c) && Direct(before.value, c).Some? then Direct(before.value, Taken(cfg, c))
      else before
  }

  /** After any calls, the overlay shows what doing the effective ones directly to the disk
      would have left, and remembers the disk text of every path it changes. */
  lemma {:induction false} SessionRefinesEditing(cfg: Config, disk: Files, calls: seq<Call>, k: nat)
    requires k <= |calls|
    ensures Inv(cfg, disk, Session(cfg, disk, calls, k))
    ensures Replayed(cfg, disk, calls, k) == Some(Seen(disk, Session(cfg, disk, calls, k)))
  {
    if k == 0 {
      SameFiles(Seen(disk, Fresh), disk);
    } else {
      SessionRefinesEditing(cfg, disk, calls, k - 1);
      StepReplays(cfg, disk, Session(cfg, disk, calls, k - 1), calls[k - 1]);
    }
  }

  lemma StepReplays(cfg: Config, disk: Files, s: State, c: Call)
    requires Inv(cfg, disk, s)
    ensures var t := Step(cfg, disk, s, c).0;
            && Inv(cfg, disk, t)
            && Some(Seen(disk, t)) == if Permitted(cfg, disk, s, c) && Direct(Seen(disk, s), c).Some?
                                      then Direct(Seen(disk, s), Taken(cfg, c)) else Some(Seen(disk, s))
  {
    CallRefinesEdit(cfg, disk, s, c);
  }

  // ---- what is proposed ----------------------------------------------------

  /** After any calls, the changes are one for each path that is shown otherwise than on disk or was
      touched, each with the text shown and the digest of the disk text. A path no longer shown is
      proposed as a deletion; one that holds text on disk as an update; any other as a creation. */
  lemma {:induction false} ProposedAs(cfg: Config, disk: Files, calls: seq<Call>, i: nat)
    requires i < |Session(cfg, disk, calls, |calls|).order|
    ensures Listed(Session(cfg, disk, calls, |calls|))
    ensures var s := Session(cfg, disk, calls, |calls|);
            var c, seen := Changes(s)[i], Seen(disk, s);
            && c.path == s.order[i] && c.original == Some(Sha(TextOf(disk, c.path)))
            && c.content == (if c.path in seen then Some(seen[c.path]) else None)
            && (c.operation.Delete? <==> c.path !in seen)
            && (c.operation.Update? <==> c.path in seen && TextOf(disk, c.path) != "")
            && (c.operation.Create? <==> c.path in seen && TextOf(disk, c.path) == "")
  {
    SessionRefinesEditing(cfg, disk, calls, |calls|);
  }

  /** And a path that is shown otherwise than on disk is among them. */
  lemma {:induction false} ShownIsProposed(cfg: Config, disk: Files, calls: seq<Call>, path: string)
    ensures var s := Session(cfg, disk, calls, |calls|);
            var seen := Seen(disk, s);
            path !in s.order ==> (path in seen <==> path in disk) && (path in disk ==> seen[path] == disk[path])
  {
    SessionRefinesEditing(cfg, disk, calls, |calls|);
  }

  // ---- a path once proposed ------------------------------------------------

  lemma {:induction false} MergedGrows(cfg: Config, disk: Files, s: State, output: seq<(string, Option<string>)>)
    ensures s.overlays.Keys <= Merged(cfg, disk, s, output).0.overlays.Keys
    decreases |output|
  {
    if output != [] && CanRemember(cfg, s, output[0].0) {
      MergedGrows(cfg, disk, Propose(disk, s, output[0].0, output[0].1), output[1..]);
    }
  }

  lemma StepGrows(cfg: Config, disk: Files, s: State, c: Call)
    ensures s.overlays.Keys <= Step(cfg, disk, s, c).0.overlays.Keys
  {
    if c.MergeOutput? {
      MergedGrows(cfg, disk, s, c.output);
    }
  }

  lemma {:induction false} SessionGrows(cfg: Config, disk: Files, calls: seq<Call>, j: nat, k: nat)
    requires j <= k <= |calls|
    ensures Session(cfg, disk, calls, j).overlays.Keys <= Session(cfg, disk, calls, k).overlays.Keys
    decreases k
  {
    if j < k {
      SessionGrows(cfg, disk, calls, j, k - 1);
      StepGrows(cfg, disk, Session(cfg, disk, calls, k - 1), calls[k - 1]);
    }
  }

  /** At any time of a session, a file can be created if and only if its path resolves, is not on
      disk, and has never been proposed before, for deletion or otherwise. */
  lemma {:induction false} CreatableIff(cfg: Config, disk: Files, calls: seq<Call>, k: nat, path: string,
                                        content: string)
    requires k <= |calls|
    ensures var s := Session(cfg, disk, calls, k);
            Step(cfg, disk, s, CreateFile(path, content)).1
            <==> cfg.resolves(path) && path !in disk
                 && forall j :: 0 <= j <= k ==> path !in Session(cfg, disk, calls, j).overlays
  {
    forall j | 0 <= j <= k
      ensures path in Session(cfg, disk, calls, j).overlays ==> path in Session(cfg, disk, calls, k).overlays
    {
      SessionGrows(cfg, disk, calls, j, k);
    }
  }

  /** So a file deleted in a session is gone from view, and can never be created again in it. */
  lemma DeletedCannotBeCreated(cfg: Config, disk: Files, calls: seq<Call>, j: nat, k: nat, path: string,
                               content: string)
    requires j < k <= |calls| && calls[j] == DeleteFile(path)
    requires Step(cfg, disk, Session(cfg, disk, calls, j), calls[j]).1
    ensures path !in Seen(disk, Session(cfg, disk, calls, j + 1))
    ensures Direct(Seen(disk, Session(cfg, disk, calls, j + 1)), CreateFile(path, content)).Some?
    ensures var s := Session(cfg, disk, calls, k); Step(cfg, disk, s, CreateFile(path, content)) == (s, false)
  {
    var deleted := Session(cfg, disk, calls, j + 1);
    assert deleted == Step(cfg, disk, Session(cfg, disk, calls, j), calls[j]).0;
    assert path in deleted.overlays;
    CreatableIff(cfg, disk, calls, k, path, content);
  }
}
