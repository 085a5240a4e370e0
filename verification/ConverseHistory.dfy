/** Model of `to_converse_history` in `agentic-workspace-chat/backend/app/agent_context.py`:
    bounding stored messages to a history whose roles alternate. Which characters are blank
    is a parameter. */
module ConverseHistory {
  import opened Texts

  datatype Role = User | Assistant

  /** A stored message; a missing role or content reads as the empty string. */
  datatype Message = Message(role: string, content: string)

  datatype Turn = Turn(role: Role, text: string)

  predicate IsTurn(m: Message, blank: char -> bool) {
    (m.role == "user" || m.role == "assistant") && exists i :: 0 <= i < |m.content| && !blank(m.content[i])
  }

  /** `content[:max_chars]` under the message's role. */
  function AsTurn(m: Message, maxChars: int): Turn {
    Turn(if m.role == "user" then User else Assistant, Slice(m.content, 0, maxChars))
  }

  /** The valid ones of the first `k` messages, truncated. */
  function Valid(recent: seq<Message>, maxChars: int, blank: char -> bool, k: nat): seq<Turn>
    requires k <= |recent|
  {
    if k == 0 then []
    else
      var r := Valid(recent, maxChars, blank, k - 1);
      if IsTurn(recent[k - 1], blank) then r + [AsTurn(recent[k - 1], maxChars)] else r
  }

  /** `messages[-limit:]`, filtered and truncated. */
  function Recent(messages: seq<Message>, limit: int, maxChars: int, blank: char -> bool): seq<Turn> {
    var recent := SliceFrom(messages, -limit);
    Valid(recent, maxChars, blank, |recent|)
  }

  /** Characters in the turns from `i` on. */
  function Total(turns: seq<Turn>, i: nat): nat
    requires i <= |turns|
    decreases |turns| - i
  {
    if i == |turns| then 0 else |turns[i].text| + Total(turns, i + 1)
  }

  /** Where the kept turns begin, taking them from the end and always taking one. */
  function Start(turns: seq<Turn>, maxChars: int, i: nat): (k: nat)
    requires i <= |turns|
    ensures k <= i
  {
    if i == 0 then 0
    else if Total(turns, i - 1) > maxChars && i < |turns| then i
    else Start(turns, maxChars, i - 1)
  }

  /** Adding a turn to the history: merged into the last one when their roles agree. */
  function Add(history: seq<Turn>, t: Turn): seq<Turn> {
    var last := |history| - 1;
    if history != [] && history[last].role == t.role
    then history[last := Turn(t.role, history[last].text + "\n\n" + t.text)]
    else history + [t]
  }

  function Merged(turns: seq<Turn>, k: nat): seq<Turn>
    requires k <= |turns|
  {
    if k == 0 then [] else Add(Merged(turns, k - 1), turns[k - 1])
  }

  function WithoutLead(history: seq<Turn>): seq<Turn> {
    if history != [] && history[0].role.Assistant? then history[1..] else history
  }

  function Kept(messages: seq<Message>, limit: int, maxChars: int, blank: char -> bool): seq<Turn> {
    var turns := Recent(messages, limit, maxChars, blank);
    turns[Start(turns, maxChars, |turns|)..]
  }

  function History(messages: seq<Message>, limit: int, maxChars: int, blank: char -> bool): seq<Turn> {
    var kept := Kept(messages, limit, maxChars, blank);
    WithoutLead(Merged(kept, |kept|))
  }

  method ToConverseHistory(messages: seq<Message>, limit: int, maxChars: int, blank: char -> bool)
    returns (result: seq<Turn>)
    ensures result == History(messages, limit, maxChars, blank)
  {
    var window := SliceFrom(messages, -limit);
    var recent: seq<Turn> := [];
    for i := 0 to |window|
      invariant recent == Valid(window, maxChars, blank, i)
    {
      if IsTurn(window[i], blank) {
        recent := recent + [AsTurn(window[i], maxChars)];
      }
    }
    var kept := KeepWithin(recent, maxChars);
    result := [];
    for i := 0 to |kept|
      invariant result == Merged(kept, i)
    {
      var last := |result| - 1;
      if result != [] && result[last].role == kept[i].role {
        result := result[last := Turn(kept[i].role, result[last].text + "\n\n" + kept[i].text)];
      } else {
        result := result + [kept[i]];
      }
    }
    if result != [] && result[0].role == Assistant {
      result := result[1..];
    }
  }

  method KeepWithin(recent: seq<Turn>, maxChars: int) returns (kept: seq<Turn>)
    ensures kept == recent[Start(recent, maxChars, |recent|)..]
  {
    var budget := maxChars;
    kept := [];
    var i := |recent|;
    while i > 0
      invariant 0 <= i <= |recent| && kept == recent[i..] && budget == maxChars - Total(recent, i)
      invariant Start(recent, maxChars, i) == Start(recent, maxChars, |recent|)
    {
      var t := recent[i - 1];
      if budget - |t.text| < 0 && kept != [] {
        return;
      }
      budget := budget - |t.text|;
      kept := [t] + kept;
      i := i - 1;
    }
  }

  // ---- the kept turns ------------------------------------------------------

  lemma {:induction false} TurnsFit(recent: seq<Message>, maxChars: nat, blank: char -> bool, k: nat)
    requires k <= |recent|
    ensures forall t :: t in Valid(recent, maxChars, blank, k) ==> |t.text| <= maxChars
  {
    if k > 0 {
      TurnsFit(recent, maxChars, blank, k - 1);
    }
  }

  lemma {:induction false} StartFits(turns: seq<Turn>, maxChars: nat, i: nat)
    requires i <= |turns| && Total(turns, i) <= maxChars
    requires forall t :: t in turns ==> |t.text| <= maxChars
    ensures Total(turns, Start(turns, maxChars, i)) <= maxChars
  {
    if i > 0 {
      if i == |turns| {
        assert turns[i - 1] in turns;
      }
      if !(Total(turns, i - 1) > maxChars && i < |turns|) {
        StartFits(turns, maxChars, i - 1);
      }
    }
  }

  lemma {:induction false} StartIsEarliest(turns: seq<Turn>, maxChars: int, i: nat)
    requires i <= |turns|
    ensures var k := Start(turns, maxChars, i); 0 < k ==> Total(turns, k - 1) > maxChars
  {
    if i > 0 && !(Total(turns, i - 1) > maxChars && i < |turns|) {
      StartIsEarliest(turns, maxChars, i - 1);
    }
  }

  lemma {:induction false} TotalGrows(turns: seq<Turn>, i: nat, j: nat)
    requires i <= j <= |turns|
    ensures Total(turns, j) <= Total(turns, i)
    decreases j - i
  {
    if i < j {
      TotalGrows(turns, i + 1, j);
    }
  }

  /** The turns kept are the longest run of recent ones, ending with the newest, whose
      truncated texts fit the budget together. */
  lemma {:induction false} KeptIsMaximal(messages: seq<Message>, limit: int, maxChars: nat, blank: char -> bool)
    ensures var turns := Recent(messages, limit, maxChars, blank);
            var k := Start(turns, maxChars, |turns|);
            && Kept(messages, limit, maxChars, blank) == turns[k..]
            && Total(turns, k) <= maxChars
            && forall j :: 0 <= j < k ==> Total(turns, j) > maxChars
  {
    var turns := Recent(messages, limit, maxChars, blank);
    var recent := SliceFrom(messages, -limit);
    TurnsFit(recent, maxChars, blank, |recent|);
    StartFits(turns, maxChars, |turns|);
    StartIsEarliest(turns, maxChars, |turns|);
    var k := Start(turns, maxChars, |turns|);
    forall j | 0 <= j < k ensures Total(turns, j) > maxChars {
      TotalGrows(turns, j, k - 1);
    }
  }

  lemma {:induction false} ValidLength(recent: seq<Message>, maxChars: int, blank: char -> bool, k: nat)
    requires k <= |recent|
    ensures |Valid(recent, maxChars, blank, k)| <= k
  {
    if k > 0 {
      ValidLength(recent, maxChars, blank, k - 1);
    }
  }

  /** A positive limit bounds the turns considered; a limit of zero considers every message. */
  lemma {:induction false} RecentWithinLimit(messages: seq<Message>, limit: nat, maxChars: int, blank: char -> bool)
    ensures limit > 0 ==> |Recent(messages, limit, maxChars, blank)| <= limit
    ensures limit == 0 ==>
              Recent(messages, limit, maxChars, blank) == Valid(messages, maxChars, blank, |messages|)
  {
    var recent := SliceFrom(messages, 0 - limit);
    ValidLength(recent, maxChars, blank, |recent|);
    if limit == 0 {
      assert recent == messages;
    }
  }

  // ---- where the turns come from -------------------------------------------

  /** The message is from the user or the assistant, and says something. */
  predicate Speaks(m: Message, blank: char -> bool) {
    m.role in {"user", "assistant"} && exists i :: 0 <= i < |m.content| && !blank(m.content[i])
  }

  /** The turn is the message's: under its role, with the first `maxChars` characters it says. */
  predicate Tells(t: Turn, m: Message, maxChars: nat) {
    && (t.role.User? <==> m.role == "user") && (t.role.Assistant? <==> m.role == "assistant")
    && t.text <= m.content && |t.text| == if |m.content| <= maxChars then |m.content| else maxChars
  }

  /** `places` are where the first `k` messages speak, in order, and the turns tell just those. */
  ghost predicate ToldFrom(turns: seq<Turn>, messages: seq<Message>, k: nat, maxChars: nat, blank: char -> bool,
                           places: seq<nat>)
    requires k <= |messages|
  {
    && |places| == |turns|
    && (forall n :: 0 <= n < |places| ==> places[n] < k && Tells(turns[n], messages[places[n]], maxChars))
    && (forall n, m :: 0 <= n < m < |places| ==> places[n] < places[m])
    && (forall j :: 0 <= j < k ==> (Speaks(messages[j], blank) <==> j in places))
  }

  /** One message more, with the turn it speaks, if it does. */
  lemma ToldMore(turns: seq<Turn>, more: seq<Turn>, messages: seq<Message>, k: nat, maxChars: nat,
                 blank: char -> bool, places: seq<nat>)
    returns (places': seq<nat>)
    requires k < |messages| && ToldFrom(turns, messages, k, maxChars, blank, places)
    requires more == if IsTurn(messages[k], blank) then turns + [AsTurn(messages[k], maxChars)] else turns
    ensures ToldFrom(more, messages, k + 1, maxChars, blank, places')
  {
    var m := messages[k];
    assert IsTurn(m, blank) <==> Speaks(m, blank);
    assert Speaks(m, blank) ==> Tells(AsTurn(m, maxChars), m, maxChars);
    forall j | 0 <= j < k + 1 ensures j in places + [k] <==> j in places || j == k {
    }
    places' := if IsTurn(m, blank) then places + [k] else places;
  }

  lemma {:induction false} ValidTells(messages: seq<Message>, k: nat, maxChars: nat, blank: char -> bool)
    returns (places: seq<nat>)
    requires k <= |messages|
    ensures ToldFrom(Valid(messages, maxChars, blank, k), messages, k, maxChars, blank, places)
  {
    if k == 0 {
      places := [];
    } else {
      var before := ValidTells(messages, k - 1, maxChars, blank);
      var turns, more := Valid(messages, maxChars, blank, k - 1), Valid(messages, maxChars, blank, k);
      places := ToldMore(turns, more, messages, k - 1, maxChars, blank, before);
    }
  }

  /** The turns considered are, in order, exactly the messages within the limit that say something,
      each under its own role and cut to the budget. */
  lemma {:induction false} RecentTells(messages: seq<Message>, limit: nat, maxChars: nat, blank: char -> bool)
    returns (places: seq<nat>)
    ensures var window := if limit == 0 || |messages| <= limit then messages else messages[|messages| - limit..];
            ToldFrom(Recent(messages, limit, maxChars, blank), window, |window|, maxChars, blank, places)
  {
    var window := if limit == 0 || |messages| <= limit then messages else messages[|messages| - limit..];
    assert SliceFrom(messages, 0 - limit) == window;
    places := ValidTells(window, |window|, maxChars, blank);
  }

  // ---- the history ---------------------------------------------------------

  /** Where the run of one role from turn `i`, known to reach `k`, ends below `hi`. */
  function RunEnd(turns: seq<Turn>, i: nat, k: nat, hi: nat): (n: nat)
    requires i < k <= hi <= |turns|
    ensures k <= n <= hi
    ensures forall j :: k <= j < n ==> turns[j].role == turns[i].role
    ensures n < hi ==> turns[n].role != turns[i].role
    decreases hi - k
  {
    if k == hi || turns[k].role != turns[i].role then k else RunEnd(turns, i, k + 1, hi)
  }

  /** The texts of turns `i` to `n - 1`, a blank line between each two. */
  function Paragraphs(turns: seq<Turn>, i: nat, n: nat): string
    requires i < n <= |turns|
  {
    if n == i + 1 then turns[i].text else Paragraphs(turns, i, n - 1) + "\n\n" + turns[n - 1].text
  }

  /** Turns `i` to `hi - 1`, each run of one role as a single turn. */
  function Grouped(turns: seq<Turn>, i: nat, hi: nat): seq<Turn>
    requires i <= hi <= |turns|
    decreases hi - i
  {
    if i == hi then []
    else
      var n := RunEnd(turns, i, i + 1, hi);
      [Turn(turns[i].role, Paragraphs(turns, i, n))] + Grouped(turns, n, hi)
  }

  /** A run does not move when a turn is added behind it, unless that turn extends it. */
  lemma {:induction false} RunEndNext(turns: seq<Turn>, i: nat, k: nat, hi: nat)
    requires i < k <= hi < |turns|
    ensures var n := RunEnd(turns, i, k, hi);
            RunEnd(turns, i, k, hi + 1) == if n == hi && turns[hi].role == turns[i].role then hi + 1 else n
    decreases hi - k
  {
    if k < hi && turns[k].role == turns[i].role {
      RunEndNext(turns, i, k + 1, hi);
    }
  }

  lemma AddBehind(first: Turn, history: seq<Turn>, t: Turn)
    requires history != []
    ensures Add([first] + history, t) == [first] + Add(history, t)
  {
  }

  /** Behind a single run, a turn extends the run or starts one of its own. */
  lemma GroupOneRun(turns: seq<Turn>, i: nat, k: nat)
    requires i < k < |turns| && RunEnd(turns, i, i + 1, k) == k
    ensures Grouped(turns, i, k) == [Turn(turns[i].role, Paragraphs(turns, i, k))]
    ensures Grouped(turns, i, k + 1) == Add([Turn(turns[i].role, Paragraphs(turns, i, k))], turns[k])
  {
    RunEndNext(turns, i, i + 1, k);
    assert Grouped(turns, k, k) == [] == Grouped(turns, k + 1, k + 1);
    assert Grouped(turns, k, k + 1) == [turns[k]];
  }

  lemma GroupBehind(turns: seq<Turn>, i: nat, n: nat, k: nat)
    requires i < n < k < |turns| && n == RunEnd(turns, i, i + 1, k)
    ensures var first := [Turn(turns[i].role, Paragraphs(turns, i, n))];
            && Grouped(turns, i, k) == first + Grouped(turns, n, k)
            && Grouped(turns, i, k + 1) == first + Grouped(turns, n, k + 1)
            && Grouped(turns, n, k) != []
  {
    RunEndNext(turns, i, i + 1, k);
  }

  lemma {:induction false} GroupAdd(turns: seq<Turn>, i: nat, k: nat)
    requires i <= k < |turns|
    ensures Grouped(turns, i, k + 1) == Add(Grouped(turns, i, k), turns[k])
    decreases k - i
  {
    if i == k {
      assert Grouped(turns, k + 1, k + 1) == [];
    } else {
      var n := RunEnd(turns, i, i + 1, k);
      if n == k {
        GroupOneRun(turns, i, k);
      } else {
        GroupBehind(turns, i, n, k);
        GroupAdd(turns, n, k);
        AddBehind(Turn(turns[i].role, Paragraphs(turns, i, n)), Grouped(turns, n, k), turns[k]);
      }
    }
  }

  lemma {:induction false} MergedIsGrouped(turns: seq<Turn>, k: nat)
    requires k <= |turns|
    ensures Merged(turns, k) == Grouped(turns, 0, k)
  {
    if k > 0 {
      MergedIsGrouped(turns, k - 1);
      GroupAdd(turns, 0, k - 1);
    }
  }

  /** How many of the turns are assistant turns in front of the first user turn. */
  function Lead(turns: seq<Turn>): (n: nat)
    ensures n <= |turns| && (n < |turns| ==> turns[n].role.User?)
    ensures forall j :: 0 <= j < n ==> turns[j].role.Assistant?
  {
    if turns != [] && turns[0].role.Assistant? then RunEnd(turns, 0, 1, |turns|) else 0
  }

  /** The history is the kept turns, less any assistant turns in front, with each run of one
      role joined by blank lines. */
  lemma HistoryIsGrouped(messages: seq<Message>, limit: int, maxChars: int, blank: char -> bool)
    ensures var kept := Kept(messages, limit, maxChars, blank);
            History(messages, limit, maxChars, blank) == Grouped(kept, Lead(kept), |kept|)
  {
    var kept := Kept(messages, limit, maxChars, blank);
    MergedIsGrouped(kept, |kept|);
  }

  function Other(r: Role): Role {
    if r.User? then Assistant else User
  }

  predicate Alternates(history: seq<Turn>, first: Role) {
    forall i :: 0 <= i < |history| ==> history[i].role == if i % 2 == 0 then first else Other(first)
  }

  lemma AlternatesCons(t: Turn, rest: seq<Turn>)
    requires Alternates(rest, Other(t.role))
    ensures Alternates([t] + rest, t.role)
  {
    var more := [t] + rest;
    assert forall i :: 1 <= i < |more| ==> more[i] == rest[i - 1];
  }

  lemma {:induction false} GroupedAlternates(turns: seq<Turn>, i: nat, hi: nat)
    requires i < hi <= |turns|
    ensures Alternates(Grouped(turns, i, hi), turns[i].role)
    decreases hi - i
  {
    var n := RunEnd(turns, i, i + 1, hi);
    if n < hi {
      GroupedAlternates(turns, n, hi);
    }
    AlternatesCons(Turn(turns[i].role, Paragraphs(turns, i, n)), Grouped(turns, n, hi));
  }

  /** The history opens with the user and strictly alternates. */
  lemma HistoryAlternates(messages: seq<Message>, limit: int, maxChars: int, blank: char -> bool)
    ensures Alternates(History(messages, limit, maxChars, blank), User)
  {
    var kept := Kept(messages, limit, maxChars, blank);
    HistoryIsGrouped(messages, limit, maxChars, blank);
    if Lead(kept) < |kept| {
      GroupedAlternates(kept, Lead(kept), |kept|);
    }
  }

  /** Ending the history with the next prompt keeps the alternation if and only if the history
      is empty or ends with the assistant. */
  lemma PromptAlternatesIff(messages: seq<Message>, limit: int, maxChars: int, blank: char -> bool, prompt: string)
    ensures var history := History(messages, limit, maxChars, blank);
            Alternates(history + [Turn(User, prompt)], User)
            <==> history == [] || history[|history| - 1].role.Assistant?
  {
    var history := History(messages, limit, maxChars, blank);
    var more := history + [Turn(User, prompt)];
    HistoryAlternates(messages, limit, maxChars, blank);
    assert forall i :: 0 <= i < |history| ==> more[i] == history[i];
    assert more[|history|].role == User;
  }

  // ---- how long the history is ---------------------------------------------

  lemma {:induction false} ParagraphsLength(turns: seq<Turn>, i: nat, n: nat)
    requires i < n <= |turns|
    ensures |Paragraphs(turns, i, n)| == Total(turns, i) - Total(turns, n) + 2 * (n - i - 1)
  {
    if i + 1 < n {
      ParagraphsLength(turns, i, n - 1);
    }
  }

  /** Totals from a place do not depend on what is before it. */
  lemma {:induction false} TotalShift(turns: seq<Turn>, n: nat, i: nat)
    requires n <= i <= |turns|
    ensures Total(turns, i) == Total(turns[n..], i - n)
    decreases |turns| - i
  {
    if i < |turns| {
      TotalShift(turns, n, i + 1);
    }
  }

  lemma {:induction false} TotalCons(t: Turn, rest: seq<Turn>)
    ensures Total([t] + rest, 0) == |t.text| + Total(rest, 0)
  {
    TotalShift([t] + rest, 1, 1);
    assert ([t] + rest)[1..] == rest;
  }

  lemma {:induction false} GroupedLength(turns: seq<Turn>, i: nat)
    requires i <= |turns|
    ensures var grouped := Grouped(turns, i, |turns|);
            Total(grouped, 0) == Total(turns, i) + 2 * (|turns| - i - |grouped|)
    decreases |turns| - i
  {
    if i < |turns| {
      var n := RunEnd(turns, i, i + 1, |turns|);
      GroupedLength(turns, n);
      ParagraphsLength(turns, i, n);
      TotalCons(Turn(turns[i].role, Paragraphs(turns, i, n)), Grouped(turns, n, |turns|));
    }
  }

  /** Nothing is added to the kept text but two characters for each merge, so the history
      exceeds the budget by no more than that. */
  lemma HistoryLength(messages: seq<Message>, limit: int, maxChars: nat, blank: char -> bool)
    ensures var kept := Kept(messages, limit, maxChars, blank);
            var history := History(messages, limit, maxChars, blank);
            && Total(history, 0) == Total(kept, Lead(kept)) + 2 * (|kept| - Lead(kept) - |history|)
            && Total(kept, Lead(kept)) <= Total(kept, 0) <= maxChars
  {
    var turns := Recent(messages, limit, maxChars, blank);
    var k := Start(turns, maxChars, |turns|);
    var kept := turns[k..];
    KeptIsMaximal(messages, limit, maxChars, blank);
    HistoryIsGrouped(messages, limit, maxChars, blank);
    GroupedLength(kept, Lead(kept));
    TotalShift(turns, k, k);
    TotalGrows(kept, 0, Lead(kept));
  }
}
