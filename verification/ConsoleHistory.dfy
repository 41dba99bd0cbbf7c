/**
 The console's line history: a queue of at most 256 accepted lines and a cursor that the
 arrow keys move. The queue is read against the log of all lines ever accepted.
 */
module ConsoleHistory {

  const MAX_LINES := 256

  // ---------------------------------------------------------------- prefixes

  /** A message for allies or spectators starts with one of these letters and a colon. */
  predicate HasPrefix(text: string) {
    |text| >= 2 && IsPrefixLetter(text[0]) && text[1] == ':'
  }

  predicate IsPrefixLetter(c: char) {
    c == 'a' || c == 'A' || c == 's' || c == 'S'
  }

  function Prefix(text: string): string {
    if HasPrefix(text) then text[..2] else ""
  }

  function Message(text: string): string {
    if HasPrefix(text) then text[2..] else text
  }

  // ---------------------------------------------------------------- the history as a log

  /** The first line is blank, no later one is, and none repeats the one before it. */
  ghost predicate IsLog(log: seq<string>) {
    |log| > 0 && log[0] == "" && forall i :: 0 < i < |log| ==> IsNew(log, i)
  }

  predicate IsNew(log: seq<string>, i: nat)
    requires 0 < i < |log|
  {
    log[i] != "" && log[i] != log[i - 1]
  }

  lemma IsLogAdd(log: seq<string>, msg: string)
    requires IsLog(log) && msg != "" && log[|log| - 1] != msg
    ensures IsLog(log + [msg])
  {
    forall i | 0 < i < |log| + 1
      ensures IsNew(log + [msg], i)
    {
      assert i < |log| ==> IsNew(log, i);
    }
  }

  /** All lines accepted so far, how many of them were dropped again, and the cursor's place in the log. */
  datatype History = History(log: seq<string>, dropped: nat, at: nat) {

    /** The last lines, at most 256, with the cursor on one of them or at the end; no line repeats its neighbour. */
    ghost predicate Valid() {
      && InBounds()
      && dropped == (if |log| > MAX_LINES then |log| - MAX_LINES else 0)
      && IsLog(log)
    }

    predicate InBounds() {
      dropped < |log| && dropped <= at <= |log|
    }

    predicate Accepts(msg: string)
      requires InBounds()
    {
      msg != "" && log[|log| - 1] != msg
    }

    /** An accepted line extends the log; the cursor stays, unless its own line is dropped for the new one. */
    function Add(msg: string): (h: History)
      requires InBounds()
      ensures h.InBounds() && (at < |log| ==> h.at < |h.log|)
    {
      if !Accepts(msg) then this
      else
        var dropped' := if |log| - dropped >= MAX_LINES then dropped + 1 else dropped;
        History(log + [msg], dropped', if at < dropped' then dropped' else at)
    }

    /** NextLine: what the cursor becomes, and the text that it returns. */
    function Next(current: string): (r: (History, string))
      requires InBounds()
      ensures r.0.InBounds()
    {
      Forward(Prefix(current), Message(current))
    }

    function Forward(prefix: string, message: string): (r: (History, string))
      requires InBounds()
      ensures r.0.InBounds()
    {
      if at == |log| then (Add(message).End(), prefix)
      else if log[at] == message then Advance(prefix)
      else if at == |log| - 1 && Accepts(message) then (Add(message).End(), prefix)
      else Add(message).Advance(prefix)
    }

    function End(): (h: History)
      requires InBounds()
      ensures h.InBounds()
    {
      this.(at := |log|)
    }

    function Advance(prefix: string): (r: (History, string))
      requires InBounds() && at < |log|
      ensures r.0.InBounds()
    {
      (this.(at := at + 1), if at + 1 == |log| then prefix else prefix + log[at + 1])
    }

    /** PrevLine, likewise. */
    function Prev(current: string): (r: (History, string))
      requires InBounds()
      ensures r.0.InBounds()
    {
      Back(Prefix(current), Message(current))
    }

    function Back(prefix: string, message: string): (r: (History, string))
      requires InBounds()
      ensures r.0.InBounds()
    {
      if at == dropped then
        var h := if log[at] != message then Add(message) else this;
        (h.(at := h.dropped), prefix)
      else
        var h := if at == |log| || log[at] != message then Add(message) else this;
        if h.at == h.dropped then (h, prefix)
        else (h.(at := h.at - 1), prefix + h.log[h.at - 1])
    }
  }

  const START := History([""], 0, 1)

  lemma AddKeepsValid(h: History, msg: string)
    requires h.Valid()
    ensures h.InBounds() && h.Add(msg).Valid()
  {
    if h.Accepts(msg) {
      IsLogAdd(h.log, msg);
    }
  }

  /** A line that is kept stays under the cursor; only a cursor on the dropped line moves on to the next one. */
  lemma AddKeepsCursor(h: History, msg: string)
    requires h.Valid()
    ensures var after := h.Add(msg);
            && h.log <= after.log
            && (after.at == h.at || (h.at == h.dropped && after.at == after.dropped == h.at + 1))
            && (h.at == |h.log| ==> after.at == h.at)
  {
  }

  // ---------------------------------------------------------------- what one call does

  /** The text is the prefix and the message; the prefix is one of four, or blank if the text begins with none of them. */
  lemma TextInParts(text: string)
    ensures text == Prefix(text) + Message(text)
    ensures Prefix(text) in {"", "a:", "A:", "s:", "S:"}
    ensures Prefix(text) == "" ==> !("a:" <= text) && !("A:" <= text) && !("s:" <= text) && !("S:" <= text)
  {
    if HasPrefix(text) {
      assert text[..2] == [text[0], ':'];
    }
  }

  function Kept(log: seq<string>): nat {
    if |log| > MAX_LINES then |log| - MAX_LINES else 0
  }

  /** A blank line and a repetition of the last line are refused; any other becomes the last line, whereby
      the oldest of 256 goes, and a cursor on that one moves on. */
  lemma AddGives(h: History, message: string)
    requires h.Valid()
    ensures h.InBounds()
    ensures var added := h.Add(message);
            && added.log == (if message == "" || message == h.log[|h.log| - 1] then h.log else h.log + [message])
            && added.dropped == Kept(added.log)
            && added.at == (if h.at < added.dropped then added.dropped else h.at)
  {
  }

  /** The log after an edited line: the line under the cursor adds nothing either. */
  function LogAfter(h: History, message: string): seq<string>
    requires h.InBounds()
  {
    if message == "" || message == h.log[|h.log| - 1] || (h.at < |h.log| && message == h.log[h.at]) then h.log
    else h.log + [message]
  }

  /** Going down shows the next line; from the last line on, or from the end, the bare prefix. A cursor whose own
      line is dropped for the edited one is moved to the next line first. */
  lemma NextLineGives(h: History, text: string)
    requires h.Valid()
    ensures h.InBounds()
    ensures var (next, shown) := h.Next(text);
            var log := LogAfter(h, Message(text));
            && next.log == log && next.dropped == Kept(log)
            && if h.at >= |h.log| - 1 then next.at == |log| && shown == Prefix(text)
               else
                 && next.at == (if h.at < Kept(log) then h.at + 2 else h.at + 1)
                 && shown == Prefix(text) + log[next.at]
  {
    AddGives(h, Message(text));
  }

  /** Going up shows the line before; from the oldest line that is left, the bare prefix. */
  lemma PrevLineGives(h: History, text: string)
    requires h.Valid()
    ensures h.InBounds()
    ensures var (next, shown) := h.Prev(text);
            var log := LogAfter(h, Message(text));
            && next.log == log && next.dropped == Kept(log)
            && if h.at > Kept(log) then next.at == h.at - 1 && shown == Prefix(text) + h.log[h.at - 1]
               else next.at == Kept(log) && shown == Prefix(text)
  {
    AddGives(h, Message(text));
  }

  // ---------------------------------------------------------------- every run

  datatype Action = Init | ResetPosition | AddLine(msg: string) | NextLine(current: string) | PrevLine(current: string)

  function Act(h: History, action: Action): (r: History)
    requires h.InBounds()
    ensures r.InBounds()
  {
    match action
    case Init => START
    case ResetPosition => h.End()
    case AddLine(msg) => h.Add(Message(msg))
    case NextLine(current) => h.Next(current).0
    case PrevLine(current) => h.Prev(current).0
  }

  function Run(h: History, actions: seq<Action>): (r: History)
    requires h.InBounds()
    ensures r.InBounds()
    decreases |actions|
  {
    if actions == [] then h else Run(Act(h, actions[0]), actions[1..])
  }

  /** After any calls the history holds the last lines of the log, no two alike in a row, with the cursor among them. */
  lemma {:induction false} RunsStayValid(h: History, actions: seq<Action>)
    requires h.Valid()
    ensures h.InBounds() && Run(h, actions).Valid()
    decreases |actions|
  {
    if actions != [] {
      var action := actions[0];
      match action {
        case AddLine(msg) => AddKeepsValid(h, Message(msg));
        case NextLine(current) => AddKeepsValid(h, Message(current));
        case PrevLine(current) => AddKeepsValid(h, Message(current));
        case _ =>
      }
      RunsStayValid(Act(h, action), actions[1..]);
    }
  }

  // ---------------------------------------------------------------- walking up and down

  /** What the history and the text line are after some key presses. */
  datatype Screen = Screen(h: History, text: string) {
    predicate InBounds() {
      h.InBounds()
    }

    function Up(): Screen
      requires InBounds()
    {
      var r := h.Prev(text); Screen(r.0, r.1)
    }

    function Down(): Screen
      requires InBounds()
    {
      var r := h.Next(text); Screen(r.0, r.1)
    }
  }

  /** The screens of a walk: each but the first is one press of the up key, or of the down key, after the one before. */
  ghost predicate GoesUp(walk: seq<Screen>) {
    |walk| > 0 && walk[0].InBounds() && forall i :: 0 < i < |walk| ==> UpAt(walk, i)
  }

  ghost predicate GoesDown(walk: seq<Screen>) {
    |walk| > 0 && walk[0].InBounds() && forall i :: 0 < i < |walk| ==> DownAt(walk, i)
  }

  predicate UpAt(walk: seq<Screen>, i: nat)
    requires 0 < i < |walk|
  {
    walk[i - 1].InBounds() && walk[i].InBounds() && walk[i] == walk[i - 1].Up()
  }

  predicate DownAt(walk: seq<Screen>, i: nat)
    requires 0 < i < |walk|
  {
    walk[i - 1].InBounds() && walk[i].InBounds() && walk[i] == walk[i - 1].Down()
  }

  predicate IsPrefix(prefix: string) {
    |prefix| == 0 || (|prefix| == 2 && HasPrefix(prefix))
  }

  /** Behind this prefix the line is read as it is: there is a prefix, or the line does not begin with one. */
  predicate ReadsBack(prefix: string, line: string) {
    IsPrefix(prefix) && (|prefix| == 0 ==> !HasPrefix(line))
  }

  ghost predicate AllReadBack(h: History, prefix: string, first: int, end: int) {
    forall i {:trigger ReadsBack(prefix, h.log[i])} :: 0 <= i < |h.log| && first <= i < end ==> ReadsBack(prefix, h.log[i])
  }

  lemma ShownText(prefix: string, line: string)
    requires ReadsBack(prefix, line)
    ensures Prefix(prefix + line) == prefix && Message(prefix + line) == line
  {
    if prefix != "" {
      assert (prefix + line)[..2] == prefix && (prefix + line)[2..] == line;
    } else {
      assert prefix + line == line;
    }
  }

  lemma PrefixOfPrefix(text: string)
    ensures IsPrefix(Prefix(text)) && text == Prefix(text) + Message(text)
  {
  }

  lemma BareText(prefix: string)
    requires IsPrefix(prefix)
    ensures Prefix(prefix) == prefix && Message(prefix) == ""
  {
  }

  /** What a press does is said by the two parts of the text. */
  lemma StepOfParts(s: Screen, prefix: string, message: string)
    requires s.InBounds() && Prefix(s.text) == prefix && Message(s.text) == message
    ensures s.Up() == Screen(s.h.Back(prefix, message).0, s.h.Back(prefix, message).1)
    ensures s.Down() == Screen(s.h.Forward(prefix, message).0, s.h.Forward(prefix, message).1)
  {
  }

  /** The cursor on line i, which is shown behind the prefix; at the end the bare prefix is. */
  function Shown(h: History, prefix: string, i: nat): Screen {
    Screen(h.(at := i), if i < |h.log| then prefix + h.log[i] else prefix)
  }

  function Bare(h: History, prefix: string, i: nat): Screen {
    Screen(h.(at := i), prefix)
  }

  lemma PartsOnLine(h: History, prefix: string, i: nat)
    requires h.InBounds() && h.dropped <= i < |h.log|
    ensures var here := h.(at := i);
      && here.Back(prefix, h.log[i]) == (if i > h.dropped then (h.(at := i - 1), prefix + h.log[i - 1]) else (here, prefix))
      && here.Forward(prefix, h.log[i]) == (h.(at := i + 1), if i + 1 < |h.log| then prefix + h.log[i + 1] else prefix)
  {
  }

  /** One step on a shown line, in either direction, only moves the cursor; past the oldest line it clears the text. */
  lemma StepShows(h: History, prefix: string, i: nat)
    requires h.InBounds() && h.dropped <= i < |h.log| && ReadsBack(prefix, h.log[i])
    ensures Shown(h, prefix, i).InBounds()
    ensures Shown(h, prefix, i).Up() == if i > h.dropped then Shown(h, prefix, i - 1) else Bare(h, prefix, i)
    ensures Shown(h, prefix, i).Down() == Shown(h, prefix, i + 1)
  {
    ShownText(prefix, h.log[i]);
    StepOfParts(Shown(h, prefix, i), prefix, h.log[i]);
    PartsOnLine(h, prefix, i);
  }

  lemma PartsOfNothing(h: History, prefix: string, i: nat)
    requires h.InBounds() && h.dropped <= i <= |h.log|
    ensures h.(at := h.dropped).Back(prefix, "") == (h.(at := h.dropped), prefix)
    ensures h.(at := i).Forward(prefix, "")
      == if i + 1 < |h.log| then (h.(at := i + 1), prefix + h.log[i + 1]) else (h.End(), prefix)
  {
  }

  /** A bare prefix adds nothing. */
  lemma StepFromBare(h: History, prefix: string, i: nat)
    requires h.InBounds() && IsPrefix(prefix) && h.dropped <= i <= |h.log|
    ensures Bare(h, prefix, i).InBounds()
    ensures Bare(h, prefix, h.dropped).Up() == Bare(h, prefix, h.dropped)
    ensures Bare(h, prefix, i).Down() == Shown(h, prefix, if i < |h.log| then i + 1 else i)
  {
    BareText(prefix);
    StepOfParts(Bare(h, prefix, h.dropped), prefix, "");
    StepOfParts(Bare(h, prefix, i), prefix, "");
    PartsOfNothing(h, prefix, i);
  }

  lemma FirstUp(h: History, draft: string)
    requires h.Valid() && h.at == |h.log|
    ensures Screen(h, draft).Up() == Shown(h.Add(Message(draft)), Prefix(draft), |h.log| - 1)
    ensures h.Add(Message(draft)).InBounds() && h.Add(Message(draft)).dropped <= |h.log| - 1
  {
  }

  /** How many lines one can go up: to the oldest that is kept once the draft is added. */
  function Reach(h: History, draft: string): int
    requires h.InBounds()
  {
    |h.log| - h.Add(Message(draft)).dropped
  }

  /** How many of k presses up go to a line. */
  function LinesUp(h: History, draft: string, k: nat): int
    requires h.InBounds()
  {
    if k <= Reach(h, draft) then k else Reach(h, draft)
  }

  lemma ReachIsPositive(h: History, draft: string)
    requires h.Valid()
    ensures h.InBounds() && 1 <= Reach(h, draft) <= |h.log|
  {
  }

  /** The last k lines are read as they are shown. */
  ghost predicate Passable(h: History, draft: string, k: int) {
    AllReadBack(h, Prefix(draft), |h.log| - k, |h.log|)
  }

  /** Where k presses up lead, the first of them to line start: to a line, or to the oldest with its text cleared. */
  function Climbed(h: History, prefix: string, start: nat, k: nat): Screen
    requires k >= 1
  {
    if k - 1 <= start - h.dropped then Shown(h, prefix, start - (k - 1)) else Bare(h, prefix, h.dropped)
  }

  lemma StepClimbs(h: History, prefix: string, start: nat, k: nat)
    requires h.InBounds() && IsPrefix(prefix) && h.dropped <= start < |h.log| && k >= 1
    requires k - 1 <= start - h.dropped ==> ReadsBack(prefix, h.log[start - (k - 1)])
    ensures Climbed(h, prefix, start, k).InBounds()
    ensures Climbed(h, prefix, start, k).Up() == Climbed(h, prefix, start, k + 1)
  {
    if k - 1 <= start - h.dropped {
      StepShows(h, prefix, start - (k - 1));
    } else {
      StepFromBare(h, prefix, h.dropped);
    }
  }

  lemma UpOnce(h: History, prefix: string, start: nat, first: int, up: seq<Screen>, k: nat)
    requires h.InBounds() && h.dropped <= start < |h.log| && k >= 1
    requires AllReadBack(h, prefix, first, start + 1) && (first <= h.dropped || first <= start - (k - 1))
    requires GoesUp(up) && k + 1 < |up| && up[k] == Climbed(h, prefix, start, k)
    ensures up[k + 1] == Climbed(h, prefix, start, k + 1)
  {
    assert ReadsBack(prefix, h.log[start]);
    assert UpAt(up, k + 1);
    StepClimbs(h, prefix, start, k);
  }

  lemma {:induction false} UpGoesOn(h: History, prefix: string, start: nat, first: int, up: seq<Screen>, k: nat)
    requires h.InBounds() && h.dropped <= start < |h.log|
    requires AllReadBack(h, prefix, first, start + 1) && (first <= h.dropped || first <= start - (k - 2))
    requires GoesUp(up) && 1 <= k < |up| && up[1] == Shown(h, prefix, start)
    ensures up[k] == Climbed(h, prefix, start, k)
  {
    if k > 1 {
      UpGoesOn(h, prefix, start, first, up, k - 1);
      UpOnce(h, prefix, start, first, up, k - 1);
    }
  }

  /** What the first press up does to the history, and that the draft has its place behind the prefix. */
  lemma DraftAdded(h: History, draft: string, first: int, up: seq<Screen>)
    requires h.Valid() && h.at == |h.log| && AllReadBack(h, Prefix(draft), first, |h.log|)
    requires GoesUp(up) && up[0] == Screen(h, draft) && 1 < |up|
    ensures var added := h.Add(Message(draft));
      && added.InBounds() && added.dropped < |h.log|
      && up[1] == Shown(added, Prefix(draft), |h.log| - 1)
      && AllReadBack(added, Prefix(draft), first, |added.log|)
  {
    assert UpAt(up, 1);
    FirstUp(h, draft);
  }

  lemma FirstRead(h: History, draft: string, first: int, k: nat)
    requires h.Valid() && k >= 1 && first == |h.log| - LinesUp(h, draft, k - 1)
    ensures first <= h.Add(Message(draft)).dropped || first <= |h.log| - 1 - (k - 2)
  {
  }

  /** Going up k times adds the draft if it is accepted and shows the k-th line from the end of the old log; whoever
      goes up past the oldest line sees the bare prefix. */
  lemma UpShows(h: History, draft: string, up: seq<Screen>, k: nat)
    requires h.Valid() && h.at == |h.log| && k >= 1 && Passable(h, draft, LinesUp(h, draft, k - 1))
    requires GoesUp(up) && up[0] == Screen(h, draft) && k < |up|
    ensures up[k] == Climbed(h.Add(Message(draft)), Prefix(draft), |h.log| - 1, k)
  {
    var first := |h.log| - LinesUp(h, draft, k - 1);
    DraftAdded(h, draft, first, up);
    FirstRead(h, draft, first, k);
    UpGoesOn(h.Add(Message(draft)), Prefix(draft), |h.log| - 1, first, up, k);
  }

  /** Where k presses down lead from line start: to a line or, from the end on, to the end. */
  function Descended(h: History, prefix: string, start: nat, k: nat): Screen {
    Shown(h, prefix, if start + k <= |h.log| then start + k else |h.log|)
  }

  lemma StepDescends(h: History, prefix: string, start: nat, k: nat)
    requires h.InBounds() && IsPrefix(prefix) && h.dropped <= start
    requires start + k < |h.log| ==> ReadsBack(prefix, h.log[start + k])
    ensures Descended(h, prefix, start, k).InBounds()
    ensures Descended(h, prefix, start, k).Down() == Descended(h, prefix, start, k + 1)
  {
    if start + k < |h.log| {
      StepShows(h, prefix, start + k);
    } else {
      StepFromBare(h, prefix, |h.log|);
    }
  }

  lemma DownFirst(h: History, prefix: string, start: nat, down: seq<Screen>)
    requires h.InBounds() && h.dropped <= start < |h.log| && AllReadBack(h, prefix, start, |h.log|)
    requires GoesDown(down) && 1 < |down|
    requires down[0] == Shown(h, prefix, start) || down[0] == Bare(h, prefix, start)
    ensures down[1] == Descended(h, prefix, start, 1)
  {
    assert DownAt(down, 1);
    StepShows(h, prefix, start);
    StepFromBare(h, prefix, start);
  }

  lemma DownOnce(h: History, prefix: string, start: nat, down: seq<Screen>, k: nat)
    requires h.InBounds() && h.dropped <= start < |h.log| && AllReadBack(h, prefix, start, |h.log|)
    requires GoesDown(down) && k + 1 < |down| && down[k] == Descended(h, prefix, start, k)
    ensures down[k + 1] == Descended(h, prefix, start, k + 1)
  {
    assert ReadsBack(prefix, h.log[start]);
    assert DownAt(down, k + 1);
    StepDescends(h, prefix, start, k);
  }

  /** Going down from a line, shown or cleared, shows the later lines in order and then the bare prefix for good. */
  lemma {:induction false} DownShows(h: History, prefix: string, start: nat, down: seq<Screen>, k: nat)
    requires h.InBounds() && h.dropped <= start < |h.log| && AllReadBack(h, prefix, start, |h.log|)
    requires GoesDown(down) && 1 <= k < |down|
    requires down[0] == Shown(h, prefix, start) || down[0] == Bare(h, prefix, start)
    ensures down[k] == Descended(h, prefix, start, k)
  {
    if k > 1 {
      DownShows(h, prefix, start, down, k - 1);
      DownOnce(h, prefix, start, down, k - 1);
    } else {
      DownFirst(h, prefix, start, down);
    }
  }

  lemma StepKeepsPrefix(s: Screen)
    requires s.InBounds() && HasPrefix(s.text)
    ensures HasPrefix(s.Up().text) && HasPrefix(s.Down().text)
  {
  }

  /** Once a prefix is shown it stays, whichever way one goes on. */
  lemma {:induction false} PrefixStays(up: seq<Screen>, j: nat, k: nat, down: seq<Screen>, n: nat)
    requires GoesUp(up) && GoesDown(down) && j <= k < |up| && n < |down|
    requires down[0] == up[k] && HasPrefix(up[j].text)
    ensures HasPrefix(down[n].text)
    decreases k, n
  {
    if n > 0 {
      assert DownAt(down, n);
      PrefixStays(up, j, k, down, n - 1);
      StepKeepsPrefix(down[n - 1]);
    } else if j < k {
      assert UpAt(up, k);
      PrefixStays(up, j, k - 1, [up[k - 1]], 0);
      StepKeepsPrefix(up[k - 1]);
    }
  }

  lemma {:induction false} FirstUnpassable(h: History, draft: string, k: nat) returns (j: nat)
    requires k <= |h.log| && !Passable(h, draft, k)
    ensures 1 <= j <= k && Passable(h, draft, j - 1) && !HasPrefix(draft) && HasPrefix(h.log[|h.log| - j])
  {
    if Passable(h, draft, k - 1) {
      j := k;
    } else {
      j := FirstUnpassable(h, draft, k - 1);
    }
  }

  lemma DraftIsLast(h: History, draft: string)
    requires h.Valid()
    ensures var log := h.Add(Message(draft)).log;
            if h.Accepts(Message(draft)) then |log| == |h.log| + 1 && Prefix(draft) + log[|h.log|] == draft
            else |log| == |h.log|
  {
  }

  /** Of k presses up, as many go to a line as there are lines; the others stay on the oldest. */
  lemma TopOfWalk(added: History, prefix: string, length: nat, k: nat)
    requires k >= 1 && added.dropped < length
    ensures var top, start := Climbed(added, prefix, length - 1, k), Max(added.dropped, length - k);
            top == Shown(added, prefix, start) || top == Bare(added, prefix, start)
  {
  }

  function Max(m: int, n: int): int {
    if m > n then m else n
  }

  /** The walk from its first press up on, over a history whose first lines are the old ones. */
  lemma WalkFromFirst(added: History, prefix: string, length: nat, start: nat, up: seq<Screen>, down: seq<Screen>, k: nat)
    requires added.InBounds() && added.dropped < length <= |added.log|
    requires k >= 1 && start == Max(added.dropped, length - k)
    requires AllReadBack(added, prefix, start, |added.log|)
    requires GoesUp(up) && 1 < |up| && up[1] == Shown(added, prefix, length - 1)
    requires GoesDown(down) && |up| == |down| == k + 1 && down[0] == up[k]
    ensures down[k] == Descended(added, prefix, start, k)
  {
    UpGoesOn(added, prefix, length - 1, start, up, k);
    TopOfWalk(added, prefix, length, k);
    DownShows(added, prefix, start, down, k);
  }

  /** The way down ends on the line of the draft, if that was added and no press up was in vain, or at the end. */
  lemma EndOfWalk(h: History, draft: string, k: nat)
    requires h.Valid() && k >= 1
    ensures var added, start := h.Add(Message(draft)), |h.log| - LinesUp(h, draft, k);
      && start >= added.dropped
      && Descended(added, Prefix(draft), start, k).text
         == if h.Accepts(Message(draft)) && k <= Reach(h, draft) then draft else Prefix(draft)
  {
    PrefixOfPrefix(draft);
    DraftIsLast(h, draft);
  }

  lemma StartOfWalk(h: History, draft: string, k: nat)
    requires h.Valid() && k >= 1
    ensures h.InBounds()
    ensures var added := h.Add(Message(draft));
      && |h.log| - LinesUp(h, draft, k) == Max(added.dropped, |h.log| - k) >= 0
      && |h.log| <= |added.log| <= |h.log| + 1
  {
  }

  /** The walk, from the draft on. */
  lemma WalkEnds(h: History, draft: string, start: nat, up: seq<Screen>, down: seq<Screen>, k: nat)
    requires h.Valid() && h.at == |h.log| && k >= 1 && start == |h.log| - LinesUp(h, draft, k)
    requires AllReadBack(h, Prefix(draft), start, |h.log|)
    requires GoesUp(up) && GoesDown(down) && |up| == |down| == k + 1 && up[0] == Screen(h, draft) && down[0] == up[k]
    ensures down[k] == Descended(h.Add(Message(draft)), Prefix(draft), start, k)
  {
    DraftAdded(h, draft, start, up);
    StartOfWalk(h, draft, k);
    WalkFromFirst(h.Add(Message(draft)), Prefix(draft), |h.log|, start, up, down, k);
  }

  /** A walk over passable lines only ends on the draft, if it was added, or behind it. */
  lemma PassableWalk(h: History, draft: string, up: seq<Screen>, down: seq<Screen>, k: nat)
    requires h.Valid() && h.at == |h.log| && k >= 1 && Passable(h, draft, LinesUp(h, draft, k))
    requires GoesUp(up) && GoesDown(down) && |up| == |down| == k + 1 && up[0] == Screen(h, draft) && down[0] == up[k]
    ensures down[k].text == if h.Accepts(Message(draft)) && k <= Reach(h, draft) then draft else Prefix(draft)
  {
    StartOfWalk(h, draft, k);
    WalkEnds(h, draft, |h.log| - LinesUp(h, draft, k), up, down, k);
    EndOfWalk(h, draft, k);
  }

  lemma UnpassableWalk(h: History, draft: string, up: seq<Screen>, down: seq<Screen>, k: nat, n: nat)
    requires h.Valid() && h.at == |h.log| && n <= k && n <= Reach(h, draft) && !Passable(h, draft, n)
    requires GoesUp(up) && GoesDown(down) && |up| == |down| == k + 1 && up[0] == Screen(h, draft) && down[0] == up[k]
    ensures HasPrefix(down[k].text) && !HasPrefix(draft)
  {
    var j := FirstUnpassable(h, draft, n);
    UpShows(h, draft, up, j);
    assert "" + h.log[|h.log| - j] == h.log[|h.log| - j];
    PrefixStays(up, j, k, down, k);
  }

  /**
   From the end, k presses up and k presses down give the draft back exactly when it is blank, or new
   and the walk does not go up past the oldest line that is kept beside it, and no shown line is read as
   prefixed.
   */
  lemma WalkReturns(h: History, draft: string, up: seq<Screen>, down: seq<Screen>, k: nat)
    requires h.Valid() && h.at == |h.log| && k >= 1
    requires GoesUp(up) && GoesDown(down) && |up| == |down| == k + 1 && up[0] == Screen(h, draft) && down[0] == up[k]
    ensures down[k].text == draft
            <==> (Message(draft) == "" || (Message(draft) != h.log[|h.log| - 1] && k <= Reach(h, draft)))
                 && Passable(h, draft, LinesUp(h, draft, k))
  {
    ReachIsPositive(h, draft);
    BareIsDraft(draft);
    if Passable(h, draft, LinesUp(h, draft, k)) {
      PassableWalk(h, draft, up, down, k);
    } else {
      UnpassableWalk(h, draft, up, down, k, LinesUp(h, draft, k));
    }
  }

  lemma BareIsDraft(draft: string)
    ensures Prefix(draft) == draft <==> Message(draft) == ""
  {
    PrefixOfPrefix(draft);
  }

  /** On a fresh history two presses up go past the oldest line, and two down then lose any draft but its prefix. */
  lemma PastOldestLosesDraft(draft: string, up: seq<Screen>, down: seq<Screen>)
    requires Message(draft) != ""
    requires GoesUp(up) && GoesDown(down) && |up| == |down| == 3 && up[0] == Screen(START, draft) && down[0] == up[2]
    ensures down[2].text == Prefix(draft) != draft
  {
    BareIsDraft(draft);
    PrefixOfPrefix(draft);
    PassableWalk(START, draft, up, down, 2);
  }

  // ---------------------------------------------------------------- the class

  /** pos indexes the queue and equals its length at the end; the ghost log says what the queue is the rest of. */
  class CConsoleHistory {
    var lines: seq<string>
    var pos: nat
    ghost var history: History

    ghost predicate Valid()
      reads this
    {
      history.Valid() && lines == history.log[history.dropped..] && pos == history.at - history.dropped
    }

    constructor ()
      ensures Valid() && history == START
    {
      lines, pos, history := [""], 1, START;
    }

    method Init()
      modifies this
      ensures Valid() && history == Act(START, Action.Init)
    {
      lines, pos, history := [""], 1, START;
    }

    method ResetPosition()
      requires Valid()
      modifies this
      ensures Valid() && old(history).InBounds() && history == old(history).End()
    {
      pos := |lines|;
      history := history.(at := |history.log|);
    }

    method AddLine(msg: string) returns (added: bool)
      requires Valid()
      modifies this
      ensures Valid() && old(history).InBounds() && history == Act(old(history), Action.AddLine(msg))
      ensures added == old(history).Accepts(Message(msg))
    {
      var message;
      if HasPrefix(msg) {
        message := msg[2..];
      } else {
        message := msg;
      }
      added := AddLineRaw(message);
    }

    method AddLineRaw(msg: string) returns (added: bool)
      requires Valid()
      modifies this
      ensures Valid() && old(history).InBounds() && history == old(history).Add(msg)
      ensures added == old(history).Accepts(msg)
    {
      AddKeepsValid(history, msg);
      if msg == "" {
        return false;
      }
      if lines[|lines| - 1] == msg {
        return false;
      }
      if |lines| >= MAX_LINES {
        if pos != 0 {
          lines := lines[1..];
          pos := pos - 1;
        } else {
          lines := lines[1..];
          pos := 0;
        }
      }
      lines := lines + [msg];
      history := history.Add(msg);
      assert history.log[history.dropped..] == lines;
      return true;
    }

    method NextLine(current: string) returns (shown: string)
      requires Valid()
      modifies this
      ensures Valid() && old(history).InBounds() && (history, shown) == old(history).Next(current)
    {
      shown := Forward(Prefix(current), Message(current));
    }

    /** NextLine once the text is split. */
    method Forward(prefix: string, message: string) returns (shown: string)
      requires Valid()
      modifies this
      ensures Valid() && old(history).InBounds() && (history, shown) == old(history).Forward(prefix, message)
    {
      if pos == |lines| {
        var added := AddLineRaw(message);
        ResetPosition();
        return prefix;
      }
      shown := ForwardFromLine(prefix, message);
    }

    method ForwardFromLine(prefix: string, message: string) returns (shown: string)
      requires Valid() && pos < |lines|
      modifies this
      ensures Valid() && old(history).InBounds() && (history, shown) == old(history).Forward(prefix, message)
    {
      if lines[pos] != message {
        if pos != |lines| - 1 {
          var added := AddLineRaw(message);
        } else {
          var added := AddLineRaw(message);
          if added {
            ResetPosition();
            return prefix;
          }
        }
      }
      shown := StepForward(prefix);
    }

    method StepForward(prefix: string) returns (shown: string)
      requires Valid() && pos < |lines|
      modifies this
      ensures Valid() && old(history).InBounds() && old(history).at < |old(history).log|
      ensures (history, shown) == old(history).Advance(prefix)
    {
      pos := pos + 1;
      history := history.(at := history.at + 1);
      if pos == |lines| {
        return prefix;
      }
      return prefix + lines[pos];
    }

    method PrevLine(current: string) returns (shown: string)
      requires Valid()
      modifies this
      ensures Valid() && old(history).InBounds() && (history, shown) == old(history).Prev(current)
    {
      shown := Back(Prefix(current), Message(current));
    }

    /** PrevLine once the text is split. */
    method Back(prefix: string, message: string) returns (shown: string)
      requires Valid()
      modifies this
      ensures Valid() && old(history).InBounds() && (history, shown) == old(history).Back(prefix, message)
    {
      if pos == 0 {
        if lines[pos] != message {
          var added := AddLineRaw(message);
          GoToOldest();
        }
        return prefix;
      }
      shown := BackFromLater(prefix, message);
    }

    method BackFromLater(prefix: string, message: string) returns (shown: string)
      requires Valid() && pos > 0
      modifies this
      ensures Valid() && old(history).InBounds() && (history, shown) == old(history).Back(prefix, message)
    {
      assert pos < |lines| ==> lines[pos] == history.log[history.at];
      if pos == |lines| || lines[pos] != message {
        ghost var before := history;
        var added := AddLineRaw(message);
        assert history == before.Add(message);
        if pos == 0 {
          return prefix;
        }
      }
      shown := StepBack(prefix);
    }

    method GoToOldest()
      requires Valid()
      modifies this
      ensures Valid() && old(history).InBounds() && history == old(history).(at := old(history).dropped)
    {
      pos := 0;
      history := history.(at := history.dropped);
    }

    method StepBack(prefix: string) returns (shown: string)
      requires Valid() && pos > 0
      modifies this
      ensures Valid() && old(history).InBounds() && history.InBounds() && old(history).at > old(history).dropped
      ensures history == old(history).(at := old(history).at - 1) && shown == prefix + history.log[history.at]
    {
      pos := pos - 1;
      history := history.(at := history.at - 1);
      return prefix + lines[pos];
    }
  }
}
