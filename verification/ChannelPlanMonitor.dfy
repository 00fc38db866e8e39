/** One Repairs issue for channel conflicts across all routers, with hysteresis. */
module ChannelPlanMonitor {
  import opened Options

  // The monitor keeps a few counters; what it promises is about the whole history of its calls.
  // `OwnMarks` and `CleanMarks` read that history, the lemmas say exactly when the issue appears
  // and when it goes.

  type EntryId = string

  /** A finding of a conflict type: the router entries in it and its line of text. */
  datatype Conflict = Conflict(entries: set<EntryId>, line: string)
  type Summary = seq<string>

  /** `conflicts` is what the fleet analysis reports at the time of the call. */
  datatype Op =
    | Evaluate(entry: EntryId, pollOk: bool, conflicts: seq<Conflict>)
    | Unregister(entry: EntryId, conflicts: seq<Conflict>)

  const CHANNEL_CONFLICT_POLLS := 2

  datatype State = State(streak: map<EntryId, nat>, cleanStreak: nat, summary: Option<Summary>, issue: Option<Summary>)

  const INIT := State(map[], 0, None, None)

  function Lines(conflicts: seq<Conflict>): Summary {
    seq(|conflicts|, i requires 0 <= i < |conflicts| => conflicts[i].line)
  }

  predicate Involves(conflicts: seq<Conflict>, e: EntryId) {
    exists c | c in conflicts :: e in c.entries
  }

  function Others(conflicts: seq<Conflict>, e: EntryId): (r: seq<Conflict>)
    ensures r == [] <==> forall c | c in conflicts :: e in c.entries
  {
    if conflicts == [] then []
    else if e in conflicts[0].entries then Others(conflicts[1..], e)
    else [conflicts[0]] + Others(conflicts[1..], e)
  }

  predicate Persistent(streak: map<EntryId, nat>) {
    exists e :: e in streak && streak[e] >= CHANNEL_CONFLICT_POLLS
  }

  function StreakAt(streak: map<EntryId, nat>, e: EntryId): nat {
    if e in streak then streak[e] else 0
  }

  function Raised(s: State, conflicts: seq<Conflict>): State {
    s.(summary := Some(Lines(conflicts)), issue := Some(Lines(conflicts)))
  }

  function Cleared(s: State): State {
    s.(summary := None, issue := None)
  }

  function Step(s: State, op: Op): State {
    match op
    case Evaluate(e, pollOk, conflicts) =>
      if !pollOk then s
      else if conflicts == [] then
        var t := s.(streak := map[], cleanStreak := s.cleanStreak + 1);
        if t.cleanStreak >= CHANNEL_CONFLICT_POLLS then Cleared(t) else t
      else
        var own := if Involves(conflicts, e) then StreakAt(s.streak, e) + 1 else 0;
        var t := s.(streak := s.streak[e := own], cleanStreak := 0);
        if t.summary.None? && !Persistent(t.streak) then t else Raised(t, conflicts)
    case Unregister(e, conflicts) =>
      var t := s.(streak := map[], cleanStreak := 0);
      if t.summary.None? then t
      else if Others(conflicts, e) != [] then Raised(t, Others(conflicts, e))
      else Cleared(t)
  }

  function Run(history: seq<Op>): State {
    if history == [] then INIT else Step(Run(history[..|history| - 1]), history[|history| - 1])
  }

  predicate Active(history: seq<Op>) {
    Run(history).issue.Some?
  }

  // --------------------------------------------------- reading the history

  predicate Clean(op: Op) {
    op.Evaluate? && op.pollOk && op.conflicts == []
  }

  predicate Conflicted(op: Op) {
    op.Evaluate? && op.pollOk && op.conflicts != []
  }

  /** What one call means for a streak: it counts, it ends the streak, or it is neutral. */
  datatype Mark = Counts | Ends | Neutral

  /** For the conflict streak of `e`: `e` polled and saw itself in a conflict, or something was clean. */
  function OwnMark(op: Op, e: EntryId): Mark {
    if Conflicted(op) && op.entry == e then (if Involves(op.conflicts, e) then Counts else Ends)
    else if Clean(op) || op.Unregister? then Ends
    else Neutral
  }

  function CleanMark(op: Op): Mark {
    if Clean(op) then Counts else if Conflicted(op) || op.Unregister? then Ends else Neutral
  }

  function OwnMarks(history: seq<Op>, e: EntryId): seq<Mark> {
    seq(|history|, i requires 0 <= i < |history| => OwnMark(history[i], e))
  }

  function CleanMarks(history: seq<Op>): seq<Mark> {
    seq(|history|, i requires 0 <= i < |history| => CleanMark(history[i]))
  }

  function Streak(marks: seq<Mark>): nat {
    if marks == [] then 0
    else
      match marks[|marks| - 1]
      case Counts => Streak(marks[..|marks| - 1]) + 1
      case Ends => 0
      case Neutral => Streak(marks[..|marks| - 1])
  }

  /** A call that counts, with nothing after it that ends the streak. */
  ghost predicate StillCounts(marks: seq<Mark>, i: nat) {
    i < |marks| && marks[i].Counts? && forall k | i < k < |marks| :: !marks[k].Ends?
  }

  ghost predicate Once(marks: seq<Mark>) {
    exists i :: StillCounts(marks, i)
  }

  ghost predicate Twice(marks: seq<Mark>) {
    exists i, j :: i < j && StillCounts(marks, i) && StillCounts(marks, j)
  }

  /** Twice in a row `e` saw itself in a conflict, with nothing clean in between. */
  ghost predicate ConflictTwice(history: seq<Op>, e: EntryId) {
    Twice(OwnMarks(history, e))
  }

  ghost predicate CleanTwice(history: seq<Op>) {
    Twice(CleanMarks(history))
  }

  lemma {:induction false} StreakCounts(marks: seq<Mark>)
    ensures Streak(marks) >= 1 <==> Once(marks)
    ensures Streak(marks) >= 2 <==> Twice(marks)
  {
    if marks != [] {
      var n := |marks| - 1;
      var earlier := marks[..n];
      StreakCounts(earlier);
      if marks[n].Ends? {
        assert forall i :: !StillCounts(marks, i);
      } else {
        assert forall i | 0 <= i < n :: StillCounts(marks, i) <==> StillCounts(earlier, i);
        assert StillCounts(marks, n) <==> marks[n].Counts?;
      }
    }
  }

  // ------------------------------------------------------------ main results

  /** The counters are a summary of the whole history. */
  lemma {:induction false} CountersReadHistory(history: seq<Op>, e: EntryId)
    ensures Run(history).cleanStreak == Streak(CleanMarks(history))
    ensures StreakAt(Run(history).streak, e) == Streak(OwnMarks(history, e))
  {
    if history != [] {
      var n := |history| - 1;
      CountersReadHistory(history[..n], e);
      assert CleanMarks(history)[..n] == CleanMarks(history[..n]);
      assert OwnMarks(history, e)[..n] == OwnMarks(history[..n], e);
    }
  }

  /** The registry shows what the monitor remembers, and nothing persistent goes unraised. */
  lemma {:induction false} RunConsistent(history: seq<Op>)
    ensures Run(history).issue == Run(history).summary
    ensures Run(history).summary.None? ==> !Persistent(Run(history).streak)
  {
    if history != [] {
      RunConsistent(history[..|history| - 1]);
    }
  }

  /** The issue appears exactly when the polling router sees itself in a conflict for
      the second time in a row with no clean evaluation between. */
  lemma RaisedIff(history: seq<Op>, op: Op)
    requires !Active(history)
    ensures Active(history + [op]) <==> Conflicted(op) && ConflictTwice(history + [op], op.entry)
  {
    var all := history + [op];
    assert all[..|all| - 1] == history;
    RunConsistent(history);
    CountersReadHistory(history, op.entry);
    CountersReadHistory(all, op.entry);
    StreakCounts(OwnMarks(all, op.entry));
    var s := Run(history);
    if Conflicted(op) {
      var own := if Involves(op.conflicts, op.entry) then StreakAt(s.streak, op.entry) + 1 else 0;
      var streak := s.streak[op.entry := own];
      assert own == StreakAt(streak, op.entry) == Streak(OwnMarks(all, op.entry));
      if Persistent(streak) {
        var e :| e in streak && streak[e] >= CHANNEL_CONFLICT_POLLS;
        assert e == op.entry || e in s.streak;
      } else {
        assert own < CHANNEL_CONFLICT_POLLS;
      }
    }
  }

  /** It goes exactly after two clean evaluations in a row, or when a router in every
      remaining conflict is unregistered. */
  lemma ClearedIff(history: seq<Op>, op: Op)
    requires Active(history)
    ensures !Active(history + [op]) <==>
            || (Clean(op) && CleanTwice(history + [op]))
            || (op.Unregister? && forall c | c in op.conflicts :: op.entry in c.entries)
  {
    var all := history + [op];
    assert all[..|all| - 1] == history;
    RunConsistent(history);
    CountersReadHistory(all, op.entry);
    StreakCounts(CleanMarks(all));
  }

  /** The text shown is never older than the last call that saw conflicts. */
  lemma TextIsCurrent(history: seq<Op>, op: Op)
    requires Active(history + [op])
    ensures Conflicted(op) ==> Run(history + [op]).issue == Some(Lines(op.conflicts))
    ensures op.Unregister? ==> Run(history + [op]).issue == Some(Lines(Others(op.conflicts, op.entry)))
    ensures !Conflicted(op) && !op.Unregister? ==> Run(history + [op]).issue == Run(history).issue
  {
    assert (history + [op])[..|history|] == history;
    RunConsistent(history);
  }

  // -------------------------------------------------------------- the object

  class Monitor {
    var streak: map<EntryId, nat>
    var cleanStreak: nat
    var summary: Option<Summary>
    ghost var issue: Option<Summary>

    ghost function View(): State
      reads this
    {
      State(streak, cleanStreak, summary, issue)
    }

    constructor ()
      ensures View() == INIT
    {
      streak, cleanStreak, summary, issue := map[], 0, None, None;
    }

    method Evaluate(e: EntryId, pollOk: bool, conflicts: seq<Conflict>)
      requires issue == summary
      modifies this
      ensures View() == Step(old(View()), Op.Evaluate(e, pollOk, conflicts))
    {
      if !pollOk {
        return;
      }
      if conflicts == [] {
        streak := map[];
        cleanStreak := cleanStreak + 1;
        if cleanStreak >= CHANNEL_CONFLICT_POLLS {
          Clear();
        }
        return;
      }
      cleanStreak := 0;
      var involved := exists c | c in conflicts :: e in c.entries;
      streak := streak[e := if involved then (if e in streak then streak[e] else 0) + 1 else 0];
      if summary.None? && !Persistent(streak) {
        return;
      }
      Raise(conflicts);
    }

    method Unregister(e: EntryId, conflicts: seq<Conflict>)
      requires issue == summary
      modifies this
      ensures View() == Step(old(View()), Op.Unregister(e, conflicts))
    {
      streak := map[];
      cleanStreak := 0;
      if summary.None? {
        return;
      }
      var remaining := Others(conflicts, e);
      if remaining != [] {
        Raise(remaining);
      } else {
        Clear();
      }
    }

    method Raise(conflicts: seq<Conflict>)
      requires issue == summary
      modifies this`summary, this`issue
      ensures View() == Raised(old(View()), conflicts)
    {
      var text := Lines(conflicts);
      if summary == Some(text) {
        return;
      }
      summary := Some(text);
      issue := Some(text);
    }

    method Clear()
      requires issue == summary
      modifies this`summary, this`issue
      ensures View() == Cleared(old(View()))
    {
      if summary.None? {
        return;
      }
      summary := None;
      issue := None;
    }
  }
}
