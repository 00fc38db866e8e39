/** Reading logd's ring buffer incrementally: every line at most once, and what was lost is counted. */
module LogCursor {
  import opened Options
  import opened StableSort

  /** A log entry; entries without a usable integer id are `Malformed`. */
  datatype Line = Line(id: int, time: Option<int>)
  datatype RawEntry = Malformed | Usable(line: Line)

  datatype Cursor = Cursor(lastId: Option<int>, lastTime: Option<int>)
  datatype IngestResult = IngestResult(lines: seq<Line>, missed: int, baseline: bool)

  const START := Cursor(None, None)

  function IdOf(): Line -> int {
    (l: Line) => l.id
  }

  function Usables(entries: seq<RawEntry>): seq<Line> {
    if entries == [] then []
    else (if entries[0].Usable? then [entries[0].line] else []) + Usables(entries[1..])
  }

  function Above(lines: seq<Line>, id: int): seq<Line> {
    if lines == [] then [] else (if lines[0].id > id then [lines[0]] else []) + Above(lines[1..], id)
  }

  function FirstWithId(lines: seq<Line>, id: int): (r: Option<Line>)
    ensures r.Some? ==> r.value in lines && r.value.id == id
    ensures r.None? <==> forall l | l in lines :: l.id != id
  {
    if lines == [] then None else if lines[0].id == id then Some(lines[0]) else FirstWithId(lines[1..], id)
  }

  /** The remembered last line has vanished or changed although older ids are still there. */
  predicate Restarted(c: Cursor, sorted: seq<Line>)
    requires sorted != []
  {
    if c.lastId.None? || sorted[0].id > c.lastId.value then false
    else
      var anchor := FirstWithId(sorted, c.lastId.value);
      anchor.None? || anchor.value.time != c.lastTime
  }

  function Ingested(c: Cursor, entries: seq<RawEntry>): (Cursor, IngestResult) {
    IngestSorted(c, SortBy(Usables(entries), IdOf()))
  }

  function IngestSorted(c: Cursor, sorted: seq<Line>): (Cursor, IngestResult) {
    if sorted == [] then (c, IngestResult([], 0, false))
    else
      var newest := sorted[|sorted| - 1];
      (Cursor(Some(newest.id), newest.time),
       if IsBaseline(c, sorted) then IngestResult(sorted, 0, true) else NewLines(c.lastId.value, sorted))
  }

  predicate IsBaseline(c: Cursor, sorted: seq<Line>)
    requires sorted != []
  {
    c.lastId.None? || sorted[|sorted| - 1].id < c.lastId.value || Restarted(c, sorted)
  }

  function NewLines(last: int, sorted: seq<Line>): IngestResult {
    var lines := Above(sorted, last);
    IngestResult(lines, if lines != [] then lines[0].id - last - 1 else 0, false)
  }

  // --------------------------------------------------- restart detection

  /** A restart stays undetected exactly when the answer lies above the last id, or
      happens to repeat the remembered line. */
  lemma BaselineIff(c: Cursor, entries: seq<RawEntry>)
    requires c.lastId.Some? && Usables(entries) != []
    requires forall l, m | l in Usables(entries) && m in Usables(entries) && l.id == m.id :: l == m
    ensures !Ingested(c, entries).1.baseline <==>
            || (forall l | l in Usables(entries) :: l.id > c.lastId.value)
            || Line(c.lastId.value, c.lastTime) in Usables(entries)
  {
    var lines := Usables(entries);
    SortIsPermutation(lines, IdOf());
    Extremes(SortBy(lines, IdOf()));
    BaselineOfSorted(c, SortBy(lines, IdOf()));
  }

  lemma BaselineOfSorted(c: Cursor, sorted: seq<Line>)
    requires c.lastId.Some? && sorted != []
    requires forall l, m | l in sorted && m in sorted && l.id == m.id :: l == m
    requires forall l | l in sorted :: sorted[0].id <= l.id <= sorted[|sorted| - 1].id
    ensures !IngestSorted(c, sorted).1.baseline <==>
            || (forall l | l in sorted :: l.id > c.lastId.value)
            || Line(c.lastId.value, c.lastTime) in sorted
  {
    var remembered := Line(c.lastId.value, c.lastTime);
    var anchor := FirstWithId(sorted, c.lastId.value);
    assert sorted[0] in sorted;
    if anchor.Some? {
      assert anchor.value in sorted && anchor.value.id == remembered.id;
    }
  }

  lemma Extremes(sorted: seq<Line>)
    requires SortedBy(sorted, IdOf()) && sorted != []
    ensures forall l | l in sorted :: sorted[0].id <= l.id <= sorted[|sorted| - 1].id
  {
    forall l | l in sorted ensures sorted[0].id <= l.id <= sorted[|sorted| - 1].id {
      var i :| 0 <= i < |sorted| && sorted[i] == l;
      SortedOrder(sorted, IdOf(), 0, i);
      SortedOrder(sorted, IdOf(), i, |sorted| - 1);
    }
  }

  // ------------------------------------------------ one log, many fetches

  /** A log without gaps in its ids. */
  ghost predicate Consecutive(log: seq<Line>) {
    forall i | 0 <= i < |log| :: log[i].id == log[0].id + i
  }

  /** One fetch: the buffer held `log[lo..hi]`; the answer lists it in any order. */
  datatype Fetch = Fetch(entries: seq<RawEntry>, lo: nat, hi: nat)

  ghost predicate Answers(log: seq<Line>, f: Fetch) {
    f.lo <= f.hi <= |log| && multiset(Usables(f.entries)) == multiset(log[f.lo..f.hi])
  }

  /** The fetches answer from one log that only grows; `pos` lines were seen before. */
  ghost predicate FetchesOf(log: seq<Line>, pos: nat, fetches: seq<Fetch>)
    decreases |fetches|
  {
    fetches == [] ||
    (&& Answers(log, fetches[0])
     && (fetches[0].lo < fetches[0].hi ==> pos <= fetches[0].hi)
     && FetchesOf(log, PosAfter(pos, fetches[0]), fetches[1..]))
  }

  function PosAfter(pos: nat, f: Fetch): nat {
    if f.lo < f.hi then f.hi else pos
  }

  function EndPos(pos: nat, fetches: seq<Fetch>): nat
    decreases |fetches|
  {
    if fetches == [] then pos else EndPos(PosAfter(pos, fetches[0]), fetches[1..])
  }

  /** What all the calls together did, from cursor `c` on. */
  datatype Totals = Totals(cursor: Cursor, delivered: seq<Line>, missed: int, baselines: nat)

  function IngestAll(c: Cursor, fetches: seq<Fetch>): Totals
    decreases |fetches|
  {
    if fetches == [] then Totals(c, [], 0, 0)
    else
      var (next, r) := Ingested(c, fetches[0].entries);
      var rest := IngestAll(next, fetches[1..]);
      if r.baseline then rest.(baselines := rest.baselines + 1)
      else rest.(delivered := r.lines + rest.delivered, missed := r.missed + rest.missed)
  }

  /** The cursor remembers the line just before position `pos` of the log. */
  ghost predicate At(c: Cursor, log: seq<Line>, pos: nat) {
    0 < pos <= |log| && c == Cursor(Some(log[pos - 1].id), log[pos - 1].time)
  }

  lemma SliceSorted(log: seq<Line>, f: Fetch)
    requires Consecutive(log) && Answers(log, f)
    ensures SortBy(Usables(f.entries), IdOf()) == log[f.lo..f.hi]
  {
    var slice := log[f.lo..f.hi];
    SortPermutation(Usables(f.entries), slice, IdOf());
  }

  lemma Answered(c: Cursor, log: seq<Line>, f: Fetch)
    requires Consecutive(log) && Answers(log, f)
    ensures Ingested(c, f.entries) == IngestSorted(c, log[f.lo..f.hi])
  {
    SliceSorted(log, f);
  }

  lemma {:induction false} AboveSlice(log: seq<Line>, lo: nat, hi: nat, pos: nat)
    requires Consecutive(log) && lo <= hi <= |log| && 0 < pos <= hi
    ensures Above(log[lo..hi], log[pos - 1].id) == log[if lo < pos then pos else lo..hi]
    decreases hi - lo
  {
    if lo < hi {
      assert log[lo..hi][1..] == log[lo + 1..hi];
      AboveSlice(log, lo + 1, hi, pos);
    }
  }

  /** One fetch of the same log is never taken for a restart. It delivers what the
      buffer shows above the last position and counts what the buffer lost. */
  lemma IngestContinues(c: Cursor, log: seq<Line>, pos: nat, f: Fetch)
    requires Consecutive(log) && At(c, log, pos) && Answers(log, f) && f.lo < f.hi && pos <= f.hi
    ensures At(Ingested(c, f.entries).0, log, f.hi)
    ensures Ingested(c, f.entries).1 == OwnResult(log, pos, f)
  {
    Answered(c, log, f);
    IngestSlice(c, log, pos, f);
  }

  /** What a fetch contributes when the lines before `pos` were seen already. */
  ghost function OwnResult(log: seq<Line>, pos: nat, f: Fetch): IngestResult
    requires f.lo < f.hi <= |log| && pos <= f.hi
  {
    if f.lo < pos then IngestResult(log[pos..f.hi], 0, false)
    else IngestResult(log[f.lo..f.hi], f.lo - pos, false)
  }

  lemma IngestSlice(c: Cursor, log: seq<Line>, pos: nat, f: Fetch)
    requires Consecutive(log) && At(c, log, pos) && f.lo < f.hi <= |log| && pos <= f.hi
    ensures IngestSorted(c, log[f.lo..f.hi]) ==
            (Cursor(Some(log[f.hi - 1].id), log[f.hi - 1].time), OwnResult(log, pos, f))
  {
    SliceIsNoBaseline(c, log, pos, f.lo, f.hi);
    SliceLines(log, pos, f);
    NextOfSlice(c, log, f.lo, f.hi);
  }

  lemma NextOfSlice(c: Cursor, log: seq<Line>, lo: nat, hi: nat)
    requires c.lastId.Some? && lo < hi <= |log| && !IsBaseline(c, log[lo..hi])
    ensures IngestSorted(c, log[lo..hi]) ==
            (Cursor(Some(log[hi - 1].id), log[hi - 1].time), NewLines(c.lastId.value, log[lo..hi]))
  {
    var slice := log[lo..hi];
    assert slice[|slice| - 1] == log[hi - 1];
    NextOf(c, slice, log[hi - 1]);
  }

  lemma NextOf(c: Cursor, sorted: seq<Line>, newest: Line)
    requires c.lastId.Some? && sorted != [] && sorted[|sorted| - 1] == newest && !IsBaseline(c, sorted)
    ensures IngestSorted(c, sorted) == (Cursor(Some(newest.id), newest.time), NewLines(c.lastId.value, sorted))
  {
  }

  lemma SliceLines(log: seq<Line>, pos: nat, f: Fetch)
    requires Consecutive(log) && 0 < pos <= f.hi <= |log| && f.lo < f.hi
    ensures NewLines(log[pos - 1].id, log[f.lo..f.hi]) == OwnResult(log, pos, f)
  {
    AboveSlice(log, f.lo, f.hi, pos);
    var from := if f.lo < pos then pos else f.lo;
    assert from < f.hi ==> log[from..f.hi][0] == log[from];
  }

  lemma SliceIsNoBaseline(c: Cursor, log: seq<Line>, pos: nat, lo: nat, hi: nat)
    requires Consecutive(log) && At(c, log, pos) && lo < hi <= |log| && pos <= hi
    ensures !IsBaseline(c, log[lo..hi])
  {
    if lo < pos {
      SliceShowsLast(c, log, pos, lo, hi);
    } else {
      SliceIsAbove(c, log, pos, lo, hi);
    }
  }

  lemma SliceShowsLast(c: Cursor, log: seq<Line>, pos: nat, lo: nat, hi: nat)
    requires Consecutive(log) && At(c, log, pos) && lo < pos <= hi <= |log|
    ensures !IsBaseline(c, log[lo..hi])
  {
    var sorted := log[lo..hi];
    assert forall i | 0 <= i < |sorted| :: sorted[i] == log[lo + i];
    assert Consecutive(sorted);
    ConsecutiveShows(c, sorted, pos - 1 - lo);
  }

  lemma ConsecutiveShows(c: Cursor, sorted: seq<Line>, k: nat)
    requires Consecutive(sorted) && k < |sorted| && c == Cursor(Some(sorted[k].id), sorted[k].time)
    ensures !IsBaseline(c, sorted)
  {
    AnchorIn(sorted, k);
    IdsCount(sorted, k, |sorted| - 1);
    NoBaselineAt(c, sorted, sorted[k], sorted[|sorted| - 1]);
  }

  lemma SliceIsAbove(c: Cursor, log: seq<Line>, pos: nat, lo: nat, hi: nat)
    requires Consecutive(log) && At(c, log, pos) && pos <= lo < hi <= |log|
    ensures !IsBaseline(c, log[lo..hi])
  {
    var sorted := log[lo..hi];
    assert sorted[0] == log[lo] && sorted[|sorted| - 1] == log[hi - 1];
    IdsCount(log, lo, hi - 1);
    IdsCount(log, pos - 1, lo);
    NoBaselineAbove(c, sorted, log[lo], log[hi - 1]);
  }

  lemma NoBaselineAbove(c: Cursor, sorted: seq<Line>, oldest: Line, newest: Line)
    requires sorted != [] && c.lastId.Some? && sorted[0] == oldest && sorted[|sorted| - 1] == newest
    requires c.lastId.value < oldest.id <= newest.id
    ensures !IsBaseline(c, sorted)
  {
  }

  lemma IdsCount(log: seq<Line>, i: nat, j: nat)
    requires Consecutive(log) && i < |log| && j < |log|
    ensures log[j].id - log[i].id == j - i
  {
  }

  lemma NoBaselineAt(c: Cursor, sorted: seq<Line>, last: Line, newest: Line)
    requires sorted != [] && c == Cursor(Some(last.id), last.time) && FirstWithId(sorted, last.id) == Some(last)
    requires sorted[|sorted| - 1] == newest && newest.id >= last.id
    ensures !IsBaseline(c, sorted)
  {
  }

  lemma AnchorIn(sorted: seq<Line>, k: nat)
    requires Consecutive(sorted) && k < |sorted|
    ensures FirstWithId(sorted, sorted[k].id) == Some(sorted[k])
  {
    assert sorted[k] in sorted;
    var first := FirstWithId(sorted, sorted[k].id);
    if first.Some? {
      var j :| 0 <= j < |sorted| && sorted[j] == first.value;
      IdsCount(sorted, j, k);
    }
  }

  /** Some answer shows line `i` before the fetches have moved past it. */
  ghost predicate ShownInTime(pos: nat, fetches: seq<Fetch>, i: nat)
    decreases |fetches|
  {
    fetches != [] &&
    ((pos <= i && fetches[0].lo <= i < fetches[0].hi) || ShownInTime(PosAfter(pos, fetches[0]), fetches[1..], i))
  }

  lemma {:induction false} NothingBelow(log: seq<Line>, pos: nat, fetches: seq<Fetch>, i: nat)
    requires i < pos && FetchesOf(log, pos, fetches)
    ensures !ShownInTime(pos, fetches, i)
    decreases |fetches|
  {
    if fetches != [] {
      NothingBelow(log, PosAfter(pos, fetches[0]), fetches[1..], i);
    }
  }

  /** Delivered in id order, hence at most once. */
  ghost predicate InIdOrder(lines: seq<Line>) {
    forall i, j | 0 <= i < j < |lines| :: lines[i].id < lines[j].id
  }

  ghost predicate Within(lines: seq<Line>, low: int, high: int) {
    forall l | l in lines :: low < l.id <= high
  }

  /** After a cursor stood at `pos`: exactly once, in order, conserving. */
  ghost predicate GoodRun(t: Totals, log: seq<Line>, pos: nat, fetches: seq<Fetch>)
    requires 0 < pos <= |log|
  {
    var end := EndPos(pos, fetches);
    && pos <= end <= |log|
    && At(t.cursor, log, end)
    && t.baselines == 0
    && |t.delivered| + t.missed == log[end - 1].id - log[pos - 1].id
    && InIdOrder(t.delivered)
    && Within(t.delivered, log[pos - 1].id, log[end - 1].id)
    && forall i | pos <= i < |log| :: log[i] in t.delivered <==> ShownInTime(pos, fetches, i)
  }

  lemma {:induction false} RunContinues(c: Cursor, log: seq<Line>, pos: nat, fetches: seq<Fetch>)
    requires Consecutive(log) && At(c, log, pos) && FetchesOf(log, pos, fetches)
    ensures GoodRun(IngestAll(c, fetches), log, pos, fetches)
    decreases |fetches|
  {
    if fetches != [] {
      var f, rest := fetches[0], fetches[1..];
      assert fetches == [f] + rest;
      LinesFirst(c, f, rest);
      if f.lo < f.hi {
        IngestContinues(c, log, pos, f);
        var (next, r) := Ingested(c, f.entries);
        RunContinues(next, log, f.hi, rest);
        DeliverMore(log, pos, f, rest, r, IngestAll(next, rest));
      } else {
        IngestNothing(c, log, f);
        RunContinues(c, log, pos, rest);
        SkipEmpty(IngestAll(c, rest), log, pos, f, rest);
      }
    }
  }

  lemma LinesFirst(c: Cursor, f: Fetch, rest: seq<Fetch>)
    ensures var (next, r) := Ingested(c, f.entries);
            var t := IngestAll(next, rest);
            !r.baseline ==> IngestAll(c, [f] + rest) == t.(delivered := r.lines + t.delivered,
              missed := r.missed + t.missed)
    ensures Ingested(c, f.entries) == (c, IngestResult([], 0, false)) ==> IngestAll(c, [f] + rest) == IngestAll(c, rest)
  {
    assert ([f] + rest)[1..] == rest;
    assert [] + IngestAll(c, rest).delivered == IngestAll(c, rest).delivered;
  }

  lemma IngestNothing(c: Cursor, log: seq<Line>, f: Fetch)
    requires Consecutive(log) && Answers(log, f) && f.lo == f.hi
    ensures Ingested(c, f.entries) == (c, IngestResult([], 0, false))
  {
    Answered(c, log, f);
  }

  lemma SkipEmpty(t: Totals, log: seq<Line>, pos: nat, f: Fetch, rest: seq<Fetch>)
    requires 0 < pos <= |log| && GoodRun(t, log, pos, rest) && f.lo == f.hi
    ensures GoodRun(t, log, pos, [f] + rest)
  {
    var all := [f] + rest;
    assert all[1..] == rest && PosAfter(pos, f) == pos;
    assert forall i :: ShownInTime(pos, all, i) <==> ShownInTime(pos, rest, i);
  }

  lemma DeliverMore(log: seq<Line>, pos: nat, f: Fetch, rest: seq<Fetch>, r: IngestResult, t: Totals)
    requires Consecutive(log) && 0 < pos <= f.hi <= |log| && f.lo < f.hi
    requires r == OwnResult(log, pos, f)
    requires GoodRun(t, log, f.hi, rest) && FetchesOf(log, f.hi, rest)
    ensures GoodRun(t.(delivered := r.lines + t.delivered, missed := r.missed + t.missed), log, pos, [f] + rest)
  {
    assert ([f] + rest)[1..] == rest;
    DeliverInOrder(r.lines, t.delivered, log, pos, f.hi, EndPos(f.hi, rest));
    forall i | pos <= i < |log|
      ensures log[i] in r.lines + t.delivered <==> ShownInTime(pos, [f] + rest, i)
    {
      DeliverShown(log, pos, f, rest, t.delivered, i);
    }
  }

  lemma DeliverInOrder(first: seq<Line>, second: seq<Line>, log: seq<Line>, pos: nat, mid: nat, end: nat)
    requires Consecutive(log) && 0 < pos <= mid <= end <= |log|
    requires exists from | pos <= from <= mid :: first == log[from..mid]
    requires InIdOrder(second) && Within(second, log[mid - 1].id, log[end - 1].id)
    ensures InIdOrder(first + second)
    ensures Within(first + second, log[pos - 1].id, log[end - 1].id)
  {
    var from :| pos <= from <= mid && first == log[from..mid];
    IdsCount(log, pos - 1, mid - 1);
    IdsCount(log, mid - 1, end - 1);
    SliceIsWithin(log, pos, from, mid);
    InOrderAppend(first, second, log[pos - 1].id, log[mid - 1].id, log[end - 1].id);
  }

  lemma SliceIsWithin(log: seq<Line>, pos: nat, from: nat, mid: nat)
    requires Consecutive(log) && 0 < pos <= from <= mid <= |log|
    ensures InIdOrder(log[from..mid]) && Within(log[from..mid], log[pos - 1].id, log[mid - 1].id)
  {
    forall l | l in log[from..mid] ensures log[pos - 1].id < l.id <= log[mid - 1].id {
      var i :| 0 <= i < mid - from && log[from..mid][i] == l;
      assert log[from + i] == l;
    }
  }

  lemma InOrderAppend(first: seq<Line>, second: seq<Line>, low: int, mid: int, high: int)
    requires InIdOrder(first) && Within(first, low, mid) && InIdOrder(second) && Within(second, mid, high)
    requires low <= mid <= high
    ensures InIdOrder(first + second) && Within(first + second, low, high)
  {
    var all := first + second;
    forall i, j | 0 <= i < j < |all| ensures all[i].id < all[j].id {
      if i < |first| <= j { assert all[i] in first && all[j] in second; }
    }
  }

  lemma DeliverShown(log: seq<Line>, pos: nat, f: Fetch, rest: seq<Fetch>, later: seq<Line>, i: nat)
    requires Consecutive(log) && 0 < pos <= f.hi <= |log| && f.lo < f.hi && pos <= i < |log|
    requires FetchesOf(log, f.hi, rest) && Within(later, log[f.hi - 1].id, log[|log| - 1].id)
    requires i >= f.hi ==> (log[i] in later <==> ShownInTime(f.hi, rest, i))
    ensures log[i] in OwnResult(log, pos, f).lines + later <==> ShownInTime(pos, [f] + rest, i)
  {
    assert ([f] + rest)[1..] == rest;
    var own := OwnResult(log, pos, f).lines;
    var from := if f.lo < pos then pos else f.lo;
    assert own == log[from..f.hi];
    if i < f.hi {
      NothingBelow(log, f.hi, rest, i);
      assert log[i] !in later;
      if from <= i { assert own[i - from] == log[i]; }
    } else {
      assert log[i] !in own;
    }
  }

  function FirstNonEmpty(fetches: seq<Fetch>): (b: nat)
    ensures b <= |fetches|
    ensures b < |fetches| ==> fetches[b].lo != fetches[b].hi
    ensures forall k | 0 <= k < b :: fetches[k].lo == fetches[k].hi
  {
    if fetches == [] || fetches[0].lo != fetches[0].hi then 0 else 1 + FirstNonEmpty(fetches[1..])
  }

  ghost predicate OneBaseline(t: Totals, log: seq<Line>, pos: nat, later: seq<Fetch>) {
    0 < pos <= |log| && t.baselines == 1 && GoodRun(t.(baselines := 0), log, pos, later)
  }

  lemma FirstAnswerIsBaseline(log: seq<Line>, f: Fetch, rest: seq<Fetch>)
    requires Consecutive(log) && Answers(log, f) && f.lo < f.hi && FetchesOf(log, f.hi, rest)
    ensures OneBaseline(IngestAll(START, [f] + rest), log, f.hi, rest)
  {
    Answered(START, log, f);
    var (next, r) := Ingested(START, f.entries);
    FirstIngest(log, f.lo, f.hi);
    RunContinues(next, log, f.hi, rest);
    var t := IngestAll(next, rest);
    BaselineFirst(START, f, rest);
    assert t.(baselines := 1).(baselines := 0) == t;
  }

  lemma FirstIngest(log: seq<Line>, lo: nat, hi: nat)
    requires lo < hi <= |log|
    ensures At(IngestSorted(START, log[lo..hi]).0, log, hi) && IngestSorted(START, log[lo..hi]).1.baseline
  {
    var sorted := log[lo..hi];
    FirstOf(sorted);
    assert sorted[|sorted| - 1] == log[hi - 1];
  }

  lemma FirstOf(sorted: seq<Line>)
    requires sorted != []
    ensures var newest := sorted[|sorted| - 1];
            IngestSorted(START, sorted) == (Cursor(Some(newest.id), newest.time), IngestResult(sorted, 0, true))
  {
  }

  lemma BaselineFirst(c: Cursor, f: Fetch, rest: seq<Fetch>)
    requires Ingested(c, f.entries).1.baseline
    ensures var t := IngestAll(Ingested(c, f.entries).0, rest);
            IngestAll(c, [f] + rest) == t.(baselines := t.baselines + 1)
  {
    assert ([f] + rest)[1..] == rest;
  }

  lemma EmptyAnswerChangesNothing(log: seq<Line>, f: Fetch, rest: seq<Fetch>)
    requires Consecutive(log) && Answers(log, f) && f.lo == f.hi
    ensures IngestAll(START, [f] + rest) == IngestAll(START, rest)
  {
    IngestNothing(START, log, f);
    LinesFirst(START, f, rest);
  }

  /** `t` is right for the fetches: nothing before the first non-empty answer, which is the
      only baseline; afterwards a good run. */
  ghost predicate RightTotals(t: Totals, log: seq<Line>, fetches: seq<Fetch>) {
    var b := FirstNonEmpty(fetches);
    if b == |fetches| then t == Totals(START, [], 0, 0)
    else OneBaseline(t, log, fetches[b].hi, fetches[b + 1..])
  }

  /** A whole run from a new cursor: only the first non-empty answer is a baseline; what
      is delivered and what is missed afterwards together are exactly the ids since then. */
  lemma {:induction false} ExactlyOnce(log: seq<Line>, fetches: seq<Fetch>)
    requires Consecutive(log) && FetchesOf(log, 0, fetches)
    ensures RightTotals(IngestAll(START, fetches), log, fetches)
    decreases |fetches|
  {
    if fetches != [] {
      var f, rest := fetches[0], fetches[1..];
      assert fetches == [f] + rest;
      if f.lo < f.hi {
        FirstAnswerIsBaseline(log, f, rest);
        FirstCounts(IngestAll(START, fetches), log, fetches);
      } else {
        ExactlyOnce(log, rest);
        EmptyAnswerChangesNothing(log, f, rest);
        OneFetchLater(IngestAll(START, rest), log, fetches);
      }
    }
  }

  lemma FirstCounts(t: Totals, log: seq<Line>, fetches: seq<Fetch>)
    requires fetches != [] && fetches[0].lo < fetches[0].hi && OneBaseline(t, log, fetches[0].hi, fetches[1..])
    ensures RightTotals(t, log, fetches)
  {
  }

  lemma OneFetchLater(t: Totals, log: seq<Line>, fetches: seq<Fetch>)
    requires fetches != [] && fetches[0].lo == fetches[0].hi && RightTotals(t, log, fetches[1..])
    ensures RightTotals(t, log, fetches)
  {
    var rest, b := fetches[1..], FirstNonEmpty(fetches[1..]);
    assert FirstNonEmpty(fetches) == b + 1;
    if b < |rest| {
      assert fetches[b + 1] == rest[b] && fetches[b + 1 + 1..] == rest[b + 1..];
    }
  }

  // ------------------------------------------------------------ the object

  class LogCursor {
    var lastId: Option<int>
    var lastTime: Option<int>

    ghost function View(): Cursor
      reads this
    {
      Cursor(lastId, lastTime)
    }

    constructor ()
      ensures View() == START
    {
      lastId, lastTime := None, None;
    }

    method Ingest(entries: seq<RawEntry>) returns (r: IngestResult)
      modifies this
      ensures (View(), r) == Ingested(old(View()), entries)
    {
      ghost var before := View();
      var usable := CollectUsable(entries);
      var valid := SortBy(usable, IdOf());
      assert Ingested(before, entries) == IngestSorted(before, valid);
      if valid == [] {
        return IngestResult([], 0, false);
      }
      var newest := valid[|valid| - 1];
      var restarted := LooksRestarted(valid);
      if lastId.None? || newest.id < lastId.value || restarted {
        r := IngestResult(valid, 0, true);
      } else {
        var lines := CollectAbove(valid, lastId.value);
        var missed := 0;
        if lines != [] && lines[0].id > lastId.value + 1 {
          missed := lines[0].id - lastId.value - 1;
        }
        AboveMembers(valid, lastId.value);
        r := IngestResult(lines, missed, false);
      }
      lastId := Some(newest.id);
      lastTime := newest.time;
    }

    method LooksRestarted(valid: seq<Line>) returns (b: bool)
      requires valid != []
      ensures b == Restarted(View(), valid)
    {
      if lastId.None? || valid[0].id > lastId.value {
        return false;
      }
      var i := 0;
      while i < |valid| && valid[i].id != lastId.value
        invariant 0 <= i <= |valid|
        invariant FirstWithId(valid, lastId.value) == FirstWithId(valid[i..], lastId.value)
      {
        i := i + 1;
      }
      return i == |valid| || valid[i].time != lastTime;
    }
  }

  method CollectUsable(entries: seq<RawEntry>) returns (lines: seq<Line>)
    ensures lines == Usables(entries)
  {
    lines := [];
    for i := 0 to |entries|
      invariant lines + Usables(entries[i..]) == Usables(entries)
    {
      if entries[i].Usable? {
        lines := lines + [entries[i].line];
      }
    }
  }

  method CollectAbove(valid: seq<Line>, id: int) returns (lines: seq<Line>)
    ensures lines == Above(valid, id)
  {
    lines := [];
    for i := 0 to |valid|
      invariant lines + Above(valid[i..], id) == Above(valid, id)
    {
      if valid[i].id > id {
        lines := lines + [valid[i]];
      }
    }
  }

  lemma AboveMembers(lines: seq<Line>, id: int)
    ensures forall l | l in Above(lines, id) :: l.id > id
  {
  }
}
