/** Due triggers: the weekly rule, and claims by any number of workers holding stale lists. */
module Scheduler {
  import opened Options

  type TriggerId = nat
  type WorkerId = nat

  // ----- the weekly rule, on instants in nanoseconds in a zone with a fixed offset

  const HOUR: int := 3_600_000_000_000
  const MINUTE: int := 60_000_000_000
  const DAY: int := 24 * HOUR

  function DayNumber(t: int, offset: int): int { (t + offset) / DAY }

  /** Sunday is 0; day 0 was a Thursday. */
  function Weekday(t: int, offset: int): int { (DayNumber(t, offset) + 4) % 7 }

  function HourOfDay(t: int, offset: int): int { ((t + offset) % DAY) / HOUR }

  predicate MondayNine(t: int, offset: int) { Weekday(t, offset) == 1 && (t + offset) % DAY == 9 * HOUR }

  function NextMonday(now: int, offset: int): int {
    var d := (8 - Weekday(now, offset)) % 7;
    var days := if d == 0 && HourOfDay(now, offset) >= 9 then 7 else d;
    (DayNumber(now, offset) + days) * DAY + 9 * HOUR - offset
  }

  /** The two supported expressions mean Monday 09:00; every other cron expression means in one minute. */
  datatype Cron = Weekly | Unsupported

  function NextRun(cron: Cron, now: int, offset: int): int {
    if cron.Weekly? then NextMonday(now, offset) else now + MINUTE
  }

  lemma DayParts(t: int, offset: int)
    ensures t + offset == DayNumber(t, offset) * DAY + (t + offset) % DAY
    ensures 0 <= (t + offset) % DAY < DAY
    ensures HourOfDay(t, offset) >= 9 <==> (t + offset) % DAY >= 9 * HOUR
  {
  }

  lemma NineOnDay(n: int, offset: int)
    ensures var t := n * DAY + 9 * HOUR - offset;
      DayNumber(t, offset) == n && (t + offset) % DAY == 9 * HOUR
  {
  }

  lemma SameWeekdayWeekApart(m: int, n: int)
    requires m < n < m + 7
    ensures (m + 4) % 7 != (n + 4) % 7
  {
  }

  lemma NoMondayNineBefore(now: int, offset: int, t: int)
    requires now < t < NextMonday(now, offset)
    ensures !MondayNine(t, offset)
  {
    hide HourOfDay;
    var day, d := DayNumber(now, offset), (8 - Weekday(now, offset)) % 7;
    DayParts(now, offset);
    DayParts(t, offset);
    assert (day + d + 4) % 7 == 1;
    var n := DayNumber(t, offset);
    if MondayNine(t, offset) {
      assert t + offset == n * DAY + 9 * HOUR;
      if n < day + d { SameWeekdayWeekApart(n, day + d); } else if n > day + d { SameWeekdayWeekApart(day + d, n); }
    }
  }

  /** The next run is a Monday 09:00, it is later than now by at most seven days, and none lies in between. */
  lemma NextMondayIsLeast(now: int, offset: int)
    ensures var next := NextMonday(now, offset);
      && MondayNine(next, offset) && now < next <= now + 7 * DAY
      && forall t :: now < t < next ==> !MondayNine(t, offset)
  {
    forall t | now < t < NextMonday(now, offset) ensures !MondayNine(t, offset) { NoMondayNineBefore(now, offset, t); }
    NextMondayIsMonday(now, offset);
  }

  lemma NextMondayIsMonday(now: int, offset: int)
    ensures MondayNine(NextMonday(now, offset), offset) && now < NextMonday(now, offset) <= now + 7 * DAY
  {
    var day, d := DayNumber(now, offset), (8 - Weekday(now, offset)) % 7;
    var days := if d == 0 && HourOfDay(now, offset) >= 9 then 7 else d;
    DayParts(now, offset);
    NineOnDay(day + days, offset);
    assert (day + days + 4) % 7 == 1;
  }

  lemma NextRunIsLater(cron: Cron, now: int, offset: int)
    ensures NextRun(cron, now, offset) > now
  {
    if cron.Weekly? { NextMondayIsLeast(now, offset); }
  }

  // ----- triggers and claims

  /** What the configuration asks for; Malformed is a cron entry that is not a string. */
  datatype Kind = OneTime | Recurring(cron: Cron, offset: int) | Malformed

  datatype Trigger = Trigger(kind: Kind, enabled: bool, nextRun: Option<int>)

  /** An entry of a worker's due list: the trigger, its next_run_at, and how many claims there were at the reading. */
  datatype Due = Due(id: TriggerId, seen: int, listed: nat)

  /**
   * A row of scheduled_tasks with the circumstances of the claim that wrote it: the occurrence it took, the
   * next_run_at it set, and how many claims there were when the worker had read its list.
   */
  datatype Claim = Claim(id: TriggerId, scheduledAt: int, occurrence: int, at: int, next: Option<int>, listed: nat)

  /** `created` holds the next_run_at every trigger was created with; ids are never reused. */
  datatype State = State(triggers: map<TriggerId, Trigger>, created: map<TriggerId, Option<int>>, rows: seq<Claim>,
                         lists: map<WorkerId, seq<Due>>, clock: int)

  const START := State(map[], map[], [], map[], 0)

  predicate IsDue(s: State, id: TriggerId, now: int) {
    id in s.triggers && s.triggers[id].enabled && s.triggers[id].nextRun.Some? && s.triggers[id].nextRun.value <= now
  }

  function AfterClaim(t: Trigger, now: int): Trigger {
    match t.kind
    case OneTime => t.(enabled := false, nextRun := None)
    case Recurring(cron, offset) => t.(nextRun := Some(NextRun(cron, now, offset)))
    case Malformed => t.(nextRun := None)
  }

  /** Claim and insert in one transaction; `inserted` is false when the insert fails and everything rolls back. */
  function Claimed(s: State, due: Due, now: int, inserted: bool): State {
    if !IsDue(s, due.id, now) || !inserted then s
    else
      var t := s.triggers[due.id];
      s.(triggers := s.triggers[due.id := AfterClaim(t, now)],
         rows := s.rows + [Claim(due.id, due.seen, t.nextRun.value, now, AfterClaim(t, now).nextRun, due.listed)])
  }

  /** The due list a worker gets: some of the due triggers, in any order. */
  function DueList(s: State, ids: seq<TriggerId>, now: int): seq<Due> {
    if ids == [] then []
    else if IsDue(s, ids[0], now)
    then [Due(ids[0], s.triggers[ids[0]].nextRun.value, |s.rows|)] + DueList(s, ids[1..], now)
    else DueList(s, ids[1..], now)
  }

  datatype Step =
    | Create(id: TriggerId, kind: Kind, first: Option<int>)
    | Delete(id: TriggerId)
    | Read(worker: WorkerId, ids: seq<TriggerId>, now: int)
    | Take(worker: WorkerId, now: int, inserted: bool)

  function Apply(s: State, step: Step): State {
    match step
    case Create(id, kind, first) =>
      if id in s.created then s
      else s.(triggers := s.triggers[id := Trigger(kind, true, first)], created := s.created[id := first])
    case Delete(id) => s.(triggers := s.triggers - {id})
    case Read(worker, ids, now) =>
      if now < s.clock then s else s.(lists := s.lists[worker := DueList(s, ids, now)], clock := now)
    case Take(worker, now, inserted) =>
      if now < s.clock || worker !in s.lists || s.lists[worker] == [] then s
      else
        var due := s.lists[worker][0];
        Claimed(s.(lists := s.lists[worker := s.lists[worker][1..]], clock := now), due, now, inserted)
  }

  function Run(steps: seq<Step>): State {
    if steps == [] then START else Apply(Run(steps[..|steps| - 1]), steps[|steps| - 1])
  }

  lemma RunEmpty()
    ensures Run([]) == START
  {
  }

  // ----- what holds after every run

  /** The claims of a trigger so far, seen from its row. */
  ghost predicate ClaimsOk(s: State) {
    && s.triggers.Keys <= s.created.Keys
    && (forall i :: 0 <= i < |s.rows| ==> RowOk(s, s.rows[i]))
    && (forall i, j :: 0 <= i < j < |s.rows| && s.rows[i].id == s.rows[j].id ==>
          s.rows[i].at < s.rows[j].occurrence)
    && (forall i :: 0 <= i < |s.rows| && s.rows[i].id in s.triggers ==>
          LaterThan(s.triggers[s.rows[i].id], s.rows[i].at))
  }

  predicate RowOk(s: State, c: Claim) {
    c.id in s.created && c.scheduledAt <= c.occurrence <= c.at <= s.clock
  }

  /** A claimed trigger is over, or comes up again strictly after the claim. */
  predicate LaterThan(t: Trigger, at: int) {
    match t.kind
    case OneTime => !t.enabled
    case Recurring(_, _) => t.nextRun.Some? && t.nextRun.value > at
    case Malformed => t.nextRun.None?
  }

  /** Due lists hold past values of next_run_at, which never moves backwards. */
  ghost predicate ListsOk(s: State) {
    forall w, k :: w in s.lists && 0 <= k < |s.lists[w]| ==> EntryOk(s, s.lists[w][k])
  }

  predicate EntryOk(s: State, due: Due) {
    due.id in s.created
    && (due.id in s.triggers && s.triggers[due.id].nextRun.Some? ==> due.seen <= s.triggers[due.id].nextRun.value)
  }

  lemma {:induction false} DueListOk(s: State, ids: seq<TriggerId>, now: int)
    requires s.triggers.Keys <= s.created.Keys
    ensures forall k :: 0 <= k < |DueList(s, ids, now)| ==> EntryOk(s, DueList(s, ids, now)[k])
  {
    if ids != [] { DueListOk(s, ids[1..], now); }
  }

  lemma ClaimKeepsInvariant(s: State, due: Due, now: int, inserted: bool)
    requires ClaimsOk(s) && ListsOk(s) && EntryOk(s, due) && s.clock == now
    ensures ClaimsOk(Claimed(s, due, now, inserted)) && ListsOk(Claimed(s, due, now, inserted))
  {
    hide NextRun;
    var u := Claimed(s, due, now, inserted);
    if IsDue(s, due.id, now) && inserted {
      var t := s.triggers[due.id];
      if t.kind.Recurring? { NextRunIsLater(t.kind.cron, now, t.kind.offset); }
      forall w, k | w in u.lists && 0 <= k < |u.lists[w]| ensures EntryOk(u, u.lists[w][k]) {
        assert EntryOk(s, s.lists[w][k]);
      }
    }
  }

  lemma StepKeepsInvariant(s: State, step: Step)
    requires ClaimsOk(s) && ListsOk(s)
    ensures ClaimsOk(Apply(s, step)) && ListsOk(Apply(s, step))
  {
    hide Claimed, NextRun;
    var u := Apply(s, step);
    match step {
      case Create(id, kind, first) =>
        forall w, k | w in u.lists && 0 <= k < |u.lists[w]| ensures EntryOk(u, u.lists[w][k]) {
          assert EntryOk(s, s.lists[w][k]);
        }
      case Delete(id) =>
        forall w, k | w in u.lists && 0 <= k < |u.lists[w]| ensures EntryOk(u, u.lists[w][k]) {
          assert EntryOk(s, s.lists[w][k]);
        }
      case Read(worker, ids, now) =>
        DueListOk(s, ids, now);
        forall w, k | w in u.lists && 0 <= k < |u.lists[w]| ensures EntryOk(u, u.lists[w][k]) {
          if w != worker || now < s.clock { assert EntryOk(s, s.lists[w][k]); }
        }
      case Take(worker, now, inserted) =>
        if now >= s.clock && worker in s.lists && s.lists[worker] != [] {
          var due := s.lists[worker][0];
          assert EntryOk(s, due);
          var v := s.(lists := s.lists[worker := s.lists[worker][1..]], clock := now);
          forall w, k | w in v.lists && 0 <= k < |v.lists[w]| ensures EntryOk(v, v.lists[w][k]) {
            if w == worker { assert EntryOk(s, s.lists[w][k + 1]); } else { assert EntryOk(s, s.lists[w][k]); }
          }
          ClaimKeepsInvariant(v, due, now, inserted);
        }
    }
  }

  lemma {:induction false} InvariantHolds(steps: seq<Step>)
    ensures ClaimsOk(Run(steps)) && ListsOk(Run(steps))
  {
    hide Apply, ClaimsOk, ListsOk;
    if steps == [] {
      InvariantAtStart();
    } else {
      InvariantHolds(steps[..|steps| - 1]);
      StepKeepsInvariant(Run(steps[..|steps| - 1]), steps[|steps| - 1]);
    }
  }

  lemma InvariantAtStart()
    ensures ClaimsOk(START) && ListsOk(START)
  {
  }

  /**
   * No occurrence is claimed twice, however stale the lists: the occurrence a later claim takes lies after
   * the moment of every earlier claim of the same trigger, whose own occurrence was due by then.
   */
  lemma OccurrencesIncrease(steps: seq<Step>, i: nat, j: nat)
    requires i < j < |Run(steps).rows| && Run(steps).rows[i].id == Run(steps).rows[j].id
    ensures var a, b := Run(steps).rows[i], Run(steps).rows[j];
      a.occurrence <= a.at < b.occurrence <= b.at
  {
    hide Run;
    InvariantHolds(steps);
  }

  /** The kind a trigger was created with; ids are never reused. */
  ghost predicate KindStays(s: State, u: State) {
    s.created.Keys <= u.created.Keys && forall id :: id in s.created && id in u.triggers ==>
      id in s.triggers && u.triggers[id].kind == s.triggers[id].kind
  }

  lemma StepKeepsKind(s: State, step: Step)
    requires s.triggers.Keys <= s.created.Keys
    ensures KindStays(s, Apply(s, step))
    ensures s.rows <= Apply(s, step).rows && |Apply(s, step).rows| <= |s.rows| + 1
    ensures |Apply(s, step).rows| > |s.rows| ==>
      var c := Apply(s, step).rows[|s.rows|];
      && c.id in s.triggers && s.triggers[c.id].enabled && s.triggers[c.id].nextRun == Some(c.occurrence)
      && c.id in Apply(s, step).triggers && Apply(s, step).triggers[c.id] == AfterClaim(s.triggers[c.id], c.at)
  {
  }

  /** The trigger was created as a one-time trigger (or with a malformed cron entry). */
  ghost predicate SingleShot(steps: seq<Step>, id: TriggerId) {
    forall k :: 0 <= k < |steps| && steps[k].Create? && steps[k].id == id ==> !steps[k].kind.Recurring?
  }

  lemma {:induction false} SingleShotStays(steps: seq<Step>, id: TriggerId)
    requires SingleShot(steps, id) && id in Run(steps).triggers
    ensures !Run(steps).triggers[id].kind.Recurring?
  {
    hide Apply;
    if steps == [] {
      RunEmpty();
    } else {
      var before, step := steps[..|steps| - 1], steps[|steps| - 1];
      if id in Run(before).triggers { SingleShotStays(before, id); }
      TriggerComesFrom(Run(before), step, id);
    }
  }

  lemma TriggerComesFrom(s: State, step: Step, id: TriggerId)
    requires id in Apply(s, step).triggers
    ensures if id in s.triggers then Apply(s, step).triggers[id].kind == s.triggers[id].kind || id !in s.created
            else step == Create(id, Apply(s, step).triggers[id].kind, Apply(s, step).triggers[id].nextRun)
    ensures id in s.triggers && id !in s.created && Apply(s, step).triggers[id].kind != s.triggers[id].kind ==>
      step.Create? && step.id == id && step.kind == Apply(s, step).triggers[id].kind
  {
  }

  lemma NoSecondRow(s: State, step: Step, k: nat)
    requires ClaimsOk(s) && k < |s.rows| && |Apply(s, step).rows| > |s.rows|
    requires s.rows[k].id in s.triggers ==> !s.triggers[s.rows[k].id].kind.Recurring?
    ensures Apply(s, step).rows[|s.rows|].id != s.rows[k].id
  {
    StepKeepsKind(s, step);
  }

  /** However many workers and however stale their lists, a trigger that is not recurring gets at most one row. */
  lemma {:induction false} AtMostOneRow(steps: seq<Step>, id: TriggerId, i: nat, j: nat)
    requires SingleShot(steps, id)
    requires i < |Run(steps).rows| && j < |Run(steps).rows| && Run(steps).rows[i].id == id && Run(steps).rows[j].id == id
    ensures i == j
  {
    if steps == [] {
      RunEmpty();
    } else {
      var n := |steps| - 1;
      var before := steps[..n];
      var s := Run(before);
      InvariantHolds(before);
      StepKeepsKind(s, steps[n]);
      if i < |s.rows| && j < |s.rows| {
        AtMostOneRow(before, id, i, j);
      } else if i != j {
        if id in s.triggers { SingleShotStays(before, id); }
        NoSecondRow(s, steps[n], if i < j then i else j);
        assert false;
      }
    }
  }

  /** For a recurring trigger the occurrence of every claim but its first is the one the claim before it set. */
  lemma ClaimSetsNext(steps: seq<Step>, step: Step)
    requires |Run(steps + [step]).rows| > |Run(steps).rows|
    ensures var c := Run(steps + [step]).rows[|Run(steps).rows|];
      && c.id in Run(steps).triggers && Run(steps).triggers[c.id].nextRun == Some(c.occurrence)
      && c.id in Run(steps + [step]).triggers
      && (Run(steps).triggers[c.id].kind.Recurring? ==>
            var k, next := Run(steps).triggers[c.id].kind, Run(steps + [step]).triggers[c.id].nextRun;
            next == Some(NextRun(k.cron, c.at, k.offset)) && next.value > c.at >= c.occurrence)
  {
    hide NextRun, NextMonday;
    assert (steps + [step])[..|steps|] == steps;
    var s := Run(steps);
    InvariantHolds(steps);
    InvariantHolds(steps + [step]);
    StepKeepsKind(s, step);
    var c := Run(steps + [step]).rows[|s.rows|];
    var t := s.triggers[c.id];
    if t.kind.Recurring? { NextRunIsLater(t.kind.cron, c.at, t.kind.offset); }
  }

  // ----- the recorded scheduled_at

  /** The next_run_at of trigger `id` after the first `n` claims of any triggers: set by the last of its own. */
  function InForce(created: map<TriggerId, Option<int>>, rows: seq<Claim>, id: TriggerId, n: nat): Option<int>
    requires n <= |rows| && id in created
  {
    if n == 0 then created[id]
    else if rows[n - 1].id == id then rows[n - 1].next
    else InForce(created, rows, id, n - 1)
  }

  /** Trigger `id` is claimed after the first `m` claims and before claim `n`. */
  predicate ClaimedBetween(rows: seq<Claim>, id: TriggerId, m: nat, n: nat) {
    exists k :: m <= k < n && k < |rows| && rows[k].id == id
  }

  /** Claims take what is in force, recorded values are what was in force at the reading. */
  ghost predicate HistoryOk(s: State) {
    && (forall id :: id in s.triggers && id in s.created ==> s.triggers[id].nextRun == InForce(s.created, s.rows, id, |s.rows|))
    && (forall i :: 0 <= i < |s.rows| ==> ClaimOk(s.created, s.rows, i))
    && (forall w, k :: w in s.lists && 0 <= k < |s.lists[w]| ==> Recorded(s.created, s.rows, s.lists[w][k]))
  }

  predicate ClaimOk(created: map<TriggerId, Option<int>>, rows: seq<Claim>, i: nat)
    requires i < |rows|
  {
    var c := rows[i];
    && c.id in created && c.listed <= i
    && InForce(created, rows, c.id, i) == Some(c.occurrence)
    && InForce(created, rows, c.id, c.listed) == Some(c.scheduledAt)
    && c.occurrence <= c.at && (c.next.Some? ==> c.at < c.next.value)
  }

  predicate Recorded(created: map<TriggerId, Option<int>>, rows: seq<Claim>, d: Due) {
    d.id in created && d.listed <= |rows| && InForce(created, rows, d.id, d.listed) == Some(d.seen)
  }

  lemma {:induction false} InForceOfPrefix(created: map<TriggerId, Option<int>>, more: map<TriggerId, Option<int>>,
                                           rows: seq<Claim>, longer: seq<Claim>, id: TriggerId, n: nat)
    requires n <= |rows| && rows <= longer && id in created && id in more && more[id] == created[id]
    ensures InForce(more, longer, id, n) == InForce(created, rows, id, n)
  {
    if n > 0 {
      assert longer[n - 1] == rows[n - 1];
      InForceOfPrefix(created, more, rows, longer, id, n - 1);
    }
  }

  lemma {:induction false} NeverClaimed(created: map<TriggerId, Option<int>>, rows: seq<Claim>, id: TriggerId, n: nat)
    requires n <= |rows| && id in created && forall i :: 0 <= i < n ==> rows[i].id != id
    ensures InForce(created, rows, id, n) == created[id]
  {
    if n > 0 { NeverClaimed(created, rows, id, n - 1); }
  }

  /** The history only grows, so what was right about it stays right. */
  ghost predicate Extends(s: State, u: State) {
    s.rows <= u.rows && forall id :: id in s.created ==> id in u.created && u.created[id] == s.created[id]
  }

  lemma ExtendedHistory(s: State, u: State)
    requires HistoryOk(s) && Extends(s, u)
    ensures forall i :: 0 <= i < |s.rows| ==> ClaimOk(u.created, u.rows, i)
    ensures forall d :: Recorded(s.created, s.rows, d) ==> Recorded(u.created, u.rows, d)
  {
    forall i | 0 <= i < |s.rows| ensures ClaimOk(u.created, u.rows, i) {
      assert ClaimOk(s.created, s.rows, i) && u.rows[i] == s.rows[i];
      InForceOfPrefix(s.created, u.created, s.rows, u.rows, s.rows[i].id, i);
      InForceOfPrefix(s.created, u.created, s.rows, u.rows, s.rows[i].id, s.rows[i].listed);
    }
    forall d | Recorded(s.created, s.rows, d) ensures Recorded(u.created, u.rows, d) {
      InForceOfPrefix(s.created, u.created, s.rows, u.rows, d.id, d.listed);
    }
  }

  lemma ClaimKeepsHistory(s: State, due: Due, now: int, inserted: bool)
    requires HistoryOk(s) && Recorded(s.created, s.rows, due) && s.triggers.Keys <= s.created.Keys
    ensures HistoryOk(Claimed(s, due, now, inserted))
  {
    hide NextRun;
    var u := Claimed(s, due, now, inserted);
    if IsDue(s, due.id, now) && inserted {
      var t, n := s.triggers[due.id], |s.rows|;
      if t.kind.Recurring? { NextRunIsLater(t.kind.cron, now, t.kind.offset); }
      ExtendedHistory(s, u);
      forall id | id in s.created ensures InForce(u.created, u.rows, id, n) == InForce(s.created, s.rows, id, n) {
        InForceOfPrefix(s.created, u.created, s.rows, u.rows, id, n);
      }
      assert ClaimOk(u.created, u.rows, n);
    }
  }

  lemma {:induction false} DueListRecords(s: State, ids: seq<TriggerId>, now: int)
    requires HistoryOk(s) && s.triggers.Keys <= s.created.Keys
    ensures forall k :: 0 <= k < |DueList(s, ids, now)| ==> Recorded(s.created, s.rows, DueList(s, ids, now)[k])
  {
    if ids != [] { DueListRecords(s, ids[1..], now); }
  }

  lemma StepKeepsHistory(s: State, step: Step)
    requires ClaimsOk(s) && HistoryOk(s)
    ensures HistoryOk(Apply(s, step))
  {
    hide Claimed, NextRun, InForce, DueList;
    var u := Apply(s, step);
    match step {
      case Create(id, kind, first) =>
        if id !in s.created { CreateKeepsHistory(s, id, kind, first); }
      case Delete(id) =>
      case Read(worker, ids, now) =>
        DueListRecords(s, ids, now);
      case Take(worker, now, inserted) =>
        if now >= s.clock && worker in s.lists && s.lists[worker] != [] {
          var due := s.lists[worker][0];
          var v := s.(lists := s.lists[worker := s.lists[worker][1..]], clock := now);
          forall w, k | w in v.lists && 0 <= k < |v.lists[w]| ensures Recorded(v.created, v.rows, v.lists[w][k]) {
            if w == worker { assert v.lists[w][k] == s.lists[w][k + 1]; }
          }
          ClaimKeepsHistory(v, due, now, inserted);
        }
    }
  }

  lemma CreateKeepsHistory(s: State, id: TriggerId, kind: Kind, first: Option<int>)
    requires ClaimsOk(s) && HistoryOk(s) && id !in s.created
    ensures HistoryOk(Apply(s, Create(id, kind, first)))
  {
    hide InForce;
    var u := Apply(s, Create(id, kind, first));
    ExtendedHistory(s, u);
    forall i | 0 <= i < |s.rows| ensures s.rows[i].id != id { assert ClaimOk(s.created, s.rows, i); }
    NeverClaimed(u.created, u.rows, id, |u.rows|);
    forall x | x in s.triggers ensures u.triggers[x].nextRun == InForce(u.created, u.rows, x, |u.rows|) {
      InForceOfPrefix(s.created, u.created, s.rows, u.rows, x, |s.rows|);
    }
  }

  lemma {:induction false} HistoryHolds(steps: seq<Step>)
    ensures HistoryOk(Run(steps))
  {
    hide Apply, ClaimsOk, HistoryOk;
    if steps == [] {
      HistoryAtStart();
    } else {
      HistoryHolds(steps[..|steps| - 1]);
      InvariantHolds(steps[..|steps| - 1]);
      StepKeepsHistory(Run(steps[..|steps| - 1]), steps[|steps| - 1]);
    }
  }

  lemma HistoryAtStart()
    ensures HistoryOk(START)
  {
  }

  /** What is in force moves forward with every claim of the trigger and stands still between them. */
  lemma {:induction false} InForceMoves(s: State, id: TriggerId, m: nat, n: nat)
    requires HistoryOk(s) && m <= n <= |s.rows| && id in s.created && InForce(s.created, s.rows, id, n).Some?
    ensures var a, b := InForce(s.created, s.rows, id, m), InForce(s.created, s.rows, id, n);
      a.Some? && a.value <= b.value && (a.value == b.value <==> !ClaimedBetween(s.rows, id, m, n))
    decreases n - m
  {
    if m < n {
      var c := s.rows[n - 1];
      if c.id == id {
        assert ClaimOk(s.created, s.rows, n - 1);
        assert ClaimedBetween(s.rows, id, m, n);
      }
      InForceMoves(s, id, m, n - 1);
      assert c.id != id ==> (ClaimedBetween(s.rows, id, m, n) <==> ClaimedBetween(s.rows, id, m, n - 1));
    }
  }

  /**
   * A row records the occurrence it took exactly when its trigger was not claimed between the reading of the
   * worker's list and the claim; otherwise it records an earlier one.
   */
  lemma RecordedIsOccurrenceIff(steps: seq<Step>, j: nat)
    requires j < |Run(steps).rows|
    ensures var rows := Run(steps).rows;
      && rows[j].listed <= j && rows[j].scheduledAt <= rows[j].occurrence
      && (rows[j].scheduledAt == rows[j].occurrence <==> !ClaimedBetween(rows, rows[j].id, rows[j].listed, j))
  {
    hide Run;
    HistoryHolds(steps);
    var s := Run(steps);
    assert ClaimOk(s.created, s.rows, j);
    InForceMoves(s, s.rows[j].id, s.rows[j].listed, j);
  }

  /** Two rows of one trigger record one value exactly when it was not claimed between the readings of their lists. */
  lemma ScheduledAtAgreesIff(steps: seq<Step>, i: nat, j: nat)
    requires i < |Run(steps).rows| && j < |Run(steps).rows| && Run(steps).rows[i].id == Run(steps).rows[j].id
    requires Run(steps).rows[i].listed <= Run(steps).rows[j].listed
    ensures var rows := Run(steps).rows;
      rows[i].scheduledAt == rows[j].scheduledAt <==> !ClaimedBetween(rows, rows[i].id, rows[i].listed, rows[j].listed)
  {
    hide Run;
    HistoryHolds(steps);
    var s := Run(steps);
    assert ClaimOk(s.created, s.rows, i) && ClaimOk(s.created, s.rows, j);
    InForceMoves(s, s.rows[i].id, s.rows[i].listed, s.rows[j].listed);
  }

  /** So if all workers claim from lists that are still current, scheduled_at identifies the occurrence. */
  lemma RepeatComesFromStaleList(steps: seq<Step>, i: nat, j: nat)
    requires i < j < |Run(steps).rows| && Run(steps).rows[i].id == Run(steps).rows[j].id
    requires Run(steps).rows[i].scheduledAt == Run(steps).rows[j].scheduledAt
    ensures var rows := Run(steps).rows;
      rows[j].listed <= i && ClaimedBetween(rows, rows[j].id, rows[j].listed, j)
  {
    hide Run;
    OccurrencesIncrease(steps, i, j);
    RecordedIsOccurrenceIff(steps, i);
    RecordedIsOccurrenceIff(steps, j);
    var rows := Run(steps).rows;
    if rows[j].listed > i {
      ScheduledAtAgreesIff(steps, i, j);
    }
  }

  const MINUTELY := Recurring(Unsupported, 0)

  /** Two workers read the list together; the second one claims a minute later. */
  const BOTH: seq<TriggerId> := [0]
  const STALE_RUN := [Create(0, MINUTELY, Some(0)), Read(1, BOTH, 0), Read(2, BOTH, 0), Take(1, 0, true), Take(2, MINUTE, true)]

  lemma RunSnoc(steps: seq<Step>, step: Step)
    ensures Run(steps + [step]) == Apply(Run(steps), step)
  {
    assert (steps + [step])[..|steps|] == steps;
  }

  lemma ReadsTheTrigger(s: State)
    requires s.triggers == map[0 := Trigger(MINUTELY, true, Some(0))] && s.rows == []
    ensures DueList(s, BOTH, 0) == [Due(0, 0, 0)]
  {
    assert BOTH[1..] == [] && DueList(s, BOTH[1..], 0) == [];
  }

  /** So scheduled_tasks can hold the same scheduled_at of one trigger twice, although two occurrences were claimed. */
  lemma ScheduledAtCanRepeat()
    ensures Run(STALE_RUN).rows == [Claim(0, 0, 0, 0, Some(MINUTE), 0), Claim(0, 0, MINUTE, MINUTE, Some(2 * MINUTE), 0)]
  {
    hide Run, DueList;
    var s := STALE_RUN;
    var t := map[0 := Trigger(MINUTELY, true, Some(0))];
    RunEmpty();
    RunSnoc([], s[0]);
    assert Run([] + [s[0]]).triggers == t;
    ReadsTheTrigger(Run([] + [s[0]]));
    RunSnoc([] + [s[0]], s[1]);
    ReadsTheTrigger(Run([] + [s[0]] + [s[1]]));
    RunSnoc([] + [s[0]] + [s[1]], s[2]);
    RunSnoc([] + [s[0]] + [s[1]] + [s[2]], s[3]);
    RunSnoc([] + [s[0]] + [s[1]] + [s[2]] + [s[3]], s[4]);
    assert [] + [s[0]] + [s[1]] + [s[2]] + [s[3]] + [s[4]] == s;
  }

  // ----- the due list and what becomes of it

  predicate NoRepeats(ids: seq<TriggerId>) { forall i, j :: 0 <= i < j < |ids| ==> ids[i] != ids[j] }

  /** In the table's own terms: the trigger is there, enabled, and its next_run_at has come. */
  predicate IsUp(triggers: map<TriggerId, Trigger>, id: TriggerId, now: int) {
    id in triggers && triggers[id].enabled && match triggers[id].nextRun case Some(at) => at <= now case None => false
  }

  /** The list holds exactly the due triggers among the ids visited, in their order, each as often as it is visited. */
  lemma {:induction false} DueListIsComplete(s: State, ids: seq<TriggerId>, now: int)
    ensures var due := DueList(s, ids, now);
      && (forall d :: d in due ==> d.id in ids && IsUp(s.triggers, d.id, now)
                                   && s.triggers[d.id].nextRun == Some(d.seen) && d.listed == |s.rows|)
      && (forall id :: id in ids && IsUp(s.triggers, id, now) ==> exists d :: d in due && d.id == id)
      && (NoRepeats(ids) ==> forall i, j :: 0 <= i < j < |due| ==> due[i].id != due[j].id)
    decreases |ids|
  {
    if ids != [] {
      DueListIsComplete(s, ids[1..], now);
      var due, rest := DueList(s, ids, now), DueList(s, ids[1..], now);
      assert ids == [ids[0]] + ids[1..];
      forall id | id in ids && IsUp(s.triggers, id, now) ensures exists d :: d in due && d.id == id {
        if id == ids[0] {
          assert due[0] in due;
        } else {
          var d :| d in rest && d.id == id;
          assert d in due;
        }
      }
      if NoRepeats(ids) {
        assert NoRepeats(ids[1..]);
        forall k | 0 <= k < |rest| ensures rest[k].id != ids[0] {
          assert rest[k] in rest;
          var j :| 0 <= j < |ids[1..]| && ids[1..][j] == rest[k].id;
          assert ids[j + 1] == rest[k].id;
        }
      }
    }
  }

  /** A claim at `now` has made `left` of the trigger `was`: over, never again, or up at the next occurrence. */
  ghost predicate TakenAt(was: Trigger, left: Trigger, now: int) {
    match was.kind
    case OneTime => left == was.(enabled := false, nextRun := None)
    case Malformed => left == was.(nextRun := None)
    case Recurring(Unsupported, _) => left == was.(nextRun := Some(now + 60_000_000_000))
    case Recurring(Weekly, offset) =>
      left.nextRun.Some? && left == was.(nextRun := left.nextRun) && MondayNine(left.nextRun.value, offset)
      && now < left.nextRun.value && forall t :: now < t < left.nextRun.value ==> !MondayNine(t, offset)
  }

  lemma AfterClaimIsTaken(t: Trigger, now: int)
    ensures TakenAt(t, AfterClaim(t, now), now)
  {
    hide NextMonday, MondayNine;
    if t.kind.Recurring? { NextMondayIsLeast(now, t.kind.offset); }
  }

  lemma {:induction false} DistinctIdsCount(due: seq<Due>)
    requires forall i, j :: 0 <= i < j < |due| ==> due[i].id != due[j].id
    ensures |set d | d in due :: d.id| == |due|
  {
    if due != [] {
      var n := |due| - 1;
      DistinctIdsCount(due[..n]);
      assert due == due[..n] + [due[n]];
      assert (set d | d in due :: d.id) == (set d | d in due[..n] :: d.id) + {due[n].id};
    }
  }

  // ----- the service

  class Service {
    var triggers: map<TriggerId, Trigger>
    var scheduled: seq<Claim>

    ghost function Table(now: int): State
      reads this
    {
      State(triggers, map[], scheduled, map[], now)
    }

    constructor ()
      ensures triggers == map[] && scheduled == []
    {
      triggers, scheduled := map[], [];
    }

    /** The query for due triggers, over the ids in the order the database visits them. */
    method ReadDue(ids: seq<TriggerId>, now: int) returns (due: seq<Due>)
      ensures due == DueList(Table(now), ids, now)
      ensures forall d :: d in due ==> (d.id in ids && IsUp(triggers, d.id, now) && triggers[d.id].nextRun == Some(d.seen))
      ensures forall id :: id in ids && IsUp(triggers, id, now) ==> exists d :: d in due && d.id == id
      ensures NoRepeats(ids) ==> forall i, j :: 0 <= i < j < |due| ==> due[i].id != due[j].id
    {
      DueListIsComplete(Table(now), ids, now);
      due := [];
      var i := |ids|;
      while i > 0
        invariant 0 <= i <= |ids|
        invariant due == DueList(Table(now), ids[i..], now)
      {
        i := i - 1;
        assert ids[i..][1..] == ids[i + 1..];
        if ids[i] in triggers && triggers[ids[i]].enabled && triggers[ids[i]].nextRun.Some?
           && triggers[ids[i]].nextRun.value <= now
        {
          due := [Due(ids[i], triggers[ids[i]].nextRun.value, |scheduled|)] + due;
        }
      }
    }

    /** One UPDATE ... WHERE next_run_at <= now AND enabled, with the audit row, in a transaction. */
    method ClaimOne(due: Due, now: int, inserted: bool) returns (ok: bool)
      modifies this
      ensures Table(now).triggers == Claimed(old(Table(now)), due, now, inserted).triggers
      ensures scheduled == Claimed(old(Table(now)), due, now, inserted).rows
      ensures ok <==> IsUp(old(triggers), due.id, now) && inserted
      ensures !ok ==> triggers == old(triggers) && scheduled == old(scheduled)
      ensures ok ==>
        var was := old(triggers)[due.id];
        && due.id in triggers && triggers == old(triggers)[due.id := triggers[due.id]] && TakenAt(was, triggers[due.id], now)
        && was.nextRun.Some?
        && scheduled == old(scheduled) + [Claim(due.id, due.seen, was.nextRun.value, now, triggers[due.id].nextRun, due.listed)]
    {
      if due.id in triggers { AfterClaimIsTaken(triggers[due.id], now); }
      hide NextRun, TakenAt;
      if due.id !in triggers { return false; }
      var t := triggers[due.id];
      if !t.enabled || t.nextRun.None? || t.nextRun.value > now || !inserted { return false; }
      match t.kind {
        case Recurring(cron, offset) =>
          triggers := triggers[due.id := t.(nextRun := Some(NextRun(cron, now, offset)))];
        case Malformed =>
          triggers := triggers[due.id := t.(nextRun := None)];
        case OneTime =>
          triggers := triggers[due.id := t.(enabled := false, nextRun := None)];
      }
      scheduled := scheduled + [Claim(due.id, due.seen, t.nextRun.value, now, triggers[due.id].nextRun, due.listed)];
      ok := true;
    }

    /**
     * Reads the list once and claims entry by entry; `now(k)` is the clock at the k-th claim. If no insert fails and
     * the clock does not go back, the call makes one row for each trigger that was due, and touches no other trigger.
     */
    method ProcessDueTriggers(ids: seq<TriggerId>, start: int, now: nat -> int, inserted: nat -> bool) returns (count: nat)
      modifies this
      ensures |scheduled| == |old(scheduled)| + count && old(scheduled) <= scheduled
      ensures (triggers, scheduled) ==
        ClaimedAll(old(triggers), old(scheduled), DueList(old(Table(start)), ids, start), now, inserted)
      ensures NoRepeats(ids) && (forall k :: inserted(k)) && (forall k :: start <= now(k)) ==>
        (count == |set id | id in ids && IsUp(old(triggers), id, start)|
         && EachUpTaken(old(triggers), ids, start, scheduled[|old(scheduled)|..])
         && OthersLeft(old(triggers), ids, start, triggers))
    {
      hide ClaimedAll, Claimed, DueList, TakenAt, IsUp, TakenInOrder, LeftBut, EachUpTaken, OthersLeft;
      var due := ReadDue(ids, start);
      ghost var calm := NoRepeats(ids) && (forall k :: inserted(k)) && (forall k :: start <= now(k));
      ghost var was, rows := triggers, scheduled;
      count := 0;
      assert due[..0] == [];
      NoneClaimed(triggers, scheduled, now, inserted);
      NoneTaken(triggers);
      assert scheduled[|rows|..] == [];
      for k := 0 to |due|
        invariant |scheduled| == |rows| + count && rows <= scheduled
        invariant (triggers, scheduled) == ClaimedAll(was, rows, due[..k], now, inserted)
        invariant calm ==> count == k && TakenInOrder(was, due[..k], scheduled[|rows|..]) && LeftBut(was, due[..k], triggers)
      {
        assert due[..k + 1][..k] == due[..k];
        assert due[k] in due;
        NextClaimed(was, rows, due[..k + 1], now, inserted);
        ghost var before, earlier := triggers, scheduled[|rows|..];
        var ok := ClaimOne(due[k], now(k), inserted(k));
        if ok { count := count + 1; }
        if calm {
          StillUp(was, before, due, k, start, now(k));
          assert scheduled[|rows|..][..k] == earlier;
          TakenOneMore(was, due, k, before, triggers, scheduled[|rows|..]);
        }
      }
      assert due[..|due|] == due;
      if calm { AllTaken(was, ids, start, due, scheduled[|rows|..], triggers); }
    }
  }

  /** Every trigger among `ids` that was up has one of the rows. */
  ghost predicate EachUpTaken(was: map<TriggerId, Trigger>, ids: seq<TriggerId>, start: int, rows: seq<Claim>) {
    forall id :: id in ids && IsUp(was, id, start) ==> exists row :: row in rows && TakesOccurrence(was, row, id)
  }

  ghost predicate OthersLeft(was: map<TriggerId, Trigger>, ids: seq<TriggerId>, start: int, triggers: map<TriggerId, Trigger>) {
    forall id :: id in was && !(id in ids && IsUp(was, id, start)) ==> id in triggers && triggers[id] == was[id]
  }

  predicate TakenInOrder(was: map<TriggerId, Trigger>, due: seq<Due>, rows: seq<Claim>) {
    |rows| == |due| && forall j :: 0 <= j < |due| ==> TakesOccurrence(was, rows[j], due[j].id)
  }

  ghost predicate LeftBut(was: map<TriggerId, Trigger>, due: seq<Due>, triggers: map<TriggerId, Trigger>) {
    forall id :: id in was && (forall d :: d in due ==> d.id != id) ==> id in triggers && triggers[id] == was[id]
  }

  lemma NoneTaken(was: map<TriggerId, Trigger>)
    ensures TakenInOrder(was, [], []) && LeftBut(was, [], was)
  {
  }

  lemma StillUp(was: map<TriggerId, Trigger>, before: map<TriggerId, Trigger>, due: seq<Due>, k: nat, start: int, now: int)
    requires k < |due| && LeftBut(was, due[..k], before) && IsUp(was, due[k].id, start) && start <= now
    requires forall i, j :: 0 <= i < j < |due| ==> due[i].id != due[j].id
    ensures due[k].id in was && due[k].id in before && before[due[k].id] == was[due[k].id] && IsUp(before, due[k].id, now)
  {
    forall d | d in due[..k] ensures d.id != due[k].id {
      var j :| 0 <= j < k && due[j] == d;
    }
  }

  lemma TakenOneMore(was: map<TriggerId, Trigger>, due: seq<Due>, k: nat, before: map<TriggerId, Trigger>,
                     triggers: map<TriggerId, Trigger>, rows: seq<Claim>)
    requires k < |due| && |rows| == k + 1 && TakenInOrder(was, due[..k], rows[..k]) && LeftBut(was, due[..k], before)
    requires due[k].id in triggers && triggers == before[due[k].id := triggers[due[k].id]]
    requires TakesOccurrence(was, rows[k], due[k].id)
    ensures TakenInOrder(was, due[..k + 1], rows) && LeftBut(was, due[..k + 1], triggers)
  {
    assert due[..k + 1] == due[..k] + [due[k]];
  }

  lemma AllTaken(was: map<TriggerId, Trigger>, ids: seq<TriggerId>, start: int, due: seq<Due>, rows: seq<Claim>,
                 triggers: map<TriggerId, Trigger>)
    requires forall d :: d in due ==> d.id in ids && IsUp(was, d.id, start)
    requires forall id :: id in ids && IsUp(was, id, start) ==> exists d :: d in due && d.id == id
    requires forall i, j :: 0 <= i < j < |due| ==> due[i].id != due[j].id
    requires TakenInOrder(was, due, rows) && LeftBut(was, due, triggers)
    ensures |due| == |set id | id in ids && IsUp(was, id, start)|
    ensures EachUpTaken(was, ids, start, rows) && OthersLeft(was, ids, start, triggers)
  {
    DistinctIdsCount(due);
    assert (set d | d in due :: d.id) == set id | id in ids && IsUp(was, id, start);
    forall id | id in ids && IsUp(was, id, start) ensures exists row :: row in rows && TakesOccurrence(was, row, id) {
      var d :| d in due && d.id == id;
      var j :| 0 <= j < |due| && due[j] == d;
      assert rows[j] in rows;
    }
  }

  /** The row is for this trigger and for the occurrence that stood in the table. */
  predicate TakesOccurrence(was: map<TriggerId, Trigger>, row: Claim, id: TriggerId) {
    row.id == id && id in was && was[id].nextRun == Some(row.occurrence)
  }

  lemma NoneClaimed(triggers: map<TriggerId, Trigger>, rows: seq<Claim>, now: nat -> int, inserted: nat -> bool)
    ensures ClaimedAll(triggers, rows, [], now, inserted) == (triggers, rows)
  {
  }

  lemma NextClaimed(triggers: map<TriggerId, Trigger>, rows: seq<Claim>, due: seq<Due>, now: nat -> int, inserted: nat -> bool)
    requires due != []
    ensures var k := |due| - 1; var (t, r) := ClaimedAll(triggers, rows, due[..k], now, inserted);
      var s := Claimed(State(t, map[], r, map[], now(k)), due[k], now(k), inserted(k));
      ClaimedAll(triggers, rows, due, now, inserted) == (s.triggers, s.rows)
  {
    hide Claimed;
  }

  /** The table and the rows after claiming a list entry by entry. */
  function ClaimedAll(triggers: map<TriggerId, Trigger>, rows: seq<Claim>, due: seq<Due>, now: nat -> int,
                      inserted: nat -> bool): (map<TriggerId, Trigger>, seq<Claim>)
  {
    if due == [] then (triggers, rows)
    else
      var k := |due| - 1;
      var (t, r) := ClaimedAll(triggers, rows, due[..k], now, inserted);
      var s := Claimed(State(t, map[], r, map[], now(k)), due[k], now(k), inserted(k));
      (s.triggers, s.rows)
  }
}
