/** The lifecycle of AnalystRun rows: on-demand trigger and weekly tick, the outcomes a worker writes, and the
    stale-run reaper.  A check and the insert it leads to are two steps, and so are a read of a run's status and
    the FAILED that the reaper or a failing task writes on the strength of it; anything may come in between.  The
    clock, in seconds, never goes back. */
module AnalystRuns {
  import opened Common

  const STALE_RUN_AFTER := 2 * 3600

  datatype RunStatus = Pending | Running | Completed | Failed

  datatype AnalystRun = AnalystRun(org: int, week: int, status: RunStatus, startedAt: int)

  /** The Monday of a day, days counted from Thursday 1 January 1970. */
  function WeekOfMonday(day: int): (monday: int)
    ensures (monday + 3) % 7 == 0 && monday <= day < monday + 7
  {
    day - (day + 3) % 7
  }

  function WeekAt(now: int): int {
    WeekOfMonday(now / 86400)
  }

  /** `non_stale_non_terminal_filter`: the row still keeps others out. */
  predicate Blocks(run: AnalystRun, now: int) {
    && (run.status == Pending || run.status == Running)
    && (run.status != Running || run.startedAt >= now - STALE_RUN_AFTER)
  }

  predicate OrgBusy(runs: seq<AnalystRun>, org: int, now: int) {
    exists i | 0 <= i < |runs| :: runs[i].org == org && Blocks(runs[i], now)
  }

  predicate BusyIn(runs: seq<AnalystRun>, org: int, week: int, now: int) {
    exists i | 0 <= i < |runs| :: runs[i].org == org && runs[i].week == week && Blocks(runs[i], now)
  }

  predicate Terminal(status: RunStatus) {
    status == Completed || status == Failed
  }

  predicate IsStale(run: AnalystRun, now: int) {
    run.status == Running && run.startedAt < now - STALE_RUN_AFTER
  }

  /* ---- the step machine ---- */

  /** A request or tick that has checked; `open` if it was admitted and has not inserted its run yet. */
  datatype Ticket = Ticket(org: int, week: int, open: bool)

  /** `answers`: for each check so far, whether it admitted.  `reaps`: the runs each reaper pass has read as stale
      and not written yet.  `fails`: the run each failing task has read as open and not written yet. */
  datatype State = State(
    now: int, runs: seq<AnalystRun>, answers: seq<bool>,
    tickets: seq<Ticket>, reaps: seq<set<nat>>, fails: seq<Option<nat>>)

  /** Check: a trigger, or the weekly tick for one org, looks for a run in its way.  Insert: it creates its run.
      Write: a worker ends run i with this status whatever it was (`render_brief_node`, ingest without posts).
      ReadStale, FailStale: a reaper pass reads and then commits.  ReadOpen, FailOpen: a cost limit or a task error
      reads its run's status and then commits. */
  datatype Event =
    | Advance(seconds: nat)
    | Check(org: int, weekly: bool)
    | Insert(ticket: nat)
    | Write(run: nat, completed: bool)
    | ReadStale
    | FailStale(pass: nat)
    | ReadOpen(run: nat)
    | FailOpen(task: nat)

  function Init(now: int): State {
    State(now, [], [], [], [], [])
  }

  predicate Busy(s: State, org: int, weekly: bool) {
    if weekly then BusyIn(s.runs, org, WeekAt(s.now), s.now) else OrgBusy(s.runs, org, s.now)
  }

  function Stale(runs: seq<AnalystRun>, now: int): set<nat> {
    set i: nat | i < |runs| && IsStale(runs[i], now)
  }

  function FailAll(runs: seq<AnalystRun>, which: set<nat>): (r: seq<AnalystRun>)
    ensures |r| == |runs|
    ensures forall i | 0 <= i < |runs| :: r[i] == if i in which then runs[i].(status := Failed) else runs[i]
  {
    seq(|runs|, i requires 0 <= i < |runs| => if i in which then runs[i].(status := Failed) else runs[i])
  }

  function Written(t: Option<nat>): set<nat> {
    if t.Some? then {t.value} else {}
  }

  function Step(s: State, e: Event): State {
    match e
    case Advance(d) => s.(now := s.now + d)
    case Check(org, weekly) =>
      var free := !Busy(s, org, weekly);
      s.(answers := s.answers + [free], tickets := s.tickets + [Ticket(org, WeekAt(s.now), free)])
    case Insert(k) =>
      if k < |s.tickets| && s.tickets[k].open then
        s.(runs := s.runs + [AnalystRun(s.tickets[k].org, s.tickets[k].week, Running, s.now)],
           tickets := s.tickets[k := s.tickets[k].(open := false)])
      else s
    case Write(i, completed) =>
      if i < |s.runs| then
        s.(runs := s.runs[i := s.runs[i].(status := if completed then Completed else Failed)])
      else s
    case ReadStale => s.(reaps := s.reaps + [Stale(s.runs, s.now)])
    case FailStale(k) =>
      if k < |s.reaps| then s.(runs := FailAll(s.runs, s.reaps[k]), reaps := s.reaps[k := {}]) else s
    case ReadOpen(i) =>
      s.(fails := s.fails + [if i < |s.runs| && !Terminal(s.runs[i].status) then Some(i) else None])
    case FailOpen(k) =>
      if k < |s.fails| then s.(runs := FailAll(s.runs, Written(s.fails[k])), fails := s.fails[k := None]) else s
  }

  function Exec(s: State, events: seq<Event>): State {
    if events == [] then s else Step(Exec(s, events[..|events| - 1]), events[|events| - 1])
  }

  /* ---- at most one run in flight ---- */

  /** Rows never start in the future or wait in PENDING. */
  ghost predicate RowsAreReal(s: State) {
    forall i | 0 <= i < |s.runs| :: s.runs[i].status != Pending && s.runs[i].startedAt <= s.now
  }

  ghost predicate OneInFlight(s: State) {
    forall i, j | 0 <= i < j < |s.runs| && Blocks(s.runs[i], s.now) && Blocks(s.runs[j], s.now) ::
      !(s.runs[i].org == s.runs[j].org && s.runs[i].week == s.runs[j].week)
  }

  /** No step makes an old row block again, or moves it. */
  lemma OldRows(s: State, e: Event, i: nat)
    requires i < |s.runs|
    ensures var s' := Step(s, e);
      && |s.runs| <= |s'.runs| && s.now <= s'.now
      && s'.runs[i].(status := Running) == s.runs[i].(status := Running)
      && s'.runs[i].org == s.runs[i].org && s'.runs[i].week == s.runs[i].week
      && s'.runs[i].startedAt == s.runs[i].startedAt
      && (Blocks(s'.runs[i], s'.now) ==> Blocks(s.runs[i], s.now))
  {
  }

  lemma {:induction false} RowsStayReal(now: int, events: seq<Event>)
    ensures RowsAreReal(Exec(Init(now), events))
  {
    if events != [] {
      RowsStayReal(now, events[..|events| - 1]);
    }
  }

  /** The insert comes too late: another run of the org and week has come in flight since the check. */
  predicate Overtaken(s: State, e: Event) {
    && e.Insert? && e.ticket < |s.tickets| && s.tickets[e.ticket].open
    && BusyIn(s.runs, s.tickets[e.ticket].org, s.tickets[e.ticket].week, s.now)
  }

  /** One step keeps runs of an (org, week) from overlapping exactly if it is no overtaken insert. */
  lemma OneInFlightIsExact(s: State, e: Event)
    requires OneInFlight(s)
    ensures OneInFlight(Step(s, e)) <==> !Overtaken(s, e)
  {
    var s' := Step(s, e);
    forall i | 0 <= i < |s.runs|
      ensures s'.runs[i].org == s.runs[i].org && s'.runs[i].week == s.runs[i].week
      ensures Blocks(s'.runs[i], s'.now) ==> Blocks(s.runs[i], s.now)
    {
      OldRows(s, e, i);
    }
    if e.Insert? && s' != s {
      var n := |s.runs|;
      assert forall i | 0 <= i < n :: s'.runs[i] == s.runs[i];
      assert Blocks(s'.runs[n], s'.now);
      if Overtaken(s, e) {
        var i :| 0 <= i < n && s.runs[i].org == s'.runs[n].org && s.runs[i].week == s'.runs[n].week && Blocks(s.runs[i], s.now);
        assert Blocks(s'.runs[i], s'.now);
      }
    }
  }

  /** One in flight after every step of the run. */
  ghost predicate StaysOneInFlight(s: State, events: seq<Event>) {
    (events != [] ==> StaysOneInFlight(s, events[..|events| - 1])) && OneInFlight(Exec(s, events))
  }

  ghost predicate NoneOvertaken(s: State, events: seq<Event>) {
    events != [] ==>
      && NoneOvertaken(s, events[..|events| - 1])
      && !Overtaken(Exec(s, events[..|events| - 1]), events[|events| - 1])
  }

  /** Over whole runs, racing triggers and ticks included: never more than one run of an (org, week) in flight, if
      and only if no insert is overtaken after its check. */
  lemma {:induction false} OneInFlightExactly(s: State, events: seq<Event>)
    requires OneInFlight(s)
    ensures StaysOneInFlight(s, events) <==> NoneOvertaken(s, events)
  {
    if events != [] {
      var init := events[..|events| - 1];
      OneInFlightExactly(s, init);
      if StaysOneInFlight(s, init) {
        OneInFlightIsExact(Exec(s, init), events[|events| - 1]);
      }
    }
  }

  ghost predicate NoneOpen(s: State) {
    forall k | 0 <= k < |s.tickets| :: !s.tickets[k].open
  }

  /** Triggers and ticks in series: each inserts before the next one checks. */
  ghost predicate InSeries(s: State, events: seq<Event>) {
    events != [] ==>
      && InSeries(s, events[..|events| - 1])
      && (events[|events| - 1].Check? ==> NoneOpen(Exec(s, events[..|events| - 1])))
  }

  /** At most one ticket is open, and nothing is in its way. */
  ghost predicate OpenIsFree(s: State) {
    && (forall j, k | 0 <= j < k < |s.tickets| :: !(s.tickets[j].open && s.tickets[k].open))
    && forall k | 0 <= k < |s.tickets| && s.tickets[k].open :: !BusyIn(s.runs, s.tickets[k].org, s.tickets[k].week, s.now)
  }

  lemma SeriesStep(s: State, e: Event)
    requires OpenIsFree(s) && (e.Check? ==> NoneOpen(s))
    ensures OpenIsFree(Step(s, e)) && !Overtaken(s, e)
  {
  }

  /** In series there is never more than one in-flight run for an (org, week), whatever mix of triggers, ticks,
      worker outcomes, reaper passes and time. */
  lemma {:induction false} OneRunInFlightPerOrgAndWeek(now: int, events: seq<Event>)
    requires InSeries(Init(now), events)
    ensures OpenIsFree(Exec(Init(now), events)) && NoneOvertaken(Init(now), events)
    ensures StaysOneInFlight(Init(now), events)
  {
    if events != [] {
      OneRunInFlightPerOrgAndWeek(now, events[..|events| - 1]);
      SeriesStep(Exec(Init(now), events[..|events| - 1]), events[|events| - 1]);
    }
    OneInFlightExactly(Init(now), events);
  }

  /** A run that has come to s1, and then one event more. */
  lemma Then(s: State, events: seq<Event>, s1: State, e: Event, s2: State) returns (longer: seq<Event>)
    requires Exec(s, events) == s1 && Step(s1, e) == s2
    ensures Exec(s, longer) == s2
  {
    longer := events + [e];
    assert longer[..|events|] == events;
  }

  lemma BothCheck(now: int, org: int) returns (events: seq<Event>)
    ensures var free := Ticket(org, WeekAt(now), true);
      Exec(Init(now), events) == State(now, [], [true, true], [free, free], [], [])
  {
    var s, free := Init(now), Ticket(org, WeekAt(now), true);
    var s1 := State(now, [], [true], [free], [], []);
    events := Then(s, [], s, Check(org, false), s1);
    events := Then(s, events, s1, Check(org, false), State(now, [], [true, true], [free, free], [], []));
  }

  /** Two triggers that both check before either inserts put two runs in flight. */
  lemma RacingTriggersBothRun(now: int, org: int) returns (events: seq<Event>)
    ensures var runs := Exec(Init(now), events).runs;
      |runs| == 2 && runs[0] == runs[1] && runs[0].org == org && !OneInFlight(Exec(Init(now), events))
  {
    var free, done := Ticket(org, WeekAt(now), true), Ticket(org, WeekAt(now), false);
    var run := AnalystRun(org, WeekAt(now), Running, now);
    var s3 := State(now, [run], [true, true], [done, free], [], []);
    var s4 := State(now, [run, run], [true, true], [done, done], [], []);
    events := BothCheck(now, org);
    events := Then(Init(now), events, State(now, [], [true, true], [free, free], [], []), Insert(0), s3);
    events := Then(Init(now), events, s3, Insert(1), s4);
    TwoInFlight(s4, run);
  }

  lemma TwoInFlight(s: State, run: AnalystRun)
    requires s.runs == [run, run] && Blocks(run, s.now)
    ensures !OneInFlight(s)
  {
    assert Blocks(s.runs[0], s.now) && Blocks(s.runs[1], s.now);
  }

  /* ---- admission ---- */

  /** In every reachable state a trigger is refused exactly when a run of the org started within the last two
      hours, bounds included, is still RUNNING; so an org idle for longer is always let through. */
  lemma TriggerIsRefusedOnlyByAYoungRun(now: int, events: seq<Event>, org: int)
    ensures var s := Exec(Init(now), events); var s' := Step(s, Check(org, false));
      && |s'.answers| == |s.answers| + 1
      && (!s'.answers[|s.answers|] <==>
            exists i | 0 <= i < |s.runs| ::
              s.runs[i].org == org && s.runs[i].status == Running && s.now - STALE_RUN_AFTER <= s.runs[i].startedAt <= s.now)
      && (s'.answers[|s.answers|] ==>
            Step(s', Insert(|s.tickets|)).runs == s.runs + [AnalystRun(org, WeekAt(s.now), Running, s.now)])
  {
    RowsStayReal(now, events);
    var s := Exec(Init(now), events);
    if OrgBusy(s.runs, org, s.now) {
      var i :| 0 <= i < |s.runs| && s.runs[i].org == org && Blocks(s.runs[i], s.now);
      assert s.runs[i].status == Running && s.runs[i].startedAt <= s.now;
    } else {
      assert forall i | 0 <= i < |s.runs| && s.runs[i].org == org :: !Blocks(s.runs[i], s.now);
    }
  }

  /* ---- the reaper is invisible to admission ---- */

  predicate IsReap(e: Event) {
    e.ReadStale? || e.FailStale?
  }

  function WithoutReaps(events: seq<Event>): seq<Event> {
    if events == [] then []
    else WithoutReaps(events[..|events| - 1]) + if IsReap(events[|events| - 1]) then [] else [events[|events| - 1]]
  }

  /** Row i keeps nobody out, now or later. */
  predicate Harmless(s: State, i: nat) {
    i < |s.runs| && !Blocks(s.runs[i], s.now)
  }

  /** Same rows, clock, answers and tickets, except that rows which block no one may differ in status, and in
      whether a failing task has read them as open. */
  ghost predicate Alike(s: State, t: State) {
    && s.now == t.now && s.answers == t.answers && s.tickets == t.tickets
    && |s.runs| == |t.runs| && |s.fails| == |t.fails|
    && (forall i | 0 <= i < |s.runs| ::
          && s.runs[i].(status := Running) == t.runs[i].(status := Running)
          && (s.runs[i].status == t.runs[i].status || (!Blocks(s.runs[i], s.now) && !Blocks(t.runs[i], s.now))))
    && forall k | 0 <= k < |s.fails| ::
         s.fails[k] == t.fails[k] || forall i | i in Written(s.fails[k]) + Written(t.fails[k]) :: Harmless(s, i)
  }

  predicate LongStarted(s: State, i: nat) {
    i < |s.runs| && s.runs[i].status != Pending && s.runs[i].startedAt < s.now - STALE_RUN_AFTER
  }

  /** What a reaper pass has read is stale, and stays so. */
  ghost predicate ReapsAreStale(s: State) {
    forall k, i | 0 <= k < |s.reaps| && i in s.reaps[k] :: LongStarted(s, i)
  }

  lemma ReapsStayStale(s: State, e: Event)
    requires ReapsAreStale(s)
    ensures ReapsAreStale(Step(s, e))
  {
    var s' := Step(s, e);
    forall k, i | 0 <= k < |s'.reaps| && i in s'.reaps[k] ensures LongStarted(s', i) {
      if k < |s.reaps| {
        assert i in s.reaps[k] && LongStarted(s, i);
        OldRows(s, e, i);
      }
    }
  }

  lemma AlikeRow(s: State, t: State, i: nat)
    requires Alike(s, t) && i < |s.runs|
    ensures s.runs[i].org == t.runs[i].org && s.runs[i].week == t.runs[i].week && s.runs[i].startedAt == t.runs[i].startedAt
    ensures Blocks(s.runs[i], s.now) == Blocks(t.runs[i], t.now)
  {
    assert s.runs[i].(status := Running).org == t.runs[i].(status := Running).org;
    assert s.runs[i].(status := Running).week == t.runs[i].(status := Running).week;
    assert s.runs[i].(status := Running).startedAt == t.runs[i].(status := Running).startedAt;
  }

  lemma AlikeSeesAlike(s: State, t: State, org: int, weekly: bool)
    requires Alike(s, t)
    ensures Busy(s, org, weekly) == Busy(t, org, weekly)
  {
    forall i | 0 <= i < |s.runs|
      ensures s.runs[i].org == t.runs[i].org && s.runs[i].week == t.runs[i].week
      ensures Blocks(s.runs[i], s.now) == Blocks(t.runs[i], t.now)
    {
      AlikeRow(s, t, i);
    }
  }

  lemma FailAllKeepsAlike(s: State, t: State, a: set<nat>, b: set<nat>)
    requires Alike(s, t) && (a == b || forall i | i in a + b :: Harmless(s, i))
    ensures Alike(s.(runs := FailAll(s.runs, a)), t.(runs := FailAll(t.runs, b)))
  {
    var s', t' := s.(runs := FailAll(s.runs, a)), t.(runs := FailAll(t.runs, b));
    forall i | 0 <= i < |s.runs|
      ensures s'.runs[i].(status := Running) == t'.runs[i].(status := Running)
      ensures s'.runs[i].status == t'.runs[i].status || (!Blocks(s'.runs[i], s.now) && !Blocks(t'.runs[i], s.now))
      ensures Blocks(s'.runs[i], s.now) ==> Blocks(s.runs[i], s.now)
    {
      AlikeRow(s, t, i);
      assert s'.runs[i].(status := Running) == s.runs[i].(status := Running);
      assert t'.runs[i].(status := Running) == t.runs[i].(status := Running);
      if a != b && (i in a || i in b) {
        assert i in a + b;
      }
    }
    forall k | 0 <= k < |s'.fails|
      ensures s'.fails[k] == t'.fails[k] || forall i | i in Written(s'.fails[k]) + Written(t'.fails[k]) :: Harmless(s', i)
    {
      assert s.fails[k] == t.fails[k] || forall i | i in Written(s.fails[k]) + Written(t.fails[k]) :: Harmless(s, i);
      forall i | Harmless(s, i) ensures Harmless(s', i) {
      }
    }
  }

  lemma WorkerKeepsAlike(s: State, t: State, e: Event)
    requires Alike(s, t) && (e.Write? || e.ReadOpen? || e.FailOpen?)
    ensures Alike(Step(s, e), Step(t, e))
  {
    match e
    case Write(i, completed) =>
      if i < |s.runs| {
        AlikeRow(s, t, i);
        var s', t' := Step(s, e), Step(t, e);
        forall j | 0 <= j < |s.runs| ensures Harmless(s, j) ==> Harmless(s', j) {
        }
      }
    case ReadOpen(i) =>
      if i < |s.runs| { AlikeRow(s, t, i); }
    case FailOpen(k) =>
      if k < |s.fails| { FailAllKeepsAlike(s, t, Written(s.fails[k]), Written(t.fails[k])); }
  }

  lemma OthersKeepAlike(s: State, t: State, e: Event)
    requires Alike(s, t) && (e.Advance? || e.Check? || e.Insert?)
    ensures Alike(Step(s, e), Step(t, e))
  {
    match e
    case Check(org, weekly) => AlikeSeesAlike(s, t, org, weekly);
    case Advance(d) =>
      var s', t' := Step(s, e), Step(t, e);
      forall j | 0 <= j < |s.runs|
        ensures Blocks(s'.runs[j], s'.now) ==> Blocks(s.runs[j], s.now)
        ensures Blocks(t'.runs[j], s'.now) ==> Blocks(t.runs[j], s.now)
      {
      }
    case Insert(_) =>
      assert forall i | Harmless(s, i) :: Harmless(Step(s, e), i);
  }

  lemma ReapKeepsAlike(s: State, t: State, e: Event)
    requires Alike(s, t) && IsReap(e) && ReapsAreStale(s)
    ensures Alike(Step(s, e), t)
  {
    if e.FailStale? && e.pass < |s.reaps| {
      forall i | i in s.reaps[e.pass] + {} ensures Harmless(s, i) {
        assert i in s.reaps[e.pass] && LongStarted(s, i);
      }
      FailAllKeepsAlike(s, t, s.reaps[e.pass], {});
      assert FailAll(t.runs, {}) == t.runs;
    }
  }

  /** Reaper passes inserted anywhere in a run, each with its read and its commit apart, change the outcome of no
      trigger and no tick, and create or lose no row. */
  lemma {:induction false} ReaperIsUnobservable(s: State, events: seq<Event>)
    requires ReapsAreStale(s)
    ensures Alike(Exec(s, events), Exec(s, WithoutReaps(events))) && ReapsAreStale(Exec(s, events))
    ensures Exec(s, events).answers == Exec(s, WithoutReaps(events)).answers
  {
    if events != [] {
      var init, e := events[..|events| - 1], events[|events| - 1];
      ReaperIsUnobservable(s, init);
      var a, b := Exec(s, init), Exec(s, WithoutReaps(init));
      ReapsStayStale(a, e);
      if IsReap(e) {
        ReapKeepsAlike(a, b, e);
        assert WithoutReaps(events) == WithoutReaps(init);
      } else {
        assert WithoutReaps(events) == WithoutReaps(init) + [e];
        assert WithoutReaps(events)[..|WithoutReaps(init)|] == WithoutReaps(init);
        if e.Write? || e.ReadOpen? || e.FailOpen? { WorkerKeepsAlike(a, b, e); } else { OthersKeepAlike(a, b, e); }
      }
    }
  }
}
