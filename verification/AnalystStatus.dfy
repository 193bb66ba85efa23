/** What becomes of an AnalystRun row, on the machine in `AnalystRuns`: when a terminal status stands, how long an
    unfinished run keeps others out; and the code of trigger, tick and reaper. */
module AnalystStatus {
  import opened Common
  import opened AnalystRuns

  /* ---- terminal statuses ---- */

  /** The step commits FAILED for the run, read as open or as stale before. */
  predicate CommitsFailed(s: State, e: Event, i: nat) {
    || (e.FailStale? && e.pass < |s.reaps| && i in s.reaps[e.pass])
    || (e.FailOpen? && e.task < |s.fails| && s.fails[e.task] == Some(i))
  }

  /** The status the step writes into the row, if any. */
  function WriteOf(s: State, e: Event, i: nat): Option<RunStatus> {
    if e.Write? && e.run == i then Some(if e.completed then Completed else Failed)
    else if CommitsFailed(s, e, i) then Some(Failed)
    else None
  }

  predicate Overwrites(s: State, e: Event, i: nat, status: RunStatus) {
    WriteOf(s, e, i).Some? && WriteOf(s, e, i).value != status
  }

  /** A terminal status changes in exactly two ways: a worker writes the other one unconditionally, or the reaper
      or a failing task that had read the run before it was completed commits its FAILED late. */
  lemma TerminalStatusChanges(s: State, e: Event, i: nat)
    requires i < |s.runs| && Terminal(s.runs[i].status)
    ensures i < |Step(s, e).runs| && Terminal(Step(s, e).runs[i].status)
    ensures var status := s.runs[i].status;
      Step(s, e).runs[i].status != status
      <==> (e.Write? && e.run == i && (status == Completed) != e.completed) || (status == Completed && CommitsFailed(s, e, i))
    ensures Step(s, e).runs[i].status != s.runs[i].status <==> Overwrites(s, e, i, s.runs[i].status)
  {
  }

  /** The run has the status it had at the start, at the end and at every point before. */
  ghost predicate Stands(s: State, events: seq<Event>, i: nat)
    requires i < |s.runs|
  {
    && (events != [] ==> Stands(s, events[..|events| - 1], i))
    && i < |Exec(s, events).runs| && Exec(s, events).runs[i].status == s.runs[i].status
  }

  ghost predicate NoneOverwrites(s: State, events: seq<Event>, i: nat, status: RunStatus) {
    events != [] ==>
      && NoneOverwrites(s, events[..|events| - 1], i, status)
      && !Overwrites(Exec(s, events[..|events| - 1]), events[|events| - 1], i, status)
  }

  /** Over whole runs: a terminal status stands throughout if and only if nobody commits the other one. */
  lemma {:induction false} TerminalStatusStands(s: State, events: seq<Event>, i: nat)
    requires i < |s.runs| && Terminal(s.runs[i].status)
    ensures Stands(s, events, i) <==> NoneOverwrites(s, events, i, s.runs[i].status)
  {
    if events != [] {
      var init, e := events[..|events| - 1], events[|events| - 1];
      TerminalStatusStands(s, init, i);
      if Stands(s, init, i) {
        TerminalStatusChanges(Exec(s, init), e, i);
      }
    }
  }

  function LastWrite(s: State, events: seq<Event>, i: nat, status: RunStatus): RunStatus {
    if events == [] then status
    else
      var init := events[..|events| - 1];
      var write := WriteOf(Exec(s, init), events[|events| - 1], i);
      if write.Some? then write.value else LastWrite(s, init, i, status)
  }

  /** And the status it ends with is the one committed last, by a worker, a reaper pass or a failing task. */
  lemma {:induction false} LastWriterWins(s: State, events: seq<Event>, i: nat)
    requires i < |s.runs| && Terminal(s.runs[i].status)
    ensures i < |Exec(s, events).runs|
    ensures Exec(s, events).runs[i].status == LastWrite(s, events, i, s.runs[i].status)
    ensures Terminal(LastWrite(s, events, i, s.runs[i].status))
  {
    if events != [] {
      LastWriterWins(s, events[..|events| - 1], i);
      TerminalStatusChanges(Exec(s, events[..|events| - 1]), events[|events| - 1], i);
    }
  }

  /** One run of the org, triggered at `now` and stale by now. */
  function StaleRun(now: int, org: int, status: RunStatus, reaps: seq<set<nat>>): State {
    State(now + STALE_RUN_AFTER + 1, [AnalystRun(org, WeekAt(now), status, now)], [true],
          [Ticket(org, WeekAt(now), false)], reaps, [])
  }

  /** A run is triggered and goes stale. */
  lemma RunGoesStale(now: int, org: int) returns (events: seq<Event>)
    ensures Exec(Init(now), events) == StaleRun(now, org, Running, [])
  {
    var s := Init(now);
    var s1 := State(now, [], [true], [Ticket(org, WeekAt(now), true)], [], []);
    var s2 := State(now, [AnalystRun(org, WeekAt(now), Running, now)], [true], [Ticket(org, WeekAt(now), false)], [], []);
    events := Then(s, [], s, Check(org, false), s1);
    events := Then(s, events, s1, Insert(0), s2);
    events := Then(s, events, s2, Advance(STALE_RUN_AFTER + 1), StaleRun(now, org, Running, []));
  }

  lemma OneStaleRun(run: AnalystRun, now: int)
    requires IsStale(run, now)
    ensures Stale([run], now) == {0}
  {
    assert [run][0] == run;
  }

  /** And a reaper pass reads it. */
  lemma ReapedAsStale(now: int, org: int) returns (events: seq<Event>)
    ensures Exec(Init(now), events) == StaleRun(now, org, Running, [{0}])
  {
    events := RunGoesStale(now, org);
    var s := StaleRun(now, org, Running, []);
    OneStaleRun(s.runs[0], s.now);
    events := Then(Init(now), events, s, ReadStale, StaleRun(now, org, Running, [{0}]));
  }

  /** Both ways, on one run of any org: a worker that was slow rather than dead completes what the reaper has failed;
      or it completes it between the reaper's read and commit, and the reaper fails it. */
  lemma TerminalStatusCanBeOverwritten(now: int, org: int) returns (events: seq<Event>)
    ensures var s := Exec(Init(now), events);
      && |s.runs| == 1 && s.runs[0].org == org
      && var reapFirst, writeFirst := Step(s, FailStale(0)), Step(s, Write(0, true));
         && reapFirst.runs[0].status == Failed && Step(reapFirst, Write(0, true)).runs[0].status == Completed
         && writeFirst.runs[0].status == Completed && Step(writeFirst, FailStale(0)).runs[0].status == Failed
  {
    events := ReapedAsStale(now, org);
  }

  /* ---- a run that nobody ends ---- */

  predicate LeavesRunOpen(e: Event, i: nat) {
    !(e.Write? && e.run == i) && !(e.ReadOpen? && e.run == i)
  }

  /** The row is as it was, or a reaper has failed it after two hours. */
  ghost predicate LeftOpen(s: State, run: AnalystRun, i: nat) {
    && i < |s.runs| && s.runs[i].(status := Running) == run
    && (s.runs[i].status == Running || (s.runs[i].status == Failed && s.now > run.startedAt + STALE_RUN_AFTER))
    && (forall k | 0 <= k < |s.fails| :: s.fails[k] != Some(i))
    && ReapsAreStale(s)
  }

  lemma StepLeavesOpen(s: State, e: Event, run: AnalystRun, i: nat)
    requires LeftOpen(s, run, i) && LeavesRunOpen(e, i)
    ensures LeftOpen(Step(s, e), run, i)
  {
    ReapsStayStale(s, e);
    OldRows(s, e, i);
    if e.FailStale? && e.pass < |s.reaps| && i in s.reaps[e.pass] {
      assert LongStarted(s, i);
      assert s.runs[i].(status := Running).startedAt == run.startedAt;
    }
  }

  /** A RUNNING row that no worker ends keeps triggers of its org out for two hours after its start, that instant
      included, and from then on no longer, whether a reaper comes or not. */
  lemma {:induction false} OpenRunBlocksTwoHours(s: State, events: seq<Event>, i: nat)
    requires i < |s.runs| && s.runs[i].status == Running && LeftOpen(s, s.runs[i], i)
    requires forall e | e in events :: LeavesRunOpen(e, i)
    ensures var s', run := Exec(s, events), s.runs[i];
      LeftOpen(s', run, i) && (Blocks(s'.runs[i], s'.now) <==> s'.now <= run.startedAt + STALE_RUN_AFTER)
  {
    if events != [] {
      OpenRunBlocksTwoHours(s, events[..|events| - 1], i);
      assert events[|events| - 1] in events && LeavesRunOpen(events[|events| - 1], i);
      StepLeavesOpen(Exec(s, events[..|events| - 1]), events[|events| - 1], s.runs[i], i);
    }
    assert Exec(s, events).runs[i].(status := Running).startedAt == s.runs[i].startedAt;
  }

  /** So an ingest that ends without closing its run, as it does for a missing or inactive organization, refuses the
      org every trigger for two hours. */
  lemma OpenRunRefusesTriggers(s: State, events: seq<Event>, i: nat)
    requires i < |s.runs| && s.runs[i].status == Running && LeftOpen(s, s.runs[i], i)
    requires forall e | e in events :: LeavesRunOpen(e, i)
    requires Exec(s, events).now <= s.runs[i].startedAt + STALE_RUN_AFTER
    ensures var s' := Exec(s, events);
      Step(s', Check(s.runs[i].org, false)).answers == s'.answers + [false]
  {
    OpenRunBlocksTwoHours(s, events, i);
    var s' := Exec(s, events);
    assert s'.runs[i].(status := Running).org == s.runs[i].org;
    assert s'.runs[i].org == s.runs[i].org && Blocks(s'.runs[i], s'.now);
  }

  /** A reaper pass with nobody between its read and its commit fails exactly the RUNNING rows older than two hours,
      and commits once. */
  lemma UndisturbedPass(s: State, run: nat, completed: bool)
    ensures var k := |s.reaps|;
      var done := Step(Step(s, ReadStale), FailStale(k));
      && |done.runs| == |s.runs|
      && (forall i | 0 <= i < |s.runs| ::
            done.runs[i] == if s.runs[i].status == Running && s.now - s.runs[i].startedAt > 7200
                            then s.runs[i].(status := Failed) else s.runs[i])
      && var later := Step(done, Write(run, completed)); Step(later, FailStale(k)).runs == later.runs
  {
    var k := |s.reaps|;
    var later := Step(Step(Step(s, ReadStale), FailStale(k)), Write(run, completed));
    assert later.reaps[k] == {};
  }

  /** A cost limit or task error with nobody between its read and its commit fails its run unless it has ended, no
      other run, and once. */
  lemma UndisturbedFailure(s: State, run: nat, completed: bool)
    requires run < |s.runs|
    ensures var k := |s.fails|;
      var done := Step(Step(s, ReadOpen(run)), FailOpen(k));
      && |done.runs| == |s.runs|
      && (forall i | 0 <= i < |s.runs| ::
            done.runs[i] == if i == run && s.runs[i].status !in {Completed, Failed} then s.runs[i].(status := Failed) else s.runs[i])
      && var later := Step(done, Write(run, completed)); Step(later, FailOpen(k)).runs == later.runs
  {
    var k := |s.fails|;
    var later := Step(Step(Step(s, ReadOpen(run)), FailOpen(k)), Write(run, completed));
    assert later.fails[k] == None;
  }

  /* ---- the weekly tick ---- */

  function Create(runs: seq<AnalystRun>, org: int, now: int): seq<AnalystRun> {
    runs + [AnalystRun(org, WeekAt(now), Running, now)]
  }

  /** The rows after the orgs have had their turns, one after the other. */
  function AfterTick(runs: seq<AnalystRun>, orgs: seq<int>, now: int): seq<AnalystRun> {
    if orgs == [] then runs
    else
      var before, org := AfterTick(runs, orgs[..|orgs| - 1], now), orgs[|orgs| - 1];
      if BusyIn(before, org, WeekAt(now), now) then before else Create(before, org, now)
  }

  /** One org's turn is a check with its insert right behind it. */
  lemma TurnIsCheckAndInsert(s: State, org: int)
    ensures Step(Step(s, Check(org, true)), Insert(|s.tickets|)).runs == AfterTick(s.runs, [org], s.now)
  {
    assert [org][..0] == [];
    assert AfterTick(s.runs, [], s.now) == s.runs;
  }

  lemma BusyStays(before: seq<AnalystRun>, after: seq<AnalystRun>, org: int, now: int)
    requires before <= after && BusyIn(before, org, WeekAt(now), now)
    ensures BusyIn(after, org, WeekAt(now), now)
  {
    var i :| 0 <= i < |before| && before[i].org == org && before[i].week == WeekAt(now) && Blocks(before[i], now);
    assert after[i] == before[i];
  }

  lemma CreatedIsBusy(runs: seq<AnalystRun>, org: int, now: int)
    ensures BusyIn(Create(runs, org, now), org, WeekAt(now), now)
  {
    var run := Create(runs, org, now)[|runs|];
    assert run.org == org && run.week == WeekAt(now) && Blocks(run, now);
  }

  lemma {:induction false} TickLeavesEachOrgBusy(runs: seq<AnalystRun>, orgs: seq<int>, now: int)
    ensures forall org | org in orgs :: BusyIn(AfterTick(runs, orgs, now), org, WeekAt(now), now)
  {
    if orgs != [] {
      var n := |orgs| - 1;
      TickLeavesEachOrgBusy(runs, orgs[..n], now);
      var before, after := AfterTick(runs, orgs[..n], now), AfterTick(runs, orgs, now);
      CreatedIsBusy(before, orgs[n], now);
      forall org | org in orgs ensures BusyIn(after, org, WeekAt(now), now) {
        if org != orgs[n] {
          assert org in orgs[..n];
          BusyStays(before, after, org, now);
        }
      }
    }
  }

  /** The rows a tick adds: one of an org of the list each, RUNNING from now, in the week of today, and with no run of
      that org and week in its way. */
  lemma {:induction false} TickRows(runs: seq<AnalystRun>, orgs: seq<int>, now: int)
    ensures runs <= AfterTick(runs, orgs, now)
    ensures var after := AfterTick(runs, orgs, now);
      forall i | |runs| <= i < |after| ::
        && after[i].org in orgs && after[i] == AnalystRun(after[i].org, WeekAt(now), Running, now)
        && forall j | 0 <= j < i && after[j].org == after[i].org && after[j].week == after[i].week :: !Blocks(after[j], now)
  {
    if orgs != [] {
      TickRows(runs, orgs[..|orgs| - 1], now);
    }
  }

  lemma {:induction false} TickOverBusyOrgsIsIdle(runs: seq<AnalystRun>, orgs: seq<int>, now: int)
    requires forall org | org in orgs :: BusyIn(runs, org, WeekAt(now), now)
    ensures AfterTick(runs, orgs, now) == runs
  {
    if orgs != [] {
      TickOverBusyOrgsIsIdle(runs, orgs[..|orgs| - 1], now);
      assert orgs[|orgs| - 1] in orgs;
    }
  }

  /** If beat fires the week's tick a second time at once, the second one creates nothing, for any of the orgs and in
      any order. */
  lemma SecondTickCreatesNothing(runs: seq<AnalystRun>, orgs: seq<int>, again: seq<int>, now: int)
    requires forall org | org in again :: org in orgs
    ensures AfterTick(AfterTick(runs, orgs, now), again, now) == AfterTick(runs, orgs, now)
  {
    TickLeavesEachOrgBusy(runs, orgs, now);
    TickOverBusyOrgsIsIdle(AfterTick(runs, orgs, now), again, now);
  }

  /* ---- the code ---- */

  class AnalystDb {
    var runs: seq<AnalystRun>

    method TriggerAnalystRun(org: int, now: int) returns (run: Option<nat>)
      modifies this
      ensures runs == if run.Some? then Create(old(runs), org, now) else old(runs)
      ensures run.None? <==> exists i | 0 <= i < |old(runs)| ::
        && old(runs)[i].org == org
        && (old(runs)[i].status == Pending || (old(runs)[i].status == Running && now - old(runs)[i].startedAt <= 7200))
      ensures run.Some? ==> run.value == |old(runs)| && runs[..run.value] == old(runs) && |runs| == run.value + 1
      ensures run.Some? ==>
        var row := runs[run.value];
        && row.org == org && row.status == Running && row.startedAt == now
        && (row.week + 3) % 7 == 0 && row.week <= now / 86400 < row.week + 7
    {
      if OrgBusy(runs, org, now) {
        return None;
      }
      run := Some(|runs|);
      runs := Create(runs, org, now);
    }

    /** One commit per org; `orgs` are the active ones with the analyst enabled. */
    method AnalystWeeklyTick(orgs: seq<int>, now: int) returns (dispatched: nat)
      modifies this
      ensures runs == AfterTick(old(runs), orgs, now)
      ensures |runs| == |old(runs)| + dispatched && runs[..|old(runs)|] == old(runs)
      ensures forall i | |old(runs)| <= i < |runs| ::
        && runs[i].org in orgs && runs[i].status == Running && runs[i].startedAt == now
        && (runs[i].week + 3) % 7 == 0 && runs[i].week <= now / 86400 < runs[i].week + 7
        && forall j | 0 <= j < i && runs[j].org == runs[i].org && runs[j].week == runs[i].week ::
             runs[j].status != Pending && (runs[j].status == Running ==> now - runs[j].startedAt > 7200)
      ensures forall org | org in orgs :: exists i | 0 <= i < |runs| ::
        && runs[i].org == org && (runs[i].week + 3) % 7 == 0 && runs[i].week <= now / 86400 < runs[i].week + 7
        && (runs[i].status == Pending || (runs[i].status == Running && now - runs[i].startedAt <= 7200))
    {
      dispatched := 0;
      ghost var before := runs;
      for n := 0 to |orgs|
        invariant runs == AfterTick(before, orgs[..n], now)
        invariant |runs| == |before| + dispatched
      {
        assert orgs[..n + 1][..n] == orgs[..n];
        if !BusyIn(runs, orgs[n], WeekAt(now), now) {
          runs := Create(runs, orgs[n], now);
          dispatched := dispatched + 1;
        }
      }
      assert orgs[..|orgs|] == orgs;
      TickRows(before, orgs, now);
      TickLeavesEachOrgBusy(before, orgs, now);
      forall org | org in orgs ensures exists i | 0 <= i < |runs| ::
        && runs[i].org == org && (runs[i].week + 3) % 7 == 0 && runs[i].week <= now / 86400 < runs[i].week + 7
        && (runs[i].status == Pending || (runs[i].status == Running && now - runs[i].startedAt <= 7200))
      {
        assert BusyIn(runs, org, WeekAt(now), now);
      }
    }

    /** The pass with nobody in between: its read, then its commit. */
    method ReapStaleAnalystRuns(now: int)
      modifies this
      ensures runs == FailAll(old(runs), Stale(old(runs), now))
      ensures |runs| == |old(runs)| && forall i | 0 <= i < |runs| ::
        runs[i] == if old(runs)[i].status == Running && now - old(runs)[i].startedAt > 7200
                   then old(runs)[i].(status := Failed) else old(runs)[i]
    {
      for i := 0 to |runs|
        invariant |runs| == |old(runs)|
        invariant forall j | 0 <= j < i :: runs[j] == FailAll(old(runs), Stale(old(runs), now))[j]
        invariant forall j | i <= j < |runs| :: runs[j] == old(runs)[j]
      {
        if IsStale(runs[i], now) {
          runs := runs[i := runs[i].(status := Failed)];
        }
      }
    }
  }
}
