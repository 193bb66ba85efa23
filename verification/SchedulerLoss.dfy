/** How an ACTIVE campaign can drop out of polling for good: a tick that dies with it.  Exact conditions, step by
    step and over whole runs, on the machine in `Scheduler`. */
module SchedulerLoss {
  import opened Common
  import opened Scheduler
  import opened SchedulerFiring

  predicate IsHeld(ticks: seq<Tick>, id: int) {
    exists i | 0 <= i < |ticks| :: id in Holds(ticks[i])
  }

  predicate Active(s: State, id: int) {
    id in s.w.campaigns && s.w.campaigns[id].status == ACTIVE
  }

  /** ACTIVE, and nothing will poll it: it is not in the ZSET, and no live tick has read or popped it. */
  predicate Lost(s: State, id: int) {
    Active(s, id) && id !in s.w.zset && !IsHeld(s.ticks, id)
  }

  /** A tick dies that alone has the campaign, out of the ZSET. */
  predicate DiesWith(s: State, e: Event, id: int) {
    && e.Die? && e.tick < |s.ticks| && id in Holds(s.ticks[e.tick])
    && Active(s, id) && id !in s.w.zset && !IsHeld(s.ticks[e.tick := Dead], id)
  }

  /** A handler puts the campaign back into the ZSET, or it is no longer ACTIVE. */
  predicate Rescued(s: State, e: Event, id: int) {
    e.CallApi? && (id in Step(s, e).w.zset || !Active(Step(s, e), id))
  }

  lemma HeldStill(ticks: seq<Tick>, i: nat, t: Tick, id: int)
    requires i < |ticks|
    ensures IsHeld(ticks, id) && (id in Holds(ticks[i]) ==> id in Holds(t)) ==> IsHeld(ticks[i := t], id)
    ensures IsHeld(ticks[i := t], id) && (id in Holds(t) ==> id in Holds(ticks[i])) ==> IsHeld(ticks, id)
  {
    var ticks' := ticks[i := t];
    if IsHeld(ticks, id) {
      var j :| 0 <= j < |ticks| && id in Holds(ticks[j]);
      assert j != i ==> id in Holds(ticks'[j]);
      assert ticks'[i] == t;
    }
    if IsHeld(ticks', id) {
      var j :| 0 <= j < |ticks'| && id in Holds(ticks'[j]);
      assert j != i ==> id in Holds(ticks[j]);
    }
  }

  lemma TickLosesNothing(s: State, i: nat, outcome: Outcome, id: int)
    requires i < |s.ticks|
    ensures Lost(StepOfTick(s, i, outcome), id) <==> Lost(s, id)
  {
    var s' := StepOfTick(s, i, outcome);
    HeldStill(s.ticks, i, s'.ticks[i], id);
    if id in Holds(s'.ticks[i]) { assert IsHeld(s'.ticks, id); }
    if id in Holds(s.ticks[i]) { assert IsHeld(s.ticks, id); }
  }

  lemma StartLosesNothing(s: State, e: Event, id: int)
    requires e.StartTick?
    ensures Lost(Step(s, e), id) <==> Lost(s, id)
  {
    var s', n := Step(s, e), |s.ticks|;
    if s' != s {
      assert forall j | 0 <= j < n :: s'.ticks[j] == s.ticks[j];
      assert id in e.ids ==> id in Due(s.w.zset, e.now);
      if IsHeld(s.ticks, id) {
        var j :| 0 <= j < n && id in Holds(s.ticks[j]);
        assert id in Holds(s'.ticks[j]);
      }
    }
  }

  lemma DeathIsExact(s: State, e: Event, id: int)
    requires e.Die?
    ensures Lost(Step(s, e), id) <==> Lost(s, id) || DiesWith(s, e, id)
  {
    if e.tick < |s.ticks| {
      HeldStill(s.ticks, e.tick, Dead, id);
    }
  }

  /** A campaign gets lost exactly as a tick dies that alone has it. */
  lemma LossIsExact(s: State, e: Event, id: int)
    requires !Lost(s, id)
    ensures Lost(Step(s, e), id) <==> DiesWith(s, e, id)
  {
    match e
    case CallApi(_, _) =>
    case StartTick(_, _) => StartLosesNothing(s, e, id);
    case StepTick(i, outcome) => if i < |s.ticks| { TickLosesNothing(s, i, outcome, id); }
    case Die(_) => DeathIsExact(s, e, id);
  }

  /** And a lost one stays so, whatever ticks come, exactly until a handler edits it back into the ZSET, or it is no
      longer ACTIVE. */
  lemma RescueIsExact(s: State, e: Event, id: int)
    requires Lost(s, id)
    ensures Lost(Step(s, e), id) <==> !Rescued(s, e, id)
  {
    match e
    case CallApi(_, _) =>
    case StartTick(_, _) => StartLosesNothing(s, e, id);
    case StepTick(i, outcome) => if i < |s.ticks| { TickLosesNothing(s, i, outcome, id); }
    case Die(_) => DeathIsExact(s, e, id);
  }

  /** Not lost after any step of the run. */
  ghost predicate NeverLost(s: State, events: seq<Event>, id: int) {
    (events != [] ==> NeverLost(s, events[..|events| - 1], id)) && !Lost(Exec(s, events), id)
  }

  ghost predicate NoDeathWith(s: State, events: seq<Event>, id: int) {
    events != [] ==>
      && NoDeathWith(s, events[..|events| - 1], id)
      && !DiesWith(Exec(s, events[..|events| - 1]), events[|events| - 1], id)
  }

  /** Over whole runs, overlapping ticks, API calls, exceptions and dying ticks included: an ACTIVE campaign is always
      in the ZSET or in a live tick that will put it back, if and only if no tick dies that alone has it. */
  lemma {:induction false} NoActiveCampaignIsLost(events: seq<Event>, id: int)
    ensures NeverLost(Init(), events, id) <==> NoDeathWith(Init(), events, id)
  {
    if events != [] {
      var init := events[..|events| - 1];
      NoActiveCampaignIsLost(init, id);
      if NeverLost(Init(), init, id) {
        LossIsExact(Exec(Init(), init), events[|events| - 1], id);
      }
    }
  }

  ghost predicate NoRescue(s: State, events: seq<Event>, id: int) {
    events != [] ==>
      && NoRescue(s, events[..|events| - 1], id)
      && !Rescued(Exec(s, events[..|events| - 1]), events[|events| - 1], id)
  }

  /** A lost campaign is never polled again until a handler touches it, however many ticks come. */
  lemma {:induction false} LostIsNotPolled(s: State, events: seq<Event>, id: int)
    requires Lost(s, id) && NoRescue(s, events, id)
    ensures Lost(Exec(s, events), id) && Fired(Exec(s, events).dispatches, id) == Fired(s.dispatches, id)
  {
    if events != [] {
      var before, e := Exec(s, events[..|events| - 1]), events[|events| - 1];
      LostIsNotPolled(s, events[..|events| - 1], id);
      RescueIsExact(before, e, id);
    }
  }

  /** A tick pops a due campaign and dies. */
  lemma PoppedByADyingTick(row: Campaign, score: int, now: int) returns (events: seq<Event>)
    requires row.status == ACTIVE && 0 <= score <= now
    ensures var s := Twins(row, map[1 := score], [], []);
      !Lost(s, 1) && Lost(Exec(s, events), 1)
  {
    var s := Twins(row, map[1 := score], [], []);
    var read := Fetched(now, [1]);
    Fetch(row, score, now, []);
    assert [] + [read] == [read];
    Then(s, [], StartTick(now, [1]), Twins(row, map[1 := score], [read], []));
    Pop(row, map[1 := score], [read], 0);
    var popped := Twins(row, map[], [read][0 := Loop(now, [1], map[])], []);
    Then(s, [] + [StartTick(now, [1])], StepTick(0, Fine), popped);
    var lost := popped.(ticks := popped.ticks[0 := Dead]);
    Then(s, [] + [StartTick(now, [1])] + [StepTick(0, Fine)], Die(0), lost);
    assert lost.ticks == [Dead];
    events := [] + [StartTick(now, [1])] + [StepTick(0, Fine)] + [Die(0)];
  }
}
