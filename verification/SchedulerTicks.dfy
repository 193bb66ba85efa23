/** The scheduler with whole ticks one after the other, and the code of the tick and of the API handlers. */
module SchedulerTicks {
  import opened Common
  import opened Scheduler

  /** What befalls the handling of each due campaign; fine where nothing is said. */
  type Oracle = map<int, Outcome>

  function At(oracle: Oracle, id: int): Outcome {
    if id in oracle then oracle[id] else Fine
  }

  /** The ZSET a whole tick leaves, and the campaigns it dispatches. */
  function TickZset(w: World, now: int, oracle: Oracle): map<int, int> {
    map id | id in w.zset && (id in Due(w.zset, now) ==> NewScore(w, id, now, At(oracle, id)).Some?) ::
      if id in Due(w.zset, now) then NewScore(w, id, now, At(oracle, id)).value else w.zset[id]
  }

  function TickDispatches(w: World, now: int, oracle: Oracle): set<int> {
    set id | id in Due(w.zset, now) && Dispatched(w, id, At(oracle, id))
  }

  /** `ticks` logs each tick's time and dispatches. */
  datatype Clocked = Clocked(now: int, w: World, ticks: seq<(int, set<int>)>)

  datatype Event = Advance(seconds: nat) | CallApi(call: Call) | Tick(oracle: Oracle)

  function Step(s: Clocked, e: Event): Clocked {
    match e
    case Advance(d) => s.(now := s.now + d)
    case CallApi(call) => s.(w := Api(s.w, call, s.now))
    case Tick(oracle) =>
      s.(w := s.w.(zset := TickZset(s.w, s.now, oracle)),
         ticks := s.ticks + [(s.now, TickDispatches(s.w, s.now, oracle))])
  }

  function Exec(s: Clocked, events: seq<Event>): Clocked {
    if events == [] then s else Step(Exec(s, events[..|events| - 1]), events[|events| - 1])
  }

  /* ---- the index is exact ---- */

  ghost predicate IndexExact(w: World) {
    && (forall id :: id in w.zset <==> id in w.campaigns && w.campaigns[id].status == ACTIVE)
    && forall id | id in w.campaigns :: id < w.nextId
  }

  lemma ApiKeepsIndexExact(w: World, call: Call, now: int)
    requires IndexExact(w)
    ensures IndexExact(Api(w, call, now))
  {
  }

  /** With ticks and handlers one after the other, the ZSET members are exactly the ACTIVE campaigns,
      exceptions inside ticks included. */
  lemma {:induction false} ZsetIsTheActiveCampaigns(now: int, events: seq<Event>)
    ensures var w := Exec(Clocked(now, Scheduler.Init().w, []), events).w;
      && w.zset.Keys == (set id | id in w.campaigns && w.campaigns[id].status == ACTIVE)
      && IndexExact(w)
  {
    if events != [] {
      var init, e := events[..|events| - 1], events[|events| - 1];
      ZsetIsTheActiveCampaigns(now, init);
      if e.CallApi? {
        ApiKeepsIndexExact(Exec(Clocked(now, Scheduler.Init().w, []), init).w, e.call, Exec(Clocked(now, Scheduler.Init().w, []), init).now);
      }
    }
  }

  /* ---- pacing ---- */

  /** The event does not set the campaign's frequency to below this many minutes; only its own org can set it. */
  predicate KeepsFrequency(e: Event, org: int, id: int, minutes: int) {
    e.CallApi? && e.call.UpdateCampaign? && e.call.org == org && e.call.id == id && e.call.pollEvery.Some?
    ==> e.call.pollEvery.value >= minutes
  }

  function Gap(minutes: int): int {
    Min(60 * minutes, 300)
  }

  ghost predicate Paced(s: Clocked, org: int, id: int, minutes: int) {
    && id < s.w.nextId
    && (id in s.w.campaigns ==> s.w.campaigns[id].org == org && s.w.campaigns[id].pollMinutes >= minutes)
    && (forall i | 0 <= i < |s.ticks| && id in s.ticks[i].1 ::
          s.ticks[i].0 <= s.now && (id in s.w.zset ==> s.ticks[i].0 + Gap(minutes) <= s.w.zset[id]))
    && forall i, j | 0 <= i < j < |s.ticks| && id in s.ticks[i].1 && id in s.ticks[j].1 ::
         s.ticks[j].0 >= s.ticks[i].0 + Gap(minutes)
  }

  lemma {:induction false} RunKeepsPaced(s: Clocked, events: seq<Event>, org: int, id: int, minutes: int)
    requires Paced(s, org, id, minutes) && forall e | e in events :: KeepsFrequency(e, org, id, minutes)
    ensures Paced(Exec(s, events), org, id, minutes)
  {
    if events != [] {
      var init, e := events[..|events| - 1], events[|events| - 1];
      RunKeepsPaced(s, init, org, id, minutes);
      assert e in events && KeepsFrequency(e, org, id, minutes);
      StepKeepsPaced(Exec(s, init), e, org, id, minutes);
    }
  }

  lemma StepKeepsPaced(s: Clocked, e: Event, org: int, id: int, minutes: int)
    requires Paced(s, org, id, minutes) && KeepsFrequency(e, org, id, minutes)
    ensures Paced(Step(s, e), org, id, minutes)
  {
    match e
    case Advance(_) =>
    case CallApi(_) =>
    case Tick(oracle) => TickMeans(s.w, s.now, oracle, id);
  }

  /** Over any run of ticks and handlers, edits, pauses and resumes of the campaign and exceptions in the ticks
      included, two dispatches of it are at least min(60 * poll_frequency, 300) seconds apart, by a frequency it never
      falls below. */
  lemma DispatchesArePaced(s: Clocked, events: seq<Event>, id: int, minutes: int)
    requires id in s.w.campaigns && id < s.w.nextId && s.ticks == [] && s.w.campaigns[id].pollMinutes >= minutes
    requires forall e | e in events && e.CallApi? && e.call.UpdateCampaign? && e.call.org == s.w.campaigns[id].org
                        && e.call.id == id && e.call.pollEvery.Some? :: e.call.pollEvery.value >= minutes
    ensures var ticks := Exec(s, events).ticks;
      forall i, j | 0 <= i < j < |ticks| && id in ticks[i].1 && id in ticks[j].1 ::
        ticks[j].0 - ticks[i].0 >= Min(60 * minutes, 300)
  {
    RunKeepsPaced(s, events, s.w.campaigns[id].org, id, minutes);
  }

  /** A campaign, its frequency at least five minutes, that is dispatched again just 300 seconds later: its first
      handling failed after the dispatch. */
  lemma PaceIsReached(org: int, minutes: int, now: int) returns (events: seq<Event>)
    requires minutes >= 5 && now >= 0
    ensures Exec(Clocked(now, Scheduler.Init().w, []), events).ticks == [(now, {1}), (now + 300, {1})]
    ensures Exec(Clocked(now, Scheduler.Init().w, []), events).now == now + 300
  {
    var s0 := Clocked(now, Scheduler.Init().w, []);
    var row, fails := Campaign(org, ACTIVE, minutes), map[1 := FailsAfter];
    var w1 := World(map[1 := row], {org}, map[1 := now], 2);
    var w2 := w1.(zset := map[1 := now + 300]);
    var w3 := w1.(zset := map[1 := now + 300 + minutes * 60]);
    events := Then(s0, [], s0, Event.CallApi(SetOrgActive(org, true)), Clocked(now, World(map[], {org}, map[], 1), []));
    events := Then(s0, events, Clocked(now, World(map[], {org}, map[], 1), []), Event.CallApi(CreateCampaign(org, minutes)), Clocked(now, w1, []));
    LoneTick(row, now, now, fails);
    events := Then(s0, events, Clocked(now, w1, []), Tick(fails), Clocked(now, w2, [(now, {1})]));
    events := Then(s0, events, Clocked(now, w2, [(now, {1})]), Advance(300), Clocked(now + 300, w2, [(now, {1})]));
    LoneTick(row, now + 300, now + 300, map[]);
    events := Then(s0, events, Clocked(now + 300, w2, [(now, {1})]), Tick(map[]),
                   Clocked(now + 300, w3, [(now, {1}), (now + 300, {1})]));
  }

  lemma LoneTick(row: Campaign, score: int, now: int, oracle: Oracle)
    requires row.status == ACTIVE && 0 <= score <= now && At(oracle, 1) != FailsBefore
    ensures var w := World(map[1 := row], {row.org}, map[1 := score], 2);
      && TickDispatches(w, now, oracle) == {1}
      && TickZset(w, now, oracle) == map[1 := if At(oracle, 1) == Fine then now + row.pollMinutes * 60 else now + 300]
  {
    var w := World(map[1 := row], {row.org}, map[1 := score], 2);
    assert Due(w.zset, now) == {1};
    assert TickDispatches(w, now, oracle) == {1};
  }

  lemma Then(s: Clocked, events: seq<Event>, s1: Clocked, e: Event, s2: Clocked) returns (longer: seq<Event>)
    requires Exec(s, events) == s1 && Step(s1, e) == s2
    ensures Exec(s, longer) == s2
  {
    longer := events + [e];
    assert longer[..|events|] == events;
  }

  /* ---- the code ---- */

  function Score(zset: map<int, int>, id: int): Option<int> {
    if id in zset then Some(zset[id]) else None
  }

  /** What a tick leaves of a campaign in the ZSET: what there was if it was not due; nothing if its row is gone;
      else it is due again after its frequency, or after five minutes if its handling failed. */
  lemma TickMeans(w: World, now: int, oracle: Oracle, id: int)
    ensures var zset, due := TickZset(w, now, oracle), id in w.zset && 0 <= w.zset[id] <= now;
      && (!due ==> Score(zset, id) == Score(w.zset, id))
      && (due ==> (id in zset <==> At(oracle, id) == FailsBefore || id in w.campaigns))
      && (due && id in zset ==>
            zset[id] == if At(oracle, id) == Fine then now + w.campaigns[id].pollMinutes * 60 else now + 300)
    ensures id in TickDispatches(w, now, oracle) <==>
      && id in w.zset && 0 <= w.zset[id] <= now && At(oracle, id) != FailsBefore
      && id in w.campaigns && w.campaigns[id].status == ACTIVE && w.campaigns[id].org in w.activeOrgs
  {
  }

  /** Of the due campaigns, popped, the first i have been put back. */
  ghost predicate PutBack(w: World, now: int, oracle: Oracle, due: seq<int>, i: nat, zset: map<int, int>)
    requires i <= |due|
  {
    && (forall j | 0 <= j < i :: Score(zset, due[j]) == NewScore(w, due[j], now, At(oracle, due[j])))
    && (forall j | i <= j < |due| :: due[j] !in zset)
    && forall id | id !in due :: Score(zset, id) == Score(w.zset, id)
  }

  lemma PutOneBack(w: World, now: int, oracle: Oracle, due: seq<int>, i: nat, before: map<int, int>, zset: map<int, int>)
    requires i < |due| && PutBack(w, now, oracle, due, i, before) && NoRepeats(due)
    requires Score(zset, due[i]) == NewScore(w, due[i], now, At(oracle, due[i]))
    requires forall id | id != due[i] :: Score(zset, id) == Score(before, id)
    ensures PutBack(w, now, oracle, due, i + 1, zset)
  {
    forall j | 0 <= j < |due| && j != i ensures Score(zset, due[j]) == Score(before, due[j]) {
      assert due[j] != due[i];
    }
    forall j | i < j < |due| ensures due[j] !in zset {
      assert Score(zset, due[j]) == None;
    }
  }

  /** Each of these campaigns that is to be dispatched has been, once. */
  ghost predicate DispatchedAmong(w: World, oracle: Oracle, ids: seq<int>, dispatched: seq<int>) {
    (forall id :: id in dispatched <==> id in ids && Dispatched(w, id, At(oracle, id))) && NoRepeats(dispatched)
  }

  lemma DispatchOne(w: World, oracle: Oracle, due: seq<int>, i: nat, before: seq<int>, dispatched: seq<int>)
    requires i < |due| && NoRepeats(due) && DispatchedAmong(w, oracle, due[..i], before)
    requires dispatched == if Dispatched(w, due[i], At(oracle, due[i])) then before + [due[i]] else before
    ensures DispatchedAmong(w, oracle, due[..i + 1], dispatched)
  {
    assert due[..i + 1] == due[..i] + [due[i]];
    assert due[i] !in due[..i];
  }

  lemma DispatchesAre(w: World, now: int, oracle: Oracle, due: seq<int>, dispatched: seq<int>)
    requires forall id :: id in due <==> id in w.zset && 0 <= w.zset[id] <= now
    requires DispatchedAmong(w, oracle, due, dispatched)
    ensures forall id :: id in dispatched <==> id in TickDispatches(w, now, oracle)
    ensures forall id :: id in dispatched <==>
      && id in due && At(oracle, id) != FailsBefore
      && id in w.campaigns && w.campaigns[id].status == ACTIVE && w.campaigns[id].org in w.activeOrgs
  {
    forall id ensures id in TickDispatches(w, now, oracle) <==> id in due && Dispatched(w, id, At(oracle, id)) {
      assert id in due <==> id in Due(w.zset, now);
    }
  }

  /** Campaign by campaign, what a tick leaves in the ZSET. */
  lemma TickZsetIs(w: World, now: int, oracle: Oracle, due: seq<int>, zset: map<int, int>)
    requires forall id :: id in due <==> id in Due(w.zset, now)
    requires forall id | id in due :: Score(zset, id) == NewScore(w, id, now, At(oracle, id))
    requires forall id | id !in due :: Score(zset, id) == Score(w.zset, id)
    ensures zset == TickZset(w, now, oracle)
  {
    var expected := TickZset(w, now, oracle);
    forall id ensures Score(zset, id) == Score(expected, id) {
      if id in due {
        assert Score(zset, id) == NewScore(w, id, now, At(oracle, id));
      } else {
        assert Score(zset, id) == Score(w.zset, id);
      }
    }
    forall id ensures id in zset <==> id in expected {
      assert Score(zset, id) == Score(expected, id);
    }
    forall id | id in zset ensures zset[id] == expected[id] {
      assert Score(zset, id) == Score(expected, id);
    }
    assert zset.Keys == expected.Keys;
  }

  class SchedulerDb {
    var campaigns: map<int, Campaign>
    var activeOrgs: set<int>
    var zset: map<int, int>
    var nextId: int

    ghost function Value(): World
      reads this
    {
      World(campaigns, activeOrgs, zset, nextId)
    }

    method EnqueueCampaign(id: int, pollMinutes: int, now: int)
      modifies this`zset
      ensures zset == old(zset)[id := now + pollMinutes * 60]
    {
      zset := zset[id := now + pollMinutes * 60];
    }

    method RemoveCampaign(id: int)
      modifies this`zset
      ensures zset == old(zset) - {id}
    {
      zset := zset - {id};
    }

    method Create(org: int, pollMinutes: int, now: int) returns (id: int)
      modifies this
      ensures Value() == Api(old(Value()), CreateCampaign(org, pollMinutes), now)
      ensures id == old(nextId) && nextId == id + 1 && activeOrgs == old(activeOrgs)
      ensures campaigns == old(campaigns)[id := Campaign(org, ACTIVE, pollMinutes)] && zset == old(zset)[id := now]
    {
      id := nextId;
      nextId := nextId + 1;
      campaigns := campaigns[id := Campaign(org, ACTIVE, pollMinutes)];
      zset := zset[id := now];
    }

    method Update(org: int, id: int, status: Option<CampaignStatus>, pollMinutes: Option<int>, now: int)
      returns (found: bool)
      modifies this
      ensures Value() == Api(old(Value()), UpdateCampaign(org, id, status, pollMinutes), now)
      ensures found <==> id in old(campaigns) && old(campaigns)[id].org == org
      ensures !found ==> Value() == old(Value())
      ensures found ==>
        var c := old(campaigns)[id];
        var s, p := if status.Some? then status.value else c.status, if pollMinutes.Some? then pollMinutes.value else c.pollMinutes;
        && campaigns == old(campaigns)[id := Campaign(org, s, p)]
        && zset == (if s == ACTIVE && (s != c.status || p != c.pollMinutes) then old(zset)[id := now + p * 60]
                    else if c.status == ACTIVE && s != ACTIVE then old(zset) - {id}
                    else old(zset))
      ensures activeOrgs == old(activeOrgs) && nextId == old(nextId)
    {
      if !Owned(campaigns, org, id) {
        return false;
      }
      var previous := campaigns[id];
      var campaign := Patched(previous, status, pollMinutes);
      campaigns := campaigns[id := campaign];
      var statusChanged := campaign.status != previous.status;
      var frequencyChanged := campaign.pollMinutes != previous.pollMinutes;
      if campaign.status == ACTIVE && (statusChanged || frequencyChanged) {
        EnqueueCampaign(id, campaign.pollMinutes, now);
      } else if previous.status == ACTIVE && campaign.status != ACTIVE {
        RemoveCampaign(id);
      }
      return true;
    }

    method Delete(org: int, id: int) returns (found: bool)
      modifies this
      ensures Value() == Api(old(Value()), DeleteCampaign(org, id), 0)
      ensures found <==> id in old(campaigns) && old(campaigns)[id].org == org
      ensures !found ==> Value() == old(Value())
      ensures found ==> campaigns == old(campaigns) - {id} && zset == old(zset) - {id}
      ensures activeOrgs == old(activeOrgs) && nextId == old(nextId)
    {
      if !Owned(campaigns, org, id) {
        return false;
      }
      campaigns := campaigns - {id};
      RemoveCampaign(id);
      return true;
    }

    /** `active` is the answer to the query for the org's ACTIVE campaigns, in whatever order. */
    method ActivateKillSwitch(org: int, active: seq<int>)
      requires forall id :: id in active <==> id in campaigns && campaigns[id].org == org && campaigns[id].status == ACTIVE
      modifies this
      ensures Value() == Api(old(Value()), KillSwitch(org), 0)
      ensures campaigns.Keys == old(campaigns).Keys && activeOrgs == old(activeOrgs) && nextId == old(nextId)
      ensures forall id | id in old(campaigns) ::
        var c := old(campaigns)[id];
        if c.org == org && c.status == ACTIVE then campaigns[id] == Campaign(org, PAUSED, c.pollMinutes) && id !in zset
        else campaigns[id] == c && Score(zset, id) == Score(old(zset), id)
      ensures forall id | id !in old(campaigns) :: Score(zset, id) == Score(old(zset), id)
    {
      ghost var ids := ActiveOf(campaigns, org);
      assert (set id | id in active) == ids by {
        assert forall id :: id in active <==> id in ids;
      }
      campaigns := map id | id in campaigns ::
        if id in active then campaigns[id].(status := PAUSED) else campaigns[id];
      for i := 0 to |active|
        invariant zset == old(zset) - (set id | id in active[..i])
        invariant campaigns == Api(old(Value()), KillSwitch(org), 0).campaigns
        invariant activeOrgs == old(activeOrgs) && nextId == old(nextId)
      {
        assert active[..i + 1] == active[..i] + [active[i]];
        RemoveCampaign(active[i]);
      }
      assert active[..|active|] == active;
    }

    /** The handling of one due campaign, its exceptions caught. */
    method HandleDue(id: int, now: int, outcome: Outcome) returns (sent: bool)
      requires id !in zset
      modifies this`zset
      ensures sent <==> Dispatched(old(Value()), id, outcome)
      ensures Score(zset, id) == NewScore(old(Value()), id, now, outcome)
      ensures sent <==>
        outcome != FailsBefore && id in campaigns && campaigns[id].status == ACTIVE && campaigns[id].org in activeOrgs
      ensures id in zset <==> outcome == FailsBefore || id in campaigns
      ensures id in zset ==> zset[id] == if outcome == Fine then now + campaigns[id].pollMinutes * 60 else now + 300
      ensures forall other | other != id :: Score(zset, other) == Score(old(zset), other)
    {
      sent := false;
      if outcome == FailsBefore {
        zset := zset[id := now + 300];
      } else if id in campaigns {
        sent := campaigns[id].status == ACTIVE && campaigns[id].org in activeOrgs;
        zset := zset[id := if outcome == FailsAfter then now + 300 else now + campaigns[id].pollMinutes * 60];
      }
    }

    /** `due` is the ZSET range reply, in whatever order Redis lists it. */
    method SchedulerTick(now: int, due: seq<int>, oracle: Oracle) returns (dispatched: seq<int>)
      requires forall id :: id in due <==> id in zset && 0 <= zset[id] <= now
      requires forall i, j | 0 <= i < j < |due| :: due[i] != due[j]
      modifies this`zset
      ensures zset == TickZset(old(Value()), now, oracle)
      ensures forall id :: id in dispatched <==> id in TickDispatches(old(Value()), now, oracle)
      ensures forall id :: id in dispatched <==>
        && id in due && At(oracle, id) != FailsBefore
        && id in campaigns && campaigns[id].status == ACTIVE && campaigns[id].org in activeOrgs
      ensures forall i, j | 0 <= i < j < |dispatched| :: dispatched[i] != dispatched[j]
    {
      ghost var w := Value();
      dispatched := [];
      zset := zset - (set id | id in due);
      for i := 0 to |due|
        invariant DispatchedAmong(w, oracle, due[..i], dispatched)
        invariant PutBack(w, now, oracle, due, i, zset)
      {
        ghost var before, sentBefore := zset, dispatched;
        var sent := HandleDue(due[i], now, At(oracle, due[i]));
        if sent {
          dispatched := dispatched + [due[i]];
        }
        DispatchOne(w, oracle, due, i, sentBefore, dispatched);
        PutOneBack(w, now, oracle, due, i, before, zset);
      }
      assert due[..|due|] == due;
      TickZsetIs(w, now, oracle, due, zset);
      DispatchesAre(w, now, oracle, due, dispatched);
    }
  }
}
