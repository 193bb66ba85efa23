/** The campaign scheduler: Postgres campaign rows, the Redis ZSET that indexes the ones to poll, the API
    handlers that keep the two in step, and the tick.  Each API handler is one atomic step.  Times are in
    seconds. */
module Scheduler {
  import opened Common

  datatype CampaignStatus = ACTIVE | PAUSED | ARCHIVED

  datatype Campaign = Campaign(org: int, status: CampaignStatus, pollMinutes: int)

  datatype World = World(
    campaigns: map<int, Campaign>, activeOrgs: set<int>, zset: map<int, int>, nextId: int)

  datatype Call =
    | CreateCampaign(org: int, pollMinutes: int)
    | UpdateCampaign(org: int, id: int, status: Option<CampaignStatus>, pollEvery: Option<int>)
    | DeleteCampaign(org: int, id: int)
    | KillSwitch(org: int)
    | SetOrgActive(org: int, active: bool)

  predicate Owned(campaigns: map<int, Campaign>, org: int, id: int) {
    id in campaigns && campaigns[id].org == org
  }

  function Patched(c: Campaign, status: Option<CampaignStatus>, pollMinutes: Option<int>): Campaign {
    c.(status := if status.Some? then status.value else c.status,
       pollMinutes := if pollMinutes.Some? then pollMinutes.value else c.pollMinutes)
  }

  /** The edit changed status or frequency and leaves the campaign ACTIVE, so it is scheduled afresh. */
  predicate Reschedules(before: Campaign, after: Campaign) {
    after.status == ACTIVE && (after.status != before.status || after.pollMinutes != before.pollMinutes)
  }

  function ActiveOf(campaigns: map<int, Campaign>, org: int): set<int> {
    set id | id in campaigns && campaigns[id].org == org && campaigns[id].status == ACTIVE
  }

  function Api(w: World, call: Call, now: int): World {
    match call
    case CreateCampaign(org, pollMinutes) =>
      w.(campaigns := w.campaigns[w.nextId := Campaign(org, ACTIVE, pollMinutes)],
         zset := w.zset[w.nextId := now], nextId := w.nextId + 1)
    case UpdateCampaign(org, id, status, pollMinutes) =>
      if !Owned(w.campaigns, org, id) then w
      else
        var c := w.campaigns[id];
        var c' := Patched(c, status, pollMinutes);
        w.(campaigns := w.campaigns[id := c'],
           zset := if Reschedules(c, c') then w.zset[id := now + c'.pollMinutes * 60]
                   else if c.status == ACTIVE && c'.status != ACTIVE then w.zset - {id}
                   else w.zset)
    case DeleteCampaign(org, id) =>
      if !Owned(w.campaigns, org, id) then w
      else w.(campaigns := w.campaigns - {id}, zset := w.zset - {id})
    case KillSwitch(org) =>
      var ids := ActiveOf(w.campaigns, org);
      w.(campaigns := map id | id in w.campaigns ::
           if id in ids then w.campaigns[id].(status := PAUSED) else w.campaigns[id],
         zset := w.zset - ids)
    case SetOrgActive(org, active) =>
      w.(activeOrgs := if active then w.activeOrgs + {org} else w.activeOrgs - {org})
  }

  /** A kill switch pauses and unqueues the ACTIVE campaigns of its org, and touches nothing else. */
  lemma KillSwitchTouchesItsOrgOnly(w: World, org: int, now: int, id: int)
    ensures var w' := Api(w, KillSwitch(org), now); var hit := id in w.campaigns && w.campaigns[id].org == org && w.campaigns[id].status == ACTIVE;
      && (id in w'.campaigns <==> id in w.campaigns)
      && (hit ==> w'.campaigns[id] == w.campaigns[id].(status := PAUSED) && id !in w'.zset)
      && (id in w.campaigns && !hit ==> w'.campaigns[id] == w.campaigns[id])
      && (!hit ==> (id in w'.zset <==> id in w.zset) && (id in w.zset ==> w'.zset[id] == w.zset[id]))
      && w'.activeOrgs == w.activeOrgs && w'.nextId == w.nextId
  {
  }

  function Due(zset: map<int, int>, now: int): set<int> {
    set id | id in zset && 0 <= zset[id] <= now
  }

  /** How the handling of one due campaign goes: fine, or an exception before or after the dispatch. */
  datatype Outcome = Fine | FailsBefore | FailsAfter

  predicate IsActive(w: World, id: int) {
    id in w.campaigns && w.campaigns[id].status == ACTIVE && w.campaigns[id].org in w.activeOrgs
  }

  /** The row and its org are active at the read, and the dispatch is reached. */
  predicate Dispatched(w: World, id: int, outcome: Outcome) {
    outcome != FailsBefore && IsActive(w, id)
  }

  /** The score the tick puts the campaign back with; none if the row is gone. */
  function NewScore(w: World, id: int, now: int, outcome: Outcome): Option<int> {
    if outcome == FailsBefore then Some(now + 300)
    else if id !in w.campaigns then None
    else if outcome == FailsAfter then Some(now + 300)
    else Some(now + w.campaigns[id].pollMinutes * 60)
  }

  /** Of a campaign that is there and ACTIVE, its org's switch alone decides whether it may be dispatched. */
  lemma OrgSwitchDecides(w: World, org: int, active: bool, now: int, id: int, outcome: Outcome)
    ensures var w' := Api(w, SetOrgActive(org, active), now);
      && w'.campaigns == w.campaigns && w'.zset == w.zset && w'.nextId == w.nextId
      && (Dispatched(w', id, outcome) <==>
            && id in w.campaigns && w.campaigns[id].status == ACTIVE && outcome != FailsBefore
            && (if w.campaigns[id].org == org then active else w.campaigns[id].org in w.activeOrgs))
  {
  }

  /* ---- ticks interleaved step by step with each other and with the API ---- */

  /** Fetched: the due ids are read.  Loop: they are popped, `ids` are still to do.  Decided: the first of
      them has been read from the tables, and `go` says it is to be dispatched.  Putting: it is about to be
      put back.  Dead: its worker is lost.  `seen` are the org rows the tick's session holds: an org is read once in
      a tick, or again after an exception, which empties the session. */
  datatype Tick =
    | Fetched(now: int, ids: seq<int>)
    | Loop(now: int, ids: seq<int>, seen: map<int, bool>)
    | Decided(now: int, id: int, row: Campaign, go: bool, ids: seq<int>, seen: map<int, bool>)
    | Putting(now: int, id: int, score: int, ids: seq<int>, seen: map<int, bool>)
    | Dead

  /** `dispatches` logs (campaign, its org) in order. */
  datatype State = State(w: World, ticks: seq<Tick>, dispatches: seq<(int, int)>)

  datatype Event =
    | CallApi(call: Call, now: int)
    | StartTick(now: int, ids: seq<int>)
    | StepTick(tick: nat, outcome: Outcome)
    | Die(tick: nat)

  /** The look at the row, and at its org through the session. */
  function Look(w: World, now: int, ids: seq<int>, seen: map<int, bool>, outcome: Outcome): Tick
    requires ids != []
  {
    var id := ids[0];
    if outcome == FailsBefore then Putting(now, id, now + 300, ids[1..], map[])
    else if id !in w.campaigns then Loop(now, ids[1..], seen)
    else
      var row := w.campaigns[id];
      var orgActive := if row.org in seen then seen[row.org] else row.org in w.activeOrgs;
      Decided(now, id, row, row.status == ACTIVE && orgActive, ids[1..], seen[row.org := orgActive])
  }

  function StepOfTick(s: State, i: nat, outcome: Outcome): State
    requires i < |s.ticks|
  {
    match s.ticks[i]
    case Fetched(now, ids) =>
      s.(w := s.w.(zset := s.w.zset - (set id | id in ids)), ticks := s.ticks[i := Loop(now, ids, map[])])
    case Loop(now, ids, seen) =>
      if ids == [] then s else s.(ticks := s.ticks[i := Look(s.w, now, ids, seen, outcome)])
    case Decided(now, id, row, go, ids, seen) =>
      var score := if outcome == Fine then now + row.pollMinutes * 60 else now + 300;
      var seen' := if outcome == Fine then seen else map[];
      s.(ticks := s.ticks[i := Putting(now, id, score, ids, seen')],
         dispatches := if go && outcome != FailsBefore then s.dispatches + [(id, row.org)] else s.dispatches)
    case Putting(now, id, score, ids, seen) =>
      s.(w := s.w.(zset := s.w.zset[id := score]), ticks := s.ticks[i := Loop(now, ids, seen)])
    case Dead => s
  }

  /** A tick reads an org at the first of its campaigns, and again only after an exception: a campaign goes out, unless
      an exception comes first, if it is ACTIVE and its org was on at that read. */
  lemma OrgIsReadOnceATick(s: State, i: nat, outcome: Outcome)
    requires i < |s.ticks| && s.ticks[i].Decided? && s.ticks[i].ids != [] && s.ticks[i].ids[0] in s.w.campaigns
    ensures var t, next := s.ticks[i], s.w.campaigns[s.ticks[i].ids[0]];
      var on := if outcome == Fine && next.org in t.seen then t.seen[next.org] else next.org in s.w.activeOrgs;
      && StepOfTick(s, i, outcome).dispatches
         == s.dispatches + (if t.go && outcome != FailsBefore then [(t.id, t.row.org)] else [])
      && StepOfTick(StepOfTick(StepOfTick(s, i, outcome), i, Fine), i, Fine).ticks[i]
         == Decided(t.now, t.ids[0], next, next.status == ACTIVE && on, t.ids[1..],
                    (if outcome == Fine then t.seen else map[])[next.org := on])
  {
  }

  predicate NoRepeats(ids: seq<int>) {
    forall i, j | 0 <= i < j < |ids| :: ids[i] != ids[j]
  }

  /** A tick's first command answers with the due ids, each once, in whatever order. */
  function Step(s: State, e: Event): State {
    match e
    case CallApi(call, now) => s.(w := Api(s.w, call, now))
    case StartTick(now, ids) =>
      if (set id | id in ids) == Due(s.w.zset, now) && NoRepeats(ids) then s.(ticks := s.ticks + [Fetched(now, ids)]) else s
    case StepTick(i, outcome) => if i < |s.ticks| then StepOfTick(s, i, outcome) else s
    case Die(i) => if i < |s.ticks| then s.(ticks := s.ticks[i := Dead]) else s
  }

  function Exec(s: State, events: seq<Event>): State {
    if events == [] then s else Step(Exec(s, events[..|events| - 1]), events[|events| - 1])
  }

  /** Popped by this tick and not yet put back. */
  function InHand(t: Tick): seq<int> {
    match t
    case Fetched(_, _) => []
    case Loop(_, ids, _) => ids
    case Decided(_, id, _, _, ids, _) => [id] + ids
    case Putting(_, id, _, ids, _) => [id] + ids
    case Dead => []
  }

  predicate HeldByTick(ticks: seq<Tick>, id: int) {
    exists i | 0 <= i < |ticks| :: id in InHand(ticks[i])
  }

  ghost predicate Indexed(s: State) {
    forall id | id in s.w.campaigns && s.w.campaigns[id].status == ACTIVE ::
      id in s.w.zset || HeldByTick(s.ticks, id)
  }

  lemma HeldAfter(ticks: seq<Tick>, i: nat, t: Tick, id: int)
    requires i < |ticks|
    requires HeldByTick(ticks, id) && id in InHand(ticks[i]) ==> id in InHand(t)
    ensures HeldByTick(ticks, id) ==> HeldByTick(ticks[i := t], id)
    ensures id in InHand(t) ==> HeldByTick(ticks[i := t], id)
  {
    var ticks' := ticks[i := t];
    if HeldByTick(ticks, id) {
      var j :| 0 <= j < |ticks| && id in InHand(ticks[j]);
      assert id in InHand(ticks'[j]);
    }
    assert ticks'[i] == t;
  }

  lemma TickKeepsIndexed(s: State, i: nat, outcome: Outcome)
    requires Indexed(s) && i < |s.ticks|
    ensures Indexed(StepOfTick(s, i, outcome))
  {
    var s' := StepOfTick(s, i, outcome);
    assert s'.ticks == s.ticks[i := s'.ticks[i]];
    forall id | id in s'.w.campaigns && s'.w.campaigns[id].status == ACTIVE
      ensures id in s'.w.zset || HeldByTick(s'.ticks, id)
    {
      assert id in s.w.zset || HeldByTick(s.ticks, id);
      if id in InHand(s.ticks[i]) && id !in InHand(s'.ticks[i]) {
        assert s.ticks[i].Putting? && id == s.ticks[i].id;
      } else {
        HeldAfter(s.ticks, i, s'.ticks[i], id);
      }
    }
  }

  lemma StepKeepsIndexed(s: State, e: Event)
    requires Indexed(s) && !e.Die?
    ensures Indexed(Step(s, e))
  {
    match e
    case CallApi(_, _) =>
    case StartTick(_, _) =>
      var s' := Step(s, e);
      forall id | HeldByTick(s.ticks, id) ensures HeldByTick(s'.ticks, id) {
        var i :| 0 <= i < |s.ticks| && id in InHand(s.ticks[i]);
        assert s'.ticks[i] == s.ticks[i];
      }
    case StepTick(i, outcome) => if i < |s.ticks| { TickKeepsIndexed(s, i, outcome); }
  }

  function Init(): State {
    State(World(map[], {}, map[], 1), [], [])
  }

  /** As long as no tick dies: whatever ticks overlap with each other, with API calls and with exceptions on single
      campaigns, every ACTIVE campaign is in the ZSET, or a tick that has popped it will put it back. */
  lemma {:induction false} ActiveIsQueuedOrInHand(events: seq<Event>)
    requires forall e | e in events :: !e.Die?
    ensures Indexed(Exec(Init(), events))
  {
    if events != [] {
      assert events[|events| - 1] in events;
      ActiveIsQueuedOrInHand(events[..|events| - 1]);
      StepKeepsIndexed(Exec(Init(), events[..|events| - 1]), events[|events| - 1]);
    }
  }

  ghost predicate NoneActive(campaigns: map<int, Campaign>, org: int) {
    forall id | id in campaigns && campaigns[id].org == org :: campaigns[id].status != ACTIVE
  }

  /** Nothing in the call puts a campaign of the org back to work. */
  predicate LeavesOrgPaused(e: Event, org: int) {
    e.CallApi? ==>
      && !(e.call.CreateCampaign? && e.call.org == org)
      && !(e.call.UpdateCampaign? && e.call.org == org && e.call.status == Some(ACTIVE))
  }

  function Tally(ticks: seq<Tick>, p: Tick -> bool): nat {
    if ticks == [] then 0 else Tally(ticks[..|ticks| - 1], p) + if p(ticks[|ticks| - 1]) then 1 else 0
  }

  lemma {:induction false} TallyUpdate(ticks: seq<Tick>, i: nat, t: Tick, p: Tick -> bool)
    requires i < |ticks|
    ensures Tally(ticks[i := t], p) == Tally(ticks, p) - (if p(ticks[i]) then 1 else 0) + (if p(t) then 1 else 0)
  {
    var n := |ticks| - 1;
    if i == n {
      assert ticks[i := t][..n] == ticks[..n];
    } else {
      assert ticks[i := t][..n] == ticks[..n][i := t];
      TallyUpdate(ticks[..n], i, t, p);
    }
  }

  lemma {:induction false} TallyMeans(ticks: seq<Tick>, p: Tick -> bool)
    ensures Tally(ticks, p) == 0 <==> forall i | 0 <= i < |ticks| :: !p(ticks[i])
  {
    if ticks != [] {
      var n := |ticks| - 1;
      TallyMeans(ticks[..n], p);
      assert forall i | 0 <= i < n :: ticks[..n][i] == ticks[i];
    }
  }

  /** The tick has read a campaign of the org as active and not dispatched it yet. */
  function AboutTo(org: int): Tick -> bool {
    (t: Tick) => t.Decided? && t.go && t.row.org == org
  }

  function Under(ticks: seq<Tick>, org: int): nat {
    Tally(ticks, AboutTo(org))
  }

  function DispatchesOf(dispatches: seq<(int, int)>, org: int): nat {
    if dispatches == [] then 0
    else DispatchesOf(dispatches[..|dispatches| - 1], org) + (if dispatches[|dispatches| - 1].1 == org then 1 else 0)
  }

  /** Dispatches of the org made and decided on. */
  function OnTheWay(s: State, org: int): nat {
    DispatchesOf(s.dispatches, org) + Under(s.ticks, org)
  }

  lemma TickStepsDown(s: State, i: nat, outcome: Outcome, org: int)
    requires i < |s.ticks| && NoneActive(s.w.campaigns, org)
    ensures var s' := StepOfTick(s, i, outcome);
      OnTheWay(s', org) <= OnTheWay(s, org)
  {
    var s' := StepOfTick(s, i, outcome);
    assert s'.ticks == s.ticks[i := s'.ticks[i]];
    TallyUpdate(s.ticks, i, s'.ticks[i], AboutTo(org));
    if s'.dispatches != s.dispatches { assert s'.dispatches[..|s.dispatches|] == s.dispatches; }
  }

  /** While the org has no ACTIVE campaign, no step adds to what was already on its way. */
  lemma PausedOrgStepsDown(s: State, e: Event, org: int)
    requires NoneActive(s.w.campaigns, org)
    ensures var s' := Step(s, e);
      OnTheWay(s', org) <= OnTheWay(s, org)
  {
    var s' := Step(s, e);
    match e
    case CallApi(_, _) =>
    case StartTick(_, _) =>
      if s' != s { assert s'.ticks[..|s.ticks|] == s.ticks; }
    case Die(i) =>
      if i < |s.ticks| { TallyUpdate(s.ticks, i, Dead, AboutTo(org)); }
    case StepTick(i, outcome) =>
      if i < |s.ticks| { TickStepsDown(s, i, outcome, org); }
  }

  /** The kill switch stops the org at once: from then on, until someone creates or resumes a campaign,
      at most those dispatches still go out that a tick had already decided on. */
  lemma {:induction false} KillSwitchStopsDispatch(s: State, org: int, now: int, events: seq<Event>)
    requires forall e | e in events :: LeavesOrgPaused(e, org)
    ensures var s' := Exec(Step(s, CallApi(KillSwitch(org), now)), events);
      && OnTheWay(s', org) <= OnTheWay(s, org)
      && NoneActive(s'.w.campaigns, org)
  {
    if events != [] {
      var init, e := events[..|events| - 1], events[|events| - 1];
      KillSwitchStopsDispatch(s, org, now, init);
      assert e in events && LeavesOrgPaused(e, org);
      PausedOrgStepsDown(Exec(Step(s, CallApi(KillSwitch(org), now)), init), e, org);
    }
  }
  lemma {:induction false} DispatchesGrow(s: State, events: seq<Event>)
    ensures s.dispatches <= Exec(s, events).dispatches
  {
    if events != [] {
      DispatchesGrow(s, events[..|events| - 1]);
    }
  }

  lemma {:induction false} NewDispatchesCount(before: seq<(int, int)>, after: seq<(int, int)>, org: int)
    requires before <= after
    ensures DispatchesOf(after, org) >= DispatchesOf(before, org)
    ensures (exists j | |before| <= j < |after| :: after[j].1 == org) ==> DispatchesOf(after, org) > DispatchesOf(before, org)
  {
    if |after| > |before| {
      NewDispatchesCount(before, after[..|after| - 1], org);
    } else {
      assert after == before;
    }
  }

  /** If no tick had decided on a campaign of the org when the kill switch came, none of it is dispatched until someone
      creates or resumes one. */
  lemma KillSwitchSilences(s: State, org: int, now: int, events: seq<Event>)
    requires forall e | e in events :: LeavesOrgPaused(e, org)
    requires forall i | 0 <= i < |s.ticks| && s.ticks[i].Decided? && s.ticks[i].go :: s.ticks[i].row.org != org
    ensures var s' := Exec(Step(s, CallApi(KillSwitch(org), now)), events);
      s.dispatches <= s'.dispatches && forall j | |s.dispatches| <= j < |s'.dispatches| :: s'.dispatches[j].1 != org
  {
    var s1 := Step(s, CallApi(KillSwitch(org), now));
    TallyMeans(s.ticks, AboutTo(org));
    KillSwitchStopsDispatch(s, org, now, events);
    DispatchesGrow(s1, events);
    NewDispatchesCount(s.dispatches, Exec(s1, events).dispatches, org);
  }
}
