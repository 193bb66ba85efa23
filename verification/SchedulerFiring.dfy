/** When overlapping ticks dispatch a campaign twice: exact conditions, step by step and over whole runs, on the
    machine in `Scheduler`. */
module SchedulerFiring {
  import opened Common
  import opened Scheduler

  /* ---- double firing ---- */

  /** Read or popped by this tick, and not yet put back. */
  function Holds(t: Tick): seq<int> {
    if t.Fetched? then t.ids else InHand(t)
  }

  /** No two ticks hold the campaign, and while one has it popped it is not in the ZSET. */
  ghost predicate HeldOnce(s: State, id: int) {
    && id < s.w.nextId
    && (forall i | 0 <= i < |s.ticks| :: NoRepeats(Holds(s.ticks[i])))
    && (forall i | 0 <= i < |s.ticks| :: id in InHand(s.ticks[i]) ==> id !in s.w.zset)
    && forall i, j | 0 <= i < j < |s.ticks| :: !(id in Holds(s.ticks[i]) && id in Holds(s.ticks[j]))
  }

  /** The tick has read the campaign and not popped it yet. */
  function Reading(id: int): Tick -> bool {
    (t: Tick) => t.Fetched? && id in t.ids
  }

  /** A tick reads the campaign between another tick's read and pop of it. */
  predicate ReadsInWindow(s: State, e: Event, id: int) {
    && e.StartTick? && Step(s, e) != s && id in e.ids
    && exists i | 0 <= i < |s.ticks| :: Reading(id)(s.ticks[i])
  }

  /** The step puts the campaign into the ZSET: a creation, an edit that schedules it afresh, or a tick. */
  predicate Enqueues(s: State, e: Event, id: int) {
    match e
    case CallApi(call, _) =>
      || (call.CreateCampaign? && id == s.w.nextId)
      || (call.UpdateCampaign? && call.id == id && Owned(s.w.campaigns, call.org, id)
          && Reschedules(s.w.campaigns[id], Patched(s.w.campaigns[id], call.status, call.pollEvery)))
    case StartTick(_, _) => false
    case StepTick(i, _) => i < |s.ticks| && s.ticks[i].Putting? && s.ticks[i].id == id
    case Die(_) => false
  }

  /** An edit puts the campaign into the ZSET while a tick has it in hand. */
  predicate Requeues(s: State, e: Event, id: int) {
    e.CallApi? && Enqueues(s, e, id) && HeldByTick(s.ticks, id)
  }

  lemma StartIsExact(s: State, e: Event, id: int)
    requires HeldOnce(s, id) && e.StartTick?
    ensures HeldOnce(Step(s, e), id) <==> !ReadsInWindow(s, e, id)
  {
    var s', n := Step(s, e), |s.ticks|;
    if s' != s {
      assert s'.ticks == s.ticks + [Fetched(e.now, e.ids)];
      assert forall i | 0 <= i < n :: s'.ticks[i] == s.ticks[i];
      if ReadsInWindow(s, e, id) {
        var i :| 0 <= i < n && Reading(id)(s.ticks[i]);
        assert id in Holds(s'.ticks[i]) && id in Holds(s'.ticks[n]);
      } else if id in e.ids {
        assert id in Due(s.w.zset, e.now);
        forall i | 0 <= i < n ensures id !in Holds(s'.ticks[i]) {
          assert !Reading(id)(s.ticks[i]);
        }
      }
    }
  }

  lemma CallIsExact(s: State, e: Event, id: int)
    requires HeldOnce(s, id) && e.CallApi?
    ensures HeldOnce(Step(s, e), id) <==> !Requeues(s, e, id)
  {
    var s' := Step(s, e);
    assert s'.ticks == s.ticks;
    if Requeues(s, e, id) {
      assert id in s'.w.zset;
      var i :| 0 <= i < |s.ticks| && id in InHand(s.ticks[i]);
      assert id in InHand(s'.ticks[i]);
    } else if !Enqueues(s, e, id) {
      assert id in s'.w.zset ==> id in s.w.zset;
    }
  }

  /** The part of the tick that a step leaves to do. */
  lemma LookLists(w: World, now: int, ids: seq<int>, seen: map<int, bool>, outcome: Outcome)
    requires ids != [] && NoRepeats(ids)
    ensures var t := Look(w, now, ids, seen, outcome); NoRepeats(Holds(t)) && forall id | id in Holds(t) :: id in ids
  {
    assert [ids[0]] + ids[1..] == ids;
    TailHasNoRepeats(ids);
  }

  lemma TickStepLists(s: State, i: nat, outcome: Outcome)
    requires i < |s.ticks| && NoRepeats(Holds(s.ticks[i]))
    ensures var t' := StepOfTick(s, i, outcome).ticks[i];
      NoRepeats(Holds(t')) && forall id | id in Holds(t') :: id in Holds(s.ticks[i])
  {
    match s.ticks[i]
    case Fetched(_, _) =>
    case Loop(now, ids, seen) =>
      if ids != [] { LookLists(s.w, now, ids, seen, outcome); }
    case Decided(_, _, _, _, _, _) =>
    case Putting(_, id, _, ids, _) =>
      assert ([id] + ids)[1..] == ids;
      TailHasNoRepeats([id] + ids);
    case Dead =>
  }

  /** What a step does to the ZSET. */
  lemma TickStepZset(s: State, i: nat, outcome: Outcome)
    requires i < |s.ticks| && NoRepeats(Holds(s.ticks[i]))
    ensures var t, s' := s.ticks[i], StepOfTick(s, i, outcome);
      && s'.ticks == s.ticks[i := s'.ticks[i]] && s'.w.nextId == s.w.nextId
      && (t.Putting? ==> t.id in Holds(t) && t.id !in Holds(s'.ticks[i]) && s'.w.zset == s.w.zset[t.id := t.score])
      && (t.Fetched? ==> s'.w.zset == s.w.zset - (set id | id in t.ids) && InHand(s'.ticks[i]) == t.ids)
      && (!t.Putting? && !t.Fetched? ==> s'.w.zset == s.w.zset)
  {
    if s.ticks[i].Putting? {
      TailHasNoRepeats(Holds(s.ticks[i]));
      assert Holds(s.ticks[i])[1..] == s.ticks[i].ids;
    }
  }

  lemma TickStepHolds(s: State, i: nat, outcome: Outcome)
    requires i < |s.ticks| && NoRepeats(Holds(s.ticks[i]))
    ensures var t, s' := s.ticks[i], StepOfTick(s, i, outcome);
      && s'.ticks == s.ticks[i := s'.ticks[i]] && s'.w.nextId == s.w.nextId
      && NoRepeats(Holds(s'.ticks[i]))
      && (forall id | id in Holds(s'.ticks[i]) :: id in Holds(t))
      && (t.Putting? ==> t.id in Holds(t) && t.id !in Holds(s'.ticks[i]) && s'.w.zset == s.w.zset[t.id := t.score])
      && (t.Fetched? ==> s'.w.zset == s.w.zset - (set id | id in t.ids) && InHand(s'.ticks[i]) == t.ids)
      && (!t.Putting? && !t.Fetched? ==> s'.w.zset == s.w.zset)
  {
    TickStepLists(s, i, outcome);
    TickStepZset(s, i, outcome);
  }

  lemma TailHasNoRepeats(ids: seq<int>)
    requires NoRepeats(ids) && ids != []
    ensures NoRepeats(ids[1..]) && ids[0] !in ids[1..]
  {
  }

  lemma TickKeepsHeldOnce(s: State, i: nat, outcome: Outcome, id: int)
    requires HeldOnce(s, id) && i < |s.ticks|
    ensures HeldOnce(StepOfTick(s, i, outcome), id)
  {
    TickStepHolds(s, i, outcome);
    var t, s' := s.ticks[i], StepOfTick(s, i, outcome);
    assert forall j | 0 <= j < |s.ticks| && j != i && id in Holds(s.ticks[j]) :: id !in Holds(t);
    assert forall j | 0 <= j < |s.ticks| && j != i :: s'.ticks[j] == s.ticks[j];
  }

  lemma DieKeepsHeldOnce(s: State, i: nat, id: int)
    requires HeldOnce(s, id)
    ensures HeldOnce(Step(s, Die(i)), id)
  {
    var s' := Step(s, Die(i));
    assert i < |s.ticks| ==> forall j | 0 <= j < |s.ticks| && j != i :: s'.ticks[j] == s.ticks[j];
  }

  /** One step keeps the campaign out of double hands exactly if it neither reads it in another tick's window
      nor, as an edit, puts it back while a tick has it. */
  lemma HeldOnceIsExact(s: State, e: Event, id: int)
    requires HeldOnce(s, id)
    ensures HeldOnce(Step(s, e), id) <==> !ReadsInWindow(s, e, id) && !Requeues(s, e, id)
  {
    match e
    case CallApi(_, _) => CallIsExact(s, e, id);
    case StartTick(_, _) => StartIsExact(s, e, id);
    case StepTick(i, outcome) => if i < |s.ticks| { TickKeepsHeldOnce(s, i, outcome, id); }
    case Die(i) => DieKeepsHeldOnce(s, i, id);
  }

  /** Held once after every step of the run. */
  ghost predicate StaysHeldOnce(s: State, events: seq<Event>, id: int) {
    (events != [] ==> StaysHeldOnce(s, events[..|events| - 1], id)) && HeldOnce(Exec(s, events), id)
  }

  ghost predicate NoWindowReads(s: State, events: seq<Event>, id: int) {
    events != [] ==>
      && NoWindowReads(s, events[..|events| - 1], id)
      && !ReadsInWindow(Exec(s, events[..|events| - 1]), events[|events| - 1], id)
  }

  ghost predicate NoRequeues(s: State, events: seq<Event>, id: int) {
    events != [] ==>
      && NoRequeues(s, events[..|events| - 1], id)
      && !Requeues(Exec(s, events[..|events| - 1]), events[|events| - 1], id)
  }

  /** Over whole runs: no two ticks ever have the campaign, if and only if no tick reads it in another's
      window and no edit puts it back while a tick has it. */
  lemma {:induction false} OneTickHasIt(s: State, events: seq<Event>, id: int)
    requires HeldOnce(s, id)
    ensures StaysHeldOnce(s, events, id) <==> NoWindowReads(s, events, id) && NoRequeues(s, events, id)
  {
    if events != [] {
      var init, e := events[..|events| - 1], events[|events| - 1];
      OneTickHasIt(s, init, id);
      if StaysHeldOnce(s, init, id) {
        assert HeldOnce(Exec(s, init), id);
        HeldOnceIsExact(Exec(s, init), e, id);
      }
    }
  }

  /* ---- one dispatch for each time it is put into the ZSET ---- */

  /** The tick has popped the campaign and may still dispatch it. */
  function MayFire(id: int): Tick -> bool {
    (t: Tick) => match t
         case Fetched(_, _) => false
         case Loop(_, ids, _) => id in ids
         case Decided(_, first, _, _, ids, _) => id == first || id in ids
         case Putting(_, _, _, ids, _) => id in ids
         case Dead => false
  }

  /** Dispatches of the campaign still to come if nobody puts it into the ZSET any more: one for its place in
      the ZSET, or one for each tick that has read it there, and one for each tick that has popped it. */
  function Stock(s: State, id: int): nat {
    Max(Tally(s.ticks, Reading(id)), if id in s.w.zset then 1 else 0) + Tally(s.ticks, MayFire(id))
  }

  function Fired(dispatches: seq<(int, int)>, id: int): nat {
    if dispatches == [] then 0
    else Fired(dispatches[..|dispatches| - 1], id) + if dispatches[|dispatches| - 1].0 == id then 1 else 0
  }

  ghost predicate ListsOnce(s: State) {
    forall i | 0 <= i < |s.ticks| :: NoRepeats(Holds(s.ticks[i]))
  }

  /** Every dispatch, and every dispatch still to come, is paid for by an enqueue. */
  ghost predicate Pays(s: State, e: Event, id: int) {
    var s' := Step(s, e);
    Fired(s'.dispatches, id) + Stock(s', id) <= Fired(s.dispatches, id) + Stock(s, id) + if Enqueues(s, e, id) then 1 else 0
  }

  /** What the step does to the tick's own part of the stock. */
  lemma TickStepFires(s: State, i: nat, outcome: Outcome, id: int)
    requires i < |s.ticks| && NoRepeats(Holds(s.ticks[i]))
    ensures var t, s' := s.ticks[i], StepOfTick(s, i, outcome); var t' := s'.ticks[i];
      && !Reading(id)(t')
      && (t.Fetched? ==> MayFire(id)(t') == Reading(id)(t))
      && (!t.Fetched? ==> (MayFire(id)(t') ==> MayFire(id)(t)))
      && (Fired(s'.dispatches, id) == Fired(s.dispatches, id)
          || (Fired(s'.dispatches, id) == Fired(s.dispatches, id) + 1 && MayFire(id)(t) && !MayFire(id)(t')))
  {
    var t, s' := s.ticks[i], StepOfTick(s, i, outcome);
    match t
    case Fetched(_, _) =>
    case Loop(_, ids, _) =>
      if ids != [] { assert ids == [ids[0]] + ids[1..]; }
    case Decided(_, first, _, _, ids, _) =>
      assert ([first] + ids)[1..] == ids;
      TailHasNoRepeats([first] + ids);
      if s'.dispatches != s.dispatches { assert s'.dispatches[..|s.dispatches|] == s.dispatches; }
    case Putting(_, _, _, _, _) =>
    case Dead =>
  }

  lemma TickPays(s: State, i: nat, outcome: Outcome, id: int)
    requires ListsOnce(s) && i < |s.ticks|
    ensures ListsOnce(StepOfTick(s, i, outcome)) && Pays(s, StepTick(i, outcome), id)
  {
    TickStepHolds(s, i, outcome);
    TickStepFires(s, i, outcome, id);
    var s' := StepOfTick(s, i, outcome);
    TallyUpdate(s.ticks, i, s'.ticks[i], Reading(id));
    TallyUpdate(s.ticks, i, s'.ticks[i], MayFire(id));
  }

  lemma StartPays(s: State, e: Event, id: int)
    requires ListsOnce(s) && e.StartTick?
    ensures ListsOnce(Step(s, e)) && (Pays(s, e, id) <==> !ReadsInWindow(s, e, id))
  {
    var s', n := Step(s, e), |s.ticks|;
    if s' != s {
      assert s'.ticks[..n] == s.ticks;
      assert id in e.ids ==> id in Due(s.w.zset, e.now);
      TallyMeans(s.ticks, Reading(id));
    }
  }

  /** One step pays, from any state, exactly if it does not read the campaign in another tick's window. */
  lemma PaysIsExact(s: State, e: Event, id: int)
    requires ListsOnce(s)
    ensures ListsOnce(Step(s, e)) && (Pays(s, e, id) <==> !ReadsInWindow(s, e, id))
  {
    match e
    case CallApi(_, _) =>
    case StartTick(_, _) => StartPays(s, e, id);
    case StepTick(i, outcome) => if i < |s.ticks| { TickPays(s, i, outcome, id); }
    case Die(i) =>
      if i < |s.ticks| {
        TallyUpdate(s.ticks, i, Dead, Reading(id));
        TallyUpdate(s.ticks, i, Dead, MayFire(id));
      }
  }

  function EnqueuesIn(s: State, events: seq<Event>, id: int): nat {
    if events == [] then 0
    else
      var init := events[..|events| - 1];
      EnqueuesIn(s, init, id) + if Enqueues(Exec(s, init), events[|events| - 1], id) then 1 else 0
  }

  /** Over whole runs without such reads, slow and dead ticks, edits and exceptions included: the campaign is
      dispatched at most once for each time it is put into the ZSET. */
  lemma {:induction false} EachEnqueueFiresOnce(s: State, events: seq<Event>, id: int)
    requires ListsOnce(s) && NoWindowReads(s, events, id)
    ensures var s' := Exec(s, events);
      && ListsOnce(s')
      && Fired(s'.dispatches, id) + Stock(s', id) <= Fired(s.dispatches, id) + Stock(s, id) + EnqueuesIn(s, events, id)
  {
    if events != [] {
      EachEnqueueFiresOnce(s, events[..|events| - 1], id);
      PaysIsExact(Exec(s, events[..|events| - 1]), events[|events| - 1], id);
    }
  }

  lemma {:induction false} TallyAtMostOne(ticks: seq<Tick>, p: Tick -> bool)
    requires forall i, j | 0 <= i < j < |ticks| :: !(p(ticks[i]) && p(ticks[j]))
    ensures Tally(ticks, p) <= 1
  {
    if ticks != [] {
      var n := |ticks| - 1;
      TallyAtMostOne(ticks[..n], p);
      if p(ticks[n]) { TallyMeans(ticks[..n], p); }
    }
  }

  lemma HeldOnceHasOneInStock(s: State, id: int)
    requires HeldOnce(s, id)
    ensures Stock(s, id) <= 1
  {
    forall i | 0 <= i < |s.ticks| && (Reading(id)(s.ticks[i]) || MayFire(id)(s.ticks[i])) ensures id in Holds(s.ticks[i]) {
    }
    forall i | 0 <= i < |s.ticks| && MayFire(id)(s.ticks[i]) ensures id in InHand(s.ticks[i]) {
    }
    TallyAtMostOne(s.ticks, Reading(id));
    TallyAtMostOne(s.ticks, MayFire(id));
    TallyMeans(s.ticks, Reading(id));
    TallyMeans(s.ticks, MayFire(id));
  }

  /** An enqueue leaves the campaign in the ZSET, and nothing else puts it there or moves it. */
  lemma EnqueuesMeans(s: State, e: Event, id: int)
    ensures var zset, zset' := s.w.zset, Step(s, e).w.zset;
      && (Enqueues(s, e, id) ==> id in zset')
      && (!Enqueues(s, e, id) && id in zset' ==> id in zset && zset'[id] == zset[id])
  {
  }

  lemma {:induction false} NoneEnqueues(s: State, events: seq<Event>, id: int)
    requires forall i | 0 <= i < |events| :: !Enqueues(Exec(s, events[..i]), events[i], id)
    ensures EnqueuesIn(s, events, id) == 0
  {
    if events != [] {
      var init := events[..|events| - 1];
      forall i | 0 <= i < |init| ensures !Enqueues(Exec(s, init[..i]), init[i], id) {
        assert init[..i] == events[..i];
      }
      NoneEnqueues(s, init, id);
    }
  }

  lemma {:induction false} NewDispatchesCount(before: seq<(int, int)>, after: seq<(int, int)>, id: int)
    requires before <= after
    ensures Fired(after, id) >= Fired(before, id)
    ensures (exists j | |before| <= j < |after| :: after[j].0 == id) ==> Fired(after, id) > Fired(before, id)
    ensures (exists i, j | |before| <= i < j < |after| :: after[i].0 == after[j].0 == id) ==> Fired(after, id) > Fired(before, id) + 1
  {
    if |after| > |before| {
      NewDispatchesCount(before, after[..|after| - 1], id);
    } else {
      assert after == before;
    }
  }

  /** No double firing: from a state where one tick at most has the campaign, and until somebody puts it into
      the ZSET, it is dispatched once at most. */
  lemma NoDoubleFire(s: State, events: seq<Event>, id: int)
    requires HeldOnce(s, id) && NoWindowReads(s, events, id)
    requires forall i | 0 <= i < |events| :: !Enqueues(Exec(s, events[..i]), events[i], id)
    ensures var log := Exec(s, events).dispatches;
      && s.dispatches <= log
      && forall i, j | |s.dispatches| <= i < j < |log| :: !(log[i].0 == id && log[j].0 == id)
  {
    HeldOnceHasOneInStock(s, id);
    NoneEnqueues(s, events, id);
    EachEnqueueFiresOnce(s, events, id);
    DispatchesGrow(s, events);
    NewDispatchesCount(s.dispatches, Exec(s, events).dispatches, id);
  }

  /* ---- both conditions matter ---- */

  lemma Then(s: State, events: seq<Event>, e: Event, s': State)
    requires Step(Exec(s, events), e) == s'
    ensures Exec(s, events + [e]) == s'
  {
    assert (events + [e])[..|events|] == events;
  }

  const ROW := Campaign(7, ACTIVE, 60)
  const FIRED := [(1, 7), (1, 7)]

  /** Campaign 1 of org 7, its scores, and the ticks. */
  function Twins(row: Campaign, zset: map<int, int>, ticks: seq<Tick>, fired: seq<(int, int)>): State {
    State(World(map[1 := row], {7}, zset, 2), ticks, fired)
  }

  lemma Fetch(row: Campaign, score: int, now: int, ticks: seq<Tick>)
    requires 0 <= score <= now
    ensures var s := Twins(row, map[1 := score], ticks, []);
      Step(s, StartTick(now, [1])) == s.(ticks := ticks + [Fetched(now, [1])])
  {
    assert (set id | id in [1]) == Due(map[1 := score], now);
  }

  lemma Pop(row: Campaign, zset: map<int, int>, ticks: seq<Tick>, i: nat)
    requires i < |ticks| && ticks[i].Fetched? && ticks[i].ids == [1] && zset.Keys <= {1}
    ensures Step(Twins(row, zset, ticks, []), StepTick(i, Fine))
         == Twins(row, map[], ticks[i := Loop(ticks[i].now, [1], map[])], [])
  {
    assert 1 in (set id | id in [1]);
    assert zset - (set id | id in [1]) == map[];
  }

  function Go(now: int, row: Campaign): Tick {
    Decided(now, 1, row, true, [], map[7 := true])
  }

  function Done(now: int, row: Campaign): Tick {
    Putting(now, 1, now + row.pollMinutes * 60, [], map[7 := true])
  }

  lemma LookGoes(s: State, before: seq<Event>, row: Campaign, zset: map<int, int>, ticks: seq<Tick>, i: nat, now: int)
    requires row.status == ACTIVE && row.org == 7 && i < |ticks| && ticks[i] == Loop(now, [1], map[])
    requires Exec(s, before) == Twins(row, zset, ticks, [])
    ensures Exec(s, before + [StepTick(i, Fine)]) == Twins(row, zset, ticks[i := Go(now, row)], [])
  {
    assert [1][1..] == [] && map[][7 := true] == map[7 := true];
    Then(s, before, StepTick(i, Fine), Twins(row, zset, ticks[i := Go(now, row)], []));
  }

  lemma GoesOut(s: State, before: seq<Event>, row: Campaign, zset: map<int, int>, ticks: seq<Tick>, i: nat, now: int,
                fired: seq<(int, int)>)
    requires row.org == 7 && i < |ticks| && ticks[i] == Go(now, row)
    requires Exec(s, before) == Twins(row, zset, ticks, fired)
    ensures Exec(s, before + [StepTick(i, Fine)]) == Twins(row, zset, ticks[i := Done(now, row)], fired + [(1, 7)])
  {
    Then(s, before, StepTick(i, Fine), Twins(row, zset, ticks[i := Done(now, row)], fired + [(1, 7)]));
  }

  /** Each of two ticks takes two steps. */
  function FourSteps(before: seq<Event>): seq<Event> {
    before + [StepTick(0, Fine)] + [StepTick(1, Fine)] + [StepTick(0, Fine)] + [StepTick(1, Fine)]
  }

  /** Two ticks that have popped the campaign both dispatch it. */
  lemma BothFire(s: State, before: seq<Event>, row: Campaign, zset: map<int, int>, a: int, b: int)
    requires row.status == ACTIVE && row.org == 7
    requires Exec(s, before) == Twins(row, zset, [Loop(a, [1], map[]), Loop(b, [1], map[])], [])
    ensures Exec(s, FourSteps(before)).dispatches == FIRED
  {
    var la, lb := Loop(a, [1], map[]), Loop(b, [1], map[]);
    var e0, e1, ticks := StepTick(0, Fine), StepTick(1, Fine), [la, lb];
    LookGoes(s, before, row, zset, ticks, 0, a);
    ticks := ticks[0 := Go(a, row)];
    LookGoes(s, before + [e0], row, zset, ticks, 1, b);
    ticks := ticks[1 := Go(b, row)];
    GoesOut(s, before + [e0] + [e1], row, zset, ticks, 0, a, []);
    ticks := ticks[0 := Done(a, row)];
    GoesOut(s, before + [e0] + [e1] + [e0], row, zset, ticks, 1, b, [] + [(1, 7)]);
  }

  lemma BothReadAndPop(s: State) returns (events: seq<Event>)
    requires s == Twins(ROW, map[1 := 0], [], [])
    ensures Exec(s, events) == Twins(ROW, map[], [Loop(5, [1], map[]), Loop(5, [1], map[])], [])
  {
    var read, loop := Fetched(5, [1]), Loop(5, [1], map[]);
    events := [StartTick(5, [1]), StartTick(5, [1]), StepTick(0, Fine), StepTick(1, Fine)];
    assert events == ((([] + [events[0]]) + [events[1]]) + [events[2]]) + [events[3]];
    Fetch(ROW, 0, 5, []);
    assert [] + [read] == [read];
    Then(s, [], events[0], Twins(ROW, map[1 := 0], [read], []));
    Fetch(ROW, 0, 5, [read]);
    assert [read] + [read] == [read, read];
    Then(s, [] + [events[0]], events[1], Twins(ROW, map[1 := 0], [read, read], []));
    Pop(ROW, map[1 := 0], [read, read], 0);
    assert [read, read][0 := loop] == [loop, read];
    Then(s, [] + [events[0]] + [events[1]], events[2], Twins(ROW, map[], [loop, read], []));
    Pop(ROW, map[], [loop, read], 1);
    assert [loop, read][1 := loop] == [loop, loop];
    Then(s, [] + [events[0]] + [events[1]] + [events[2]], events[3], Twins(ROW, map[], [loop, loop], []));
  }

  /** Popping first is not enough by itself: two ticks that both read before either pops fire the campaign
      twice, and nobody has put it into the ZSET. */
  lemma OverlappingTicksFireTwice() returns (s: State, events: seq<Event>)
    ensures HeldOnce(s, 1) && s.dispatches == []
    ensures Exec(s, events).dispatches == FIRED
  {
    s := Twins(ROW, map[1 := 0], [], []);
    events := BothReadAndPop(s);
    BothFire(s, events, ROW, map[], 5, 5);
    events := FourSteps(events);
  }

  lemma {:induction false} NoWindowAfter(s: State, events: seq<Event>, n: nat, id: int)
    requires n <= |events| && NoWindowReads(s, events[..n], id)
    requires forall k | n <= k < |events| :: !events[k].StartTick?
    ensures NoWindowReads(s, events, id)
  {
    if n == |events| {
      assert events[..n] == events;
    } else {
      var last := |events| - 1;
      assert events[..last][..n] == events[..n];
      NoWindowAfter(s, events[..last], n, id);
    }
  }

  lemma WindowStep(s: State, events: seq<Event>, e: Event, s': State, id: int)
    requires NoWindowReads(s, events, id) && Step(Exec(s, events), e) == s'
    requires !ReadsInWindow(Exec(s, events), e, id)
    ensures NoWindowReads(s, events + [e], id) && Exec(s, events + [e]) == s'
  {
    assert (events + [e])[..|events|] == events;
  }

  const EDITED := Campaign(7, ACTIVE, 5)

  lemma Edit(ticks: seq<Tick>)
    ensures Step(Twins(ROW, map[], ticks, []), CallApi(UpdateCampaign(7, 1, None, Some(5)), 10))
         == Twins(EDITED, map[1 := 310], ticks, [])
  {
    assert map[1 := ROW][1 := EDITED] == map[1 := EDITED] && map[][1 := 310] == map[1 := 310];
  }

  lemma EditBetweenPops(s: State) returns (events: seq<Event>)
    requires s == Twins(ROW, map[1 := 0], [], [])
    ensures Exec(s, events) == Twins(EDITED, map[], [Loop(5, [1], map[]), Loop(310, [1], map[])], [])
    ensures NoWindowReads(s, events, 1)
  {
    var a, b, la, lb := Fetched(5, [1]), Fetched(310, [1]), Loop(5, [1], map[]), Loop(310, [1], map[]);
    var start, pop, edit := StartTick(5, [1]), StepTick(0, Fine), CallApi(UpdateCampaign(7, 1, None, Some(5)), 10);
    Fetch(ROW, 0, 5, []);
    assert [] + [a] == [a] && [la] + [b] == [la, b];
    WindowStep(s, [], start, Twins(ROW, map[1 := 0], [a], []), 1);
    Pop(ROW, map[1 := 0], [a], 0);
    WindowStep(s, [] + [start], pop, Twins(ROW, map[], [la], []), 1);
    Edit([la]);
    WindowStep(s, [] + [start] + [pop], edit, Twins(EDITED, map[1 := 310], [la], []), 1);
    Fetch(EDITED, 310, 310, [la]);
    WindowStep(s, [] + [start] + [pop] + [edit], StartTick(310, [1]), Twins(EDITED, map[1 := 310], [la, b], []), 1);
    Pop(EDITED, map[1 := 310], [la, b], 1);
    events := [] + [start] + [pop] + [edit] + [StartTick(310, [1])];
    WindowStep(s, events, StepTick(1, Fine), Twins(EDITED, map[], [la, lb], []), 1);
    events := events + [StepTick(1, Fine)];
  }

  /** Nor is it enough that no tick reads in another's window: an edit that schedules the campaign afresh while a
      slow tick has it pays for a second dispatch. */
  lemma EditFiresTwice() returns (s: State, events: seq<Event>)
    ensures HeldOnce(s, 1) && s.dispatches == [] && NoWindowReads(s, events, 1)
    ensures Exec(s, events).dispatches == FIRED
  {
    s := Twins(ROW, map[1 := 0], [], []);
    var before := EditBetweenPops(s);
    BothFire(s, before, EDITED, map[], 5, 310);
    events := FourSteps(before);
    assert events[..|before|] == before;
    NoWindowAfter(s, events, |before|, 1);
  }
}
