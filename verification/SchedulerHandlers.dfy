/** The campaign handlers as Postgres and Redis see them: a look, a commit and a command on the ZSET, with ticks,
    other handlers and lost processes in between.  When an ACTIVE campaign drops out of polling for good, exactly;
    with whole handlers, `SchedulerLoss` has the answer. */
module SchedulerHandlers {
  import opened Common
  import opened Scheduler
  import opened SchedulerFiring
  import opened SchedulerLoss

  /** Updating: the row is read, the edit not committed.  Adding, Removing: committed, the ZADD or ZREM to come.
      Looked: a kill switch has read the org's ACTIVE ids.  Killing: it has also updated `rows`, which are locked
      until it commits; `ids` are still to be removed from the ZSET first.  Over: answered, or its process is lost. */
  datatype Handler =
    | Updating(id: int, before: Campaign, status: Option<CampaignStatus>, pollEvery: Option<int>)
    | Adding(id: int, delay: int)
    | Removing(id: int)
    | Looked(org: int, ids: seq<int>)
    | Killing(ids: seq<int>, rows: set<int>)
    | Over

  datatype Office = Office(core: State, handlers: seq<Handler>)

  datatype Deed =
    | OfTick(event: Event)
    | SetOrg(org: int, active: bool)
    | OpenCreate(org: int, pollMinutes: int)
    | OpenUpdate(org: int, id: int, status: Option<CampaignStatus>, pollEvery: Option<int>)
    | OpenDelete(org: int, id: int)
    | OpenKill(org: int, ids: seq<int>)
    | Go(handler: nat, now: int)
    | Lose(handler: nat)

  predicate Locked(handlers: seq<Handler>, id: int) {
    exists k | 0 <= k < |handlers| :: handlers[k].Killing? && id in handlers[k].rows
  }

  /** Only the columns that the edit changes are written. */
  function Written(row: Campaign, before: Campaign, after: Campaign): Campaign {
    row.(status := if after.status != before.status then after.status else row.status,
         pollMinutes := if after.pollMinutes != before.pollMinutes then after.pollMinutes else row.pollMinutes)
  }

  /** What the update still owes the ZSET, by the row it read first and the row as refreshed. */
  function Owes(id: int, before: Campaign, row: Campaign): Handler {
    if Reschedules(before, row) then Adding(id, row.pollMinutes * 60)
    else if before.status == ACTIVE && row.status != ACTIVE then Removing(id)
    else Over
  }

  function Put(o: Office, k: nat, w: World, h: Handler): Office
    requires k < |o.handlers|
  {
    Office(o.core.(w := w), o.handlers[k := h])
  }

  function GoOn(o: Office, k: nat, now: int): Office
    requires k < |o.handlers|
  {
    var w := o.core.w;
    match o.handlers[k]
    case Updating(id, before, status, pollEvery) =>
      var after := Patched(before, status, pollEvery);
      if id !in w.campaigns then Put(o, k, w, Over)
      else if after != before && Locked(o.handlers, id) then o
      else
        var row := Written(w.campaigns[id], before, after);
        Put(o, k, w.(campaigns := w.campaigns[id := row]), Owes(id, before, row))
    case Adding(id, delay) => Put(o, k, w.(zset := w.zset[id := now + delay]), Over)
    case Removing(id) => Put(o, k, w.(zset := w.zset - {id}), Over)
    case Looked(org, ids) =>
      var rows := ActiveOf(w.campaigns, org);
      if exists id | id in rows :: Locked(o.handlers, id) then o else Put(o, k, w, Killing(ids, rows))
    case Killing(ids, rows) =>
      if ids != [] then Put(o, k, w.(zset := w.zset - {ids[0]}), Killing(ids[1..], rows))
      else Put(o, k, w.(campaigns := map id | id in w.campaigns ::
                          if id in rows then w.campaigns[id].(status := PAUSED) else w.campaigns[id]), Over)
    case Over => o
  }

  /** An update waits while a kill switch has its row locked; then it writes the columns it has changed, as it read
      them, over the row as it is by then, and owes the ZSET what the row read first and the written one call for. */
  lemma UpdateCommits(o: Office, k: nat, now: int)
    requires k < |o.handlers| && o.handlers[k].Updating?
    ensures var h, w, o' := o.handlers[k], o.core.w, GoOn(o, k, now);
      var s := if h.status.Some? then h.status.value else h.before.status;
      var p := if h.pollEvery.Some? then h.pollEvery.value else h.before.pollMinutes;
      var waits := (s != h.before.status || p != h.before.pollMinutes)
        && exists j | 0 <= j < |o.handlers| :: o.handlers[j].Killing? && h.id in o.handlers[j].rows;
      && (h.id !in w.campaigns ==> o' == Office(o.core, o.handlers[k := Over]))
      && (h.id in w.campaigns && waits ==> o' == o)
      && (h.id in w.campaigns && !waits ==>
            var row := w.campaigns[h.id];
            var s', p' := if s != h.before.status then s else row.status, if p != h.before.pollMinutes then p else row.pollMinutes;
            && o'.core == o.core.(w := w.(campaigns := w.campaigns[h.id := Campaign(row.org, s', p')]))
            && o'.handlers == o.handlers[k :=
                 if s' == ACTIVE && (s' != h.before.status || p' != h.before.pollMinutes) then Adding(h.id, p' * 60)
                 else if h.before.status == ACTIVE && s' != ACTIVE then Removing(h.id) else Over])
  {
  }

  /** A kill switch waits while another has a row locked that it wants; then it locks the org's ACTIVE rows, removes the
      ids it had read from the ZSET one by one, and pauses the locked rows. */
  lemma KillSwitchGoesOn(o: Office, k: nat, now: int)
    requires k < |o.handlers|
    ensures var h, w, o' := o.handlers[k], o.core.w, GoOn(o, k, now);
      && (h.Looked? ==>
            var rows := set id | id in w.campaigns && w.campaigns[id].org == h.org && w.campaigns[id].status == ACTIVE;
            var waits := exists id, j | id in rows && 0 <= j < |o.handlers| :: o.handlers[j].Killing? && id in o.handlers[j].rows;
            o' == if waits then o else Office(o.core, o.handlers[k := Killing(h.ids, rows)]))
      && (h.Killing? && h.ids != [] ==>
            o'.handlers == o.handlers[k := Killing(h.ids[1..], h.rows)]
            && o'.core == o.core.(w := w.(zset := w.zset - {h.ids[0]})))
      && (h.Killing? && h.ids == [] ==>
            && o'.handlers == o.handlers[k := Over] && o'.core == o.core.(w := w.(campaigns := o'.core.w.campaigns))
            && o'.core.w.campaigns.Keys == w.campaigns.Keys
            && forall id | id in w.campaigns ::
                 o'.core.w.campaigns[id] == if id in h.rows then w.campaigns[id].(status := PAUSED) else w.campaigns[id])
  {
    if o.handlers[k].Looked? {
      var org, rows := o.handlers[k].org, ActiveOf(o.core.w.campaigns, o.handlers[k].org);
      assert rows == set id | id in o.core.w.campaigns && o.core.w.campaigns[id].org == org && o.core.w.campaigns[id].status == ACTIVE;
      if id :| id in rows && Locked(o.handlers, id) {
        var j :| 0 <= j < |o.handlers| && o.handlers[j].Killing? && id in o.handlers[j].rows;
      } else {
        assert forall id, j | id in rows && 0 <= j < |o.handlers| :: !(o.handlers[j].Killing? && id in o.handlers[j].rows);
      }
    }
  }

  function Do(o: Office, e: Deed): Office {
    var w := o.core.w;
    match e
    case OfTick(event) => if event.CallApi? then o else o.(core := Step(o.core, event))
    case SetOrg(org, active) => o.(core := Step(o.core, CallApi(SetOrgActive(org, active), 0)))
    case OpenCreate(org, pollMinutes) =>
      Office(o.core.(w := w.(campaigns := w.campaigns[w.nextId := Campaign(org, ACTIVE, pollMinutes)], nextId := w.nextId + 1)),
             o.handlers + [Adding(w.nextId, 0)])
    case OpenUpdate(org, id, status, pollEvery) =>
      if Owned(w.campaigns, org, id) then o.(handlers := o.handlers + [Updating(id, w.campaigns[id], status, pollEvery)])
      else o
    case OpenDelete(org, id) =>
      if Owned(w.campaigns, org, id) && !Locked(o.handlers, id) then
        Office(o.core.(w := w.(campaigns := w.campaigns - {id})), o.handlers + [Removing(id)])
      else o
    case OpenKill(org, ids) =>
      if (set id | id in ids) == ActiveOf(w.campaigns, org) then o.(handlers := o.handlers + [Looked(org, ids)]) else o
    case Go(k, now) => if k < |o.handlers| then GoOn(o, k, now) else o
    case Lose(k) => if k < |o.handlers| then o.(handlers := o.handlers[k := Over]) else o
  }

  /** A deletion waits for a kill switch that has the row locked; a kill switch reads exactly its org's ACTIVE campaigns;
      setting an org's switch touches no campaign; and handlers act only as themselves. */
  lemma OpensAreRight(o: Office, e: Deed, id: int)
    ensures var w, o' := o.core.w, Do(o, e);
      && (e.OpenDelete? && (exists k | 0 <= k < |o.handlers| :: o.handlers[k].Killing? && e.id in o.handlers[k].rows) ==> o' == o)
      && (e.OpenKill? && o' != o ==>
            (id in e.ids <==> id in w.campaigns && w.campaigns[id].org == e.org && w.campaigns[id].status == ACTIVE))
      && (e.SetOrg? ==> o' == o.(core := o.core.(w := w.(activeOrgs :=
            if e.active then w.activeOrgs + {e.org} else w.activeOrgs - {e.org}))))
      && (e.OfTick? && e.event.CallApi? ==> o' == o)
  {
    match e
    case OpenDelete(_, target) =>
      assert (exists k | 0 <= k < |o.handlers| :: o.handlers[k].Killing? && target in o.handlers[k].rows) ==> Locked(o.handlers, target);
    case OpenKill(org, ids) =>
      if Do(o, e) != o { assert id in ids <==> id in ActiveOf(o.core.w.campaigns, org); }
    case _ =>
  }

  function DoAll(o: Office, deeds: seq<Deed>): Office {
    if deeds == [] then o else Do(DoAll(o, deeds[..|deeds| - 1]), deeds[|deeds| - 1])
  }

  /** The handler will put the campaign into the ZSET, or pause it. */
  predicate Cares(h: Handler, id: int) {
    (h.Adding? && h.id == id) || (h.Killing? && id in h.rows)
  }

  predicate CaredFor(handlers: seq<Handler>, id: int) {
    exists k | 0 <= k < |handlers| :: Cares(handlers[k], id)
  }

  /** ACTIVE, and nobody will poll it: not in the ZSET, in no live tick, and no live handler is to add or pause it. */
  predicate Adrift(o: Office, id: int) {
    Lost(o.core, id) && !CaredFor(o.handlers, id)
  }

  /** The handler's next command removes the campaign from the ZSET. */
  predicate RemovesNext(h: Handler, id: int) {
    (h.Removing? && h.id == id) || (h.Killing? && h.ids != [] && h.ids[0] == id)
  }

  /** A ZREM comes late: the campaign is ACTIVE, and nothing else keeps it. */
  predicate LateRemoval(o: Office, e: Deed, id: int) {
    && e.Go? && e.handler < |o.handlers| && RemovesNext(o.handlers[e.handler], id)
    && Active(o.core, id) && !IsHeld(o.core.ticks, id) && !CaredFor(o.handlers, id)
  }

  /** A tick or a handler is lost that alone would have kept the campaign in polling. */
  predicate LostWith(o: Office, e: Deed, id: int) {
    || (e.OfTick? && DiesWith(o.core, e.event, id) && !CaredFor(o.handlers, id))
    || (e.Lose? && e.handler < |o.handlers| && Lost(o.core, id)
        && Cares(o.handlers[e.handler], id) && !CaredFor(o.handlers[e.handler := Over], id))
  }

  lemma CareAfter(handlers: seq<Handler>, k: nat, h: Handler, id: int)
    requires k < |handlers|
    ensures CaredFor(handlers, id) && (Cares(handlers[k], id) ==> Cares(h, id)) ==> CaredFor(handlers[k := h], id)
    ensures CaredFor(handlers[k := h], id) && (Cares(h, id) ==> Cares(handlers[k], id)) ==> CaredFor(handlers, id)
    ensures Cares(h, id) ==> CaredFor(handlers[k := h], id)
  {
    var handlers' := handlers[k := h];
    assert handlers'[k] == h;
    if CaredFor(handlers, id) {
      var j :| 0 <= j < |handlers| && Cares(handlers[j], id);
      assert j != k ==> Cares(handlers'[j], id);
    }
    if CaredFor(handlers', id) {
      var j :| 0 <= j < |handlers'| && Cares(handlers'[j], id);
      assert j != k ==> Cares(handlers[j], id);
    }
  }

  lemma CareGrows(handlers: seq<Handler>, h: Handler, id: int)
    ensures CaredFor(handlers + [h], id) <==> CaredFor(handlers, id) || Cares(h, id)
  {
    var more := handlers + [h];
    assert more[|handlers|] == h;
    if CaredFor(handlers, id) {
      var j :| 0 <= j < |handlers| && Cares(handlers[j], id);
      assert Cares(more[j], id);
    }
    if CaredFor(more, id) {
      var j :| 0 <= j < |more| && Cares(more[j], id);
      assert j < |handlers| ==> Cares(handlers[j], id);
    }
  }

  /** A handler's own step sets the campaign adrift only as a late ZREM. */
  lemma GoIsExact(o: Office, e: Deed, id: int)
    requires e.Go? && e.handler < |o.handlers| && !Adrift(o, id)
    ensures Adrift(Do(o, e), id) <==> LateRemoval(o, e, id)
  {
    var o' := Do(o, e);
    CareAfter(o.handlers, e.handler, o'.handlers[e.handler], id);
    assert o'.handlers == o.handlers[e.handler := o'.handlers[e.handler]];
  }

  lemma OpenIsExact(o: Office, e: Deed, id: int)
    requires (e.OpenCreate? || e.OpenUpdate? || e.OpenDelete? || e.OpenKill? || e.SetOrg?) && !Adrift(o, id)
    ensures !Adrift(Do(o, e), id)
  {
    var o' := Do(o, e);
    if |o'.handlers| > |o.handlers| {
      CareGrows(o.handlers, o'.handlers[|o.handlers|], id);
    }
  }

  lemma TickIsExact(o: Office, e: Deed, id: int)
    requires e.OfTick? && !Adrift(o, id)
    ensures Adrift(Do(o, e), id) <==> LostWith(o, e, id)
  {
    match e.event
    case CallApi(_, _) =>
    case StartTick(_, _) => StartLosesNothing(o.core, e.event, id);
    case StepTick(i, outcome) => if i < |o.core.ticks| { TickLosesNothing(o.core, i, outcome, id); }
    case Die(_) => DeathIsExact(o.core, e.event, id);
  }

  lemma LoseIsExact(o: Office, e: Deed, id: int)
    requires e.Lose? && !Adrift(o, id)
    ensures Adrift(Do(o, e), id) <==> LostWith(o, e, id)
  {
    if e.handler < |o.handlers| { CareAfter(o.handlers, e.handler, Over, id); }
  }

  /** One step sets a campaign adrift exactly as a ZREM comes late, or a tick or handler is lost that alone would
      have kept it. */
  lemma DriftIsExact(o: Office, e: Deed, id: int)
    requires !Adrift(o, id)
    ensures Adrift(Do(o, e), id) <==> LateRemoval(o, e, id) || LostWith(o, e, id)
  {
    match e
    case OfTick(_) => TickIsExact(o, e, id);
    case Go(k, _) => if k < |o.handlers| { GoIsExact(o, e, id); }
    case Lose(_) => LoseIsExact(o, e, id);
    case _ => OpenIsExact(o, e, id);
  }

  /** Adrift after no step of the run. */
  ghost predicate NeverAdrift(o: Office, deeds: seq<Deed>, id: int) {
    (deeds != [] ==> NeverAdrift(o, deeds[..|deeds| - 1], id)) && !Adrift(DoAll(o, deeds), id)
  }

  ghost predicate NoneLateOrLost(o: Office, deeds: seq<Deed>, id: int) {
    deeds != [] ==>
      && NoneLateOrLost(o, deeds[..|deeds| - 1], id)
      && var before := DoAll(o, deeds[..|deeds| - 1]);
         !LateRemoval(before, deeds[|deeds| - 1], id) && !LostWith(before, deeds[|deeds| - 1], id)
  }

  /** Over whole runs of overlapping handlers and ticks, exceptions and lost processes included: an ACTIVE campaign
      never drops out of polling, if and only if no ZREM comes late and none is lost that alone would keep it. */
  lemma {:induction false} NoneDriftsExactly(deeds: seq<Deed>, id: int)
    ensures NeverAdrift(Office(Init(), []), deeds, id) <==> NoneLateOrLost(Office(Init(), []), deeds, id)
  {
    if deeds != [] {
      var init := deeds[..|deeds| - 1];
      NoneDriftsExactly(init, id);
      if NeverAdrift(Office(Init(), []), init, id) {
        DriftIsExact(DoAll(Office(Init(), []), init), deeds[|deeds| - 1], id);
      }
    }
  }

  /* ---- handlers with nobody in between ---- */

  /** The handler goes on n times. */
  function Goes(o: Office, k: nat, now: int, n: nat): Office
    decreases n
  {
    if n == 0 then o else Goes(Do(o, Go(k, now)), k, now, n - 1)
  }

  /** They are the atomic steps of `Scheduler`. */
  lemma WholeHandlersAreAtomic(o: Office, org: int, id: int, status: Option<CampaignStatus>, pollEvery: Option<int>, now: int, minutes: int)
    requires !Locked(o.handlers, id)
    ensures var n := |o.handlers|;
      Goes(Do(o, OpenUpdate(org, id, status, pollEvery)), n, now, 2).core
      == Step(o.core, CallApi(UpdateCampaign(org, id, status, pollEvery), now))
    ensures Do(Do(o, OpenCreate(org, minutes)), Go(|o.handlers|, now)).core == Step(o.core, CallApi(CreateCampaign(org, minutes), now))
    ensures Do(Do(o, OpenDelete(org, id)), Go(|o.handlers|, now)).core == Step(o.core, CallApi(DeleteCampaign(org, id), now))
  {
    if Owned(o.core.w.campaigns, org, id) {
      var row := o.core.w.campaigns[id];
      LockedAfter(o.handlers, Updating(id, row, status, pollEvery), id);
      assert Written(row, row, Patched(row, status, pollEvery)) == Patched(row, status, pollEvery);
    }
  }

  lemma LockedAfter(handlers: seq<Handler>, h: Handler, id: int)
    requires !h.Killing?
    ensures Locked(handlers + [h], id) <==> Locked(handlers, id)
  {
    var more := handlers + [h];
    if Locked(handlers, id) {
      var k :| 0 <= k < |handlers| && handlers[k].Killing? && id in handlers[k].rows;
      assert more[k] == handlers[k];
    }
    if Locked(more, id) {
      var k :| 0 <= k < |more| && more[k].Killing? && id in more[k].rows;
      assert k < |handlers| && more[k] == handlers[k];
    }
  }

  function PausedRows(w: World, ids: set<int>, rows: set<int>): World {
    w.(campaigns := map id | id in w.campaigns ::
         if id in rows then w.campaigns[id].(status := PAUSED) else w.campaigns[id],
       zset := w.zset - ids)
  }

  lemma {:induction false} KillGoes(o: Office, k: nat, now: int)
    requires k < |o.handlers| && o.handlers[k].Killing?
    ensures var h := o.handlers[k];
      Goes(o, k, now, |h.ids| + 1).core == o.core.(w := PausedRows(o.core.w, (set id | id in h.ids), h.rows))
    decreases if o.handlers[k].Killing? then |o.handlers[k].ids| else 0
  {
    var h := o.handlers[k];
    var o1 := Do(o, Go(k, now));
    if h.ids == [] {
      assert Goes(o1, k, now, 0) == o1;
      assert o.core.w.zset - (set id | id in h.ids) == o.core.w.zset;
    } else {
      KillGoes(o1, k, now);
      assert h.ids == [h.ids[0]] + h.ids[1..];
      assert o.core.w.zset - {h.ids[0]} - (set id | id in h.ids[1..]) == o.core.w.zset - (set id | id in h.ids);
    }
  }

  lemma WholeKillIsAtomic(o: Office, org: int, ids: seq<int>, now: int)
    requires (set id | id in ids) == ActiveOf(o.core.w.campaigns, org) && forall id | id in ids :: !Locked(o.handlers, id)
    ensures Goes(Do(o, OpenKill(org, ids)), |o.handlers|, now, |ids| + 2).core == Step(o.core, CallApi(KillSwitch(org), now))
  {
    var n, rows := |o.handlers|, ActiveOf(o.core.w.campaigns, org);
    var o1 := Do(o, OpenKill(org, ids));
    forall id | id in rows ensures !Locked(o1.handlers, id) {
      LockedAfter(o.handlers, Looked(org, ids), id);
    }
    var o2 := Do(o1, Go(n, now));
    assert o2 == Put(o1, n, o1.core.w, Killing(ids, rows));
    KillGoes(o2, n, now);
  }

  /* ---- two updates that cross ---- */

  function Row(id: int, row: Campaign, zset: map<int, int>, handlers: seq<Handler>): Office {
    Office(State(World(map[id := row], {}, zset, id + 1), [], []), handlers)
  }

  /** A pause commits, a resume commits and enqueues, and then the pause's ZREM comes: the campaign is ACTIVE, nobody
      will poll it, and no process was lost. */
  lemma PauseAndResumeCross(id: int, row: Campaign, score: int, now: int) returns (deeds: seq<Deed>)
    requires row.status == ACTIVE
    ensures var o := Row(id, row, map[id := score], []);
      !Adrift(o, id) && Adrift(DoAll(o, deeds), id) && forall e | e in deeds :: !e.Lose? && !e.OfTick?
  {
    var o, paused := Row(id, row, map[id := score], []), row.(status := PAUSED);
    var o1 := Row(id, row, map[id := score], [Updating(id, row, Some(PAUSED), None)]);
    var o2 := Row(id, paused, map[id := score], [Removing(id)]);
    deeds := Then(o, [], o, OpenUpdate(row.org, id, Some(PAUSED), None), o1);
    deeds := Then(o, deeds, o1, Go(0, now), o2);
    deeds := Then(o, deeds, o2, OpenUpdate(row.org, id, Some(ACTIVE), None),
                  Row(id, paused, map[id := score], [Removing(id), Updating(id, paused, Some(ACTIVE), None)]));
    deeds := Resumes(o, deeds, id, row, score, now);
  }

  lemma Resumes(o: Office, before: seq<Deed>, id: int, row: Campaign, score: int, now: int) returns (deeds: seq<Deed>)
    requires row.status == ACTIVE
    requires var paused := row.(status := PAUSED);
      DoAll(o, before) == Row(id, paused, map[id := score], [Removing(id), Updating(id, paused, Some(ACTIVE), None)])
    requires forall e | e in before :: !e.Lose? && !e.OfTick?
    ensures Adrift(DoAll(o, deeds), id) && forall e | e in deeds :: !e.Lose? && !e.OfTick?
  {
    var paused, delay := row.(status := PAUSED), row.pollMinutes * 60;
    var o1 := Row(id, paused, map[id := score], [Removing(id), Updating(id, paused, Some(ACTIVE), None)]);
    var o2 := Row(id, row, map[id := score], [Removing(id), Adding(id, delay)]);
    deeds := Then(o, before, o1, Go(1, now), o2);
    deeds := Then(o, deeds, o2, Go(1, now), Do(o2, Go(1, now)));
    deeds := Then(o, deeds, Do(o2, Go(1, now)), Go(0, now), Do(Do(o2, Go(1, now)), Go(0, now)));
  }

  lemma Then(o: Office, deeds: seq<Deed>, o1: Office, e: Deed, o2: Office) returns (longer: seq<Deed>)
    requires DoAll(o, deeds) == o1 && Do(o1, e) == o2 && !e.Lose? && !e.OfTick?
    requires forall d | d in deeds :: !d.Lose? && !d.OfTick?
    ensures DoAll(o, longer) == o2 && forall d | d in longer :: !d.Lose? && !d.OfTick?
  {
    longer := deeds + [e];
    assert longer[..|deeds|] == deeds;
  }
}
