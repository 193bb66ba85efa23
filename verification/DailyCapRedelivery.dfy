/** Redelivery of a persist-gate task on the interleaving machine: harmless alone, and what interference
    can do to it. */
module DailyCapRedelivery {
  import opened Common
  import opened DailyCap
  import opened PersistGate
  import opened DailyCapSolo

  function DurableRows(ws: seq<Worker>): set<(int, PostId)> {
    if ws == [] then {}
    else
      var w := ws[|ws| - 1];
      DurableRows(ws[..|ws| - 1]) +
      if w.status == Committed then set p | p in w.rows :: (w.job.campaign, p) else {}
  }

  lemma {:induction false} DurableRowsMeans(ws: seq<Worker>, c: int, p: PostId)
    ensures (c, p) in DurableRows(ws) <==>
            exists j | 0 <= j < |ws| :: ws[j].status == Committed && ws[j].job.campaign == c && p in ws[j].rows
  {
    if ws != [] {
      var n := |ws| - 1;
      DurableRowsMeans(ws[..n], c, p);
      assert forall j | 0 <= j < n :: ws[..n][j] == ws[j];
    }
  }

  ghost predicate NoneLive(s: State) {
    forall j | 0 <= j < |s.workers| :: s.workers[j].status != Live
  }

  /** The job is delivered, and then its worker alone takes steps until it has committed. */
  ghost predicate DeliveredAlone(cap: Key -> int, s: State, job: Job, events: seq<Event>)
    requires AllWellFormed(s)
  {
    var s', id := Exec(cap, s, events), |s.workers|;
    && events != [] && events[0] == Deliver(job) && Only(events[1..], id)
    && id < |s'.workers| && s'.workers[id].status == Committed
  }

  /** With no other transaction open a delivery gets to its commit. */
  lemma DeliveryCommits(cap: Key -> int, s: State, job: Job) returns (events: seq<Event>)
    requires AllWellFormed(s) && NoneLive(s)
    ensures DeliveredAlone(cap, s, job, events)
  {
    var store := Store(s.counters, s.earlier + DurableRows(s.workers));
    ShowsAsDelivered(cap, s, job, store);
    var run := SoloRunCommits(cap, Step(cap, s, Deliver(job)), |s.workers|, store);
    events := [Deliver(job)] + run;
    assert events[1..] == run;
  }

  /** The new worker finds the counters and the table as they are. */
  lemma ShowsAsDelivered(cap: Key -> int, s: State, job: Job, store: Store)
    requires AllWellFormed(s) && NoneLive(s) && SameCounts(s.counters, store.counters)
    requires forall c, p :: (c, p) in store.rows <==> (c, p) in s.earlier + DurableRows(s.workers)
    ensures Shows(Step(cap, s, Deliver(job)), |s.workers|, store)
  {
    var id, s1 := |s.workers|, Step(cap, s, Deliver(job));
    forall c, p ensures (c, p) in store.rows <==> Duplicate(s1, id, c, p) {
      DurableRowsMeans(s.workers, c, p);
      assert forall j | 0 <= j < id :: s1.workers[j] == s.workers[j];
    }
  }

  /** What a committed worker found as duplicates is what the table holds. */
  lemma ShowsTheTable(s: State, id: nat, store: Store)
    requires id < |s.workers| && s.workers[id].status == Committed && Shows(s, id, store)
    ensures forall c, p :: (c, p) in store.rows <==> (c, p) in s.earlier + DurableRows(s.workers)
  {
    forall c, p ensures (c, p) in store.rows <==> (c, p) in s.earlier + DurableRows(s.workers) {
      DurableRowsMeans(s.workers, c, p);
    }
  }

  /** And whatever steps take it there, it commits what `PersistAll` says. */
  lemma DeliverAlone(cap: Key -> int, s: State, job: Job, events: seq<Event>, store: Store)
    requires AllWellFormed(s) && NoneLive(s) && SameCounts(s.counters, store.counters)
    requires forall c, p :: (c, p) in store.rows <==> (c, p) in s.earlier + DurableRows(s.workers)
    requires DeliveredAlone(cap, s, job, events)
    ensures var id, s', store' := |s.workers|, Exec(cap, s, events), PersistAll(GateOf(cap, job), store, job.posts);
      && NoneLive(s') && |s'.workers| == id + 1 && s'.workers[id].job == job && s'.workers[id].status == Committed
      && s'.workers[..id] == s.workers && s'.earlier == s.earlier
      && SameCounts(s'.counters, store'.counters)
      && (store' == store <==> s'.workers[id].rows == [])
      && forall c, p :: (c, p) in store'.rows <==> (c, p) in s'.earlier + DurableRows(s'.workers)
  {
    var id := |s.workers|;
    ShowsAsDelivered(cap, s, job, store);
    assert job.posts[0..] == job.posts;
    SoloRun(cap, Step(cap, s, Deliver(job)), events[1..], id, store);
    var s' := Exec(cap, s, events);
    assert forall j | 0 <= j < id :: s'.workers[j] == s.workers[j];
    ShowsTheTable(s', id, PersistAll(GateOf(cap, job), store, job.posts));
  }

  /** A task that committed and is delivered again, no other writer about: whatever steps either run takes, the
      second one commits no row and leaves every counter where the first one left it. */
  lemma RedeliveryAloneIsIdle(cap: Key -> int, s: State, job: Job, first: seq<Event>, second: seq<Event>)
    requires AllWellFormed(s) && NoneLive(s)
    requires DeliveredAlone(cap, s, job, first) && DeliveredAlone(cap, Exec(cap, s, first), job, second)
    ensures var once := Exec(cap, s, first); var twice := Exec(cap, once, second); var id := |s.workers|;
      && |once.workers| == id + 1 && once.workers[id].job == job
      && |twice.workers| == id + 2 && twice.workers[..id + 1] == once.workers
      && twice.workers[id + 1].status == Committed && twice.workers[id + 1].rows == []
      && SameCounts(twice.counters, once.counters)
  {
    var g := GateOf(cap, job);
    var store := Store(s.counters, s.earlier + DurableRows(s.workers));
    DeliverAlone(cap, s, job, first, store);
    var once := Exec(cap, s, first);
    DeliverAlone(cap, once, job, second, PersistAll(g, store, job.posts));
    assert PersistRuns(store, [(g, job.posts)][..0]) == store;
    RedeliveryChangesNothing(store, [(g, job.posts)], 0, job.posts);
  }

  /** The exact condition, whatever came before, interference and leaked claims included: a delivery that runs
      with no other transaction open, in whatever steps, commits no row if and only if, as it starts, each of its
      drafts would be refused or has its row; and then it leaves every counter alone. */
  lemma DeliveryIsIdleExactly(cap: Key -> int, s: State, job: Job, events: seq<Event>)
    requires AllWellFormed(s) && NoneLive(s) && DeliveredAlone(cap, s, job, events)
    ensures var s', id := Exec(cap, s, events), |s.workers|;
      && |s'.workers| == id + 1 && s'.workers[id].job == job
      && (s'.workers[id].rows == [] <==>
            forall p | p in job.posts ::
              || !CanReserve(job.redis, s.counters, Pairs(cap, job.keys))
              || (job.campaign, p) in s.earlier + DurableRows(s.workers))
      && (s'.workers[id].rows == [] ==> SameCounts(s'.counters, s.counters))
  {
    var store := Store(s.counters, s.earlier + DurableRows(s.workers));
    DeliverAlone(cap, s, job, events, store);
    RunIsIdleExactly(GateOf(cap, job), store, job.posts);
  }

  /* ---- interference ---- */

  /** Another transaction has committed the row, or it was there before the day. */
  ghost predicate SavedByOther(s: State, id: nat, c: int, p: PostId) {
    || (c, p) in s.earlier
    || exists j | 0 <= j < |s.workers| && j != id ::
         s.workers[j].status == Committed && s.workers[j].job.campaign == c && p in s.workers[j].rows
  }

  /** Worker `id` has inserted nothing, and each of its drafts is a duplicate of a row that stays. */
  ghost predicate HasNothingToAdd(s: State, id: nat) {
    && id < |s.workers| && s.workers[id].rows == []
    && forall p | p in s.workers[id].job.posts :: SavedByOther(s, id, s.workers[id].job.campaign, p)
  }

  lemma CommittedStays(cap: Key -> int, s: State, e: Event, j: nat)
    requires AllWellFormed(s) && j < |s.workers| && s.workers[j].status == Committed
    ensures j < |Step(cap, s, e).workers| && Step(cap, s, e).workers[j] == s.workers[j]
  {
    if e.Run? && e.id < |s.workers| {
      RunWorkerBooks(cap, s, e.id, "");
    }
  }

  lemma SavedStays(cap: Key -> int, s: State, e: Event, id: nat, c: int, p: PostId)
    requires AllWellFormed(s) && SavedByOther(s, id, c, p)
    ensures SavedByOther(Step(cap, s, e), id, c, p)
  {
    if e.Run? && e.id < |s.workers| {
      RunWorkerBooks(cap, s, e.id, "");
    }
    if (c, p) !in s.earlier {
      var j :| 0 <= j < |s.workers| && j != id && s.workers[j].status == Committed
               && s.workers[j].job.campaign == c && p in s.workers[j].rows;
      CommittedStays(cap, s, e, j);
    }
  }

  lemma OwnStepAddsNothing(cap: Key -> int, s: State, id: nat)
    requires AllWellFormed(s) && HasNothingToAdd(s, id)
    ensures RunWorker(cap, s, id).workers[id].rows == []
  {
    var w := s.workers[id];
    if w.status == Live && w.next < |w.job.posts| {
      if w.pc == Reserving(|w.job.keys|) {
        var post := w.job.posts[w.next];
        assert SavedByOther(s, id, w.job.campaign, post);
        assert Duplicate(s, id, w.job.campaign, post);
      } else {
        CounterStepBalances(w, cap(Target(w)), Get(s.counters, Target(w)), Target(w));
      }
    }
  }

  lemma StepAddsNothing(cap: Key -> int, s: State, e: Event, id: nat)
    requires AllWellFormed(s) && HasNothingToAdd(s, id)
    ensures HasNothingToAdd(Step(cap, s, e), id)
  {
    var s' := Step(cap, s, e);
    if e.Run? && e.id < |s.workers| {
      RunWorkerBooks(cap, s, e.id, "");
      if e.id == id { OwnStepAddsNothing(cap, s, id); }
    }
    assert s'.workers[id].job == s.workers[id].job && s'.workers[id].rows == [];
    forall p | p in s'.workers[id].job.posts ensures SavedByOther(s', id, s'.workers[id].job.campaign, p) {
      SavedStays(cap, s, e, id, s.workers[id].job.campaign, p);
    }
  }

  /** Under any interference: a delivery whose drafts all have committed rows as it starts never commits one,
      whatever other workers do meanwhile. */
  lemma {:induction false} SavedDraftsAreNeverAddedAgain(cap: Key -> int, s: State, events: seq<Event>, id: nat)
    requires AllWellFormed(s) && HasNothingToAdd(s, id)
    ensures HasNothingToAdd(Exec(cap, s, events), id)
    decreases |events|
  {
    if events != [] {
      StepAddsNothing(cap, s, events[0], id);
      SavedDraftsAreNeverAddedAgain(cap, Step(cap, s, events[0]), events[1..], id);
    }
  }

  const ONE: Key -> int := _ => 1

  function Task(post: PostId): Job {
    Job(1, ["c"], [post], true)
  }

  /** A worker on Task(post), and a state of the counter "c" and the workers; "x" was in the table before. */
  function At(post: PostId, pc: Pc): Worker {
    Worker(Task(post), 0, [], pc, Live)
  }

  function Finished(post: PostId, rows: seq<PostId>, status: Status): Worker {
    Worker(Task(post), 1, rows, Reserving(0), status)
  }

  function World(c: int, ws: seq<Worker>): State {
    State(map["c" := c], ws, {(1, "x")})
  }

  lemma Then(s: State, e: Event, s': State, rest: seq<Event>) returns (events: seq<Event>)
    requires AllWellFormed(s) && s' == Step(ONE, s, e)
    ensures Exec(ONE, s, events) == Exec(ONE, s', rest)
  {
    events := [e] + rest;
    assert events[1..] == rest;
  }

  /** Both deliveries; worker 1 claims the slot. */
  lemma ClaimFirst(rest: seq<Event>) returns (events: seq<Event>)
    ensures Exec(ONE, Init({(1, "x")}), events)
         == Exec(ONE, World(1, [At("a", Reserving(0)), At("x", Reserving(1))]), rest)
  {
    var s1 := State(map[], [At("a", Reserving(0))], {(1, "x")});
    var s2 := State(map[], [At("a", Reserving(0)), At("x", Reserving(0))], {(1, "x")});
    events := Then(s2, Run(1), World(1, [At("a", Reserving(0)), At("x", Reserving(1))]), rest);
    events := Then(s1, Deliver(Task("x")), s2, events);
    events := Then(Init({(1, "x")}), Deliver(Task("a")), s1, events);
  }

  /** Worker 0 is refused and commits nothing. */
  lemma RefusedByAClaim(rest: seq<Event>) returns (events: seq<Event>)
    ensures Exec(ONE, World(1, [At("a", Reserving(0)), At("x", Reserving(1))]), events)
         == Exec(ONE, World(1, [Finished("a", [], Committed), At("x", Reserving(1))]), rest)
  {
    var claim := At("x", Reserving(1));
    events := OvershotAndDropped(rest);
    events := Then(World(1, [At("a", Reserving(0)), claim]), Run(0), World(2, [At("a", Overshot(0)), claim]), events);
  }

  lemma OvershotAndDropped(rest: seq<Event>) returns (events: seq<Event>)
    ensures Exec(ONE, World(2, [At("a", Overshot(0)), At("x", Reserving(1))]), events)
         == Exec(ONE, World(1, [Finished("a", [], Committed), At("x", Reserving(1))]), rest)
  {
    var claim := At("x", Reserving(1));
    events := Then(World(1, [Finished("a", [], Live), claim]), Run(0), World(1, [Finished("a", [], Committed), claim]), rest);
    events := Then(World(2, [At("a", Overshot(0)), claim]), Run(0), World(1, [Finished("a", [], Live), claim]), events);
  }

  /** Worker 1 finds its post in the table and gives the claim back. */
  lemma GivesBackAndCommits(rest: seq<Event>) returns (events: seq<Event>)
    ensures Exec(ONE, World(1, [Finished("a", [], Committed), At("x", GivingBack(0, 1))]), events)
         == Exec(ONE, World(0, [Finished("a", [], Committed), Finished("x", [], Committed)]), rest)
  {
    var a := Finished("a", [], Committed);
    events := Then(World(0, [a, Finished("x", [], Live)]), Run(1), World(0, [a, Finished("x", [], Committed)]), rest);
    events := Then(World(1, [a, At("x", GivingBack(0, 1))]), Run(1), World(0, [a, Finished("x", [], Live)]), events);
  }

  lemma ClaimComesBack(rest: seq<Event>) returns (events: seq<Event>)
    ensures Exec(ONE, World(1, [Finished("a", [], Committed), At("x", Reserving(1))]), events)
         == Exec(ONE, World(0, [Finished("a", [], Committed), Finished("x", [], Committed)]), rest)
  {
    var a := Finished("a", [], Committed);
    events := GivesBackAndCommits(rest);
    events := Then(World(1, [a, At("x", Reserving(1))]), Run(1), World(1, [a, At("x", GivingBack(0, 1))]), events);
  }

  lemma InsertOfA()
    ensures var a, x := Finished("a", [], Committed), Finished("x", [], Committed);
      Step(ONE, World(1, [a, x, At("a", Reserving(1))]), Run(2)) == World(1, [a, x, Finished("a", ["a"], Live)])
  {
    var s := World(1, [Finished("a", [], Committed), Finished("x", [], Committed), At("a", Reserving(1))]);
    assert !Duplicate(s, 2, 1, "a") && !Waits(s, 2, 1, "a") by {
      assert forall j | 0 <= j < 3 :: s.workers[j].rows == [];
      assert "a" != "x" by { assert "a"[0] != "x"[0]; }
    }
    assert [] + ["a"] == ["a"];
    assert RunWorker(ONE, s, 2) == Insert(s, 2);
  }

  lemma SecondDeliveryClaims(rest: seq<Event>) returns (events: seq<Event>)
    ensures var a, x := Finished("a", [], Committed), Finished("x", [], Committed);
      Exec(ONE, World(0, [a, x]), events) == Exec(ONE, World(1, [a, x, At("a", Reserving(1))]), rest)
  {
    var a, x := Finished("a", [], Committed), Finished("x", [], Committed);
    events := Then(World(0, [a, x, At("a", Reserving(0))]), Run(2), World(1, [a, x, At("a", Reserving(1))]), rest);
    events := Then(World(0, [a, x]), Deliver(Task("a")), World(0, [a, x, At("a", Reserving(0))]), events);
  }

  lemma SecondDeliveryInserts() returns (events: seq<Event>)
    ensures var a, x := Finished("a", [], Committed), Finished("x", [], Committed);
      Exec(ONE, World(1, [a, x, At("a", Reserving(1))]), events) == World(1, [a, x, Finished("a", ["a"], Committed)])
  {
    var a, x := Finished("a", [], Committed), Finished("x", [], Committed);
    var done := World(1, [a, x, Finished("a", ["a"], Committed)]);
    events := Then(World(1, [a, x, Finished("a", ["a"], Live)]), Run(2), done, []);
    InsertOfA();
    events := Then(World(1, [a, x, At("a", Reserving(1))]), Run(2), World(1, [a, x, Finished("a", ["a"], Live)]), events);
  }

  /** With another worker in between, redelivery is not idle: a draft refused only because that worker's
      claim was on the counter, a claim it later gave back as a duplicate, is inserted the second time.
      The cap is 1, post "x" is already in the table, and the redelivered task drafts post "a". */
  lemma InterferenceMakesRedeliveryInsert() returns (events: seq<Event>)
    ensures var s := Exec(ONE, Init({(1, "x")}), events);
      && |s.workers| == 3 && s.workers[0].job == s.workers[2].job == Task("a")
      && s.workers[0].status == Committed && s.workers[0].rows == []
      && s.workers[2].status == Committed && s.workers[2].rows == ["a"]
  {
    events := SecondDeliveryInserts();
    events := SecondDeliveryClaims(events);
    events := ClaimComesBack(events);
    events := RefusedByAClaim(events);
    events := ClaimFirst(events);
  }
}
