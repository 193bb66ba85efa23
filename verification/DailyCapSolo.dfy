/** A worker of the interleaving machine that runs while no other transaction is open does exactly what
    `PersistGate.PersistAll` says: the step-by-step protocol refines the atomic one. */
module DailyCapSolo {
  import opened Common
  import opened DailyCap
  import opened PersistGate

  ghost predicate Only(events: seq<Event>, id: nat) {
    forall i | 0 <= i < |events| :: events[i] == Run(id)
  }

  lemma {:induction false} ExecConcat(cap: Key -> int, s: State, a: seq<Event>, b: seq<Event>)
    requires AllWellFormed(s)
    ensures Exec(cap, s, a + b) == Exec(cap, Exec(cap, s, a), b)
    decreases |a|
  {
    if a == [] {
      assert a + b == b;
    } else {
      assert (a + b)[0] == a[0] && (a + b)[1..] == a[1..] + b;
      ExecConcat(cap, Step(cap, s, a[0]), a[1..], b);
    }
  }

  lemma RunThen(cap: Key -> int, s: State, id: nat, rest: seq<Event>) returns (events: seq<Event>)
    requires AllWellFormed(s) && Only(rest, id)
    ensures Only(events, id) && Exec(cap, s, events) == Exec(cap, Step(cap, s, Run(id)), rest)
  {
    events := [Run(id)] + rest;
    assert events[1..] == rest;
  }

  /** s' is s with worker `id` moved to w, and each counter k moved by Count(plus) - Count(minus). */
  ghost predicate Moved(s: State, s': State, id: nat, w: Worker, plus: seq<Key>, minus: seq<Key>)
    requires id < |s.workers|
  {
    && s'.workers == s.workers[id := w] && s'.earlier == s.earlier
    && forall k :: Get(s'.counters, k) == Get(s.counters, k) + Count(plus, k) - Count(minus, k)
  }

  ghost predicate Working(s: State, id: nat) {
    && AllWellFormed(s) && id < |s.workers|
    && s.workers[id].status == Live && s.workers[id].next < |s.workers[id].job.posts|
  }

  lemma {:induction false} SoloGiveBack(cap: Key -> int, s: State, id: nat) returns (events: seq<Event>)
    requires Working(s, id) && s.workers[id].pc.GivingBack?
    ensures Only(events, id)
    ensures var w := s.workers[id];
      Moved(s, Exec(cap, s, events), id, NextDraft(w), [], w.job.keys[w.pc.from..w.pc.upto])
    decreases s.workers[id].pc.upto - s.workers[id].pc.from
  {
    var w := s.workers[id];
    var s1 := Step(cap, s, Run(id));
    var rest: seq<Event> := [];
    if w.pc.from + 1 < w.pc.upto {
      rest := SoloGiveBack(cap, s1, id);
      MovedOn(s, s1, Exec(cap, s1, rest), id, w.job.keys, w.pc.from, w.pc.upto);
    } else {
      assert w.job.keys[w.pc.from..w.pc.upto] == [w.job.keys[w.pc.from]];
    }
    events := RunThen(cap, s, id, rest);
  }

  /** One slot given back, then the rest of them. */
  lemma MovedOn(s: State, s1: State, s2: State, id: nat, keys: seq<Key>, from: nat, upto: nat)
    requires id < |s.workers| == |s1.workers| && from < upto <= |keys|
    requires Moved(s, s1, id, s1.workers[id], [], [keys[from]])
    requires NextDraft(s1.workers[id]) == NextDraft(s.workers[id])
    requires Moved(s1, s2, id, NextDraft(s1.workers[id]), [], keys[from + 1..upto])
    ensures Moved(s, s2, id, NextDraft(s.workers[id]), [], keys[from..upto])
  {
    assert keys[from..upto] == [keys[from]] + keys[from + 1..upto];
  }

  /** From the point where a draft is dropped with `granted` claims to its being done with. */
  lemma SoloDrop(cap: Key -> int, s: State, id: nat, w0: Worker, granted: nat) returns (events: seq<Event>)
    requires AllWellFormed(s) && id < |s.workers| && s.workers[id] == Drop(w0, granted)
    requires w0.status == Live && w0.next < |w0.job.posts| && granted <= |w0.job.keys|
    ensures Only(events, id) && Moved(s, Exec(cap, s, events), id, NextDraft(w0), [], w0.job.keys[..granted])
  {
    if granted == 0 {
      events := [];
      assert s.workers[id := NextDraft(w0)] == s.workers;
    } else {
      events := SoloGiveBack(cap, s, id);
      assert w0.job.keys[0..granted] == w0.job.keys[..granted];
    }
  }

  function Pairs(cap: Key -> int, keys: seq<Key>): (keyCaps: seq<KeyCap>)
    ensures |keyCaps| == |keys| && Keys(keyCaps) == keys
  {
    seq(|keys|, i requires 0 <= i < |keys| => KeyCap(keys[i], Some(cap(keys[i]))))
  }

  /** The claim on keys[granted] is refused: the draft is dropped and its claims are given back. */
  lemma SoloRefuse(cap: Key -> int, s: State, id: nat) returns (events: seq<Event>)
    requires Working(s, id) && s.workers[id].pc.Reserving?
    requires var w := s.workers[id]; var g := w.pc.granted;
      g < |w.job.keys| && (!w.job.redis || cap(w.job.keys[g]) <= Max(0, Get(s.counters, w.job.keys[g])))
    ensures Only(events, id)
    ensures var w := s.workers[id];
      Moved(s, Exec(cap, s, events), id, NextDraft(w), [], w.job.keys[..w.pc.granted])
  {
    var w := s.workers[id];
    var g := w.pc.granted;
    var s1 := Step(cap, s, Run(id));
    if s1.workers[id].pc == Overshot(g) {
      var s2 := Step(cap, s1, Run(id));
      var rest := SoloDrop(cap, s2, id, w, g);
      rest := RunThen(cap, s1, id, rest);
      events := RunThen(cap, s, id, rest);
      assert s2.workers[id := NextDraft(w)] == s.workers[id := NextDraft(w)];
    } else {
      var rest := SoloDrop(cap, s1, id, w, g);
      events := RunThen(cap, s, id, rest);
      assert s1.workers[id := NextDraft(w)] == s.workers[id := NextDraft(w)];
    }
  }

  /** After the claims on keys[..n] alone, and nothing else, since the counters stood at c0. */
  ghost predicate Claimed(c0: map<Key, int>, now: map<Key, int>, keys: seq<Key>, n: nat)
    requires n <= |keys|
  {
    forall k :: Get(now, k) == Get(c0, k) + Count(keys[..n], k)
  }

  /** Midway through `reserve_daily_slots` that began with the counters at c0. */
  ghost predicate Midway(cap: Key -> int, s: State, id: nat, c0: map<Key, int>) {
    && Working(s, id) && s.workers[id].pc.Reserving?
    && var w := s.workers[id];
       && (w.job.redis || w.pc.granted == 0)
       && (forall i | 0 <= i < w.pc.granted :: HasRoom(c0, Pairs(cap, w.job.keys), i))
       && Claimed(c0, s.counters, w.job.keys, w.pc.granted)
  }

  lemma RoomMeans(cap: Key -> int, s: State, id: nat, c0: map<Key, int>)
    requires Midway(cap, s, id, c0) && s.workers[id].pc.granted < |s.workers[id].job.keys|
    ensures var w := s.workers[id]; var k := w.job.keys[w.pc.granted];
      HasRoom(c0, Pairs(cap, w.job.keys), w.pc.granted) <==> cap(k) > Max(0, Get(s.counters, k))
  {
    var w := s.workers[id];
    var k := w.job.keys[w.pc.granted];
    assert Get(s.counters, k) == Get(c0, k) + Count(w.job.keys[..w.pc.granted], k);
  }

  lemma ClaimedOneMore(c0: map<Key, int>, now: map<Key, int>, keys: seq<Key>, n: nat)
    requires n < |keys| && Claimed(c0, now, keys, n)
    ensures Claimed(c0, Bump(now, keys[n], 1), keys, n + 1)
  {
    forall k ensures Get(Bump(now, keys[n], 1), k) == Get(c0, k) + Count(keys[..n + 1], k) {
      CountLast(keys, n, k);
    }
  }

  lemma ClaimStep(cap: Key -> int, s: State, id: nat, c0: map<Key, int>)
    requires Midway(cap, s, id, c0) && s.workers[id].job.redis
    requires s.workers[id].pc.granted < |s.workers[id].job.keys|
    requires HasRoom(c0, Pairs(cap, s.workers[id].job.keys), s.workers[id].pc.granted)
    ensures var s', w := Step(cap, s, Run(id)), s.workers[id];
      && Midway(cap, s', id, c0) && s'.earlier == s.earlier
      && s'.workers == s.workers[id := w.(pc := Reserving(w.pc.granted + 1))]
  {
    var w := s.workers[id];
    var g := w.pc.granted;
    RoomMeans(cap, s, id, c0);
    ClaimedOneMore(c0, s.counters, w.job.keys, g);
    var s' := Step(cap, s, Run(id));
    assert s'.counters == Bump(s.counters, w.job.keys[g], 1) && s'.workers == s.workers[id := w.(pc := Reserving(g + 1))];
  }

  /** The next claim finds no room: the draft is dropped and the counters are as they were. */
  lemma SoloRefused(cap: Key -> int, s: State, id: nat, c0: map<Key, int>) returns (events: seq<Event>)
    requires Midway(cap, s, id, c0) && s.workers[id].pc.granted < |s.workers[id].job.keys|
    requires var w := s.workers[id]; !w.job.redis || !HasRoom(c0, Pairs(cap, w.job.keys), w.pc.granted)
    ensures Only(events, id)
    ensures var w := s.workers[id]; var s' := Exec(cap, s, events);
      && s'.workers == s.workers[id := NextDraft(w)] && s'.earlier == s.earlier
      && Claimed(c0, s'.counters, w.job.keys, 0)
  {
    RoomMeans(cap, s, id, c0);
    events := SoloRefuse(cap, s, id);
    assert s.workers[id].job.keys[..0] == [];
  }

  /** All the claims, or the draft dropped with none. */
  ghost predicate Reserved(cap: Key -> int, s: State, s': State, id: nat, c0: map<Key, int>)
    requires id < |s.workers|
  {
    var w := s.workers[id];
    var fits := CanReserve(w.job.redis, c0, Pairs(cap, w.job.keys));
    && s'.workers == s.workers[id := if fits then w.(pc := Reserving(|w.job.keys|)) else NextDraft(w)]
    && s'.earlier == s.earlier
    && Claimed(c0, s'.counters, w.job.keys, if fits then |w.job.keys| else 0)
  }

  lemma ReservedFrom(cap: Key -> int, s: State, s1: State, s': State, id: nat, c0: map<Key, int>)
    requires id < |s.workers| == |s1.workers| && s1.earlier == s.earlier
    requires s1.workers == s.workers[id := s.workers[id].(pc := s1.workers[id].pc)]
    requires Reserved(cap, s1, s', id, c0)
    ensures Reserved(cap, s, s', id, c0)
  {
  }

  /** `reserve_daily_slots` without interference: all claims, or the draft is dropped with none. */
  lemma {:induction false} SoloReserve(cap: Key -> int, s: State, id: nat, c0: map<Key, int>)
    returns (events: seq<Event>)
    requires Midway(cap, s, id, c0)
    ensures Only(events, id)
    ensures Reserved(cap, s, Exec(cap, s, events), id, c0)
    decreases |s.workers[id].job.keys| - s.workers[id].pc.granted
  {
    var w := s.workers[id];
    var g := w.pc.granted;
    if g == |w.job.keys| {
      events := [];
    } else if HasRoom(c0, Pairs(cap, w.job.keys), g) && w.job.redis {
      var s1 := Step(cap, s, Run(id));
      ClaimStep(cap, s, id, c0);
      events := SoloReserve(cap, s1, id, c0);
      ReservedFrom(cap, s, s1, Exec(cap, s1, events), id, c0);
      events := RunThen(cap, s, id, events);
    } else {
      events := SoloRefused(cap, s, id, c0);
      assert !CanReserve(w.job.redis, c0, Pairs(cap, w.job.keys));
    }
  }

  /** No transaction but worker `id`'s is open. */
  ghost predicate Alone(s: State, id: nat) {
    forall j | 0 <= j < |s.workers| && j != id :: s.workers[j].status != Live
  }

  /** The counters and the table, as worker `id` finds them. */
  ghost predicate Shows(s: State, id: nat, store: Store)
    requires id < |s.workers|
  {
    && SameCounts(s.counters, store.counters)
    && forall c, p :: (c, p) in store.rows <==> Duplicate(s, id, c, p)
  }

  ghost function GateOf(cap: Key -> int, job: Job): Gate {
    Gate(job.campaign, Pairs(cap, job.keys), job.redis)
  }

  lemma DuplicateAfterInsert(s: State, s': State, id: nat, post: PostId, c: int, p: PostId)
    requires id < |s.workers| && s'.earlier == s.earlier
    requires s'.workers == s.workers[id := NextDraft(s.workers[id]).(rows := s.workers[id].rows + [post])]
    ensures Duplicate(s', id, c, p) <==> Duplicate(s, id, c, p) || (c == s.workers[id].job.campaign && p == post)
  {
    var w, w' := s.workers[id], s'.workers[id];
    if Duplicate(s, id, c, p) && (c, p) !in s.earlier {
      var j :| 0 <= j < |s.workers| && (j == id || s.workers[j].status == Committed)
               && s.workers[j].job.campaign == c && p in s.workers[j].rows;
      assert s'.workers[j].job.campaign == c && p in s'.workers[j].rows;
    }
    if Duplicate(s', id, c, p) && (c, p) !in s.earlier {
      var j :| 0 <= j < |s.workers| && (j == id || s'.workers[j].status == Committed)
               && s'.workers[j].job.campaign == c && p in s'.workers[j].rows;
      assert j != id ==> s.workers[j].job.campaign == c && p in s.workers[j].rows;
    }
    assert w'.job.campaign == w.job.campaign && post in w'.rows;
  }

  lemma DuplicateDependsOn(s: State, s': State, id: nat, w: Worker, c: int, p: PostId)
    requires id < |s.workers| && s'.earlier == s.earlier && s'.workers == s.workers[id := w]
    requires w.job == s.workers[id].job && w.rows == s.workers[id].rows
    ensures Duplicate(s', id, c, p) <==> Duplicate(s, id, c, p)
  {
    assert forall j | 0 <= j < |s.workers| ::
      s'.workers[j].job == s.workers[j].job && s'.workers[j].rows == s.workers[j].rows
      && (j != id ==> s'.workers[j].status == s.workers[j].status);
  }

  /** The draft is done with: its row is in and its claims stay, or it was there and they are back. */
  ghost predicate Inserted(s: State, s': State, id: nat, c0: map<Key, int>, store: Store)
    requires Working(s, id)
  {
    var w := s.workers[id];
    var absent := (w.job.campaign, w.job.posts[w.next]) !in store.rows;
    && s'.workers == s.workers[id := NextDraft(w).(rows := if absent then w.rows + [w.job.posts[w.next]] else w.rows)]
    && s'.earlier == s.earlier
    && Claimed(c0, s'.counters, w.job.keys, if absent then |w.job.keys| else 0)
  }

  lemma InsertedSince(s: State, s1: State, s2: State, id: nat, pc: Pc, c0: map<Key, int>, store: Store)
    requires Working(s, id) && Working(s1, id)
    requires s1.workers == s.workers[id := s.workers[id].(pc := pc)] && s1.earlier == s.earlier
    requires Inserted(s1, s2, id, c0, store)
    ensures Inserted(s, s2, id, c0, store)
  {
    assert s2.workers == s.workers[id := s2.workers[id]];
  }

  /** The insert of a lone worker holding its claims: the row goes in, or the claims come back. */
  lemma SoloInsert(cap: Key -> int, s: State, id: nat, c0: map<Key, int>, store: Store) returns (events: seq<Event>)
    requires Working(s, id) && Alone(s, id) && Shows(s.(counters := c0), id, store)
    requires var w := s.workers[id]; w.pc == Reserving(|w.job.keys|) && Claimed(c0, s.counters, w.job.keys, |w.job.keys|)
    ensures Only(events, id)
    ensures Inserted(s, Exec(cap, s, events), id, c0, store)
  {
    var w := s.workers[id];
    var keys, post := w.job.keys, w.job.posts[w.next];
    var s1 := Step(cap, s, Run(id));
    var rest: seq<Event> := [];
    assert Duplicate(s, id, w.job.campaign, post) <==> Duplicate(s.(counters := c0), id, w.job.campaign, post);
    if (w.job.campaign, post) in store.rows {
      rest := SoloDrop(cap, s1, id, w, |keys|);
      assert keys[..|keys|] == keys && keys[..0] == [];
      assert s1.workers[id := NextDraft(w)] == s.workers[id := NextDraft(w)];
    }
    events := RunThen(cap, s, id, rest);
  }

  lemma ShowsSame(s: State, s': State, id: nat, w: Worker, store: Store)
    requires id < |s.workers| && Shows(s, id, store)
    requires s'.earlier == s.earlier && s'.workers == s.workers[id := w] && SameCounts(s'.counters, s.counters)
    requires w.job == s.workers[id].job && w.rows == s.workers[id].rows
    ensures Shows(s', id, store)
  {
    forall c, p ensures Duplicate(s', id, c, p) <==> Duplicate(s, id, c, p) {
      DuplicateDependsOn(s, s', id, w, c, p);
    }
  }

  lemma ShowsInserted(s: State, s': State, id: nat, store: Store)
    requires Working(s, id) && Shows(s, id, store) && s'.earlier == s.earlier
    requires var w := s.workers[id];
      && s'.workers == s.workers[id := NextDraft(w).(rows := w.rows + [w.job.posts[w.next]])]
      && Claimed(s.counters, s'.counters, w.job.keys, |w.job.keys|)
    ensures var w := s.workers[id];
      Shows(s', id, Store(Debit(store.counters, w.job.keys), store.rows + {(w.job.campaign, w.job.posts[w.next])}))
  {
    var w := s.workers[id];
    assert w.job.keys[..|w.job.keys|] == w.job.keys;
    forall c, p ensures Duplicate(s', id, c, p) <==>
                        Duplicate(s, id, c, p) || (c == w.job.campaign && p == w.job.posts[w.next]) {
      DuplicateAfterInsert(s, s', id, w.job.posts[w.next], c, p);
    }
  }

  /** The draft's outcome in the machine, next to `PersistOne` on the atomic store. */
  ghost predicate DraftDone(s: State, s': State, id: nat, store: Store, store': Store)
    requires Working(s, id)
  {
    var w := s.workers[id];
    && s'.workers == s.workers[id := NextDraft(w).(rows :=
         if store' == store then w.rows else w.rows + [w.job.posts[w.next]])]
    && s'.earlier == s.earlier && Shows(s', id, store')
  }

  lemma SoloDraftThatFits(cap: Key -> int, s: State, s1: State, id: nat, store: Store) returns (events: seq<Event>)
    requires Working(s, id) && Alone(s, id) && Shows(s, id, store)
    requires var w := s.workers[id];
      && CanReserve(w.job.redis, store.counters, Pairs(cap, w.job.keys))
      && s1.workers == s.workers[id := w.(pc := Reserving(|w.job.keys|))] && s1.earlier == s.earlier
      && Claimed(s.counters, s1.counters, w.job.keys, |w.job.keys|)
    ensures AllWellFormed(s1) && Only(events, id)
    ensures var w := s.workers[id];
      DraftDone(s, Exec(cap, s1, events), id, store, PersistOne(GateOf(cap, w.job), store, w.job.posts[w.next]))
  {
    ReadyToInsert(s, s1, id, store);
    events := SoloInsert(cap, s1, id, s.counters, store);
    InsertedSince(s, s1, Exec(cap, s1, events), id, s1.workers[id].pc, s.counters, store);
    FitsIsDone(cap, s, Exec(cap, s1, events), id, store);
  }

  lemma ReadyToInsert(s: State, s1: State, id: nat, store: Store)
    requires Working(s, id) && Alone(s, id) && Shows(s, id, store)
    requires var w := s.workers[id];
      s1.workers == s.workers[id := w.(pc := Reserving(|w.job.keys|))] && s1.earlier == s.earlier
    ensures Working(s1, id) && Alone(s1, id) && Shows(s1.(counters := s.counters), id, store)
  {
    ShowsSame(s, s1.(counters := s.counters), id, s1.workers[id], store);
  }

  lemma FitsIsDone(cap: Key -> int, s: State, s2: State, id: nat, store: Store)
    requires Working(s, id) && Shows(s, id, store) && Inserted(s, s2, id, s.counters, store)
    requires CanReserve(s.workers[id].job.redis, store.counters, Pairs(cap, s.workers[id].job.keys))
    ensures var w := s.workers[id];
      DraftDone(s, s2, id, store, PersistOne(GateOf(cap, w.job), store, w.job.posts[w.next]))
  {
    var w := s.workers[id];
    SettledMeans(GateOf(cap, w.job), store, w.job.posts[w.next]);
    if (w.job.campaign, w.job.posts[w.next]) in store.rows {
      assert w.job.keys[..0] == [];
      ShowsSame(s, s2, id, NextDraft(w), store);
    } else {
      ShowsInserted(s, s2, id, store);
    }
  }

  /** One draft of a lone worker is one atomic `PersistOne`. */
  lemma SoloDraft(cap: Key -> int, s: State, id: nat, store: Store) returns (events: seq<Event>)
    requires Working(s, id) && s.workers[id].pc == Reserving(0) && Alone(s, id) && Shows(s, id, store)
    ensures Only(events, id)
    ensures var w := s.workers[id];
      DraftDone(s, Exec(cap, s, events), id, store, PersistOne(GateOf(cap, w.job), store, w.job.posts[w.next]))
  {
    var w := s.workers[id];
    assert w.job.keys[..0] == [];
    events := SoloReserve(cap, s, id, s.counters);
    SameCountsReserveAlike(w.job.redis, s.counters, store.counters, Pairs(cap, w.job.keys));
    if CanReserve(w.job.redis, s.counters, Pairs(cap, w.job.keys)) {
      var tail := SoloDraftThatFits(cap, s, Exec(cap, s, events), id, store);
      ExecConcat(cap, s, events, tail);
      events := events + tail;
    } else {
      ShowsSame(s, Exec(cap, s, events), id, NextDraft(w), store);
    }
  }

  lemma {:induction false} PersistAllFront(g: Gate, store: Store, posts: seq<PostId>)
    requires posts != []
    ensures PersistAll(g, store, posts) == PersistAll(g, PersistOne(g, store, posts[0]), posts[1..])
  {
    var n := |posts| - 1;
    if n > 0 {
      PersistAllFront(g, store, posts[..n]);
      assert posts[..n][1..] == posts[1..][..n - 1];
    }
  }

  /** The worker has committed, and the atomic store went from `store` to `store'` meanwhile. */
  ghost predicate Ran(s: State, s': State, id: nat, store: Store, store': Store)
    requires id < |s.workers|
  {
    var w := s.workers[id];
    && id < |s'.workers| && s'.workers == s.workers[id := s'.workers[id]] && s'.earlier == s.earlier
    && s'.workers[id].job == w.job && s'.workers[id].status == Committed
    && w.rows <= s'.workers[id].rows
    && (store' == store <==> s'.workers[id].rows == w.rows)
    && Shows(s', id, store')
  }

  lemma DraftThenRest(s: State, s1: State, s': State, id: nat, store: Store, store1: Store, store': Store)
    requires Working(s, id) && DraftDone(s, s1, id, store, store1) && Ran(s1, s', id, store1, store')
    requires store.rows <= store1.rows <= store'.rows && (store1 != store ==> store1.rows != store.rows)
    ensures Ran(s, s', id, store, store')
  {
    assert s'.workers == s.workers[id := s'.workers[id]];
    if store1 != store {
      assert |s1.workers[id].rows| == |s.workers[id].rows| + 1;
    }
  }

  /** A worker that runs with no other transaction open gets to its commit, with the result of `PersistAll`. */
  lemma {:induction false} SoloRunCommits(cap: Key -> int, s: State, id: nat, store: Store) returns (events: seq<Event>)
    requires AllWellFormed(s) && id < |s.workers| && s.workers[id].status == Live
    requires s.workers[id].pc == Reserving(0) && Alone(s, id) && Shows(s, id, store)
    ensures Only(events, id)
    ensures var w := s.workers[id];
      Ran(s, Exec(cap, s, events), id, store, PersistAll(GateOf(cap, w.job), store, w.job.posts[w.next..]))
    decreases |s.workers[id].job.posts| - s.workers[id].next
  {
    var w := s.workers[id];
    var rest := w.job.posts[w.next..];
    if rest == [] {
      events := RunThen(cap, s, id, []);
      ShowsSame(s, Exec(cap, s, events), id, w.(status := Committed), store);
    } else {
      var g := GateOf(cap, w.job);
      events := SoloDraft(cap, s, id, store);
      var s1 := Exec(cap, s, events);
      PersistAllFront(g, store, rest);
      assert rest[1..] == w.job.posts[w.next + 1..];
      var store1 := PersistOne(g, store, rest[0]);
      var tail := SoloRunCommits(cap, s1, id, store1);
      PersistGrows(g, store1, rest[1..]);
      DraftThenRest(s, s1, Exec(cap, s1, tail), id, store, store1, PersistAll(g, store1, rest[1..]));
      ExecConcat(cap, s, events, tail);
      events := events + tail;
    }
  }

  lemma {:induction false} EndedWorkerIsIdle(cap: Key -> int, s: State, events: seq<Event>, id: nat)
    requires AllWellFormed(s) && Only(events, id) && id < |s.workers| && s.workers[id].status != Live
    ensures Exec(cap, s, events) == s
    decreases |events|
  {
    if events != [] {
      EndedWorkerIsIdle(cap, s, events[1..], id);
    }
  }

  /** A worker on its own has one way to go: any two runs of it that reach its commit end in the same state. */
  lemma {:induction false} OneWayToCommit(cap: Key -> int, s: State, a: seq<Event>, b: seq<Event>, id: nat)
    requires AllWellFormed(s) && id < |s.workers| && Only(a, id) && Only(b, id)
    requires id < |Exec(cap, s, a).workers| && Exec(cap, s, a).workers[id].status == Committed
    requires id < |Exec(cap, s, b).workers| && Exec(cap, s, b).workers[id].status == Committed
    ensures Exec(cap, s, a) == Exec(cap, s, b)
    decreases |a|
  {
    if s.workers[id].status != Live {
      EndedWorkerIsIdle(cap, s, a, id);
      EndedWorkerIsIdle(cap, s, b, id);
    } else {
      RunWorkerBooks(cap, s, id, "");
      OneWayToCommit(cap, Step(cap, s, Run(id)), a[1..], b[1..], id);
    }
  }

  /** Whatever steps a lone worker takes to its commit, it commits the result of `PersistAll`. */
  lemma SoloRun(cap: Key -> int, s: State, events: seq<Event>, id: nat, store: Store)
    requires AllWellFormed(s) && id < |s.workers| && s.workers[id].status == Live
    requires s.workers[id].pc == Reserving(0) && Alone(s, id) && Shows(s, id, store)
    requires Only(events, id)
    requires id < |Exec(cap, s, events).workers| && Exec(cap, s, events).workers[id].status == Committed
    ensures var w := s.workers[id];
      Ran(s, Exec(cap, s, events), id, store, PersistAll(GateOf(cap, w.job), store, w.job.posts[w.next..]))
  {
    var run := SoloRunCommits(cap, s, id, store);
    OneWayToCommit(cap, s, events, run, id);
  }

  lemma {:induction false} PersistGrows(g: Gate, store: Store, posts: seq<PostId>)
    ensures store.rows <= PersistAll(g, store, posts).rows
  {
    if posts != [] {
      PersistGrows(g, store, posts[..|posts| - 1]);
    }
  }
}
