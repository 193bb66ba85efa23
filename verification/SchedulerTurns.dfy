/** The tick of the step machine in `Scheduler`, when nobody comes in between: it does what the whole tick of
    `SchedulerTicks` does. */
module SchedulerTurns {
  import opened Common
  import opened Scheduler
  import Ticks = SchedulerTicks

  /** A tick's steps for the first campaign it still has to do. */
  function Turn(s: State, i: nat, outcome: Outcome): State
    requires i < |s.ticks|
  {
    var s1 := StepOfTick(s, i, if outcome == FailsBefore then FailsBefore else Fine);
    if s1.ticks[i].Decided? then StepOfTick(StepOfTick(s1, i, outcome), i, Fine)
    else if s1.ticks[i].Putting? then StepOfTick(s1, i, Fine)
    else s1
  }

  /** What the tick's session holds of the orgs is what they are. */
  ghost predicate InLoop(s: State, i: nat, now: int, ids: seq<int>) {
    && i < |s.ticks| && s.ticks[i].Loop? && s.ticks[i].now == now && s.ticks[i].ids == ids
    && forall org | org in s.ticks[i].seen :: s.ticks[i].seen[org] <==> org in s.w.activeOrgs
  }

  /** With nobody in between, a campaign's turn does what `HandleDue` does. */
  lemma TurnIsHandleDue(s: State, i: nat, now: int, ids: seq<int>, outcome: Outcome)
    requires InLoop(s, i, now, ids) && ids != [] && ids[0] !in s.w.zset
    ensures var s', id := Turn(s, i, outcome), ids[0];
      && InLoop(s', i, now, ids[1..]) && s'.w == s.w.(zset := s'.w.zset)
      && (id in s'.w.zset <==> outcome == FailsBefore || id in s.w.campaigns)
      && (id in s'.w.zset ==>
            s'.w.zset[id] == if outcome == Fine then now + s.w.campaigns[id].pollMinutes * 60 else now + 300)
      && s'.w.zset - {id} == s.w.zset
      && (if outcome != FailsBefore && id in s.w.campaigns && s.w.campaigns[id].status == ACTIVE
             && s.w.campaigns[id].org in s.w.activeOrgs
          then s'.dispatches == s.dispatches + [(id, s.w.campaigns[id].org)] else s'.dispatches == s.dispatches)
  {
  }

  function Turns(s: State, i: nat, oracle: Ticks.Oracle, ids: seq<int>): State
    requires i < |s.ticks|
    decreases |ids|
  {
    if ids == [] then s
    else
      var s' := Turn(s, i, Ticks.At(oracle, ids[0]));
      if i < |s'.ticks| then Turns(s', i, oracle, ids[1..]) else s'
  }

  /** The campaigns among these that are dispatched, in order, with their orgs. */
  function Sent(w: World, ids: seq<int>, oracle: Ticks.Oracle): seq<(int, int)> {
    if ids == [] then []
    else
      (if Dispatched(w, ids[0], Ticks.At(oracle, ids[0])) then [(ids[0], w.campaigns[ids[0]].org)] else [])
      + Sent(w, ids[1..], oracle)
  }

  /** From s to s' these campaigns have had their turns, and nothing else has changed. */
  ghost predicate Did(s: State, s': State, now: int, ids: seq<int>, oracle: Ticks.Oracle) {
    && s'.w == s.w.(zset := s'.w.zset) && s'.dispatches == s.dispatches + Sent(s.w, ids, oracle)
    && (forall id | id in ids :: Ticks.Score(s'.w.zset, id) == NewScore(s.w, id, now, Ticks.At(oracle, id)))
    && (forall id | id !in ids :: Ticks.Score(s'.w.zset, id) == Ticks.Score(s.w.zset, id))
  }

  lemma TurnDid(s: State, i: nat, now: int, ids: seq<int>, oracle: Ticks.Oracle)
    requires InLoop(s, i, now, ids) && ids != [] && ids[0] !in s.w.zset
    ensures var s' := Turn(s, i, Ticks.At(oracle, ids[0]));
      InLoop(s', i, now, ids[1..]) && Did(s, s', now, [ids[0]], oracle)
  {
    var s' := Turn(s, i, Ticks.At(oracle, ids[0]));
    TurnIsHandleDue(s, i, now, ids, Ticks.At(oracle, ids[0]));
    assert [ids[0]][1..] == [];
    forall other | other != ids[0] ensures Ticks.Score(s'.w.zset, other) == Ticks.Score(s.w.zset, other) {
      assert Ticks.Score(s'.w.zset - {ids[0]}, other) == Ticks.Score(s'.w.zset, other);
    }
  }

  lemma SentOneMore(w: World, w': World, ids: seq<int>, oracle: Ticks.Oracle)
    requires ids != [] && w'.campaigns == w.campaigns && w'.activeOrgs == w.activeOrgs
    ensures Sent(w, ids, oracle) == Sent(w, [ids[0]], oracle) + Sent(w', ids[1..], oracle)
  {
    assert [ids[0]][1..] == [];
    SentDependsOn(w, w', ids[1..], oracle);
  }

  lemma DidOneMore(s: State, s1: State, s2: State, now: int, ids: seq<int>, oracle: Ticks.Oracle)
    requires ids != [] && NoRepeats(ids) && Did(s, s1, now, [ids[0]], oracle) && Did(s1, s2, now, ids[1..], oracle)
    ensures Did(s, s2, now, ids, oracle)
  {
    assert ids == [ids[0]] + ids[1..] && ids[0] !in ids[1..];
    SentOneMore(s.w, s1.w, ids, oracle);
    forall id ensures Ticks.Score(s2.w.zset, id)
                   == if id in ids then NewScore(s.w, id, now, Ticks.At(oracle, id)) else Ticks.Score(s.w.zset, id) {
      assert Ticks.Score(s1.w.zset, id)
          == if id in [ids[0]] then NewScore(s.w, id, now, Ticks.At(oracle, id)) else Ticks.Score(s.w.zset, id);
      assert NewScore(s1.w, id, now, Ticks.At(oracle, id)) == NewScore(s.w, id, now, Ticks.At(oracle, id));
    }
  }

  lemma {:induction false} TurnsAreTheTick(s: State, i: nat, now: int, ids: seq<int>, oracle: Ticks.Oracle)
    requires InLoop(s, i, now, ids) && NoRepeats(ids) && forall id | id in ids :: id !in s.w.zset
    ensures Did(s, Turns(s, i, oracle, ids), now, ids, oracle)
    decreases |ids|
  {
    if ids != [] {
      TurnDid(s, i, now, ids, oracle);
      var s1 := Turn(s, i, Ticks.At(oracle, ids[0]));
      forall id | id in ids[1..] ensures id !in s1.w.zset {
        assert id in ids && id != ids[0];
        assert Ticks.Score(s1.w.zset, id) == Ticks.Score(s.w.zset, id);
      }
      TurnsAreTheTick(s1, i, now, ids[1..], oracle);
      DidOneMore(s, s1, Turns(s1, i, oracle, ids[1..]), now, ids, oracle);
    }
  }

  lemma {:induction false} SentDependsOn(w: World, w': World, ids: seq<int>, oracle: Ticks.Oracle)
    requires w'.campaigns == w.campaigns && w'.activeOrgs == w.activeOrgs
    ensures Sent(w, ids, oracle) == Sent(w', ids, oracle)
  {
    if ids != [] {
      SentDependsOn(w, w', ids[1..], oracle);
    }
  }

  lemma Pops(s: State, now: int, ids: seq<int>)
    requires (set id | id in ids) == Due(s.w.zset, now) && NoRepeats(ids)
    ensures var popped := Step(Step(s, StartTick(now, ids)), StepTick(|s.ticks|, Fine));
      && popped.ticks == s.ticks + [Loop(now, ids, map[])] && popped.dispatches == s.dispatches
      && popped.w == s.w.(zset := popped.w.zset)
      && (forall id :: id in ids <==> id in Due(s.w.zset, now)) && (forall id | id in ids :: id !in popped.w.zset)
      && forall id | id !in ids :: Ticks.Score(popped.w.zset, id) == Ticks.Score(s.w.zset, id)
  {
    assert forall id :: id in ids <==> id in (set id | id in ids);
  }

  /** A tick of the step machine with nobody in between, from its read of the due campaigns to the last one put
      back, leaves what the atomic tick leaves and dispatches the same campaigns. */
  lemma UndisturbedTickIsAtomic(s: State, now: int, ids: seq<int>, oracle: Ticks.Oracle)
    requires (set id | id in ids) == Due(s.w.zset, now) && NoRepeats(ids)
    ensures var n := |s.ticks|;
      var popped := Step(Step(s, StartTick(now, ids)), StepTick(n, Fine));
      && n < |popped.ticks|
      && var s' := Turns(popped, n, oracle, ids);
         && s'.w == s.w.(zset := Ticks.TickZset(s.w, now, oracle))
         && s'.dispatches == s.dispatches + Sent(s.w, ids, oracle)
  {
    var n := |s.ticks|;
    var popped := Step(Step(s, StartTick(now, ids)), StepTick(n, Fine));
    Pops(s, now, ids);
    TurnsAreTheTick(popped, n, now, ids, oracle);
    var s' := Turns(popped, n, oracle, ids);
    SentDependsOn(s.w, popped.w, ids, oracle);
    forall id | id in ids ensures Ticks.Score(s'.w.zset, id) == NewScore(s.w, id, now, Ticks.At(oracle, id)) {
      assert Ticks.Score(s'.w.zset, id) == NewScore(popped.w, id, now, Ticks.At(oracle, id));
    }
    forall id | id !in ids ensures Ticks.Score(s'.w.zset, id) == Ticks.Score(s.w.zset, id) {
      assert Ticks.Score(s'.w.zset, id) == Ticks.Score(popped.w.zset, id);
    }
    Ticks.TickZsetIs(s.w, now, oracle, ids, s'.w.zset);
  }
}
