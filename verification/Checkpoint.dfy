/** Crash and resume of the two checkpointed graphs.  Of LangGraph only the rule written in `run_pipeline`
    is assumed: a thread with a checkpoint resumes after its last completed node, one without starts from
    the initial state.  Nodes are functions of the state, the clean case. */
module Checkpoint {

  /** A chain of nodes; after node i the run ends if stop[i] says so, or if it is the last. */
  datatype Graph<!S> = Graph(nodes: seq<S -> S>, stop: seq<S -> bool>)

  /** At(next, state): `next` is the node to run, |nodes| when the run has ended. */
  datatype Thread<S> = NoCheckpoint | At(next: nat, state: S)

  /** `running`: a worker has an invocation open.  `begun` and `completed` log node bodies; `died` logs the
      nodes inside which a worker was lost. */
  datatype System<S> = System(
    thread: Thread<S>, running: bool, begun: seq<nat>, completed: seq<nat>, died: seq<nat>)

  /** Deliver: a (re)delivery reaches a worker.  RunNode: the next node runs and is checkpointed.
      DieInNode: the worker is lost inside a node body.  Die: it is lost between two nodes. */
  datatype Event = Deliver | RunNode | DieInNode | Die

  function Next<S>(g: Graph<S>, i: nat, state: S): nat
    requires i < |g.nodes| == |g.stop|
  {
    if g.stop[i](state) then |g.nodes| else i + 1
  }

  function Init<S>(): System<S> {
    System(NoCheckpoint, false, [], [], [])
  }

  function Step<S>(g: Graph<S>, initial: S, s: System<S>, e: Event): System<S>
    requires |g.stop| == |g.nodes|
  {
    match e
    case Deliver =>
      if s.running then s
      else if s.thread.NoCheckpoint? then s.(thread := At(0, initial), running := true)
      else s.(running := true)
    case RunNode =>
      if s.running && s.thread.At? && s.thread.next < |g.nodes| then
        var i := s.thread.next;
        var state := g.nodes[i](s.thread.state);
        s.(thread := At(Next(g, i, state), state), begun := s.begun + [i], completed := s.completed + [i])
      else s
    case DieInNode =>
      if s.running && s.thread.At? && s.thread.next < |g.nodes| then
        s.(running := false, begun := s.begun + [s.thread.next], died := s.died + [s.thread.next])
      else s
    case Die => s.(running := false)
  }

  function Exec<S>(g: Graph<S>, initial: S, s: System<S>, events: seq<Event>): System<S>
    requires |g.stop| == |g.nodes|
  {
    if events == [] then s
    else Step(g, initial, Exec(g, initial, s, events[..|events| - 1]), events[|events| - 1])
  }

  /* ---- the run without crashes ---- */

  /** The state a run from node i ends in, and the nodes it visits. */
  function Final<S>(g: Graph<S>, i: nat, state: S): S
    requires |g.stop| == |g.nodes|
    decreases |g.nodes| - i
  {
    if i >= |g.nodes| then state
    else var state' := g.nodes[i](state); Final(g, Next(g, i, state'), state')
  }

  function Path<S>(g: Graph<S>, i: nat, state: S): (path: seq<nat>)
    requires |g.stop| == |g.nodes|
    ensures forall j | 0 <= j < |path| :: i <= path[j] < |g.nodes|
    ensures forall j, k | 0 <= j < k < |path| :: path[j] < path[k]
    decreases |g.nodes| - i
  {
    if i >= |g.nodes| then []
    else var state' := g.nodes[i](state); [i] + Path(g, Next(g, i, state'), state')
  }

  function Count(xs: seq<nat>, i: nat): nat {
    multiset(xs)[i]
  }

  ghost predicate Inv<S(!new)>(g: Graph<S>, initial: S, s: System<S>)
    requires |g.stop| == |g.nodes|
  {
    && (s.thread.NoCheckpoint? ==> s.completed == [] && !s.running && s.begun == [] && s.died == [])
    && (s.thread.At? ==>
          && Final(g, s.thread.next, s.thread.state) == Final(g, 0, initial)
          && s.completed + Path(g, s.thread.next, s.thread.state) == Path(g, 0, initial))
    && multiset(s.begun) == multiset(s.completed) + multiset(s.died)
  }

  lemma StepKeepsInv<S(!new)>(g: Graph<S>, initial: S, s: System<S>, e: Event)
    requires |g.stop| == |g.nodes| && Inv(g, initial, s)
    ensures Inv(g, initial, Step(g, initial, s, e))
  {
    if e.RunNode? && s.running && s.thread.At? && s.thread.next < |g.nodes| {
      var i := s.thread.next;
      var state := g.nodes[i](s.thread.state);
      assert s.completed + Path(g, i, s.thread.state) == (s.completed + [i]) + Path(g, Next(g, i, state), state);
    }
  }

  lemma {:induction false} ExecKeepsInv<S(!new)>(g: Graph<S>, initial: S, events: seq<Event>)
    requires |g.stop| == |g.nodes|
    ensures Inv(g, initial, Exec(g, initial, Init(), events))
  {
    if events != [] {
      ExecKeepsInv(g, initial, events[..|events| - 1]);
      StepKeepsInv(g, initial, Exec(g, initial, Init(), events[..|events| - 1]), events[|events| - 1]);
    }
  }

  lemma {:induction false} RisingCount(xs: seq<nat>, i: nat)
    requires forall j, k | 0 <= j < k < |xs| :: xs[j] < xs[k]
    ensures Count(xs, i) <= 1
  {
    if xs != [] {
      var n := |xs| - 1;
      assert xs == xs[..n] + [xs[n]];
      RisingCount(xs[..n], i);
      if xs[n] == i {
        assert i !in xs[..n];
      }
    }
  }

  /** Whatever crashes and redeliveries a thread goes through: the nodes completed are a prefix of the path
      the crash-free run takes, so none completes twice; a node's body begins once more than the workers
      lost inside it, at most; and a thread that has ended holds the crash-free run's final state. */
  lemma CrashesDoNotShow<S(!new)>(g: Graph<S>, initial: S, events: seq<Event>, node: nat)
    requires |g.stop| == |g.nodes|
    ensures var s := Exec(g, initial, Init(), events);
      && s.completed <= Path(g, 0, initial)
      && Count(s.completed, node) <= 1
      && Count(s.begun, node) <= 1 + Count(s.died, node)
      && (s.thread.At? && s.thread.next >= |g.nodes| ==>
            s.thread.state == Final(g, 0, initial) && s.completed == Path(g, 0, initial))
  {
    ExecKeepsInv(g, initial, events);
    var s := Exec(g, initial, Init(), events);
    if s.thread.At? {
      assert s.completed == Path(g, 0, initial)[..|s.completed|];
    }
    RisingCount(s.completed, node);
  }

  /** A redelivery to a thread that has ended runs no node. */
  lemma {:induction false} EndedThreadIsIdle<S(!new)>(g: Graph<S>, initial: S, s: System<S>, events: seq<Event>)
    requires |g.stop| == |g.nodes| && s.thread.At? && s.thread.next >= |g.nodes|
    ensures var s' := Exec(g, initial, s, events);
      s'.thread == s.thread && s'.begun == s.begun && s'.completed == s.completed
  {
    if events != [] {
      EndedThreadIsIdle(g, initial, s, events[..|events| - 1]);
    }
  }

  /** From anywhere, one redelivery that is left alone brings the thread to its end. */
  lemma {:induction false} UndisturbedRunEnds<S(!new)>(g: Graph<S>, initial: S, s: System<S>) returns (events: seq<Event>)
    requires |g.stop| == |g.nodes| && s.running && s.thread.At?
    ensures forall e | e in events :: e == RunNode
    ensures var s' := Exec(g, initial, s, events); s'.thread.At? && s'.thread.next >= |g.nodes|
    decreases |g.nodes| - s.thread.next
  {
    if s.thread.next >= |g.nodes| {
      events := [];
    } else {
      var rest := UndisturbedRunEnds(g, initial, Step(g, initial, s, RunNode));
      events := [RunNode] + rest;
      ExecFront(g, initial, s, RunNode, rest);
    }
  }

  lemma {:induction false} ExecFront<S(!new)>(g: Graph<S>, initial: S, s: System<S>, e: Event, rest: seq<Event>)
    requires |g.stop| == |g.nodes|
    ensures Exec(g, initial, s, [e] + rest) == Exec(g, initial, Step(g, initial, s, e), rest)
  {
    if rest == [] {
      assert [e] + rest == [e] && [e][..0] == [];
    } else {
      var n := |rest| - 1;
      assert ([e] + rest)[..n + 1] == [e] + rest[..n];
      ExecFront(g, initial, s, e, rest[..n]);
    }
  }

  lemma {:induction false} ExecConcat<S(!new)>(g: Graph<S>, initial: S, s: System<S>, a: seq<Event>, b: seq<Event>)
    requires |g.stop| == |g.nodes|
    ensures Exec(g, initial, s, a + b) == Exec(g, initial, Exec(g, initial, s, a), b)
  {
    if b == [] {
      assert a + b == a;
    } else {
      var n := |b| - 1;
      assert (a + b)[..|a| + n] == a + b[..n];
      ExecConcat(g, initial, s, a, b[..n]);
    }
  }

  /** After any history of crashes, one undisturbed redelivery ends in the crash-free run's final state. */
  lemma RedeliveryRecovers<S(!new)>(g: Graph<S>, initial: S, history: seq<Event>) returns (events: seq<Event>)
    requires |g.stop| == |g.nodes|
    ensures forall e | e in events :: e == Die || e == Deliver || e == RunNode
    ensures Exec(g, initial, Init(), history + events).thread == At(|g.nodes|, Final(g, 0, initial))
  {
    var wake := [Die, Deliver];
    assert wake[..1] == [Die] && wake[..1][..0] == [];
    var s1 := Exec(g, initial, Init(), history + wake);
    ExecConcat(g, initial, Init(), history, wake);
    var run := UndisturbedRunEnds(g, initial, s1);
    events := wake + run;
    assert history + events == (history + wake) + run;
    ExecConcat(g, initial, Init(), history + wake, run);
    CrashesDoNotShow(g, initial, history + events, 0);
    EndIsExact(g, initial, history + events);
  }

  lemma {:induction false} EndIsExact<S(!new)>(g: Graph<S>, initial: S, events: seq<Event>)
    requires |g.stop| == |g.nodes|
    ensures var s := Exec(g, initial, Init(), events); s.thread.At? ==> s.thread.next <= |g.nodes|
  {
    if events != [] {
      EndIsExact(g, initial, events[..|events| - 1]);
    }
  }

  /** A worker that is lost runs nothing until the next delivery; lost inside a node, its body begins again then.
      So the bound on how often a body begins is reached. */
  lemma LostInNodeBeginsAgain<S(!new)>(g: Graph<S>, initial: S)
    requires |g.stop| == |g.nodes| > 0
    ensures var lost := Step(g, initial, Step(g, initial, Init(), Deliver), DieInNode);
      && Step(g, initial, lost, RunNode) == lost && lost.begun == [0] && lost.completed == []
      && var again := Step(g, initial, Step(g, initial, lost, Deliver), RunNode);
         && again.begun == [0, 0] && again.completed == [0] && again.died == [0]
         && var idle := Step(g, initial, again, Die);
            Step(g, initial, idle, RunNode) == idle && idle.completed == [0]
  {
  }

  /* ---- the two graphs ---- */

  datatype ReplyState<D> = ReplyState(terminal: bool, posts: nat, selections: nat, data: D)

  /** ingest, prefilter, scout, token_budget, strategist, finalize, persist_gate. */
  function ReplyGraph<D>(nodes: seq<ReplyState<D> -> ReplyState<D>>): (g: Graph<ReplyState<D>>)
    requires |nodes| == 7
    ensures |g.stop| == |g.nodes|
  {
    Graph(nodes, [
      (s: ReplyState<D>) => s.terminal,
      (s: ReplyState<D>) => s.posts == 0,
      (s: ReplyState<D>) => s.selections == 0,
      (s: ReplyState<D>) => false,
      (s: ReplyState<D>) => false,
      (s: ReplyState<D>) => false,
      (s: ReplyState<D>) => true])
  }

  datatype AnalystState<D> = AnalystState(terminal: bool, data: D)

  /** ingest, triage, cluster, stance, quotes, aggregate, render_brief. */
  function AnalystGraph<D>(nodes: seq<AnalystState<D> -> AnalystState<D>>): (g: Graph<AnalystState<D>>)
    requires |nodes| == 7
    ensures |g.stop| == |g.nodes|
  {
    Graph(nodes, [
      (s: AnalystState<D>) => s.terminal,
      (s: AnalystState<D>) => false,
      (s: AnalystState<D>) => false,
      (s: AnalystState<D>) => false,
      (s: AnalystState<D>) => false,
      (s: AnalystState<D>) => false,
      (s: AnalystState<D>) => true])
  }

  function Range(i: nat, n: nat): seq<nat>
    decreases n - i
  {
    if i >= n then [] else [i] + Range(i + 1, n)
  }

  /** From a node on after which no edge leaves for the end, the run visits every node left. */
  lemma {:induction false} StraightPath<S(!new)>(g: Graph<S>, i: nat, state: S)
    requires |g.stop| == |g.nodes|
    requires forall j, s | i <= j < |g.nodes| - 1 :: !g.stop[j](s)
    ensures Path(g, i, state) == Range(i, |g.nodes|)
    decreases |g.nodes| - i
  {
    if i < |g.nodes| {
      var state' := g.nodes[i](state);
      if i < |g.nodes| - 1 {
        assert !g.stop[i](state');
        StraightPath(g, i + 1, state');
      }
    }
  }

  /** The reply pipeline ends after ingest, prefilter or scout when that node left nothing to do, and
      otherwise visits all seven nodes. */
  lemma ReplyPath<D(!new)>(nodes: seq<ReplyState<D> -> ReplyState<D>>, initial: ReplyState<D>)
    requires |nodes| == 7
    ensures var s0 := nodes[0](initial); var s1 := nodes[1](s0); var s2 := nodes[2](s1);
      Path(ReplyGraph(nodes), 0, initial) ==
        if s0.terminal then [0] else if s1.posts == 0 then [0, 1] else if s2.selections == 0 then [0, 1, 2]
        else [0, 1, 2] + Range(3, 7)
  {
    var g := ReplyGraph(nodes);
    var s0 := nodes[0](initial); var s1 := nodes[1](s0); var s2 := nodes[2](s1);
    StraightPath(g, 3, s2);
    assert Path(g, 2, s1) == [2] + if s2.selections == 0 then [] else Range(3, 7);
    assert Path(g, 1, s0) == [1] + if s1.posts == 0 then [] else Path(g, 2, s1);
  }

  /** The analyst pipeline ends after ingest, or visits all seven nodes. */
  lemma AnalystPath<D(!new)>(nodes: seq<AnalystState<D> -> AnalystState<D>>, initial: AnalystState<D>)
    requires |nodes| == 7
    ensures Path(AnalystGraph(nodes), 0, initial) == if nodes[0](initial).terminal then [0] else Range(0, 7)
  {
    StraightPath(AnalystGraph(nodes), 1, nodes[0](initial));
  }
}
