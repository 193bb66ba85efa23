/** Overlapping deliveries of one thread: a redelivery may start while an earlier worker, slow rather than lost,
    is still at work.  Each invocation goes on from the checkpoint it found, in its own memory, and each writes
    the thread's checkpoint; the last write is the one the next delivery finds. */
module CheckpointOverlap {
  import opened Checkpoint

  /** `ran` are the nodes whose bodies it began. */
  datatype Invocation<S> = Invocation(next: nat, state: S, ran: seq<nat>, live: bool)

  datatype Overlap<S> = Overlap(thread: Thread<S>, invocations: seq<Invocation<S>>)

  /** Deliver: a new invocation.  RunNode(k): invocation k runs its next node and checkpoints it.
      Lose(k, inNode): the worker of k is lost, inside a node body or between two. */
  datatype Event = Deliver | RunNode(k: nat) | Lose(k: nat, inNode: bool)

  function Begin<S>(initial: S, thread: Thread<S>): Invocation<S> {
    if thread.NoCheckpoint? then Invocation(0, initial, [], true) else Invocation(thread.next, thread.state, [], true)
  }

  function Advance<S>(g: Graph<S>, v: Invocation<S>): Invocation<S>
    requires |g.stop| == |g.nodes| && v.next < |g.nodes|
  {
    var state := g.nodes[v.next](v.state);
    Invocation(Next(g, v.next, state), state, v.ran + [v.next], true)
  }

  function Step<S>(g: Graph<S>, initial: S, s: Overlap<S>, e: Event): Overlap<S>
    requires |g.stop| == |g.nodes|
  {
    match e
    case Deliver =>
      var v := Begin(initial, s.thread);
      Overlap(At(v.next, v.state), s.invocations + [v])
    case RunNode(k) =>
      if k < |s.invocations| && s.invocations[k].live && s.invocations[k].next < |g.nodes| then
        var v := Advance(g, s.invocations[k]);
        Overlap(At(v.next, v.state), s.invocations[k := v])
      else s
    case Lose(k, inNode) =>
      if k < |s.invocations| && s.invocations[k].live then
        var v := s.invocations[k];
        var ran := if inNode && v.next < |g.nodes| then v.ran + [v.next] else v.ran;
        s.(invocations := s.invocations[k := v.(live := false, ran := ran)])
      else s
  }

  function Exec<S>(g: Graph<S>, initial: S, s: Overlap<S>, events: seq<Event>): Overlap<S>
    requires |g.stop| == |g.nodes|
  {
    if events == [] then s
    else Step(g, initial, Exec(g, initial, s, events[..|events| - 1]), events[|events| - 1])
  }

  ghost predicate Rising(xs: seq<nat>) {
    forall j, k | 0 <= j < k < |xs| :: xs[j] < xs[k]
  }

  /** The invocation is somewhere on the crash-free run, and has begun each node once at most, in order. */
  ghost predicate OnTheWay<S(!new)>(g: Graph<S>, initial: S, v: Invocation<S>)
    requires |g.stop| == |g.nodes|
  {
    && Final(g, v.next, v.state) == Final(g, 0, initial)
    && Rising(v.ran) && forall x | x in v.ran :: x < v.next || (!v.live && x == v.next)
  }

  ghost predicate AllOnTheWay<S(!new)>(g: Graph<S>, initial: S, s: Overlap<S>)
    requires |g.stop| == |g.nodes|
  {
    && (s.thread.At? ==> Final(g, s.thread.next, s.thread.state) == Final(g, 0, initial))
    && forall k | 0 <= k < |s.invocations| :: OnTheWay(g, initial, s.invocations[k])
  }

  lemma RisingOn(xs: seq<nat>, x: nat)
    requires Rising(xs) && forall y | y in xs :: y < x
    ensures Rising(xs + [x])
  {
    assert forall j | 0 <= j < |xs| :: xs[j] in xs;
  }

  lemma AdvanceStaysOnTheWay<S(!new)>(g: Graph<S>, initial: S, v: Invocation<S>)
    requires |g.stop| == |g.nodes| && OnTheWay(g, initial, v) && v.live && v.next < |g.nodes|
    ensures OnTheWay(g, initial, Advance(g, v))
  {
    RisingOn(v.ran, v.next);
    assert Advance(g, v).next > v.next;
  }

  lemma StepStaysOnTheWay<S(!new)>(g: Graph<S>, initial: S, s: Overlap<S>, e: Event)
    requires |g.stop| == |g.nodes| && AllOnTheWay(g, initial, s)
    ensures AllOnTheWay(g, initial, Step(g, initial, s, e))
  {
    match e
    case Deliver =>
      assert OnTheWay(g, initial, Begin(initial, s.thread));
    case RunNode(k) =>
      if k < |s.invocations| && s.invocations[k].live && s.invocations[k].next < |g.nodes| {
        AdvanceStaysOnTheWay(g, initial, s.invocations[k]);
      }
    case Lose(k, _) =>
      if k < |s.invocations| && s.invocations[k].live {
        RisingOn(s.invocations[k].ran, s.invocations[k].next);
      }
  }

  lemma {:induction false} ExecStaysOnTheWay<S(!new)>(g: Graph<S>, initial: S, events: seq<Event>)
    requires |g.stop| == |g.nodes|
    ensures AllOnTheWay(g, initial, Exec(g, initial, Overlap(NoCheckpoint, []), events))
  {
    if events != [] {
      var init := events[..|events| - 1];
      ExecStaysOnTheWay(g, initial, init);
      StepStaysOnTheWay(g, initial, Exec(g, initial, Overlap(NoCheckpoint, []), init), events[|events| - 1]);
    }
  }

  /** However many invocations of a thread overlap, and wherever their workers are lost: each that ends, and the
      checkpoint once it says the run ended, holds the crash-free final state; and no invocation begins a node
      twice. */
  lemma OverlapDoesNotShow<S(!new)>(g: Graph<S>, initial: S, events: seq<Event>, k: nat, node: nat)
    requires |g.stop| == |g.nodes|
    ensures var s := Exec(g, initial, Overlap(NoCheckpoint, []), events);
      && (s.thread.At? && s.thread.next >= |g.nodes| ==> s.thread.state == Final(g, 0, initial))
      && (k < |s.invocations| ==>
            && Count(s.invocations[k].ran, node) <= 1
            && (s.invocations[k].next >= |g.nodes| ==> s.invocations[k].state == Final(g, 0, initial)))
  {
    ExecStaysOnTheWay(g, initial, events);
    var s := Exec(g, initial, Overlap(NoCheckpoint, []), events);
    if k < |s.invocations| {
      assert OnTheWay(g, initial, s.invocations[k]);
      RisingCount(s.invocations[k].ran, node);
    }
  }

  /** Two deliveries that overlap may both run the first node; and an invocation whose worker is lost runs no
      further. */
  lemma BothRunTheFirstNode<S(!new)>(g: Graph<S>, initial: S) returns (events: seq<Event>)
    requires |g.stop| == |g.nodes| > 0
    ensures var s := Exec(g, initial, Overlap(NoCheckpoint, []), events);
      && |s.invocations| == 2 && s.invocations[0].ran == [0] && s.invocations[1].ran == [0]
      && s.invocations[0].next == s.invocations[1].next == Next(g, 0, g.nodes[0](initial))
      && forall k | 0 <= k < 2 ::
           var lost := Step(g, initial, s, Lose(k, true));
           && Step(g, initial, lost, Event.RunNode(k)) == lost && lost.thread == s.thread
           && lost.invocations[k].ran == if s.invocations[k].next < |g.nodes| then [0, s.invocations[k].next] else [0]
  {
    var s0: Overlap<S> := Overlap(NoCheckpoint, []);
    var s1 := Step(g, initial, s0, Event.Deliver);
    var s2 := Step(g, initial, s1, Event.Deliver);
    var s3 := Step(g, initial, s2, Event.RunNode(0));
    var s4 := Step(g, initial, s3, Event.RunNode(1));
    events := Then(g, initial, [], s0, Event.Deliver, s1);
    events := Then(g, initial, events, s1, Event.Deliver, s2);
    events := Then(g, initial, events, s2, Event.RunNode(0), s3);
    events := Then(g, initial, events, s3, Event.RunNode(1), s4);
  }

  lemma Then<S(!new)>(g: Graph<S>, initial: S, events: seq<Event>, s1: Overlap<S>, e: Event, s2: Overlap<S>)
    returns (longer: seq<Event>)
    requires |g.stop| == |g.nodes|
    requires Exec(g, initial, Overlap(NoCheckpoint, []), events) == s1 && Step(g, initial, s1, e) == s2
    ensures Exec(g, initial, Overlap(NoCheckpoint, []), longer) == s2
  {
    longer := events + [e];
    assert longer[..|events|] == events;
  }

  /** The checkpoint is past the first node, and so is every invocation from number n on, without having run
      it. */
  ghost predicate PastFirst<S(!new)>(s: Overlap<S>, n: nat) {
    && s.thread.At? && s.thread.next >= 1 && n <= |s.invocations|
    && forall k | n <= k < |s.invocations| :: s.invocations[k].next >= 1 && 0 !in s.invocations[k].ran
  }

  /** Once some invocation has completed ingest, no later delivery runs it again, whichever slow invocation
      overwrites the checkpoint: ingest bills once at most for each delivery made before its first completion. */
  lemma {:induction false} IngestIsNotRepeated<S(!new)>(g: Graph<S>, initial: S, s: Overlap<S>, events: seq<Event>)
    requires |g.stop| == |g.nodes| && s.thread.At? && s.thread.next >= 1
    ensures PastFirst(Exec(g, initial, s, events), |s.invocations|)
  {
    if events != [] {
      IngestIsNotRepeated(g, initial, s, events[..|events| - 1]);
    }
  }
}
