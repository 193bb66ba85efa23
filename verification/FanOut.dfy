/** The bounded fan-out of the analyst nodes (triage, cluster, stance, quotes): one coroutine per post,
    at most CONCURRENCY of them inside the semaphore, and a shared cost-limit flag that is raised by the
    first cap breach.  Any schedule of the event loop is allowed. */
module FanOut {
  import opened Common

  const CONCURRENCY: nat := 5

  /** New: not started.  Queued: waiting for the semaphore.  Checking: inside it, awaiting the cap check.
      Calling: inside it, its LLM call dispatched. */
  datatype Task = New | Queued | Checking | Calling | Done

  datatype State = State(tasks: seq<Task>, permits: nat, hit: bool)

  /** A coroutine's next stretch between two awaits; Checked carries the cap check's answer. */
  datatype Event = Start(id: nat) | Acquire(id: nat) | Checked(id: nat, breach: bool) | Answered(id: nat)

  function Init(n: nat): State {
    State(seq(n, _ => New), CONCURRENCY, false)
  }

  function Step(s: State, e: Event): State {
    if e.id >= |s.tasks| then s
    else
      match (e, s.tasks[e.id])
      case (Start(id), New) => s.(tasks := s.tasks[id := if s.hit then Done else Queued])
      case (Acquire(id), Queued) =>
        if s.permits == 0 then s
        else if s.hit then s.(tasks := s.tasks[id := Done])
        else s.(tasks := s.tasks[id := Checking], permits := s.permits - 1)
      case (Checked(id, breach), Checking) =>
        if breach then State(s.tasks[id := Done], s.permits + 1, true)
        else s.(tasks := s.tasks[id := Calling])
      case (Answered(id), Calling) => s.(tasks := s.tasks[id := Done], permits := s.permits + 1)
      case _ => s
  }

  function Exec(s: State, events: seq<Event>): State {
    if events == [] then s else Step(Exec(s, events[..|events| - 1]), events[|events| - 1])
  }

  /** The step dispatches an LLM call. */
  predicate Dispatches(s: State, e: Event) {
    e.Checked? && !e.breach && e.id < |s.tasks| && s.tasks[e.id] == Checking
  }

  /** A cap check comes back with a breach. */
  predicate Breaches(s: State, e: Event) {
    e.Checked? && e.breach && e.id < |s.tasks| && s.tasks[e.id] == Checking
  }

  /** The breach is number i of the schedule of a node with n posts. */
  predicate BreachAt(n: nat, events: seq<Event>, i: nat) {
    i < |events| && Breaches(Exec(Init(n), events[..i]), events[i])
  }

  /** LLM calls dispatched along the schedule, and those of them for one post. */
  function Dispatched(s: State, events: seq<Event>): nat {
    if events == [] then 0
    else
      var init := events[..|events| - 1];
      Dispatched(s, init) + if Dispatches(Exec(s, init), events[|events| - 1]) then 1 else 0
  }

  function DispatchedFor(s: State, events: seq<Event>, id: nat): nat {
    if events == [] then 0
    else
      var init, e := events[..|events| - 1], events[|events| - 1];
      DispatchedFor(s, init, id) + if Dispatches(Exec(s, init), e) && e.id == id then 1 else 0
  }

  function Marks(tasks: seq<Task>, kind: Task): (marks: seq<nat>)
    ensures |marks| == |tasks|
  {
    seq(|tasks|, i requires 0 <= i < |tasks| => if tasks[i] == kind then 1 else 0)
  }

  /** How many tasks are of this kind. */
  function Count(tasks: seq<Task>, kind: Task): nat {
    Sum(Marks(tasks, kind))
  }

  lemma CountUpdate(tasks: seq<Task>, kind: Task, id: nat, t: Task)
    requires id < |tasks|
    ensures Count(tasks[id := t], kind)
         == Count(tasks, kind) - (if tasks[id] == kind then 1 else 0) + (if t == kind then 1 else 0)
  {
    assert Marks(tasks[id := t], kind) == Marks(tasks, kind)[id := if t == kind then 1 else 0];
    SumUpdate(Marks(tasks, kind), id, if t == kind then 1 else 0);
  }

  /** The semaphore counts. */
  ghost predicate Inv(s: State) {
    s.permits + Count(s.tasks, Checking) + Count(s.tasks, Calling) == CONCURRENCY
  }

  /** And once the flag is up no coroutine queues any more, and each dispatch uses up one of those still inside their
      cap check. */
  lemma StepKeepsInv(s: State, e: Event)
    requires Inv(s)
    ensures var s' := Step(s, e);
      && Inv(s') && |s'.tasks| == |s.tasks| && (s'.hit <==> s.hit || Breaches(s, e))
      && (s.hit ==> Count(s'.tasks, Checking) + (if Dispatches(s, e) then 1 else 0) <= Count(s.tasks, Checking))
      && (s.hit ==> forall id | 0 <= id < |s.tasks| && s'.tasks[id] == Queued :: s.tasks[id] == Queued)
      && (Breaches(s, e) ==> Count(s'.tasks, Checking) < CONCURRENCY)
  {
    var s' := Step(s, e);
    if e.id < |s.tasks| {
      CountUpdate(s.tasks, Checking, e.id, s'.tasks[e.id]);
      CountUpdate(s.tasks, Calling, e.id, s'.tasks[e.id]);
      assert s'.tasks == s.tasks[e.id := s'.tasks[e.id]];
    }
  }

  lemma {:induction false} ExecKeepsInv(n: nat, events: seq<Event>)
    ensures Inv(Exec(Init(n), events)) && |Exec(Init(n), events).tasks| == n
  {
    if events == [] {
      SumBound(Marks(Init(n).tasks, Checking), 0);
      SumBound(Marks(Init(n).tasks, Calling), 0);
    } else {
      ExecKeepsInv(n, events[..|events| - 1]);
      StepKeepsInv(Exec(Init(n), events[..|events| - 1]), events[|events| - 1]);
    }
  }

  /** From a breach on the flag is up, and dispatches made and checks still open together do not grow. */
  lemma {:induction false} LateOnesAreInside(n: nat, events: seq<Event>, i: nat)
    requires BreachAt(n, events, i)
    ensures Exec(Init(n), events).hit
    ensures Dispatched(Init(n), events) + Count(Exec(Init(n), events).tasks, Checking)
            < Dispatched(Init(n), events[..i]) + CONCURRENCY
  {
    var m := |events| - 1;
    var init := events[..m];
    ExecKeepsInv(n, init);
    if i < m {
      BreachEarlier(n, events, i);
      LateOnesAreInside(n, init, i);
    }
    StepKeepsInv(Exec(Init(n), init), events[m]);
  }

  lemma BreachEarlier(n: nat, events: seq<Event>, i: nat)
    requires i < |events| - 1
    ensures BreachAt(n, events[..|events| - 1], i) <==> BreachAt(n, events, i)
    ensures events[..|events| - 1][..i] == events[..i]
  {
    assert events[..|events| - 1][..i] == events[..i] && events[..|events| - 1][i] == events[i];
  }

  /** The flag is up if and only if some check has come back with a breach. */
  lemma {:induction false} FlagMeans(n: nat, events: seq<Event>)
    ensures Exec(Init(n), events).hit <==> exists i: nat :: BreachAt(n, events, i)
  {
    if events != [] {
      var m := |events| - 1;
      var before := Exec(Init(n), events[..m]);
      FlagMeans(n, events[..m]);
      ExecKeepsInv(n, events[..m]);
      StepKeepsInv(before, events[m]);
      if before.hit {
        var i: nat :| BreachAt(n, events[..m], i);
        BreachEarlier(n, events, i);
      } else if exists i: nat :: BreachAt(n, events, i) {
        var i: nat :| BreachAt(n, events, i);
        if i < m { BreachEarlier(n, events, i); }
      }
      assert Breaches(before, events[m]) ==> BreachAt(n, events, m);
    }
  }

  /** Under any schedule a node has at most five calls in flight, and after a cap breach it dispatches at most four
      more. */
  lemma LateDispatchesAreFew(n: nat, events: seq<Event>, i: nat)
    requires BreachAt(n, events, i)
    ensures Dispatched(Init(n), events) <= Dispatched(Init(n), events[..i]) + 4
    ensures Count(Exec(Init(n), events).tasks, Calling) <= 5
  {
    LateOnesAreInside(n, events, i);
    ExecKeepsInv(n, events);
  }

  /** Without a breach, each post has been dispatched once as soon as its coroutine is past its check, and not
      before; so a schedule that ends with all coroutines done dispatches each post exactly once. */
  lemma {:induction false} EachPostOnce(n: nat, events: seq<Event>, id: nat)
    requires id < n && forall i: nat :: !BreachAt(n, events, i)
    ensures id < |Exec(Init(n), events).tasks|
    ensures DispatchedFor(Init(n), events, id) == if Exec(Init(n), events).tasks[id] in {Calling, Done} then 1 else 0
    ensures Exec(Init(n), events).tasks[id] == Done ==> DispatchedFor(Init(n), events, id) == 1
  {
    ExecKeepsInv(n, events);
    if events != [] {
      var m := |events| - 1;
      forall i: nat ensures !BreachAt(n, events[..m], i) {
        if i < m { BreachEarlier(n, events, i); }
      }
      FlagMeans(n, events[..m]);
      EachPostOnce(n, events[..m], id);
      ExecKeepsInv(n, events[..m]);
      assert !BreachAt(n, events, m);
    }
  }

  /** Steps a coroutine still has to take. */
  function Left(t: Task): nat {
    match t
    case New => 4
    case Queued => 3
    case Checking => 2
    case Calling => 1
    case Done => 0
  }

  function AllLeft(tasks: seq<Task>): (left: seq<nat>)
    ensures |left| == |tasks|
  {
    seq(|tasks|, i requires 0 <= i < |tasks| => Left(tasks[i]))
  }

  /** The fan-out never gets stuck: while some coroutine is not done, some coroutine can go on. */
  lemma SomeoneCanGoOn(n: nat, events: seq<Event>, id: nat) returns (e: Event)
    requires id < |Exec(Init(n), events).tasks| && Exec(Init(n), events).tasks[id] != Done
    ensures var s := Exec(Init(n), events);
      Sum(AllLeft(Step(s, e).tasks)) < Sum(AllLeft(s.tasks)) && (e.Checked? ==> !e.breach)
  {
    ExecKeepsInv(n, events);
    var s := Exec(Init(n), events);
    var k := id;
    if s.tasks[id] == Queued && s.permits == 0 {
      k := SomeoneIsInside(s);
    }
    e := match s.tasks[k] case New => Start(k) case Queued => Acquire(k) case Checking => Checked(k, false) case _ => Answered(k);
    var s' := Step(s, e);
    assert AllLeft(s'.tasks) == AllLeft(s.tasks)[k := Left(s'.tasks[k])];
    SumUpdate(AllLeft(s.tasks), k, Left(s'.tasks[k]));
  }

  lemma SomeoneIsInside(s: State) returns (k: nat)
    requires Inv(s) && s.permits == 0
    ensures k < |s.tasks| && s.tasks[k] in {Checking, Calling}
  {
    if forall i | 0 <= i < |s.tasks| :: s.tasks[i] !in {Checking, Calling} {
      SumBound(Marks(s.tasks, Checking), 0);
      SumBound(Marks(s.tasks, Calling), 0);
    }
    k :| k < |s.tasks| && s.tasks[k] in {Checking, Calling};
  }

  /** Without a breach, a call has been dispatched for each coroutine past its check. */
  lemma {:induction false} CallsArePastChecks(n: nat, events: seq<Event>)
    requires forall i: nat :: !BreachAt(n, events, i)
    ensures var tasks := Exec(Init(n), events).tasks;
      Dispatched(Init(n), events) == Count(tasks, Calling) + Count(tasks, Done)
  {
    if events == [] {
      SumBound(Marks(Init(n).tasks, Calling), 0);
      SumBound(Marks(Init(n).tasks, Done), 0);
    } else {
      var m := |events| - 1;
      var before, e := Exec(Init(n), events[..m]), events[m];
      forall i: nat ensures !BreachAt(n, events[..m], i) {
        if i < m { BreachEarlier(n, events, i); }
      }
      FlagMeans(n, events[..m]);
      CallsArePastChecks(n, events[..m]);
      assert !BreachAt(n, events, m);
      if e.id < |before.tasks| {
        CountUpdate(before.tasks, Calling, e.id, Step(before, e).tasks[e.id]);
        CountUpdate(before.tasks, Done, e.id, Step(before, e).tasks[e.id]);
        assert Step(before, e).tasks == before.tasks[e.id := Step(before, e).tasks[e.id]];
      }
    }
  }

  /** And so the node finishes, whatever schedule it is in the middle of, with one call for each post. */
  lemma {:induction false} NodeFinishes(n: nat, events: seq<Event>) returns (longer: seq<Event>)
    requires forall i: nat :: !BreachAt(n, events, i)
    ensures forall i: nat :: !BreachAt(n, longer, i)
    ensures var tasks := Exec(Init(n), longer).tasks; |tasks| == n && forall id | 0 <= id < n :: tasks[id] == Done
    ensures events <= longer && Dispatched(Init(n), longer) == n
    decreases Sum(AllLeft(Exec(Init(n), events).tasks))
  {
    var tasks := Exec(Init(n), events).tasks;
    ExecKeepsInv(n, events);
    if id :| 0 <= id < n && tasks[id] != Done {
      var e := SomeoneCanGoOn(n, events, id);
      var more := events + [e];
      assert more[..|events|] == events;
      forall i: nat ensures !BreachAt(n, more, i) {
        if i < |events| { BreachEarlier(n, more, i); }
      }
      longer := NodeFinishes(n, more);
    } else {
      longer := events;
      CallsArePastChecks(n, events);
      AllOfAKind(tasks, Done);
      SumBound(Marks(tasks, Calling), 0);
    }
  }

  lemma {:induction false} AllOfAKind(tasks: seq<Task>, kind: Task)
    requires forall i | 0 <= i < |tasks| :: tasks[i] == kind
    ensures Count(tasks, kind) == |tasks|
  {
    if tasks != [] {
      AllOfAKind(tasks[..|tasks| - 1], kind);
      assert Marks(tasks, kind)[..|tasks| - 1] == Marks(tasks[..|tasks| - 1], kind);
    }
  }

  /* ---- the whole run ---- */

  /** One fan-out node: how many posts it fans out over, and the schedule the event loop chose. */
  datatype Node = Node(posts: nat, schedule: seq<Event>)

  /** `breached`: a node hit the cap, so the state is terminal and later nodes return at once. */
  datatype Run = Run(breached: bool, dispatched: nat, brief: bool)

  function FanOutNode(run: Run, node: Node): Run {
    if run.breached then run
    else
      var s0 := Init(node.posts);
      Run(Exec(s0, node.schedule).hit, run.dispatched + Dispatched(s0, node.schedule), run.brief)
  }

  function FanOutNodes(nodes: seq<Node>): Run {
    if nodes == [] then Run(false, 0, false)
    else FanOutNode(FanOutNodes(nodes[..|nodes| - 1]), nodes[|nodes| - 1])
  }

  /** `render_brief_node`: its own cap check and its LLM call stand before the brief is written. */
  function RenderBrief(run: Run, breach: bool, answered: bool): Run {
    if run.breached then run
    else if breach then run.(breached := true)
    else run.(dispatched := run.dispatched + 1, brief := answered)
  }

  /** Some cap check along the node's schedule comes back with a breach. */
  ghost predicate HasBreach(node: Node) {
    exists i: nat :: BreachAt(node.posts, node.schedule, i)
  }

  ghost predicate NoneBreaches(nodes: seq<Node>) {
    forall i | 0 <= i < |nodes| :: !HasBreach(nodes[i])
  }

  /** The calls the nodes would dispatch if each ran. */
  function Calls(nodes: seq<Node>): nat {
    if nodes == [] then 0
    else Calls(nodes[..|nodes| - 1]) + Dispatched(Init(nodes[|nodes| - 1].posts), nodes[|nodes| - 1].schedule)
  }

  lemma NodeAdds(run: Run, node: Node)
    ensures run.breached ==> FanOutNode(run, node) == run
    ensures !run.breached ==> FanOutNode(run, node) == Run(HasBreach(node), run.dispatched + Dispatched(Init(node.posts), node.schedule), run.brief)
  {
    FlagMeans(node.posts, node.schedule);
  }

  lemma {:induction false} NodesBreachIffOneDoes(nodes: seq<Node>)
    ensures FanOutNodes(nodes).breached <==> !NoneBreaches(nodes)
    ensures NoneBreaches(nodes) ==> FanOutNodes(nodes).dispatched == Calls(nodes)
    ensures !FanOutNodes(nodes).brief
  {
    if nodes != [] {
      var n := |nodes| - 1;
      NodesBreachIffOneDoes(nodes[..n]);
      NodeAdds(FanOutNodes(nodes[..n]), nodes[n]);
      assert forall i | 0 <= i < n :: nodes[..n][i] == nodes[i];
    }
  }

  /** The run writes an IntelBrief exactly when no cap check of any node came back with a breach, the render check
      did not either, and the brief's LLM call was answered; and then every node has run. */
  lemma CappedRunStopsAndWritesNoBrief(nodes: seq<Node>, breach: bool, answered: bool)
    ensures var run := RenderBrief(FanOutNodes(nodes), breach, answered);
      && (run.brief <==> NoneBreaches(nodes) && !breach && answered)
      && (run.breached <==> !NoneBreaches(nodes) || breach)
      && (!run.breached ==> run.dispatched == Calls(nodes) + 1)
  {
    NodesBreachIffOneDoes(nodes);
  }

  lemma {:induction false} BreachedAddsNothing(nodes: seq<Node>, more: seq<Node>, breach: bool, answered: bool)
    requires FanOutNodes(nodes).breached
    ensures RenderBrief(FanOutNodes(nodes + more), breach, answered) == FanOutNodes(nodes) == FanOutNodes(nodes + more)
  {
    if more == [] {
      assert nodes + more == nodes;
    } else {
      var n := |more| - 1;
      assert (nodes + more)[..|nodes| + n] == nodes + more[..n];
      BreachedAddsNothing(nodes, more[..n], breach, answered);
    }
  }

  lemma FirstBreachEndsIt(before: seq<Node>, node: Node)
    requires HasBreach(node) && NoneBreaches(before)
    ensures FanOutNodes(before + [node]) == Run(true, Calls(before) + Dispatched(Init(node.posts), node.schedule), false)
  {
    NodesBreachIffOneDoes(before);
    NodeAdds(FanOutNodes(before), node);
    assert (before + [node])[..|before|] == before;
  }

  /** After the first breach of an analyst run, number i in the schedule of this node, at most four LLM calls are
      dispatched in all the rest of the run; none of them by a later node. */
  lemma LaterNodesAddNothing(before: seq<Node>, node: Node, i: nat, more: seq<Node>, breach: bool, answered: bool)
    requires BreachAt(node.posts, node.schedule, i) && NoneBreaches(before)
    ensures var run := RenderBrief(FanOutNodes(before + [node] + more), breach, answered);
      && run.dispatched == Calls(before) + Dispatched(Init(node.posts), node.schedule)
      && run.dispatched <= Calls(before) + Dispatched(Init(node.posts), node.schedule[..i]) + 4
      && run.breached && !run.brief
  {
    LateDispatchesAreFew(node.posts, node.schedule, i);
    FirstBreachEndsIt(before, node);
    BreachedAddsNothing(before + [node], more, breach, answered);
  }
}
