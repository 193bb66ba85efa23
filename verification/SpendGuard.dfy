/** The LLM spend guard of `cost_guard.py`: read the counters, compare, then record, in separate Redis
    commands.  It is deliberately not atomic; this module says by how much concurrent callers can pass it.
    Money is in units of 1e-4 USD; day and month are fixed. */
module SpendGuard {
  import opened Common

  datatype Resource = Tokens | Cost

  /** An estimate handed to the guard. */
  datatype Call = Call(tokens: nat, cost: nat)

  /** `OrgLLMConfig`: an absent or zero limit means no limit. */
  datatype Limits = Limits(tokens: Option<int>, cost: Option<int>)

  function Est(r: Resource, c: Call): nat {
    if r == Tokens then c.tokens else c.cost
  }

  function Limit(r: Resource, limits: Limits): Option<int> {
    var limit := if r == Tokens then limits.tokens else limits.cost;
    if limit == Some(0) then None else limit
  }

  predicate Breach(limits: Limits, r: Resource, used: int, c: Call) {
    Limit(r, limits).Some? && used + Est(r, c) > Limit(r, limits).value
  }

  /** A caller inside `check_and_record_llm_usage`: after one read, after both, or outside. */
  datatype Caller =
    | Idle
    | ReadDaily(call: Call, daily: bool)
    | ReadBoth(call: Call, daily: bool, monthly: bool)

  /** `passed`, `breached` and `metered` log the recorded calls by outcome. */
  datatype State = State(
    used: map<Resource, int>,
    callers: seq<Caller>,
    passed: seq<Call>, breached: seq<Call>, metered: seq<Call>)

  /** Begin: a caller reads the daily counter.  Next: its next command.  Meter: `record_llm_usage`. */
  datatype Event = Begin(id: nat, call: Call) | Next(id: nat) | Meter(call: Call)

  function Used(s: State, r: Resource): int {
    if r in s.used then s.used[r] else 0
  }

  function Init(k: nat): State {
    State(map[], seq(k, _ => Idle), [], [], [])
  }

  function Record(s: State, c: Call): State {
    s.(used := map[Tokens := Used(s, Tokens) + c.tokens, Cost := Used(s, Cost) + c.cost])
  }

  function Step(limits: Limits, s: State, e: Event): State {
    match e
    case Begin(id, call) =>
      if id < |s.callers| && s.callers[id].Idle? then
        s.(callers := s.callers[id := ReadDaily(call, Breach(limits, Tokens, Used(s, Tokens), call))])
      else s
    case Next(id) =>
      if id >= |s.callers| then s
      else (
        match s.callers[id]
        case Idle => s
        case ReadDaily(call, daily) =>
          s.(callers := s.callers[id := ReadBoth(call, daily, Breach(limits, Cost, Used(s, Cost), call))])
        case ReadBoth(call, daily, monthly) =>
          var recorded := Record(s, call).(callers := s.callers[id := Idle]);
          if daily || monthly then recorded.(breached := s.breached + [call])
          else recorded.(passed := s.passed + [call]))
    case Meter(call) => Record(s, call).(metered := s.metered + [call])
  }

  function Exec(limits: Limits, s: State, events: seq<Event>): State {
    if events == [] then s else Step(limits, Exec(limits, s, events[..|events| - 1]), events[|events| - 1])
  }

  /* ---- the bound ---- */

  function Spent(r: Resource, calls: seq<Call>): nat {
    if calls == [] then 0 else Spent(r, calls[..|calls| - 1]) + Est(r, calls[|calls| - 1])
  }

  /** What a caller that has passed every check it made so far, the one on r among them, will spend. */
  function Pending(r: Resource, c: Caller): nat {
    match c
    case Idle => 0
    case ReadDaily(call, daily) => if r == Tokens && !daily then Est(r, call) else 0
    case ReadBoth(call, daily, monthly) => if !daily && !monthly then Est(r, call) else 0
  }

  function Amounts(r: Resource, callers: seq<Caller>): (xs: seq<nat>)
    ensures |xs| == |callers|
  {
    seq(|callers|, i requires 0 <= i < |callers| => Pending(r, callers[i]))
  }

  function InFlight(r: Resource, callers: seq<Caller>): nat {
    Sum(Amounts(r, callers))
  }

  predicate CallAtMost(r: Resource, e: Event, m: nat) {
    e.Begin? ==> Est(r, e.call) <= m
  }

  predicate CallersAtMost(r: Resource, callers: seq<Caller>, m: nat) {
    forall i | 0 <= i < |callers| :: !callers[i].Idle? ==> Est(r, callers[i].call) <= m
  }

  lemma InFlightUpdate(r: Resource, callers: seq<Caller>, id: nat, c: Caller)
    requires id < |callers|
    ensures InFlight(r, callers[id := c]) == InFlight(r, callers) - Pending(r, callers[id]) + Pending(r, c)
  {
    assert Amounts(r, callers[id := c]) == Amounts(r, callers)[id := Pending(r, c)];
    SumUpdate(Amounts(r, callers), id, Pending(r, c));
  }

  lemma RecordUsed(s: State, call: Call, r: Resource)
    ensures Used(Record(s, call), r) == Used(s, r) + Est(r, call)
  {
  }

  lemma SpentAppend(r: Resource, calls: seq<Call>, call: Call)
    ensures Spent(r, calls + [call]) == Spent(r, calls) + Est(r, call)
  {
    assert (calls + [call])[..|calls|] == calls;
  }

  /** Everyone but caller `id` has at most (k-1)·m in flight. */
  lemma InFlightOthers(r: Resource, callers: seq<Caller>, id: nat, m: nat, slack: int)
    requires id < |callers| && CallersAtMost(r, callers, m) && slack == (|callers| - 1) * m
    ensures InFlight(r, callers) <= Pending(r, callers[id]) + slack
  {
    SumOthers(Amounts(r, callers), id, m);
  }

  /** `slack` is (k-1)·m. */
  ghost predicate Inv(limits: Limits, r: Resource, m: nat, slack: int, s: State) {
    && Used(s, r) == Spent(r, s.passed) + Spent(r, s.breached) + Spent(r, s.metered)
    && CallersAtMost(r, s.callers, m)
    && (Limit(r, limits).Some? ==>
          Spent(r, s.passed) + InFlight(r, s.callers) <= Max(0, Limit(r, limits).value + slack))
  }

  lemma ReadKeepsInv(limits: Limits, r: Resource, m: nat, slack: int, s: State, e: Event)
    requires Inv(limits, r, m, slack, s) && CallAtMost(r, e, m) && slack == (|s.callers| - 1) * m
    requires !e.Meter? && e.id < |s.callers| && !s.callers[e.id].ReadBoth?
    ensures Inv(limits, r, m, slack, Step(limits, s, e))
  {
    var s' := Step(limits, s, e);
    assert s'.callers == s.callers[e.id := s'.callers[e.id]];
    InFlightUpdate(r, s.callers, e.id, s'.callers[e.id]);
    InFlightOthers(r, s'.callers, e.id, m, slack);
  }

  lemma RecordKeepsInv(limits: Limits, r: Resource, m: nat, slack: int, s: State, id: nat)
    requires Inv(limits, r, m, slack, s) && id < |s.callers| && s.callers[id].ReadBoth?
    ensures Inv(limits, r, m, slack, Step(limits, s, Next(id)))
  {
    var caller := s.callers[id];
    var s' := Step(limits, s, Next(id));
    RecordUsed(s, caller.call, r);
    InFlightUpdate(r, s.callers, id, Idle);
    assert s'.callers == s.callers[id := Idle] && Used(s', r) == Used(s, r) + Est(r, caller.call);
    assert CallersAtMost(r, s'.callers, m);
    if caller.daily || caller.monthly {
      SpentAppend(r, s.breached, caller.call);
      assert s'.passed == s.passed;
    } else {
      SpentAppend(r, s.passed, caller.call);
      assert s'.breached == s.breached;
    }
  }

  lemma StepKeepsInv(limits: Limits, r: Resource, m: nat, slack: int, s: State, e: Event)
    requires Inv(limits, r, m, slack, s) && CallAtMost(r, e, m) && slack == (|s.callers| - 1) * m
    ensures Inv(limits, r, m, slack, Step(limits, s, e)) && |Step(limits, s, e).callers| == |s.callers|
  {
    if e.Meter? {
      RecordUsed(s, e.call, r);
      SpentAppend(r, s.metered, e.call);
    } else if e.id < |s.callers| && !s.callers[e.id].ReadBoth? {
      ReadKeepsInv(limits, r, m, slack, s, e);
    } else if e.id < |s.callers| && e.Next? {
      RecordKeepsInv(limits, r, m, slack, s, e.id);
    }
  }

  lemma {:induction false} ExecKeepsInv(limits: Limits, r: Resource, m: nat, k: nat, events: seq<Event>)
    requires k > 0 && forall e | e in events :: CallAtMost(r, e, m)
    ensures var s := Exec(limits, Init(k), events); |s.callers| == k && Inv(limits, r, m, (k - 1) * m, s)
  {
    if events == [] {
      var s := Init(k);
      SumBound(Amounts(r, s.callers), 0);
    } else {
      var before := events[..|events| - 1];
      ExecKeepsInv(limits, r, m, k, before);
      StepKeepsInv(limits, r, m, (k - 1) * m, Exec(limits, Init(k), before), events[|events| - 1]);
    }
  }

  /** With k callers between check and record, and no estimate above m, what has passed and been recorded
      plus what has passed and is still to be recorded never exceeds the limit by more than (k-1)·m.  The
      counter is all recorded spend: passed, breaching and merely metered. */
  lemma OvershootIsBounded(limits: Limits, r: Resource, limit: int, m: nat, k: nat, events: seq<Event>)
    requires k > 0 && forall e | e in events :: CallAtMost(r, e, m)
    requires (if r == Tokens then limits.tokens else limits.cost) == Some(limit) && limit != 0
    ensures var s := Exec(limits, Init(k), events);
      && Used(s, r) == Spent(r, s.passed) + Spent(r, s.breached) + Spent(r, s.metered)
      && Spent(r, s.passed) + InFlight(r, s.callers) <= Max(0, limit + (k - 1) * m)
  {
    ExecKeepsInv(limits, r, m, k, events);
  }

  /** One caller at a time never lets more than the limit through. */
  lemma SequentialCallersStayWithin(limits: Limits, r: Resource, limit: int, m: nat, events: seq<Event>)
    requires forall e | e in events :: CallAtMost(r, e, m)
    requires (if r == Tokens then limits.tokens else limits.cost) == Some(limit) && limit != 0
    ensures var s := Exec(limits, Init(1), events);
      Spent(r, s.passed) + InFlight(r, s.callers) <= Max(0, limit)
  {
    OvershootIsBounded(limits, r, limit, m, 1, events);
  }

  /** n of the k callers have read the counter, with `total` in flight between them; nobody has recorded. */
  ghost predicate Readers(s: State, k: nat, n: nat, total: nat) {
    && Used(s, Tokens) == 0 && s.passed == [] && |s.callers| == k
    && (forall i | n <= i < k :: s.callers[i].Idle?)
    && InFlight(Tokens, s.callers) == total
  }

  lemma OneMoreReader(s: State, k: nat, m: nat, n: nat, total: nat)
    requires n < k && m > 0 && Readers(s, k, n, total)
    ensures Readers(Step(Limits(Some(m), None), s, Begin(n, Call(m, 0))), k, n + 1, total + m)
  {
    InFlightUpdate(Tokens, s.callers, n, ReadDaily(Call(m, 0), false));
  }

  /** n of k callers read the counter before any of them records. */
  lemma {:induction false} AllReadFirst(k: nat, m: nat, n: nat) returns (events: seq<Event>)
    requires n <= k && m > 0
    ensures forall e | e in events :: CallAtMost(Tokens, e, m)
    ensures Readers(Exec(Limits(Some(m), None), Init(k), events), k, n, n * m)
  {
    if n == 0 {
      events := [];
      SumBound(Amounts(Tokens, Init(k).callers), 0);
    } else {
      var before := AllReadFirst(k, m, n - 1);
      events := before + [Begin(n - 1, Call(m, 0))];
      assert events[..|events| - 1] == before;
      OneMoreReader(Exec(Limits(Some(m), None), Init(k), before), k, m, n - 1, (n - 1) * m);
      OneMoreTimes(n - 1, m);
    }
  }

  /** The bound is tight: for every k and m some run of k callers is let through by exactly that much. */
  lemma OvershootIsReached(k: nat, m: nat) returns (limits: Limits, events: seq<Event>)
    requires k > 0 && m > 0
    ensures forall e | e in events :: CallAtMost(Tokens, e, m)
    ensures limits.tokens.Some? && limits.tokens.value != 0
    ensures var s := Exec(limits, Init(k), events);
      Spent(Tokens, s.passed) + InFlight(Tokens, s.callers) == limits.tokens.value + (k - 1) * m
  {
    limits := Limits(Some(m), None);
    events := AllReadFirst(k, m, k);
    OneMoreTimes(k - 1, m);
  }

  /* ---- the code, one caller at a time ---- */

  datatype Outcome = Pass | DailyLimit | MonthlyLimit

  class LlmMeter {
    var daily: int
    var monthly: int

    /** Two reads, then one pipelined write; the breach is raised only after the write. */
    method CheckAndRecord(config: Option<Limits>, call: Call) returns (outcome: Outcome)
      modifies this
      ensures config.None? ==> outcome == Pass && daily == old(daily) && monthly == old(monthly)
      ensures config.Some? ==> daily == old(daily) + call.tokens && monthly == old(monthly) + call.cost
      ensures outcome == DailyLimit <==>
        config.Some? && config.value.tokens.Some? && config.value.tokens.value != 0
        && old(daily) + call.tokens > config.value.tokens.value
      ensures outcome == MonthlyLimit <==>
        outcome != DailyLimit && config.Some? && config.value.cost.Some? && config.value.cost.value != 0
        && old(monthly) + call.cost > config.value.cost.value
    {
      if config.None? {
        return Pass;
      }
      var dailyBreach := Breach(config.value, Tokens, daily, call);
      var monthlyBreach := Breach(config.value, Cost, monthly, call);
      daily, monthly := daily + call.tokens, monthly + call.cost;
      if dailyBreach {
        return DailyLimit;
      }
      if monthlyBreach {
        return MonthlyLimit;
      }
      return Pass;
    }
  }

  /** Without a Redis client nothing is metered. */
  method RecordLlmUsage(meter: LlmMeter?, prompt: int, completion: int, cost: int) returns (recorded: int)
    modifies meter
    ensures recorded == if meter == null || prompt + completion <= 0 then 0 else cost
    ensures meter != null ==>
      meter.daily == old(meter.daily) + Max(0, prompt + completion) && meter.monthly == old(meter.monthly) + recorded
  {
    if meter == null {
      return 0;
    }
    var total := prompt + completion;
    if total <= 0 {
      return 0;
    }
    meter.daily, meter.monthly := meter.daily + total, meter.monthly + cost;
    return cost;
  }

  /** A caller nobody interrupts does on the machine what `CheckAndRecord` does. */
  lemma UninterruptedCallIsTheMethod(limits: Limits, s: State, id: nat, call: Call)
    requires id < |s.callers| && s.callers[id].Idle?
    ensures var s' := Exec(limits, s, [Begin(id, call), Next(id), Next(id)]);
      && Used(s', Tokens) == Used(s, Tokens) + call.tokens && Used(s', Cost) == Used(s, Cost) + call.cost
      && s'.callers == s.callers
      && var pass :=
           && (limits.tokens.None? || limits.tokens.value == 0 || Used(s, Tokens) + call.tokens <= limits.tokens.value)
           && (limits.cost.None? || limits.cost.value == 0 || Used(s, Cost) + call.cost <= limits.cost.value);
         && s'.passed == (if pass then s.passed + [call] else s.passed)
         && s'.breached == (if pass then s.breached else s.breached + [call])
  {
    var events := [Begin(id, call), Next(id), Next(id)];
    assert events[..2] == [Begin(id, call), Next(id)] && events[..2][..1] == [Begin(id, call)];
    assert Exec(limits, s, events[..2][..1]) == Step(limits, s, Begin(id, call)) by {
      assert events[..2][..1][..0] == [];
    }
  }
}
