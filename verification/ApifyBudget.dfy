/** The Apify month budget of `ingestion/service.py`: `check_budget` before the actor run, `record_spend_usd`
    only after it succeeded.  Amounts are in units of 1e-4 USD; the month is fixed. */
module ApifyBudget {
  import opened Common

  const DEFAULT_MONTHLY_BUDGET := 500_000

  function MonthlyBudget(setting: Option<int>): int {
    if setting.Some? then setting.value else DEFAULT_MONTHLY_BUDGET
  }

  /** A campaign's ingest: outside, or running the actor after passing the check with this estimate. */
  datatype Ingest = Outside | Running(estimate: nat)

  /** `billed` are the estimates of the runs that succeeded. */
  datatype State = State(spent: int, ingests: seq<Ingest>, billed: seq<nat>)

  datatype Event = Check(id: nat, estimate: nat) | Succeed(id: nat) | Fail(id: nat)

  function Init(k: nat): State {
    State(0, seq(k, _ => Outside), [])
  }

  function Step(budget: int, s: State, e: Event): State {
    if e.id >= |s.ingests| then s
    else
      match (e, s.ingests[e.id])
      case (Check(id, estimate), Outside) =>
        if s.spent + estimate > budget then s else s.(ingests := s.ingests[id := Running(estimate)])
      case (Succeed(id), Running(estimate)) =>
        State(s.spent + estimate, s.ingests[id := Outside], s.billed + [estimate])
      case (Fail(id), Running(_)) => s.(ingests := s.ingests[id := Outside])
      case _ => s
  }

  function Exec(budget: int, s: State, events: seq<Event>): State {
    if events == [] then s else Step(budget, Exec(budget, s, events[..|events| - 1]), events[|events| - 1])
  }

  function Pending(i: Ingest): nat {
    if i.Running? then i.estimate else 0
  }

  function Amounts(ingests: seq<Ingest>): (xs: seq<nat>)
    ensures |xs| == |ingests|
  {
    seq(|ingests|, i requires 0 <= i < |ingests| => Pending(ingests[i]))
  }

  function InFlight(ingests: seq<Ingest>): nat {
    Sum(Amounts(ingests))
  }

  lemma InFlightUpdate(ingests: seq<Ingest>, id: nat, i: Ingest)
    requires id < |ingests|
    ensures InFlight(ingests[id := i]) == InFlight(ingests) - Pending(ingests[id]) + Pending(i)
  {
    assert Amounts(ingests[id := i]) == Amounts(ingests)[id := Pending(i)];
    SumUpdate(Amounts(ingests), id, Pending(i));
  }

  ghost predicate Inv(budget: int, m: nat, s: State) {
    && s.spent == Sum(s.billed)
    && (forall i | 0 <= i < |s.ingests| :: Pending(s.ingests[i]) <= m)
    && s.spent + InFlight(s.ingests) <= Max(0, budget + (|s.ingests| - 1) * m)
  }

  lemma StepKeepsInv(budget: int, m: nat, s: State, e: Event)
    requires Inv(budget, m, s) && (e.Check? ==> e.estimate <= m)
    ensures Inv(budget, m, Step(budget, s, e)) && |Step(budget, s, e).ingests| == |s.ingests|
  {
    var s' := Step(budget, s, e);
    if e.id < |s.ingests| {
      InFlightUpdate(s.ingests, e.id, s'.ingests[e.id]);
      assert s'.ingests == s.ingests[e.id := s'.ingests[e.id]];
      SumOthers(Amounts(s'.ingests), e.id, m);
      if e.Succeed? && s.ingests[e.id].Running? {
        assert s'.billed[..|s.billed|] == s.billed;
      }
    }
  }

  /** With at most k ingests between check and record, and no estimate above m, billed spend plus the runs
      in flight never exceeds the budget by more than (k-1)·m, and the counter is exactly the billed spend:
      a failed run leaves nothing on it. */
  lemma {:induction false} BudgetOvershootIsBounded(budget: int, m: nat, k: nat, events: seq<Event>)
    requires k > 0 && forall e | e in events :: e.Check? ==> e.estimate <= m
    ensures var s := Exec(budget, Init(k), events);
      && |s.ingests| == k && s.spent == Sum(s.billed)
      && Sum(s.billed) + InFlight(s.ingests) <= Max(0, budget + (k - 1) * m)
      && Inv(budget, m, s)
  {
    if events == [] {
      SumBound(Amounts(Init(k).ingests), 0);
    } else {
      BudgetOvershootIsBounded(budget, m, k, events[..|events| - 1]);
      StepKeepsInv(budget, m, Exec(budget, Init(k), events[..|events| - 1]), events[|events| - 1]);
    }
  }

  lemma OneIngestAtATimeStaysWithin(budget: int, m: nat, events: seq<Event>)
    requires forall e | e in events :: e.Check? ==> e.estimate <= m
    ensures var s := Exec(budget, Init(1), events);
      Sum(s.billed) + InFlight(s.ingests) <= Max(0, budget)
  {
    BudgetOvershootIsBounded(budget, m, 1, events);
  }

  /** An ingest that nobody interrupts is let in exactly if it fits, and bills exactly if it succeeds. */
  lemma UninterruptedIngest(budget: int, s: State, id: nat, estimate: nat)
    requires id < |s.ingests| && s.ingests[id].Outside?
    ensures var fits, checked := s.spent + estimate <= budget, Step(budget, s, Check(id, estimate));
      && checked.spent == s.spent && checked.billed == s.billed
      && (checked.ingests[id] == if fits then Running(estimate) else Outside)
      && Step(budget, checked, Succeed(id)) == (if fits then State(s.spent + estimate, s.ingests, s.billed + [estimate]) else s)
      && Step(budget, checked, Fail(id)) == s
  {
    assert s.ingests[id := Outside] == s.ingests;
  }

  /** The first n of k ingests are running with so much in flight, and the counter stands at 0. */
  ghost predicate LetIn(s: State, k: nat, n: nat, total: nat) {
    && s.spent == 0 && s.billed == [] && |s.ingests| == k && InFlight(s.ingests) == total
    && forall i | n <= i < k :: s.ingests[i].Outside?
  }

  lemma OneMoreLetIn(s: State, k: nat, m: nat, n: nat, total: nat)
    requires n < k && LetIn(s, k, n, total)
    ensures LetIn(Step(m, s, Check(n, m)), k, n + 1, total + m)
  {
    InFlightUpdate(s.ingests, n, Running(m));
  }

  lemma {:induction false} AllCheckFirst(m: nat, k: nat, n: nat) returns (events: seq<Event>)
    requires n <= k
    ensures forall e | e in events :: e.Check? && e.estimate == m
    ensures LetIn(Exec(m, Init(k), events), k, n, n * m)
  {
    if n == 0 {
      events := [];
      SumBound(Amounts(Init(k).ingests), 0);
    } else {
      var before := AllCheckFirst(m, k, n - 1);
      events := before + [Check(n - 1, m)];
      assert events[..|events| - 1] == before;
      OneMoreLetIn(Exec(m, Init(k), before), k, m, n - 1, (n - 1) * m);
      OneMoreTimes(n - 1, m);
    }
  }

  /** The bound is tight: with a budget of m, some run of k ingests has k times as much in flight. */
  lemma BudgetOvershootIsReached(m: nat, k: nat) returns (events: seq<Event>)
    requires k > 0
    ensures forall e | e in events :: e.Check? ==> e.estimate <= m
    ensures var s := Exec(m, Init(k), events);
      Sum(s.billed) + InFlight(s.ingests) == m + (k - 1) * m
  {
    events := AllCheckFirst(m, k, k);
    OneMoreTimes(k - 1, m);
  }

  /* ---- the code ---- */

  datatype Ingested<T> = BudgetExceeded(spent: int) | NoUsableToken | RunFailed | Posts(posts: seq<T>)

  class SpendCounter {
    var spent: int

    method CheckBudget(setting: Option<int>, estimate: nat) returns (ok: bool)
      ensures ok <==> spent + estimate <= if setting.Some? then setting.value else 500_000
    {
      return !(spent + estimate > MonthlyBudget(setting));
    }

    method RecordSpend(amount: nat) returns (total: int)
      modifies this
      ensures spent == old(spent) + amount && total == spent
    {
      spent := spent + amount;
      return spent;
    }

    /** `token` and `run` are what the vault and the actor would answer; normalizing comes after billing. */
    method IngestCampaign<T>(setting: Option<int>, estimate: nat, token: bool, run: Option<seq<T>>)
      returns (r: Ingested<T>)
      modifies this
      ensures r.BudgetExceeded? <==> old(spent) + estimate > if setting.Some? then setting.value else 500_000
      ensures r.BudgetExceeded? ==> r.spent == old(spent)
      ensures r.NoUsableToken? <==> !r.BudgetExceeded? && !token
      ensures r.RunFailed? <==> !r.BudgetExceeded? && token && run.None?
      ensures r.Posts? ==> r.posts == run.value
      ensures spent == old(spent) + if r.Posts? then estimate else 0
    {
      var ok := CheckBudget(setting, estimate);
      if !ok {
        return BudgetExceeded(spent);
      }
      if !token {
        return NoUsableToken;
      }
      if run.None? {
        return RunFailed;
      }
      var _ := RecordSpend(estimate);
      return Posts(run.value);
    }
  }
}
