/** What the daily-cap protocol guarantees over every run of the machine in `DailyCap`. */
module DailyCapSafety {
  import opened DailyCap

  ghost predicate AllCommitted(ws: seq<Worker>) {
    forall i | 0 <= i < |ws| :: ws[i].status == Committed
  }

  lemma {:induction false} TotalsWhenAllCommitted(part: Part, ws: seq<Worker>, k: Key)
    requires forall i | 0 <= i < |ws| :: WellFormed(ws[i])
    requires AllCommitted(ws)
    ensures Total(part, ws, k) == if part == Held then CommittedCharges(ws, k) else 0
  {
    if ws != [] {
      var w := ws[|ws| - 1];
      TotalsWhenAllCommitted(part, ws[..|ws| - 1], k);
      assert w.job.keys[..0] == [];
    }
  }

  /** Slots that committed draft rows are charged on counter k. */
  function CommittedCharges(ws: seq<Worker>, k: Key): nat {
    if ws == [] then 0
    else
      var w := ws[|ws| - 1];
      CommittedCharges(ws[..|ws| - 1], k) + if w.status == Committed then RowCharges(w.rows, w.job.keys, k) else 0
  }

  lemma {:induction false} CommittedChargesAreHeld(ws: seq<Worker>, k: Key)
    requires forall i | 0 <= i < |ws| :: WellFormed(ws[i])
    ensures CommittedCharges(ws, k) <= Total(Held, ws, k)
  {
    if ws != [] {
      CommittedChargesAreHeld(ws[..|ws| - 1], k);
    }
  }

  /** Safety: after any deliveries, any interleaving of their Redis commands and any crashes, each counter
      is the standing claims plus the overshoots still to be undone, the standing claims (leaked ones
      included) are within the cap, and so are the draft rows committed that day. */
  lemma CapIsNeverExceeded(cap: Key -> int, earlier: set<(int, PostId)>, events: seq<Event>, k: Key)
    ensures var s := Exec(cap, Init(earlier), events);
      && Get(s.counters, k) == Total(Held, s.workers, k) + Total(Over, s.workers, k)
      && Get(s.counters, k) >= 0
      && CommittedCharges(s.workers, k) <= Total(Held, s.workers, k)
      && Total(Held, s.workers, k) <= if cap(k) < 0 then 0 else cap(k)
  {
    ExecKeepsInv(cap, Init(earlier), events);
    CommittedChargesAreHeld(Exec(cap, Init(earlier), events).workers, k);
  }

  /** Conservation: once every delivery has committed and none crashed, each counter is exactly the number
      of slots that committed rows are charged on it. */
  lemma QuiescentCountersAreRows(cap: Key -> int, earlier: set<(int, PostId)>, events: seq<Event>, k: Key)
    requires AllCommitted(Exec(cap, Init(earlier), events).workers)
    ensures var s := Exec(cap, Init(earlier), events);
      Get(s.counters, k) == CommittedCharges(s.workers, k)
  {
    var s := Exec(cap, Init(earlier), events);
    ExecKeepsInv(cap, Init(earlier), events);
    TotalsWhenAllCommitted(Held, s.workers, k);
    TotalsWhenAllCommitted(Over, s.workers, k);
  }

  /* ---- one row per (campaign, post) ---- */

  /** Rows for (campaign, post) in the table, those of open transactions included. */
  function RowsFor(ws: seq<Worker>, campaign: int, post: PostId): nat {
    if ws == [] then 0
    else
      var w := ws[|ws| - 1];
      RowsFor(ws[..|ws| - 1], campaign, post) +
      if w.status != Crashed && w.job.campaign == campaign then multiset(w.rows)[post] else 0
  }

  lemma {:induction false} NoRepeatsCount(rows: seq<PostId>, post: PostId)
    requires NoRepeats(rows)
    ensures multiset(rows)[post] <= 1
  {
    if rows != [] {
      var n := |rows| - 1;
      assert rows == rows[..n] + [rows[n]];
      NoRepeatsCount(rows[..n], post);
      if rows[n] == post {
        assert post !in rows[..n];
      }
    }
  }

  lemma {:induction false} RowsForAtMostOne(s: State, campaign: int, post: PostId)
    requires RowsUnique(s)
    ensures RowsFor(s.workers, campaign, post) <= 1
    ensures RowsFor(s.workers, campaign, post) > 0 ==>
              (campaign, post) !in s.earlier
              && exists i | 0 <= i < |s.workers| ::
                   s.workers[i].status != Crashed && s.workers[i].job.campaign == campaign && post in s.workers[i].rows
    decreases |s.workers|
  {
    if s.workers != [] {
      var n := |s.workers| - 1;
      var w := s.workers[n];
      var init := s.(workers := s.workers[..n]);
      assert RowsUnique(init);
      RowsForAtMostOne(init, campaign, post);
      if w.status != Crashed && w.job.campaign == campaign && post in w.rows {
        NoRepeatsCount(w.rows, post);
        assert s.workers[n] == w;
      } else if RowsFor(init.workers, campaign, post) > 0 {
        var i :| 0 <= i < n && init.workers[i].status != Crashed && init.workers[i].job.campaign == campaign
                 && post in init.workers[i].rows;
        assert s.workers[i] == init.workers[i];
      }
    }
  }

  /** Redeliveries and concurrent runs never leave a second row for a (campaign, post). */
  lemma OneRowPerCampaignAndPost(cap: Key -> int, earlier: set<(int, PostId)>, events: seq<Event>,
                                 campaign: int, post: PostId)
    ensures var s := Exec(cap, Init(earlier), events);
      RowsFor(s.workers, campaign, post) + (if (campaign, post) in earlier then 1 else 0) <= 1
    ensures var ws := Exec(cap, Init(earlier), events).workers;
      && (forall i, j | 0 <= i < j < |ws| && ws[i].status != Crashed && ws[j].status != Crashed
                        && ws[i].job.campaign == ws[j].job.campaign && post in ws[i].rows :: post !in ws[j].rows)
      && (forall i, a, b | 0 <= i < |ws| && ws[i].status != Crashed && 0 <= a < b < |ws[i].rows| :: ws[i].rows[a] != ws[i].rows[b])
      && forall i | 0 <= i < |ws| && ws[i].status != Crashed && post in ws[i].rows :: (ws[i].job.campaign, post) !in earlier
  {
    ExecKeepsInv(cap, Init(earlier), events);
    EarlierIsFixed(cap, Init(earlier), events);
    RowsForAtMostOne(Exec(cap, Init(earlier), events), campaign, post);
  }

  lemma {:induction false} EarlierIsFixed(cap: Key -> int, s: State, events: seq<Event>)
    requires AllWellFormed(s)
    ensures Exec(cap, s, events).earlier == s.earlier
    decreases |events|
  {
    if events != [] {
      EarlierIsFixed(cap, Step(cap, s, events[0]), events[1..]);
    }
  }

  /* ---- all or nothing ---- */

  /** What worker `id`'s own INCRs and DECRs along the run add up to on counter k. */
  function Net(cap: Key -> int, s: State, events: seq<Event>, id: nat, k: Key): int
    requires AllWellFormed(s)
    decreases |events|
  {
    if events == [] then 0
    else
      var s' := Step(cap, s, events[0]);
      (if events[0] == Run(id) then Get(s'.counters, k) - Get(s.counters, k) else 0)
      + Net(cap, s', events[1..], id, k)
  }

  lemma {:induction false} NetIsOnTheBooks(cap: Key -> int, s: State, events: seq<Event>, id: nat, k: Key)
    requires AllWellFormed(s) && id < |s.workers|
    ensures var s' := Exec(cap, s, events);
      && id < |s'.workers| && s'.workers[id].job == s.workers[id].job
      && Net(cap, s, events, id, k)
         == Amount(Held, s'.workers[id], k) + Amount(Over, s'.workers[id], k)
            - Amount(Held, s.workers[id], k) - Amount(Over, s.workers[id], k)
    decreases |events|
  {
    if events != [] {
      match events[0] {
        case Run(j) => if j < |s.workers| { RunWorkerBooks(cap, s, j, k); }
        case Crash(_) =>
        case Deliver(_) =>
      }
      NetIsOnTheBooks(cap, Step(cap, s, events[0]), events[1..], id, k);
    }
  }

  /** All or nothing: between two points where a worker is between drafts, whatever other workers do in
      the meantime, its own commands add up, on every key, to exactly what the rows it inserted in
      between are charged; in particular a refused or duplicate draft nets zero everywhere. */
  lemma DraftIsAllOrNothing(cap: Key -> int, s: State, events: seq<Event>, id: nat, k: Key)
    requires AllWellFormed(s) && id < |s.workers| && s.workers[id].pc == Reserving(0)
    requires id < |Exec(cap, s, events).workers| && Exec(cap, s, events).workers[id].pc == Reserving(0)
    ensures var w, w' := s.workers[id], Exec(cap, s, events).workers[id];
      && Net(cap, s, events, id, k) == RowCharges(w'.rows, w.job.keys, k) - RowCharges(w.rows, w.job.keys, k)
      && (w'.rows == w.rows ==> Net(cap, s, events, id, k) == 0)
  {
    var keys := s.workers[id].job.keys;
    assert keys[..0] == [];
    NetIsOnTheBooks(cap, s, events, id, k);
  }
}
