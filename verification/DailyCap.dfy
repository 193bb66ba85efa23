/** The daily draft-cap counters of `prefilter.py` and `persist_gate_node`, as a step machine.

    Any number of persist-gate workers share one Redis counter per cap key.  Every Redis command and
    every row insert is one atomic step, the steps of different workers interleave in any order, and a
    worker may crash between any two of them.  Day and caps are fixed. */
module DailyCap {

  type Key = string
  type PostId = string

  /** One delivery of the persist-gate node: its campaign, the counters each draft must debit (in debit
      order), the drafts by post id, and whether a Redis client is at hand. */
  datatype Job = Job(campaign: int, keys: seq<Key>, posts: seq<PostId>, redis: bool)

  /** Where a worker stands inside the draft it is working on; see `RunWorker` for the meaning. */
  datatype Pc =
    | Reserving(granted: nat)              // keys[..granted] are claimed; keys[granted] is next
    | Overshot(granted: nat)               // INCR of keys[granted] came back above the cap
    | GivingBack(from: nat, upto: nat)     // refused or duplicate: keys[from..upto] are still to be DECRed

  datatype Status = Live | Crashed | Committed

  /** `rows` are the posts inserted in this worker's transaction: tentative while Live, gone once
      Crashed, durable once Committed. */
  datatype Worker = Worker(job: Job, next: nat, rows: seq<PostId>, pc: Pc, status: Status)

  /** `earlier` are the (campaign, post) rows that were in the table before the day began. */
  datatype State = State(counters: map<Key, int>, workers: seq<Worker>, earlier: set<(int, PostId)>)

  datatype Event = Run(id: nat) | Crash(id: nat) | Deliver(job: Job)

  function Get(counters: map<Key, int>, k: Key): int {
    if k in counters then counters[k] else 0
  }

  function Bump(counters: map<Key, int>, k: Key, delta: int): map<Key, int> {
    counters[k := Get(counters, k) + delta]
  }

  function Init(earlier: set<(int, PostId)>): State {
    State(map[], [], earlier)
  }

  function NextDraft(w: Worker): Worker {
    w.(next := w.next + 1, pc := Reserving(0))
  }

  /** Drop the draft: give the claims on keys[..granted] back, then go on to the next one. */
  function Drop(w: Worker, granted: nat): Worker {
    if granted == 0 then NextDraft(w) else w.(pc := GivingBack(0, granted))
  }

  function Put(s: State, id: nat, w: Worker): State
    requires id < |s.workers|
  {
    s.(workers := s.workers[id := w])
  }

  /** The (campaign, post) key is held by a row another transaction has committed, or by this one. */
  predicate Duplicate(s: State, id: nat, campaign: int, post: PostId)
    requires id < |s.workers|
  {
    || (campaign, post) in s.earlier
    || exists j | 0 <= j < |s.workers| ::
         && (j == id || s.workers[j].status == Committed)
         && s.workers[j].job.campaign == campaign && post in s.workers[j].rows
  }

  /** The (campaign, post) key is held by a row of another open transaction: the insert has to wait. */
  predicate Waits(s: State, id: nat, campaign: int, post: PostId)
    requires id < |s.workers|
  {
    exists j | 0 <= j < |s.workers| ::
      && j != id && s.workers[j].status == Live
      && s.workers[j].job.campaign == campaign && post in s.workers[j].rows
  }

  function Insert(s: State, id: nat): State
    requires id < |s.workers|
    requires s.workers[id].next < |s.workers[id].job.posts|
  {
    var w := s.workers[id];
    var post := w.job.posts[w.next];
    if Duplicate(s, id, w.job.campaign, post) then
      Put(s, id, Drop(w, |w.job.keys|))
    else if Waits(s, id, w.job.campaign, post) then s
    else Put(s, id, NextDraft(w).(rows := w.rows + [post]))
  }

  /** An insert is refused exactly if a committed row, or one of its own transaction, has the key; it waits exactly if
      an open transaction of another worker has it; else the row is in.  No counter moves. */
  lemma InsertIsExact(s: State, id: nat)
    requires id < |s.workers| && s.workers[id].next < |s.workers[id].job.posts|
    ensures var w, s' := s.workers[id], Insert(s, id);
      var c, post := w.job.campaign, w.job.posts[w.next];
      var refused := (c, post) in s.earlier || post in w.rows || exists j | 0 <= j < |s.workers| ::
            s.workers[j].status == Committed && s.workers[j].job.campaign == c && post in s.workers[j].rows;
      var held := exists j | 0 <= j < |s.workers| ::
            j != id && s.workers[j].status == Live && s.workers[j].job.campaign == c && post in s.workers[j].rows;
      && s'.counters == s.counters && s'.earlier == s.earlier
      && s'.workers == s.workers[id := s'.workers[id]]
      && (refused ==> s'.workers[id] == if w.job.keys == [] then w.(next := w.next + 1, pc := Reserving(0))
                                        else w.(pc := GivingBack(0, |w.job.keys|)))
      && (!refused && held ==> s' == s)
      && (!refused && !held ==> s'.workers[id] == Worker(w.job, w.next + 1, w.rows + [post], Reserving(0), w.status))
  {
    var w := s.workers[id];
    if w.job.posts[w.next] in w.rows { assert s.workers[id].job.campaign == w.job.campaign; }
  }

  datatype Effect = Effect(worker: Worker, delta: int)

  /** The counter the worker is about to INCR or DECR. */
  function Target(w: Worker): Key
    requires WellFormed(w) && (w.pc.Reserving? ==> w.pc.granted < |w.job.keys|)
  {
    match w.pc
    case Reserving(granted) => w.job.keys[granted]
    case Overshot(granted) => w.job.keys[granted]
    case GivingBack(from, _) => w.job.keys[from]
  }

  /** One Redis command of `reserve_daily_slots`, or of the release after a duplicate insert: what it
      adds to the target counter, which stands at `value`, and where it leaves the worker. */
  function CounterStep(w: Worker, cap: int, value: int): Effect
    requires WellFormed(w) && (w.pc.Reserving? ==> w.pc.granted < |w.job.keys|)
  {
    match w.pc
    case Reserving(granted) =>
      if cap <= 0 || !w.job.redis then Effect(Drop(w, granted), 0)
      else if value + 1 > cap then Effect(w.(pc := Overshot(granted)), 1)
      else Effect(w.(pc := Reserving(granted + 1)), 1)
    case Overshot(granted) => Effect(Drop(w, granted), -1)
    case GivingBack(from, upto) =>
      Effect(if from + 1 == upto then NextDraft(w) else w.(pc := GivingBack(from + 1, upto)), -1)
  }

  /** The next atomic step of worker `id`. */
  function RunWorker(cap: Key -> int, s: State, id: nat): State
    requires id < |s.workers| && WellFormed(s.workers[id])
  {
    var w := s.workers[id];
    if w.status != Live then s
    else if w.next == |w.job.posts| then Put(s, id, w.(status := Committed))
    else if w.pc == Reserving(|w.job.keys|) then Insert(s, id)
    else
      var k := Target(w);
      var effect := CounterStep(w, cap(k), Get(s.counters, k));
      Put(s, id, effect.worker).(counters := Bump(s.counters, k, effect.delta))
  }

  predicate WellFormed(w: Worker) {
    && w.next <= |w.job.posts|
    && (w.next == |w.job.posts| || w.status == Committed ==> w.pc == Reserving(0))
    && match w.pc
       case Reserving(granted) => granted <= |w.job.keys|
       case Overshot(granted) => granted < |w.job.keys|
       case GivingBack(from, upto) => from < upto <= |w.job.keys|
  }

  predicate AllWellFormed(s: State) {
    forall i | 0 <= i < |s.workers| :: WellFormed(s.workers[i])
  }

  /** A crash freezes the worker: its open transaction is rolled back, its counter claims stay. */
  function Step(cap: Key -> int, s: State, e: Event): (s': State)
    requires AllWellFormed(s)
    ensures AllWellFormed(s')
  {
    match e
    case Run(id) => if id < |s.workers| then RunWorker(cap, s, id) else s
    case Crash(id) =>
      if id < |s.workers| && s.workers[id].status == Live
      then Put(s, id, s.workers[id].(status := Crashed)) else s
    case Deliver(job) => s.(workers := s.workers + [Worker(job, 0, [], Reserving(0), Live)])
  }

  function Exec(cap: Key -> int, s: State, events: seq<Event>): (s': State)
    requires AllWellFormed(s)
    ensures AllWellFormed(s')
    decreases |events|
  {
    if events == [] then s else Exec(cap, Step(cap, s, events[0]), events[1..])
  }

  /* ---- what each worker has on the counters ---- */

  function Count(keys: seq<Key>, k: Key): nat {
    multiset(keys)[k]
  }

  /** Held: claims that stand.  Over: an INCR above the cap whose DECR is still to come. */
  datatype Part = Held | Over

  /** Claims of the draft in progress. */
  function InProgress(w: Worker, k: Key): nat
    requires WellFormed(w)
  {
    var keys := w.job.keys;
    match w.pc
    case Reserving(granted) => Count(keys[..granted], k)
    case Overshot(granted) => Count(keys[..granted], k)
    case GivingBack(from, upto) => Count(keys[from..upto], k)
  }

  /** Claims charged to the rows this worker inserted. */
  function RowCharges(rows: seq<PostId>, keys: seq<Key>, k: Key): nat {
    if rows == [] then 0 else RowCharges(rows[..|rows| - 1], keys, k) + Count(keys, k)
  }

  function Amount(part: Part, w: Worker, k: Key): nat
    requires WellFormed(w)
  {
    match part
    case Held => RowCharges(w.rows, w.job.keys, k) + InProgress(w, k)
    case Over => if w.pc.Overshot? && w.job.keys[w.pc.granted] == k then 1 else 0
  }

  function Total(part: Part, ws: seq<Worker>, k: Key): nat
    requires forall i | 0 <= i < |ws| :: WellFormed(ws[i])
  {
    if ws == [] then 0
    else Total(part, ws[..|ws| - 1], k) + Amount(part, ws[|ws| - 1], k)
  }

  lemma {:induction false} TotalUpdate(part: Part, ws: seq<Worker>, i: nat, w: Worker, k: Key)
    requires i < |ws| && WellFormed(w)
    requires forall j | 0 <= j < |ws| :: WellFormed(ws[j])
    ensures Total(part, ws[i := w], k) == Total(part, ws, k) - Amount(part, ws[i], k) + Amount(part, w, k)
  {
    var n, ws' := |ws| - 1, ws[i := w];
    if i == n {
      assert ws'[..n] == ws[..n];
    } else {
      assert ws'[..n] == ws[..n][i := w];
      TotalUpdate(part, ws[..n], i, w, k);
    }
    assert Total(part, ws', k) == Total(part, ws'[..n], k) + Amount(part, ws'[n], k);
  }

  lemma CountHead(keys: seq<Key>, from: nat, upto: nat, k: Key)
    requires from < upto <= |keys|
    ensures Count(keys[from..upto], k) == Count(keys[from + 1..upto], k) + if keys[from] == k then 1 else 0
  {
    assert keys[from..upto] == [keys[from]] + keys[from + 1..upto];
  }

  lemma CountLast(keys: seq<Key>, n: nat, k: Key)
    requires n < |keys|
    ensures Count(keys[..n + 1], k) == Count(keys[..n], k) + if keys[n] == k then 1 else 0
  {
    assert keys[..n + 1] == keys[..n] + [keys[n]];
  }

  /** One counter step moves the target counter by exactly what it moves on the worker's account, and
      raises the worker's standing claims only when the counter then is within the cap. */
  ghost predicate StepBalances(w: Worker, cap: int, value: int, k: Key)
    requires WellFormed(w) && (w.pc.Reserving? ==> w.pc.granted < |w.job.keys|)
  {
    var Effect(w', delta) := CounterStep(w, cap, value);
    && WellFormed(w') && w'.job == w.job && w'.rows == w.rows
    && Amount(Held, w', k) + Amount(Over, w', k) - Amount(Held, w, k) - Amount(Over, w, k)
       == (if k == Target(w) then delta else 0)
    && (Amount(Held, w', k) <= Amount(Held, w, k) || value + delta <= cap)
  }

  lemma ClaimBalances(w: Worker, cap: int, value: int, k: Key)
    requires WellFormed(w) && w.next < |w.job.posts| && w.status == Live
    requires w.pc.Reserving? && w.pc.granted < |w.job.keys|
    ensures StepBalances(w, cap, value, k)
  {
    var keys, granted := w.job.keys, w.pc.granted;
    assert keys[0..granted] == keys[..granted];
    CountLast(keys, granted, k);
  }

  lemma CounterStepBalances(w: Worker, cap: int, value: int, k: Key)
    requires WellFormed(w) && w.next < |w.job.posts| && w.status == Live
    requires w.pc.Reserving? ==> w.pc.granted < |w.job.keys|
    ensures StepBalances(w, cap, value, k)
  {
    var keys := w.job.keys;
    match w.pc
    case Reserving(_) => ClaimBalances(w, cap, value, k);
    case Overshot(granted) => assert keys[0..granted] == keys[..granted];
    case GivingBack(from, upto) => CountHead(keys, from, upto, k);
  }

  /** A row insert moves the draft's claims from the reservation onto the row. */
  lemma InsertBooks(s: State, id: nat, k: Key)
    requires id < |s.workers| && WellFormed(s.workers[id])
    requires s.workers[id].next < |s.workers[id].job.posts|
    requires s.workers[id].pc == Reserving(|s.workers[id].job.keys|) && s.workers[id].status == Live
    ensures var w, w' := s.workers[id], Insert(s, id).workers[id];
      && WellFormed(w') && w'.job == w.job
      && Amount(Held, w', k) == Amount(Held, w, k) && Amount(Over, w', k) == Amount(Over, w, k)
  {
    var w := s.workers[id];
    var keys := w.job.keys;
    assert keys[..|keys|] == keys[0..|keys|] == keys && keys[..0] == [];
    var post := w.job.posts[w.next];
    assert (w.rows + [post])[..|w.rows|] == w.rows;
  }

  lemma RunWorkerBooks(cap: Key -> int, s: State, id: nat, k: Key)
    requires id < |s.workers| && WellFormed(s.workers[id])
    ensures var s' := RunWorker(cap, s, id); var w, w' := s.workers[id], s'.workers[id];
      && |s'.workers| == |s.workers| && WellFormed(w') && w'.job == w.job
      && s'.workers == s.workers[id := w'] && s'.earlier == s.earlier
      && Get(s'.counters, k) - Get(s.counters, k)
         == Amount(Held, w', k) + Amount(Over, w', k) - Amount(Held, w, k) - Amount(Over, w, k)
      && (Amount(Held, w', k) <= Amount(Held, w, k) || Get(s'.counters, k) <= cap(k))
  {
    var w := s.workers[id];
    if w.status == Live && w.next < |w.job.posts| {
      if w.pc == Reserving(|w.job.keys|) {
        InsertBooks(s, id, k);
      } else {
        CounterStepBalances(w, cap(Target(w)), Get(s.counters, Target(w)), k);
      }
    }
  }

  /* ---- the invariant ---- */

  ghost predicate Balanced(s: State)
    requires AllWellFormed(s)
  {
    forall k :: Get(s.counters, k) == Total(Held, s.workers, k) + Total(Over, s.workers, k)
  }

  ghost predicate WithinCap(cap: Key -> int, s: State)
    requires AllWellFormed(s)
  {
    forall k :: Total(Held, s.workers, k) <= if cap(k) < 0 then 0 else cap(k)
  }

  ghost predicate NoRepeats(rows: seq<PostId>) {
    forall a, b | 0 <= a < b < |rows| :: rows[a] != rows[b]
  }

  ghost predicate Apart(w: Worker, v: Worker) {
    w.job.campaign == v.job.campaign ==> forall p | p in w.rows :: p !in v.rows
  }

  ghost predicate NoneEarlier(w: Worker, earlier: set<(int, PostId)>) {
    forall p | p in w.rows :: (w.job.campaign, p) !in earlier
  }

  /** The table, open transactions included, has at most one row per (campaign, post). */
  ghost predicate RowsUnique(s: State) {
    && (forall i | 0 <= i < |s.workers| && s.workers[i].status != Crashed ::
          NoRepeats(s.workers[i].rows) && NoneEarlier(s.workers[i], s.earlier))
    && (forall i, j | 0 <= i < j < |s.workers| && s.workers[i].status != Crashed && s.workers[j].status != Crashed ::
          Apart(s.workers[i], s.workers[j]))
  }

  ghost predicate Inv(cap: Key -> int, s: State) {
    AllWellFormed(s) && Balanced(s) && WithinCap(cap, s) && RowsUnique(s)
  }

  ghost predicate BooksOf(cap: Key -> int, s: State, k: Key)
    requires AllWellFormed(s)
  {
    && Get(s.counters, k) == Total(Held, s.workers, k) + Total(Over, s.workers, k)
    && Total(Held, s.workers, k) <= if cap(k) < 0 then 0 else cap(k)
  }

  lemma RunKeepsBooks(cap: Key -> int, s: State, id: nat, k: Key)
    requires AllWellFormed(s) && id < |s.workers| && BooksOf(cap, s, k)
    ensures BooksOf(cap, Step(cap, s, Run(id)), k)
  {
    var s' := Step(cap, s, Run(id));
    RunWorkerBooks(cap, s, id, k);
    TotalUpdate(Held, s.workers, id, s'.workers[id], k);
    TotalUpdate(Over, s.workers, id, s'.workers[id], k);
  }

  lemma StepKeepsBooksOf(cap: Key -> int, s: State, e: Event, k: Key)
    requires AllWellFormed(s) && BooksOf(cap, s, k)
    ensures BooksOf(cap, Step(cap, s, e), k)
  {
    var s' := Step(cap, s, e);
    match e
    case Run(id) =>
      if id < |s.workers| { RunKeepsBooks(cap, s, id, k); }
    case Crash(id) =>
      if id < |s.workers| && s.workers[id].status == Live {
        TotalUpdate(Held, s.workers, id, s'.workers[id], k);
        TotalUpdate(Over, s.workers, id, s'.workers[id], k);
      }
    case Deliver(job) =>
      assert s'.workers[..|s'.workers| - 1] == s.workers;
      assert job.keys[..0] == [];
  }

  lemma StepKeepsBooks(cap: Key -> int, s: State, e: Event)
    requires Inv(cap, s)
    ensures Balanced(Step(cap, s, e)) && WithinCap(cap, Step(cap, s, e))
  {
    var s' := Step(cap, s, e);
    forall k
      ensures Get(s'.counters, k) == Total(Held, s'.workers, k) + Total(Over, s'.workers, k)
      ensures Total(Held, s'.workers, k) <= if cap(k) < 0 then 0 else cap(k)
    {
      assert BooksOf(cap, s, k);
      StepKeepsBooksOf(cap, s, e, k);
      assert BooksOf(cap, s', k);
    }
  }

  lemma InsertKeepsRowsUnique(s: State, id: nat)
    requires AllWellFormed(s) && RowsUnique(s)
    requires id < |s.workers| && s.workers[id].status == Live
    requires s.workers[id].next < |s.workers[id].job.posts|
    ensures RowsUnique(Insert(s, id))
  {
    var s' := Insert(s, id);
    var w, w' := s.workers[id], s'.workers[id];
    if w'.rows != w.rows {
      var post := w.job.posts[w.next];
      assert w'.rows == w.rows + [post];
      forall j | 0 <= j < |s.workers| && j != id && s.workers[j].status != Crashed
        ensures Apart(w', s.workers[j]) && Apart(s.workers[j], w')
      {
        assert if j < id then Apart(s.workers[j], w) else Apart(w, s.workers[j]);
      }
    }
  }

  lemma StepKeepsRowsUnique(cap: Key -> int, s: State, e: Event)
    requires AllWellFormed(s) && RowsUnique(s)
    ensures RowsUnique(Step(cap, s, e))
  {
    if e.Run? && e.id < |s.workers| {
      var w := s.workers[e.id];
      if w.status == Live && w.next < |w.job.posts| {
        if w.pc == Reserving(|w.job.keys|) {
          InsertKeepsRowsUnique(s, e.id);
        } else {
          CounterStepBalances(w, cap(Target(w)), Get(s.counters, Target(w)), Target(w));
        }
      }
    }
  }

  /** Every reachable state, whatever the interleaving, the deliveries and the crashes, keeps the books. */
  lemma {:induction false} ExecKeepsInv(cap: Key -> int, s: State, events: seq<Event>)
    requires Inv(cap, s)
    ensures Inv(cap, Exec(cap, s, events))
    decreases |events|
  {
    if events != [] {
      StepKeepsBooks(cap, s, events[0]);
      StepKeepsRowsUnique(cap, s, events[0]);
      ExecKeepsInv(cap, Step(cap, s, events[0]), events[1..]);
    }
  }
}
