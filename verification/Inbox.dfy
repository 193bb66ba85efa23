/** The human-review inbox: the draft status machine, the 15-minute lock leases, posted history, the
    lock reaper, and reply-pipeline runs as far as they add drafts.  Every request and every reaper pass is
    one atomic step; a pipeline run is two, the prefilter's look and the gate's commit, with anything in
    between.  The clock, in seconds, never goes back. */
module Inbox {
  import opened Common

  const LOCK_DURATION := 15 * 60

  datatype DraftStatus =
    PENDING | AWAITING_CONFIRM | POSTED | REJECTED | IGNORED | FAILED | FAILED_COST_LIMIT

  /** `users.id` is a serial key, so it is never zero. */
  type UserId = x: int | x > 0 witness 1

  /** What posted history and the pipeline's dedup go by. */
  datatype PostKey = PostKey(org: int, platform: string, post: string)

  datatype Draft = Draft(
    key: PostKey, campaign: int, status: DraftStatus, text: string,
    lockedBy: Option<UserId>, lockedAt: Option<int>)

  datatype Action = Lock | Edit(text: string) | OpenCopy | ConfirmPosted | Unconfirm | Reject | Ignore

  datatype Request = Request(org: int, user: UserId, draft: nat, action: Action)

  datatype Reply = Ok | NotFound | Conflict

  function AllowedFrom(a: Action): set<DraftStatus> {
    match a
    case ConfirmPosted => {AWAITING_CONFIRM}
    case Unconfirm => {AWAITING_CONFIRM}
    case _ => {PENDING, AWAITING_CONFIRM}
  }

  function StatusAfter(a: Action, status: DraftStatus): DraftStatus {
    match a
    case Lock => status
    case Edit(_) => status
    case OpenCopy => AWAITING_CONFIRM
    case ConfirmPosted => POSTED
    case Unconfirm => PENDING
    case Reject => REJECTED
    case Ignore => IGNORED
  }

  /** Another user holds an unexpired lock. */
  predicate LockedOut(d: Draft, user: UserId, now: int) {
    d.lockedBy.Some? && d.lockedBy.value != user && d.lockedAt.Some? && now - d.lockedAt.value < LOCK_DURATION
  }

  function Answer(d: Draft, r: Request, now: int): Reply {
    if d.key.org != r.org then NotFound
    else if d.status !in AllowedFrom(r.action) || LockedOut(d, r.user, now) then Conflict
    else Ok
  }

  function Apply(d: Draft, r: Request, now: int): Draft {
    d.(status := StatusAfter(r.action, d.status),
       text := if r.action.Edit? then r.action.text else d.text,
       lockedBy := Some(r.user), lockedAt := Some(now))
  }

  /* ---- the step machine ---- */

  datatype Entry = Entry(request: Request, at: int, reply: Reply)

  /** A run past its prefilter: the posts that nobody had drafted or posted when it looked, and how many drafts
      there were then. */
  datatype PipelineRun = PipelineRun(org: int, platform: string, campaign: int, survivors: seq<string>, mark: nat)

  datatype State = State(
    now: int, drafts: seq<Draft>, history: seq<PostKey>, log: seq<Entry>, runs: seq<PipelineRun>)

  /** What the scout, the strategist and the caps let through to the insert: a post, its first status and text. */
  datatype Proposal = Proposal(post: string, status: DraftStatus, text: string)

  /** Peek: a run's prefilter looks at these posts.  Commit: a run's gate inserts these proposals in one
      transaction; a redelivered gate commits again. */
  datatype Event =
    | Advance(seconds: nat)
    | Ask(request: Request)
    | ClearExpiredLocks
    | Peek(org: int, platform: string, campaign: int, posts: seq<string>)
    | Commit(run: nat, proposals: seq<Proposal>)

  /** INSERT ... ON CONFLICT DO NOTHING on the unique key. */
  function Remember(history: seq<PostKey>, key: PostKey): seq<PostKey> {
    if key in history then history else history + [key]
  }

  function Cleared(d: Draft, now: int): Draft {
    if d.lockedAt.Some? && d.lockedAt.value < now - LOCK_DURATION then d.(lockedBy := None, lockedAt := None) else d
  }

  function ClearAll(drafts: seq<Draft>, now: int): (r: seq<Draft>)
    ensures |r| == |drafts| && forall i | 0 <= i < |drafts| :: r[i] == Cleared(drafts[i], now)
  {
    seq(|drafts|, i requires 0 <= i < |drafts| => Cleared(drafts[i], now))
  }

  /** The prefilter's dedup, against history and against the drafts of every campaign of the org. */
  predicate SeenBefore(s: State, key: PostKey) {
    key in s.history || exists i | 0 <= i < |s.drafts| :: s.drafts[i].key == key
  }

  predicate InitialStatus(status: DraftStatus) {
    status == PENDING || status == FAILED || status == FAILED_COST_LIMIT
  }

  predicate CampaignHas(drafts: seq<Draft>, campaign: int, post: string) {
    exists i | 0 <= i < |drafts| :: drafts[i].campaign == campaign && drafts[i].key.post == post
  }

  function Unseen(s: State, org: int, platform: string, posts: seq<string>): seq<string> {
    if posts == [] then []
    else
      var post := posts[|posts| - 1];
      Unseen(s, org, platform, posts[..|posts| - 1])
      + if SeenBefore(s, PostKey(org, platform, post)) then [] else [post]
  }

  function KeyOf(run: PipelineRun, post: string): PostKey {
    PostKey(run.org, run.platform, post)
  }

  /** The drafts after the gate: its run's survivors, one row per (campaign, post). */
  function Inserted(drafts: seq<Draft>, run: PipelineRun, proposals: seq<Proposal>): seq<Draft> {
    if proposals == [] then drafts
    else
      var p := proposals[|proposals| - 1];
      var before := Inserted(drafts, run, proposals[..|proposals| - 1]);
      if p.post !in run.survivors || !InitialStatus(p.status) || CampaignHas(before, run.campaign, p.post) then before
      else before + [Draft(KeyOf(run, p.post), run.campaign, p.status, p.text, None, None)]
  }

  function Step(s: State, e: Event): State {
    match e
    case Advance(d) => s.(now := s.now + d)
    case Ask(r) =>
      if r.draft >= |s.drafts| then s.(log := s.log + [Entry(r, s.now, NotFound)])
      else
        var d := s.drafts[r.draft];
        var reply := Answer(d, r, s.now);
        if reply != Ok then s.(log := s.log + [Entry(r, s.now, reply)])
        else State(s.now, s.drafts[r.draft := Apply(d, r, s.now)],
                   if r.action == ConfirmPosted then Remember(s.history, d.key) else s.history,
                   s.log + [Entry(r, s.now, Ok)], s.runs)
    case ClearExpiredLocks => s.(drafts := ClearAll(s.drafts, s.now))
    case Peek(org, platform, campaign, posts) =>
      s.(runs := s.runs + [PipelineRun(org, platform, campaign, Unseen(s, org, platform, posts), |s.drafts|)])
    case Commit(run, proposals) =>
      if run < |s.runs| then s.(drafts := Inserted(s.drafts, s.runs[run], proposals)) else s
  }

  function Exec(s: State, events: seq<Event>): State {
    if events == [] then s else Step(Exec(s, events[..|events| - 1]), events[|events| - 1])
  }

  function Init(now: int): State {
    State(now, [], [], [], [])
  }

  /* ---- the lock reaper is unobservable ---- */

  function WithoutClears(events: seq<Event>): seq<Event> {
    if events == [] then []
    else
      WithoutClears(events[..|events| - 1])
      + if events[|events| - 1].ClearExpiredLocks? then [] else [events[|events| - 1]]
  }

  /** A lock nobody is kept out by, now or later. */
  predicate OpenToAll(d: Draft, now: int) {
    d.lockedBy.None? || d.lockedAt.None? || now - d.lockedAt.value >= LOCK_DURATION
  }

  function Unlocked(d: Draft): Draft {
    d.(lockedBy := None, lockedAt := None)
  }

  ghost predicate AlikeDraft(d: Draft, c: Draft, now: int) {
    Unlocked(d) == Unlocked(c) && (d == c || (OpenToAll(d, now) && OpenToAll(c, now)))
  }

  ghost predicate AlikeDrafts(a: seq<Draft>, b: seq<Draft>, now: int) {
    |a| == |b| && forall i | 0 <= i < |a| :: AlikeDraft(a[i], b[i], now)
  }

  ghost predicate Alike(s: State, t: State) {
    && s.now == t.now && s.history == t.history && s.log == t.log && s.runs == t.runs
    && AlikeDrafts(s.drafts, t.drafts, s.now)
  }

  lemma {:induction false} InsertedKeepsAlike(a: seq<Draft>, b: seq<Draft>, now: int, run: PipelineRun, proposals: seq<Proposal>)
    requires AlikeDrafts(a, b, now)
    ensures AlikeDrafts(Inserted(a, run, proposals), Inserted(b, run, proposals), now)
  {
    if proposals != [] {
      InsertedKeepsAlike(a, b, now, run, proposals[..|proposals| - 1]);
      var c, d := Inserted(a, run, proposals[..|proposals| - 1]), Inserted(b, run, proposals[..|proposals| - 1]);
      assert forall i | 0 <= i < |c| :: c[i].key == d[i].key && c[i].campaign == d[i].campaign;
    }
  }

  lemma {:induction false} UnseenAlike(s: State, t: State, org: int, platform: string, posts: seq<string>)
    requires Alike(s, t)
    ensures Unseen(s, org, platform, posts) == Unseen(t, org, platform, posts)
  {
    if posts != [] {
      UnseenAlike(s, t, org, platform, posts[..|posts| - 1]);
      assert forall i | 0 <= i < |s.drafts| :: s.drafts[i].key == t.drafts[i].key;
    }
  }

  lemma StepKeepsAlike(s: State, t: State, e: Event)
    requires Alike(s, t)
    ensures Alike(Step(s, e), if e.ClearExpiredLocks? then t else Step(t, e))
  {
    match e
    case Ask(_) =>
    case Peek(org, platform, _, posts) => UnseenAlike(s, t, org, platform, posts);
    case Commit(run, proposals) =>
      if run < |s.runs| { InsertedKeepsAlike(s.drafts, t.drafts, s.now, s.runs[run], proposals); }
    case _ =>
  }

  /** Reaper passes inserted anywhere change no reply, no posted history and, lock fields aside, no draft;
      where lock fields do differ, neither keeps anybody out. */
  lemma {:induction false} ClearingLocksIsUnobservable(s: State, events: seq<Event>)
    ensures Alike(Exec(s, events), Exec(s, WithoutClears(events)))
    ensures Exec(s, events).log == Exec(s, WithoutClears(events)).log
  {
    if events != [] {
      var init, e := events[..|events| - 1], events[|events| - 1];
      ClearingLocksIsUnobservable(s, init);
      StepKeepsAlike(Exec(s, init), Exec(s, WithoutClears(init)), e);
      if e.ClearExpiredLocks? {
        assert WithoutClears(events) == WithoutClears(init);
      } else {
        assert WithoutClears(events) == WithoutClears(init) + [e];
        assert WithoutClears(events)[..|WithoutClears(init)|] == WithoutClears(init);
      }
    }
  }

  /** What it clears: the locks older than fifteen minutes, and nothing else of a draft. */
  lemma ClearingDropsExpiredLocks(s: State, i: nat)
    requires i < |s.drafts|
    ensures var s', d := Step(s, ClearExpiredLocks), s.drafts[i];
      && |s'.drafts| == |s.drafts| && s'.history == s.history && s'.log == s.log && s'.now == s.now && s'.runs == s.runs
      && s'.drafts[i] == if d.lockedAt.Some? && s.now - d.lockedAt.value > 900
                         then Draft(d.key, d.campaign, d.status, d.text, None, None) else d
  {
  }

  /* ---- lease exclusivity ---- */

  ghost predicate Leased(s: State, entry: Entry) {
    && entry.at <= s.now
    && (entry.reply == Ok ==> entry.request.draft < |s.drafts|)
    && (entry.reply == Ok && s.now < entry.at + LOCK_DURATION ==>
          var d := s.drafts[entry.request.draft];
          d.lockedBy == Some(entry.request.user) && d.lockedAt.Some? && entry.at <= d.lockedAt.value)
  }

  ghost predicate Exclusive(a: Entry, b: Entry) {
    a.reply == Ok && b.reply == Ok && a.request.draft == b.request.draft && a.request.user != b.request.user
    ==> b.at >= a.at + LOCK_DURATION
  }

  ghost predicate LeasesHold(s: State) {
    && (forall i | 0 <= i < |s.log| :: Leased(s, s.log[i]))
    && forall i, j | 0 <= i < j < |s.log| :: Exclusive(s.log[i], s.log[j])
  }

  lemma {:induction false} InsertedOnlyAppends(drafts: seq<Draft>, run: PipelineRun, proposals: seq<Proposal>)
    ensures drafts <= Inserted(drafts, run, proposals)
  {
    if proposals != [] {
      InsertedOnlyAppends(drafts, run, proposals[..|proposals| - 1]);
    }
  }

  lemma StepKeepsLeases(s: State, e: Event)
    requires LeasesHold(s)
    ensures LeasesHold(Step(s, e))
  {
    var s' := Step(s, e);
    match e
    case Ask(_) =>
    case Commit(run, proposals) =>
      if run < |s.runs| { InsertedOnlyAppends(s.drafts, s.runs[run], proposals); }
      assert forall i | 0 <= i < |s.log| :: Leased(s, s.log[i]) ==> Leased(s', s.log[i]);
    case _ =>
      assert forall i | 0 <= i < |s.log| :: Leased(s, s.log[i]) ==> Leased(s', s.log[i]);
  }

  /** Once a user's action on a draft succeeds at time t, no other user's action on it succeeds before
      t + 15 minutes, over whole runs, whatever reaper passes, refreshes and pipeline runs come between. */
  lemma {:induction false} LeaseIsExclusive(now: int, events: seq<Event>)
    ensures var log := Exec(Init(now), events).log;
      forall i, j | 0 <= i < j < |log| && log[i].reply == Ok && log[j].reply == Ok
                    && log[i].request.draft == log[j].request.draft && log[i].request.user != log[j].request.user ::
        log[j].at >= log[i].at + LOCK_DURATION
    ensures LeasesHold(Exec(Init(now), events))
  {
    if events != [] {
      LeaseIsExclusive(now, events[..|events| - 1]);
      StepKeepsLeases(Exec(Init(now), events[..|events| - 1]), events[|events| - 1]);
    }
    var log := Exec(Init(now), events).log;
    assert forall i, j | 0 <= i < j < |log| :: Exclusive(log[i], log[j]);
  }

  /** And after fifteen minutes the draft is open again: another user's request is refused exactly until then.  Every
      request is logged with its time and answer. */
  lemma LeaseEndsExactly(s: State, r: Request, d: nat, other: UserId)
    requires r.draft < |s.drafts| && other != r.user
    ensures var before := s.drafts[r.draft];
      var free := before.lockedBy.None? || before.lockedBy == Some(r.user) || before.lockedAt.None? || s.now - before.lockedAt.value >= 900;
      var reply := if before.key.org != r.org then NotFound
                   else if before.status in {PENDING, AWAITING_CONFIRM} && free then Ok else Conflict;
      var s1 := Step(s, Ask(r.(action := Lock)));
      && s1.log == s.log + [Entry(r.(action := Lock), s.now, reply)]
      && (reply != Ok ==> s1.drafts == s.drafts)
      && (reply == Ok ==>
            var s2 := Step(Step(s1, Advance(d)), Ask(Request(r.org, other, r.draft, Lock)));
            s2.log == s1.log + [Entry(Request(r.org, other, r.draft, Lock), s.now + d, if d >= 900 then Ok else Conflict)])
  {
  }

  /** A request for a draft that is not there is answered so, and changes nothing. */
  lemma MissingDraftIsNotFound(s: State, r: Request)
    requires r.draft >= |s.drafts|
    ensures Step(s, Ask(r)) == State(s.now, s.drafts, s.history, s.log + [Entry(r, s.now, NotFound)], s.runs)
  {
  }

  /* ---- the text ---- */

  /** The text of the last successful edit of draft i among the requests from number `from` to n, if any. */
  function LastEdit(log: seq<Entry>, i: nat, from: nat, n: nat): Option<string>
    requires from <= n <= |log|
  {
    if n == from then None
    else
      var entry := log[n - 1];
      if entry.reply == Ok && entry.request.draft == i && entry.request.action.Edit?
      then Some(entry.request.action.text) else LastEdit(log, i, from, n - 1)
  }

  lemma {:induction false} LastEditDependsOn(log: seq<Entry>, more: seq<Entry>, i: nat, from: nat, n: nat)
    requires from <= n <= |log| && log <= more
    ensures LastEdit(log, i, from, n) == LastEdit(more, i, from, n)
  {
    if n > from {
      LastEditDependsOn(log, more, i, from, n - 1);
    }
  }

  lemma StepEdits(s: State, e: Event, i: nat)
    requires i < |s.drafts|
    ensures var s' := Step(s, e);
      && s.log <= s'.log && |s'.log| <= |s.log| + 1 && i < |s'.drafts|
      && var edits := |s'.log| > |s.log| && var entry := s'.log[|s.log|];
           entry.reply == Ok && entry.request.draft == i && entry.request.action.Edit?;
         s'.drafts[i].text == if edits then s'.log[|s.log|].request.action.text else s.drafts[i].text
  {
    if e.Commit? && e.run < |s.runs| {
      InsertedOnlyAppends(s.drafts, s.runs[e.run], e.proposals);
    }
  }

  /** Over any run, a draft's text is that of its last successful edit, or the one it had at the start. */
  lemma {:induction false} TextIsTheLastEdit(s: State, events: seq<Event>, i: nat)
    requires i < |s.drafts|
    ensures var s' := Exec(s, events);
      && s.log <= s'.log && i < |s'.drafts|
      && var edit := LastEdit(s'.log, i, |s.log|, |s'.log|);
         s'.drafts[i].text == if edit.Some? then edit.value else s.drafts[i].text
  {
    if events != [] {
      var before, e := Exec(s, events[..|events| - 1]), events[|events| - 1];
      TextIsTheLastEdit(s, events[..|events| - 1], i);
      LastEditDependsOn(before.log, Step(before, e).log, i, |s.log|, |before.log|);
      StepEdits(before, e, i);
    }
  }

  /* ---- the status machine ---- */

  predicate Terminal(status: DraftStatus) {
    status != PENDING && status != AWAITING_CONFIRM
  }

  lemma StepMovesStatus(s: State, e: Event, i: nat)
    requires i < |s.drafts|
    ensures var s' := Step(s, e);
      && i < |s'.drafts| && s'.drafts[i].key == s.drafts[i].key && s'.drafts[i].campaign == s.drafts[i].campaign
      && (Terminal(s.drafts[i].status) ==> s'.drafts[i] == s.drafts[i] || s'.drafts[i] == Unlocked(s.drafts[i]))
      && (s'.drafts[i].status == POSTED && s.drafts[i].status != POSTED ==>
            s.drafts[i].status == AWAITING_CONFIRM && e.Ask? && e.request.action == ConfirmPosted)
  {
    if e.Commit? && e.run < |s.runs| {
      InsertedOnlyAppends(s.drafts, s.runs[e.run], e.proposals);
    }
  }

  /** POSTED, REJECTED, IGNORED and both FAILED statuses are absorbing, text included. */
  lemma {:induction false} TerminalIsAbsorbing(s: State, events: seq<Event>, i: nat)
    requires i < |s.drafts| && Terminal(s.drafts[i].status)
    ensures var s' := Exec(s, events);
      i < |s'.drafts| && Unlocked(s'.drafts[i]) == Unlocked(s.drafts[i])
  {
    if events != [] {
      TerminalIsAbsorbing(s, events[..|events| - 1], i);
      StepMovesStatus(Exec(s, events[..|events| - 1]), events[|events| - 1], i);
      assert Unlocked(s.drafts[i]).status == s.drafts[i].status;
    }
  }
}
