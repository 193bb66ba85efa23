/** The inbox handlers as the database sees them: each looks at its row, checks, and later commits the columns it
    changed, with other handlers and the lock reaper in between.  What the atomic handlers of `Inbox` promise is
    lost exactly to a handler that commits over a row that changed after its look. */
module InboxRaces {
  import opened Common
  import opened Inbox

  /** A request whose checks passed on the row it saw at that time; `open` until it commits. */
  datatype Handler = Handler(request: Request, seen: Draft, at: int, open: bool)

  datatype Desk = Desk(now: int, drafts: seq<Draft>, history: seq<PostKey>, handlers: seq<Handler>)

  datatype Move =
    | Pass(seconds: nat)
    | Look(request: Request)
    | Save(handler: nat)
    | Clear

  /** Only the columns that the handler changed are written. */
  function Saved(d: Draft, h: Handler): Draft {
    var after := Apply(h.seen, h.request, h.at);
    d.(status := if after.status != h.seen.status then after.status else d.status,
       text := if after.text != h.seen.text then after.text else d.text,
       lockedBy := if after.lockedBy != h.seen.lockedBy then after.lockedBy else d.lockedBy,
       lockedAt := if after.lockedAt != h.seen.lockedAt then after.lockedAt else d.lockedAt)
  }

  predicate Saves(s: Desk, e: Move, i: nat) {
    e.Save? && e.handler < |s.handlers| && s.handlers[e.handler].open && s.handlers[e.handler].request.draft == i
  }

  function Do(s: Desk, e: Move): Desk {
    match e
    case Pass(d) => s.(now := s.now + d)
    case Look(r) =>
      if r.draft < |s.drafts| && Answer(s.drafts[r.draft], r, s.now) == Ok
      then s.(handlers := s.handlers + [Handler(r, s.drafts[r.draft], s.now, true)]) else s
    case Save(k) =>
      if k < |s.handlers| && s.handlers[k].open && s.handlers[k].request.draft < |s.drafts| then
        var h := s.handlers[k];
        var d := s.drafts[h.request.draft];
        Desk(s.now, s.drafts[h.request.draft := Saved(d, h)],
             if h.request.action == ConfirmPosted then Remember(s.history, d.key) else s.history,
             s.handlers[k := h.(open := false)])
      else s
    case Clear => s.(drafts := ClearAll(s.drafts, s.now))
  }

  function DoAll(s: Desk, moves: seq<Move>): Desk {
    if moves == [] then s else Do(DoAll(s, moves[..|moves| - 1]), moves[|moves| - 1])
  }

  /** A commit writes the status, text and lock that the handler has changed, as it saw them, over the row as it is by
      then, and keeps the rest; and a handler commits once. */
  lemma CommitWritesChangedColumns(s: Desk, k: nat)
    requires k < |s.handlers| && s.handlers[k].open && s.handlers[k].request.draft < |s.drafts|
    ensures var h, s' := s.handlers[k], Do(s, Save(k)); var i, a := h.request.draft, h.request.action;
      var d, wanted := s.drafts[i],
        if a.OpenCopy? then AWAITING_CONFIRM else if a.ConfirmPosted? then POSTED else if a.Unconfirm? then PENDING
        else if a.Reject? then REJECTED else if a.Ignore? then IGNORED else h.seen.status;
      && |s'.drafts| == |s.drafts| && (forall j | 0 <= j < |s.drafts| && j != i :: s'.drafts[j] == s.drafts[j])
      && s'.drafts[i] == Draft(d.key, d.campaign,
           if wanted != h.seen.status then wanted else d.status,
           if a.Edit? && a.text != h.seen.text then a.text else d.text,
           if h.seen.lockedBy != Some(h.request.user) then Some(h.request.user) else d.lockedBy,
           if h.seen.lockedAt != Some(h.at) then Some(h.at) else d.lockedAt)
      && (forall key :: key in s'.history <==> key in s.history || (a.ConfirmPosted? && key == d.key))
      && s'.now == s.now && s'.handlers == s.handlers[k := Handler(h.request, h.seen, h.at, false)] && Do(s', Save(k)) == s'
  {
  }

  /** A reaper pass clears the locks older than fifteen minutes, and nothing else. */
  lemma ClearingDropsExpiredLocksOnly(s: Desk, i: nat)
    requires i < |s.drafts|
    ensures var s', d := Do(s, Clear), s.drafts[i];
      && |s'.drafts| == |s.drafts| && s'.now == s.now && s'.history == s.history && s'.handlers == s.handlers
      && s'.drafts[i] == if d.lockedAt.Some? && s.now - d.lockedAt.value > 900
                         then Draft(d.key, d.campaign, d.status, d.text, None, None) else d
  {
  }

  /** A handler with nobody in between is the atomic step. */
  lemma UndisturbedIsAtomic(s: Desk, r: Request, log: seq<Entry>, runs: seq<PipelineRun>)
    requires r.draft < |s.drafts| && Answer(s.drafts[r.draft], r, s.now) == Ok
    ensures var after, atomic := Do(Do(s, Look(r)), Save(|s.handlers|)), Step(State(s.now, s.drafts, s.history, log, runs), Ask(r));
      after.now == atomic.now && after.drafts == atomic.drafts && after.history == atomic.history
  {
  }

  /** Clocks do not go back, and the checks of every handler passed on what it saw. */
  ghost predicate Sane(s: Desk) {
    && (forall i | 0 <= i < |s.drafts| && s.drafts[i].lockedAt.Some? :: s.drafts[i].lockedAt.value <= s.now)
    && forall k | 0 <= k < |s.handlers| :: PassedAt(s.handlers[k], s.now)
  }

  predicate PassedAt(h: Handler, now: int) {
    && h.at <= now && Answer(h.seen, h.request, h.at) == Ok
    && (h.seen.lockedAt.Some? ==> h.seen.lockedAt.value <= h.at)
  }

  lemma MoveKeepsSane(s: Desk, e: Move)
    requires Sane(s)
    ensures Sane(Do(s, e)) && |Do(s, e).drafts| == |s.drafts|
  {
    var s' := Do(s, e);
    if e.Save? && s' != s {
      assert PassedAt(s.handlers[e.handler], s.now);
    }
    forall k | 0 <= k < |s'.handlers| ensures PassedAt(s'.handlers[k], s'.now) {
      if k < |s.handlers| { assert PassedAt(s.handlers[k], s.now); }
    }
  }

  lemma {:induction false} MovesKeepSane(s: Desk, moves: seq<Move>)
    requires Sane(s)
    ensures Sane(DoAll(s, moves)) && |DoAll(s, moves).drafts| == |s.drafts|
  {
    if moves != [] {
      MovesKeepSane(s, moves[..|moves| - 1]);
      MoveKeepsSane(DoAll(s, moves[..|moves| - 1]), moves[|moves| - 1]);
    }
  }

  /* ---- terminal statuses ---- */

  /** The move commits a handler that, as it saw the draft, has another status to give it. */
  predicate Reopens(s: Desk, e: Move, i: nat)
    requires i < |s.drafts|
  {
    && Saves(s, e, i)
    && var h := s.handlers[e.handler]; var status := StatusAfter(h.request.action, h.seen.status);
       status != h.seen.status && status != s.drafts[i].status
  }

  /** A terminal status changes exactly as such a handler commits; and that one looked before the draft was
      closed. */
  lemma ReopeningIsExact(s: Desk, e: Move, i: nat)
    requires Sane(s) && i < |s.drafts| && Terminal(s.drafts[i].status)
    ensures Do(s, e).drafts[i].status != s.drafts[i].status <==> Reopens(s, e, i)
    ensures Reopens(s, e, i) ==> !Terminal(s.handlers[e.handler].seen.status)
  {
    if Saves(s, e, i) { assert PassedAt(s.handlers[e.handler], s.now); }
  }

  ghost predicate StaysClosed(s: Desk, moves: seq<Move>, i: nat)
    requires i < |s.drafts|
  {
    && (moves != [] ==> StaysClosed(s, moves[..|moves| - 1], i))
    && i < |DoAll(s, moves).drafts| && DoAll(s, moves).drafts[i].status == s.drafts[i].status
  }

  ghost predicate NoneReopens(s: Desk, moves: seq<Move>, i: nat) {
    moves != [] ==>
      && NoneReopens(s, moves[..|moves| - 1], i)
      && i < |DoAll(s, moves[..|moves| - 1]).drafts|
      && !Reopens(DoAll(s, moves[..|moves| - 1]), moves[|moves| - 1], i)
  }

  /** Over whole runs of overlapping handlers and reaper passes: a closed draft stays as it is, if and only if no
      handler commits another status that looked before it was closed. */
  lemma {:induction false} ClosedStaysClosedExactly(s: Desk, moves: seq<Move>, i: nat)
    requires Sane(s) && i < |s.drafts| && Terminal(s.drafts[i].status)
    ensures StaysClosed(s, moves, i) <==> NoneReopens(s, moves, i)
  {
    if moves != [] {
      var init := moves[..|moves| - 1];
      ClosedStaysClosedExactly(s, init, i);
      MovesKeepSane(s, init);
      if StaysClosed(s, init, i) {
        ReopeningIsExact(DoAll(s, init), moves[|moves| - 1], i);
        MoveKeepsSane(DoAll(s, init), moves[|moves| - 1]);
      }
    }
  }

  /* ---- locks ---- */

  predicate HasLock(d: Draft, user: UserId, now: int) {
    d.lockedBy == Some(user) && d.lockedAt.Some? && now - d.lockedAt.value < LOCK_DURATION
  }

  /** The clock runs out on the lock. */
  predicate Lapses(s: Desk, e: Move, i: nat)
    requires i < |s.drafts|
  {
    e.Pass? && s.drafts[i].lockedAt.Some? && s.now + e.seconds - s.drafts[i].lockedAt.value >= LOCK_DURATION
  }

  /** The move commits a handler of another user, who was not yet on the draft as it looked, or one so old that the
      time it writes is past the end of the lock. */
  predicate TakesLock(s: Desk, e: Move, i: nat, user: UserId) {
    && Saves(s, e, i)
    && var h := s.handlers[e.handler];
       || (h.request.user != user && h.seen.lockedBy != Some(h.request.user))
       || (h.seen.lockedAt != Some(h.at) && s.now - h.at >= LOCK_DURATION)
  }

  /** A user loses a draft exactly as the lock lapses or is taken; and who takes it looked at another row. */
  lemma LockLossIsExact(s: Desk, e: Move, i: nat, user: UserId)
    requires Sane(s) && i < |s.drafts| && HasLock(s.drafts[i], user, s.now)
    ensures !HasLock(Do(s, e).drafts[i], user, Do(s, e).now) <==> Lapses(s, e, i) || TakesLock(s, e, i, user)
    ensures TakesLock(s, e, i, user) ==> s.handlers[e.handler].seen != s.drafts[i]
  {
    if Saves(s, e, i) { assert PassedAt(s.handlers[e.handler], s.now); }
  }

  ghost predicate KeepsLock(s: Desk, moves: seq<Move>, i: nat, user: UserId) {
    && (moves != [] ==> KeepsLock(s, moves[..|moves| - 1], i, user))
    && i < |DoAll(s, moves).drafts| && HasLock(DoAll(s, moves).drafts[i], user, DoAll(s, moves).now)
  }

  ghost predicate NoneTakesLock(s: Desk, moves: seq<Move>, i: nat, user: UserId) {
    moves != [] ==>
      && NoneTakesLock(s, moves[..|moves| - 1], i, user)
      && var before := DoAll(s, moves[..|moves| - 1]);
         i < |before.drafts| && !Lapses(before, moves[|moves| - 1], i) && !TakesLock(before, moves[|moves| - 1], i, user)
  }

  /** Over whole runs: a user keeps a draft throughout if and only if its fifteen minutes do not run out and no
      handler that looked at another row takes it. */
  lemma {:induction false} LockIsKeptExactly(s: Desk, moves: seq<Move>, i: nat, user: UserId)
    requires Sane(s) && i < |s.drafts| && HasLock(s.drafts[i], user, s.now)
    ensures KeepsLock(s, moves, i, user) <==> NoneTakesLock(s, moves, i, user)
  {
    if moves != [] {
      var init := moves[..|moves| - 1];
      LockIsKeptExactly(s, init, i, user);
      MovesKeepSane(s, init);
      if KeepsLock(s, init, i, user) {
        LockLossIsExact(DoAll(s, init), moves[|moves| - 1], i, user);
        MoveKeepsSane(DoAll(s, init), moves[|moves| - 1]);
      }
    }
  }

  /* ---- two users on one draft ---- */

  lemma InTurn(s: Desk, a: Move, b: Move, c: Move, d: Move)
    ensures DoAll(s, [a, b, c]) == Do(Do(Do(s, a), b), c) && DoAll(s, [a, b, c, d]) == Do(DoAll(s, [a, b, c]), d)
  {
    var moves := [a, b, c, d];
    assert [a, b, c][..2] == [a, b] && [a, b][..1] == [a] && [a][..0] == [] && moves[..3] == [a, b, c];
    assert DoAll(s, [a]) == Do(s, a);
    assert DoAll(s, [a, b]) == Do(Do(s, a), b);
  }

  /** Any two users who both look at a draft that nobody has locked before either commits: the first confirms it and
      has the lock, and then the second rejects it and has the lock, with the post in history. */
  lemma ConfirmedThenRejected(s: Desk, i: nat, u: UserId, v: UserId) returns (moves: seq<Move>)
    requires i < |s.drafts| && s.drafts[i].status == AWAITING_CONFIRM && s.drafts[i].lockedBy.None? && u != v
    ensures |moves| == 4
    ensures var first, second := DoAll(s, moves[..3]), DoAll(s, moves);
      && |first.drafts| == |second.drafts| == |s.drafts|
      && first.drafts[i].status == POSTED && HasLock(first.drafts[i], u, first.now)
      && second.drafts[i].status == REJECTED && HasLock(second.drafts[i], v, second.now)
      && s.drafts[i].key in second.history
  {
    var org, n := s.drafts[i].key.org, |s.handlers|;
    var a, b := Look(Request(org, u, i, ConfirmPosted)), Look(Request(org, v, i, Reject));
    moves := [a, b, Save(n), Save(n + 1)];
    assert moves[..3] == [a, b, Save(n)];
    InTurn(s, a, b, Save(n), Save(n + 1));
  }
}
