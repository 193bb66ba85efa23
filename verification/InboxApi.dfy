/** The handlers of `api/inbox.py` and the lock reaper of `tasks/workers.py`, on draft rows updated in
    place, proved to take exactly the steps of the machine in `Inbox`. */
module InboxApi {
  import opened Common
  import opened Inbox

  class DraftReply {
    const key: PostKey
    const campaign: int
    var status: DraftStatus
    var text: string
    var lockedBy: Option<UserId>
    var lockedAt: Option<int>

    constructor (key: PostKey, campaign: int, status: DraftStatus, text: string)
      ensures Value() == Draft(key, campaign, status, text, None, None)
    {
      this.key, this.campaign, this.status, this.text := key, campaign, status, text;
      lockedBy, lockedAt := None, None;
    }

    ghost function Value(): Draft
      reads this
    {
      Draft(key, campaign, status, text, lockedBy, lockedAt)
    }

    method EnforceAndTakeOverLock(user: UserId, now: int) returns (ok: bool)
      modifies this`lockedBy, this`lockedAt
      ensures ok <==> !(old(lockedBy).Some? && old(lockedBy).value != user
                        && old(lockedAt).Some? && now - old(lockedAt).value < 900)
      ensures if ok then lockedBy == Some(user) && lockedAt == Some(now)
              else lockedBy == old(lockedBy) && lockedAt == old(lockedAt)
    {
      if lockedBy.Some? && lockedBy.value != user {
        if lockedAt.Some? && now - lockedAt.value < LOCK_DURATION {
          return false;
        }
      }
      lockedBy, lockedAt := Some(user), Some(now);
      return true;
    }

    /** What every mutating handler does first: org scope, status, lock. */
    method Open(org: int, user: UserId, now: int, allowed: set<DraftStatus>) returns (reply: Reply)
      modifies this`lockedBy, this`lockedAt
      ensures reply == if key.org != org then NotFound
                       else if status !in allowed || LockedOut(old(Value()), user, now) then Conflict else Ok
      ensures if reply == Ok then lockedBy == Some(user) && lockedAt == Some(now)
              else lockedBy == old(lockedBy) && lockedAt == old(lockedAt)
    {
      if key.org != org {
        return NotFound;
      }
      if status !in allowed {
        return Conflict;
      }
      var ok := EnforceAndTakeOverLock(user, now);
      return if ok then Ok else Conflict;
    }
  }

  /** The request was answered, and the draft changed, as the machine says. */
  ghost predicate Handled(before: Draft, after: Draft, reply: Reply, org: int, user: UserId, now: int, action: Action) {
    var r := Request(org, user, 0, action);
    reply == Answer(before, r, now) && after == if reply == Ok then Apply(before, r, now) else before
  }

  method LockDraft(draft: DraftReply, org: int, user: UserId, now: int) returns (reply: Reply, expiresAt: int)
    modifies draft
    ensures Handled(old(draft.Value()), draft.Value(), reply, org, user, now, Lock)
    ensures reply == Ok ==> forall other: UserId, at | other != user && now <= at ::
      LockedOut(draft.Value(), other, at) <==> at < expiresAt
    ensures reply == NotFound <==> draft.key.org != org
    ensures reply == Ok <==> draft.key.org == org && old(draft.status) in {PENDING, AWAITING_CONFIRM} && !LockedOut(old(draft.Value()), user, now)
    ensures draft.status == old(draft.status)
    ensures draft.text == old(draft.text)
    ensures reply == Ok ==> draft.lockedBy == Some(user) && draft.lockedAt == Some(now)
    ensures reply != Ok ==> draft.Value() == old(draft.Value())
  {
    reply := draft.Open(org, user, now, {PENDING, AWAITING_CONFIRM});
    expiresAt := now + LOCK_DURATION;
  }

  method EditDraft(draft: DraftReply, org: int, user: UserId, now: int, text: string) returns (reply: Reply)
    modifies draft
    ensures Handled(old(draft.Value()), draft.Value(), reply, org, user, now, Edit(text))
    ensures reply == NotFound <==> draft.key.org != org
    ensures reply == Ok <==> draft.key.org == org && old(draft.status) in {PENDING, AWAITING_CONFIRM} && !LockedOut(old(draft.Value()), user, now)
    ensures draft.status == old(draft.status)
    ensures draft.text == if reply == Ok then text else old(draft.text)
    ensures reply == Ok ==> draft.lockedBy == Some(user) && draft.lockedAt == Some(now)
    ensures reply != Ok ==> draft.Value() == old(draft.Value())
  {
    reply := draft.Open(org, user, now, {PENDING, AWAITING_CONFIRM});
    if reply == Ok {
      draft.text := text;
    }
  }

  method OpenCopyDraft(draft: DraftReply, org: int, user: UserId, now: int) returns (reply: Reply, clipboard: string)
    modifies draft
    ensures Handled(old(draft.Value()), draft.Value(), reply, org, user, now, OpenCopy)
    ensures clipboard == draft.text
    ensures reply == NotFound <==> draft.key.org != org
    ensures reply == Ok <==> draft.key.org == org && old(draft.status) in {PENDING, AWAITING_CONFIRM} && !LockedOut(old(draft.Value()), user, now)
    ensures draft.status == if reply == Ok then AWAITING_CONFIRM else old(draft.status)
    ensures draft.text == old(draft.text)
    ensures reply == Ok ==> draft.lockedBy == Some(user) && draft.lockedAt == Some(now)
    ensures reply != Ok ==> draft.Value() == old(draft.Value())
  {
    reply := draft.Open(org, user, now, {PENDING, AWAITING_CONFIRM});
    if reply == Ok {
      draft.status := AWAITING_CONFIRM;
    }
    clipboard := draft.text;
  }

  class PostedHistory {
    var keys: seq<PostKey>

    method InsertOnConflictDoNothing(key: PostKey)
      modifies this
      ensures keys == Remember(old(keys), key)
    {
      if key !in keys {
        keys := keys + [key];
      }
    }
  }

  method ConfirmPostedDraft(draft: DraftReply, history: PostedHistory, org: int, user: UserId, now: int)
    returns (reply: Reply)
    modifies draft, history
    ensures Handled(old(draft.Value()), draft.Value(), reply, org, user, now, ConfirmPosted)
    ensures history.keys == if reply == Ok then Remember(old(history.keys), draft.key) else old(history.keys)
    ensures reply == NotFound <==> draft.key.org != org
    ensures reply == Ok <==> draft.key.org == org && old(draft.status) in {AWAITING_CONFIRM} && !LockedOut(old(draft.Value()), user, now)
    ensures draft.status == if reply == Ok then POSTED else old(draft.status)
    ensures draft.text == old(draft.text)
    ensures reply == Ok ==> draft.lockedBy == Some(user) && draft.lockedAt == Some(now)
    ensures reply != Ok ==> draft.Value() == old(draft.Value())
  {
    reply := draft.Open(org, user, now, {AWAITING_CONFIRM});
    if reply == Ok {
      draft.status := POSTED;
      history.InsertOnConflictDoNothing(draft.key);
    }
  }

  method UnconfirmDraft(draft: DraftReply, org: int, user: UserId, now: int) returns (reply: Reply)
    modifies draft
    ensures Handled(old(draft.Value()), draft.Value(), reply, org, user, now, Unconfirm)
    ensures reply == NotFound <==> draft.key.org != org
    ensures reply == Ok <==> draft.key.org == org && old(draft.status) in {AWAITING_CONFIRM} && !LockedOut(old(draft.Value()), user, now)
    ensures draft.status == if reply == Ok then PENDING else old(draft.status)
    ensures draft.text == old(draft.text)
    ensures reply == Ok ==> draft.lockedBy == Some(user) && draft.lockedAt == Some(now)
    ensures reply != Ok ==> draft.Value() == old(draft.Value())
  {
    reply := draft.Open(org, user, now, {AWAITING_CONFIRM});
    if reply == Ok {
      draft.status := PENDING;
    }
  }

  method RejectDraft(draft: DraftReply, org: int, user: UserId, now: int) returns (reply: Reply)
    modifies draft
    ensures Handled(old(draft.Value()), draft.Value(), reply, org, user, now, Reject)
    ensures reply == NotFound <==> draft.key.org != org
    ensures reply == Ok <==> draft.key.org == org && old(draft.status) in {PENDING, AWAITING_CONFIRM} && !LockedOut(old(draft.Value()), user, now)
    ensures draft.status == if reply == Ok then REJECTED else old(draft.status)
    ensures draft.text == old(draft.text)
    ensures reply == Ok ==> draft.lockedBy == Some(user) && draft.lockedAt == Some(now)
    ensures reply != Ok ==> draft.Value() == old(draft.Value())
  {
    reply := draft.Open(org, user, now, {PENDING, AWAITING_CONFIRM});
    if reply == Ok {
      draft.status := REJECTED;
    }
  }

  method IgnoreDraft(draft: DraftReply, org: int, user: UserId, now: int) returns (reply: Reply)
    modifies draft
    ensures Handled(old(draft.Value()), draft.Value(), reply, org, user, now, Ignore)
    ensures reply == NotFound <==> draft.key.org != org
    ensures reply == Ok <==> draft.key.org == org && old(draft.status) in {PENDING, AWAITING_CONFIRM} && !LockedOut(old(draft.Value()), user, now)
    ensures draft.status == if reply == Ok then IGNORED else old(draft.status)
    ensures draft.text == old(draft.text)
    ensures reply == Ok ==> draft.lockedBy == Some(user) && draft.lockedAt == Some(now)
    ensures reply != Ok ==> draft.Value() == old(draft.Value())
  {
    reply := draft.Open(org, user, now, {PENDING, AWAITING_CONFIRM});
    if reply == Ok {
      draft.status := IGNORED;
    }
  }

  /** The bulk update of `clear_expired_locks`, row by row. */
  method ClearExpiredLocks(drafts: seq<DraftReply>, now: int)
    modifies set d | d in drafts
    ensures forall d | d in drafts :: d.Value() == Cleared(old(d.Value()), now)
    ensures forall d | d in drafts ::
      && d.status == old(d.status) && d.text == old(d.text)
      && (if old(d.lockedAt).Some? && now - old(d.lockedAt).value > 900 then d.lockedBy == None && d.lockedAt == None
          else d.lockedBy == old(d.lockedBy) && d.lockedAt == old(d.lockedAt))
  {
    for i := 0 to |drafts|
      invariant forall d | d in drafts[..i] :: d.Value() == Cleared(old(d.Value()), now)
      invariant forall d | d in drafts && d !in drafts[..i] :: d.Value() == old(d.Value())
    {
      assert drafts[..i + 1] == drafts[..i] + [drafts[i]];
      var d := drafts[i];
      if d.lockedAt.Some? && d.lockedAt.value < now - LOCK_DURATION {
        d.lockedBy, d.lockedAt := None, None;
      }
    }
  }
}
