/** The prefilter: `remaining_daily_capacity`, the greedy loop of `prefilter_node`, and why the persist gate
    later has room for what the loop let through. */
module Prefilter {
  import opened Common
  import opened DailyCap
  import opened PersistGate
  import CapKeys = Keys

  datatype Post = Post(id: PostId, text: string)

  datatype Reason = ALREADY_POSTED | DUPLICATE_DRAFT | KEYWORD_FILTER | CAMPAIGN_DAILY_CAP | SUBREDDIT_DAILY_CAP

  datatype Drop = Drop(id: PostId, reason: Reason)

  /** What the queries answered, the keyword filter, and the slots left; no subreddit outside Reddit. */
  datatype Filters = Filters(
    posted: set<PostId>, drafted: set<PostId>, matches: string -> bool, campaign: nat, subreddit: Option<nat>)

  function Remaining(redis: bool, counters: map<Key, int>, kc: KeyCap): nat {
    if kc.cap.None? || kc.cap.value <= 0 || !redis then 0
    else Max(0, kc.cap.value - Get(counters, kc.key))
  }

  /** The peek counts exactly the claims on its key that would still be granted, one after the other. */
  lemma RemainingCountsGrants(redis: bool, counters: map<Key, int>, kc: KeyCap, claimed: nat)
    ensures claimed < Remaining(redis, counters, kc) <==>
            CanReserve(redis, counters[kc.key := Get(counters, kc.key) + claimed], [kc])
  {
    var later := counters[kc.key := Get(counters, kc.key) + claimed];
    assert Keys([kc])[..0] == [];
    assert CanReserve(redis, later, [kc]) <==> redis && HasRoom(later, [kc], 0);
  }

  method RemainingDailyCapacity(redis: RedisCounters?, key: Key, cap: Option<int>) returns (slots: nat)
    ensures slots == Remaining(redis != null, Reading(redis), KeyCap(key, cap))
  {
    if cap.None? || cap.value <= 0 {
      return 0;
    }
    if redis == null {
      return 0;
    }
    var used := Get(redis.values, key);
    slots := Max(0, cap.value - used);
  }

  /* ---- what the loop decides, post by post ---- */

  function Room(f: Filters): nat {
    if f.subreddit.Some? then Min(f.campaign, f.subreddit.value) else f.campaign
  }

  function Screen(f: Filters, post: Post): Option<Reason> {
    if post.id in f.posted then Some(ALREADY_POSTED)
    else if post.id in f.drafted then Some(DUPLICATE_DRAFT)
    else if !f.matches(post.text) then Some(KEYWORD_FILTER)
    else None
  }

  /** Neither posted nor drafted before, and of interest. */
  predicate Passes(f: Filters, post: Post) {
    post.id !in f.posted && post.id !in f.drafted && f.matches(post.text)
  }

  /** Among the first n posts. */
  function Eligible(f: Filters, posts: seq<Post>, n: nat): seq<Post>
    requires n <= |posts|
  {
    if n == 0 then []
    else Eligible(f, posts, n - 1) + if Passes(f, posts[n - 1]) then [posts[n - 1]] else []
  }

  /** A post that passes the screens is kept while fewer eligible posts precede it than there is room
      for; after that the tighter cap is named, the campaign's on a tie. */
  function Verdict(f: Filters, posts: seq<Post>, k: nat): Option<Reason>
    requires k < |posts|
  {
    if Screen(f, posts[k]).Some? then Screen(f, posts[k])
    else if |Eligible(f, posts, k)| < Room(f) then None
    else if Room(f) == f.campaign then Some(CAMPAIGN_DAILY_CAP)
    else Some(SUBREDDIT_DAILY_CAP)
  }

  function Kept(f: Filters, posts: seq<Post>, n: nat): seq<Post>
    requires n <= |posts|
  {
    if n == 0 then []
    else Kept(f, posts, n - 1) + if Verdict(f, posts, n - 1).None? then [posts[n - 1]] else []
  }

  function Dropped(f: Filters, posts: seq<Post>, n: nat): seq<Drop>
    requires n <= |posts|
  {
    if n == 0 then []
    else
      var verdict := Verdict(f, posts, n - 1);
      Dropped(f, posts, n - 1) + if verdict.Some? then [Drop(posts[n - 1].id, verdict.value)] else []
  }

  function Survivors(f: Filters, posts: seq<Post>): seq<Post> {
    Kept(f, posts, |posts|)
  }

  /** The survivors are the first eligible posts, in order, as many as the smaller capacity allows. */
  lemma {:induction false} KeptAreTheFirstEligible(f: Filters, posts: seq<Post>, n: nat)
    requires n <= |posts|
    ensures Kept(f, posts, n) == Eligible(f, posts, n)[..Min(Room(f), |Eligible(f, posts, n)|)]
  {
    if n > 0 {
      KeptAreTheFirstEligible(f, posts, n - 1);
    }
  }

  function Ids(posts: seq<Post>): seq<PostId> {
    seq(|posts|, i requires 0 <= i < |posts| => posts[i].id)
  }

  function DropIds(drops: seq<Drop>): seq<PostId> {
    seq(|drops|, i requires 0 <= i < |drops| => drops[i].id)
  }

  /** Every post is kept or dropped, none twice and none invented. */
  ghost predicate Accounted(ids: seq<PostId>, kept: seq<Post>, dropped: seq<Drop>) {
    multiset(ids) == multiset(Ids(kept)) + multiset(DropIds(dropped))
  }

  lemma AccountKept(ids: seq<PostId>, kept: seq<Post>, dropped: seq<Drop>, post: Post)
    requires Accounted(ids, kept, dropped)
    ensures Accounted(ids + [post.id], kept + [post], dropped)
  {
    assert Ids(kept + [post]) == Ids(kept) + [post.id];
  }

  lemma IdsOfPrefix(posts: seq<Post>, n: nat)
    requires 0 < n <= |posts|
    ensures Ids(posts[..n]) == Ids(posts[..n - 1]) + [posts[n - 1].id]
  {
  }

  lemma AccountDropped(ids: seq<PostId>, kept: seq<Post>, dropped: seq<Drop>, drop: Drop)
    requires Accounted(ids, kept, dropped)
    ensures Accounted(ids + [drop.id], kept, dropped + [drop])
  {
    assert DropIds(dropped + [drop]) == DropIds(dropped) + [drop.id];
  }

  lemma AccountNext(f: Filters, posts: seq<Post>, n: nat, ids: seq<PostId>)
    requires 0 < n <= |posts| && Accounted(ids, Kept(f, posts, n - 1), Dropped(f, posts, n - 1))
    ensures Accounted(ids + [posts[n - 1].id], Kept(f, posts, n), Dropped(f, posts, n))
  {
    var post, kept, dropped := posts[n - 1], Kept(f, posts, n - 1), Dropped(f, posts, n - 1);
    var verdict := Verdict(f, posts, n - 1);
    if verdict.Some? {
      AccountDropped(ids, kept, dropped, Drop(post.id, verdict.value));
      assert Kept(f, posts, n) == kept;
    } else {
      AccountKept(ids, kept, dropped, post);
      assert Dropped(f, posts, n) == dropped;
    }
  }

  lemma {:induction false} NothingIsLost(f: Filters, posts: seq<Post>, n: nat)
    requires n <= |posts|
    ensures Accounted(Ids(posts[..n]), Kept(f, posts, n), Dropped(f, posts, n))
  {
    if n > 0 {
      NothingIsLost(f, posts, n - 1);
      IdsOfPrefix(posts, n);
      AccountNext(f, posts, n, Ids(posts[..n - 1]));
    }
  }

  ghost predicate RightlyDropped(f: Filters, post: Post, drop: Drop, survivors: nat) {
    && drop.id == post.id
    && (drop.reason == ALREADY_POSTED <==> post.id in f.posted)
    && (drop.reason == DUPLICATE_DRAFT <==> post.id !in f.posted && post.id in f.drafted)
    && (drop.reason == KEYWORD_FILTER <==> post.id !in f.posted && post.id !in f.drafted && !f.matches(post.text))
    && (drop.reason == CAMPAIGN_DAILY_CAP ==> survivors == f.campaign)
    && (drop.reason == SUBREDDIT_DAILY_CAP ==> f.subreddit == Some(survivors) && survivors < f.campaign)
  }

  ghost predicate IsCap(reason: Reason) {
    reason == CAMPAIGN_DAILY_CAP || reason == SUBREDDIT_DAILY_CAP
  }

  /** In rising order, below n. */
  ghost predicate Rising(at: seq<nat>, n: nat) {
    (forall i | 0 <= i < |at| :: at[i] < n) && forall i, j | 0 <= i < j < |at| :: at[i] < at[j]
  }

  /** `kept` and `gone` are the positions of the survivors and of the posts dropped among the first n: each post is
      at one of them, in order; survivors pass the screens and fit the capacities; each drop has its reason; and no
      post survives behind one that was dropped for a cap. */
  ghost predicate SortedOut(f: Filters, posts: seq<Post>, n: nat, survivors: seq<Post>, dropped: seq<Drop>,
                            kept: seq<nat>, gone: seq<nat>)
    requires n <= |posts|
  {
    && Rising(kept, n) && Rising(gone, n) && (forall k: nat | k < n :: k in kept <==> k !in gone)
    && |kept| == |survivors| <= f.campaign && (f.subreddit.Some? ==> |survivors| <= f.subreddit.value)
    && |gone| == |dropped|
    && (forall i | 0 <= i < |kept| :: survivors[i] == posts[kept[i]] && Passes(f, posts[kept[i]]))
    && (forall i | 0 <= i < |gone| :: RightlyDropped(f, posts[gone[i]], dropped[i], |survivors|))
    && forall i | 0 <= i < |gone| && IsCap(dropped[i].reason) :: forall k | k in kept :: k < gone[i]
  }

  lemma KeepOne(f: Filters, posts: seq<Post>, n: nat, survivors: seq<Post>, dropped: seq<Drop>, kept: seq<nat>, gone: seq<nat>)
    requires n < |posts| && SortedOut(f, posts, n, survivors, dropped, kept, gone) && Passes(f, posts[n])
    requires |survivors| < Room(f)
    ensures SortedOut(f, posts, n + 1, survivors + [posts[n]], dropped, kept + [n], gone)
  {
    forall i | 0 <= i < |gone| ensures !IsCap(dropped[i].reason) {
      assert RightlyDropped(f, posts[gone[i]], dropped[i], |survivors|);
    }
  }

  lemma DropOne(f: Filters, posts: seq<Post>, n: nat, survivors: seq<Post>, dropped: seq<Drop>, kept: seq<nat>, gone: seq<nat>, drop: Drop)
    requires n < |posts| && SortedOut(f, posts, n, survivors, dropped, kept, gone)
    requires RightlyDropped(f, posts[n], drop, |survivors|)
    ensures SortedOut(f, posts, n + 1, survivors, dropped + [drop], kept, gone + [n])
  {
    forall i | 0 <= i < |gone| ensures RightlyDropped(f, posts[gone[i]], (dropped + [drop])[i], |survivors|) {
      assert RightlyDropped(f, posts[gone[i]], dropped[i], |survivors|);
    }
  }

  lemma VerdictIsRight(f: Filters, posts: seq<Post>, n: nat)
    requires n < |posts|
    ensures var verdict, kept := Verdict(f, posts, n), |Kept(f, posts, n)|;
      if verdict.None? then Passes(f, posts[n]) && kept < Room(f)
      else RightlyDropped(f, posts[n], Drop(posts[n].id, verdict.value), kept)
  {
    KeptAreTheFirstEligible(f, posts, n);
  }

  lemma OneVerdict(f: Filters, posts: seq<Post>, n: nat, k: seq<nat>, g: seq<nat>) returns (kept: seq<nat>, gone: seq<nat>)
    requires 0 < n <= |posts| && SortedOut(f, posts, n - 1, Kept(f, posts, n - 1), Dropped(f, posts, n - 1), k, g)
    ensures SortedOut(f, posts, n, Kept(f, posts, n), Dropped(f, posts, n), kept, gone)
  {
    var m := n - 1;
    var survivors, dropped, verdict := Kept(f, posts, m), Dropped(f, posts, m), Verdict(f, posts, m);
    kept, gone := k, g;
    VerdictIsRight(f, posts, m);
    if verdict.None? {
      KeepOne(f, posts, m, survivors, dropped, k, g);
      kept := k + [m];
    } else {
      DropOne(f, posts, m, survivors, dropped, k, g, Drop(posts[m].id, verdict.value));
      gone := g + [m];
    }
  }

  lemma {:induction false} VerdictsSortOut(f: Filters, posts: seq<Post>, n: nat) returns (kept: seq<nat>, gone: seq<nat>)
    requires n <= |posts|
    ensures SortedOut(f, posts, n, Kept(f, posts, n), Dropped(f, posts, n), kept, gone)
  {
    if n == 0 {
      kept, gone := [], [];
    } else {
      var k, g := VerdictsSortOut(f, posts, n - 1);
      kept, gone := OneVerdict(f, posts, n, k, g);
    }
  }

  /** The loop, on what the queries answered. */
  method PrefilterPosts(posts: seq<Post>, f: Filters, droppedBefore: seq<Drop>)
    returns (survivors: seq<Post>, dropped: seq<Drop>)
    ensures survivors == Survivors(f, posts)
    ensures dropped == droppedBefore + Dropped(f, posts, |posts|)
    ensures forall p | p in survivors :: p.id !in f.posted && p.id !in f.drafted && f.matches(p.text)
    ensures exists kept, gone ::
      SortedOut(f, posts, |posts|, survivors, dropped[|droppedBefore|..], kept, gone)
  {
    survivors, dropped := [], droppedBefore;
    var campaignRemaining: int := f.campaign;
    var subredditRemaining: Option<int> := if f.subreddit.Some? then Some(f.subreddit.value) else None;
    for i := 0 to |posts|
      invariant survivors == Kept(f, posts, i)
      invariant dropped == droppedBefore + Dropped(f, posts, i)
      invariant campaignRemaining == f.campaign - |survivors|
      invariant subredditRemaining.Some? == f.subreddit.Some?
      invariant subredditRemaining.Some? ==> subredditRemaining.value == f.subreddit.value - |survivors|
    {
      var post := posts[i];
      KeptAreTheFirstEligible(f, posts, i);
      if post.id in f.posted {
        dropped := dropped + [Drop(post.id, ALREADY_POSTED)];
      } else if post.id in f.drafted {
        dropped := dropped + [Drop(post.id, DUPLICATE_DRAFT)];
      } else if !f.matches(post.text) {
        dropped := dropped + [Drop(post.id, KEYWORD_FILTER)];
      } else if campaignRemaining <= 0 {
        dropped := dropped + [Drop(post.id, CAMPAIGN_DAILY_CAP)];
      } else if subredditRemaining.Some? && subredditRemaining.value <= 0 {
        dropped := dropped + [Drop(post.id, SUBREDDIT_DAILY_CAP)];
      } else {
        survivors := survivors + [post];
        campaignRemaining := campaignRemaining - 1;
        if subredditRemaining.Some? {
          subredditRemaining := Some(subredditRemaining.value - 1);
        }
      }
    }
    ghost var kept, gone := VerdictsSortOut(f, posts, |posts|);
    assert dropped[|droppedBefore|..] == Dropped(f, posts, |posts|);
  }

  /* ---- the peek is exact for a run alone on its keys ---- */

  function Distinct(ids: seq<PostId>): set<PostId> {
    set p | p in ids
  }

  lemma {:induction false} DistinctAreFewer(ids: seq<PostId>)
    ensures |Distinct(ids)| <= |ids|
    ensures |Distinct(ids)| == |ids| <==> NoRepeats(ids)
  {
    if ids != [] {
      var n := |ids| - 1;
      DistinctAreFewer(ids[..n]);
      assert ids == ids[..n] + [ids[n]];
      assert Distinct(ids) == Distinct(ids[..n]) + {ids[n]};
    }
  }

  /** Nobody took a slot between the peek and the gate, and every drafted post was peeked for. */
  ghost predicate PeekedFor(g: Gate, s: Store, survivors: seq<PostId>, drafts: seq<PostId>) {
    && g.keyCaps != [] && NoRepeats(Keys(g.keyCaps))
    && (forall i | 0 <= i < |g.keyCaps| :: |survivors| <= Remaining(g.redis, s.counters, g.keyCaps[i]))
    && forall p | p in drafts :: p in survivors && (g.campaign, p) !in s.rows
  }

  /** What the gate leaves when it refuses nothing for a cap: one row a post, one slot a row. */
  ghost predicate AllPersisted(g: Gate, s: Store, drafts: seq<PostId>, done: Store) {
    && done.rows == s.rows + (set p | p in drafts :: (g.campaign, p))
    && forall k :: Get(done.counters, k) == Get(s.counters, k) + if k in Keys(g.keyCaps) then |Distinct(drafts)| else 0
  }

  lemma RoomForAnother(g: Gate, s: Store, survivors: seq<PostId>, drafts: seq<PostId>, post: PostId, done: Store)
    requires PeekedFor(g, s, survivors, drafts) && AllPersisted(g, s, drafts, done)
    requires post in survivors && post !in drafts
    ensures CanReserve(g.redis, done.counters, g.keyCaps)
  {
    assert Distinct(drafts) + {post} <= Distinct(survivors);
    assert |Distinct(drafts)| < |survivors| by {
      DistinctAreFewer(survivors);
      SubsetIsNoLarger(Distinct(drafts) + {post}, Distinct(survivors));
    }
    FewerThanPeekedFor(g, s, survivors, drafts, done);
  }

  /** The gate has room while fewer posts have their rows than were peeked for. */
  lemma FewerThanPeekedFor(g: Gate, s: Store, survivors: seq<PostId>, drafts: seq<PostId>, done: Store)
    requires PeekedFor(g, s, survivors, drafts) && AllPersisted(g, s, drafts, done)
    requires |Distinct(drafts)| < |survivors|
    ensures CanReserve(g.redis, done.counters, g.keyCaps)
  {
    var keys := Keys(g.keyCaps);
    forall i | 0 <= i < |g.keyCaps| ensures HasRoom(done.counters, g.keyCaps, i) {
      var kc := g.keyCaps[i];
      assert |survivors| <= Remaining(g.redis, s.counters, kc);
      OnceInList(keys, i);
    }
    assert |survivors| <= Remaining(g.redis, s.counters, g.keyCaps[0]);
  }

  lemma CountOnce(keys: seq<Key>, k: Key)
    requires NoRepeats(keys)
    ensures Count(keys, k) == if k in keys then 1 else 0
  {
    if k in keys {
      var i :| 0 <= i < |keys| && keys[i] == k;
      OnceInList(keys, i);
    }
  }

  lemma OnceInList(keys: seq<Key>, i: nat)
    requires NoRepeats(keys) && i < |keys|
    ensures Count(keys, keys[i]) == 1 && Count(keys[..i], keys[i]) == 0
  {
    assert keys == keys[..i] + [keys[i]] + keys[i + 1..];
    assert keys[i] !in keys[..i] && keys[i] !in keys[i + 1..];
  }

  lemma RepeatIsDuplicate(g: Gate, s: Store, drafts: seq<PostId>, post: PostId, before: Store)
    requires AllPersisted(g, s, drafts, before) && post in drafts
    ensures AllPersisted(g, s, drafts + [post], PersistOne(g, before, post))
  {
    assert (g.campaign, post) in before.rows;
    assert (set p | p in drafts + [post] :: (g.campaign, p)) == (set p | p in drafts :: (g.campaign, p));
    assert Distinct(drafts + [post]) == Distinct(drafts);
  }

  lemma FirstDraftIsInserted(g: Gate, s: Store, drafts: seq<PostId>, post: PostId, before: Store)
    requires AllPersisted(g, s, drafts, before)
    requires post !in drafts && (g.campaign, post) !in s.rows
    requires CanReserve(g.redis, before.counters, g.keyCaps) && NoRepeats(Keys(g.keyCaps))
    ensures AllPersisted(g, s, drafts + [post], PersistOne(g, before, post))
  {
    var done := PersistOne(g, before, post);
    assert (g.campaign, post) !in before.rows;
    OneMoreRow(g.campaign, drafts, post);
    OneMoreDistinct(drafts, post);
    DebitedOnce(before.counters, Keys(g.keyCaps));
  }

  lemma DebitedOnce(counters: map<Key, int>, keys: seq<Key>)
    requires NoRepeats(keys)
    ensures forall k :: Get(Debit(counters, keys), k) == Get(counters, k) + if k in keys then 1 else 0
  {
    forall k ensures Count(keys, k) == if k in keys then 1 else 0 {
      CountOnce(keys, k);
    }
  }

  lemma OneMoreRow(campaign: int, drafts: seq<PostId>, post: PostId)
    ensures (set p | p in drafts + [post] :: (campaign, p)) == (set p | p in drafts :: (campaign, p)) + {(campaign, post)}
  {
  }

  lemma OneMoreDistinct(ids: seq<PostId>, id: PostId)
    requires id !in ids
    ensures |Distinct(ids + [id])| == |Distinct(ids)| + 1
  {
    assert Distinct(ids + [id]) == Distinct(ids) + {id};
  }

  /** Every drafted survivor gets its row, however often and in whatever order the scout selected it: the
      gate refuses none of them for a cap, and the counters rise by one slot a row. */
  lemma {:induction false} SurvivorsAreNotRefused(g: Gate, s: Store, survivors: seq<PostId>, drafts: seq<PostId>)
    requires PeekedFor(g, s, survivors, drafts)
    ensures AllPersisted(g, s, drafts, PersistAll(g, s, drafts))
  {
    if drafts == [] {
      assert Distinct(drafts) == {};
    } else {
      var n := |drafts| - 1;
      assert drafts == drafts[..n] + [drafts[n]];
      var init, before := drafts[..n], PersistAll(g, s, drafts[..n]);
      SurvivorsAreNotRefused(g, s, survivors, init);
      if drafts[n] in init {
        RepeatIsDuplicate(g, s, init, drafts[n], before);
      } else {
        RoomForAnother(g, s, survivors, init, drafts[n], before);
        FirstDraftIsInserted(g, s, init, drafts[n], before);
      }
    }
  }

  /* ---- the two nodes together ---- */

  /** The counters `prefilter_node` peeks at and `persist_gate_node` debits. */
  function CapKeyList(campaign: nat, campaignCap: Option<int>, org: nat, subreddit: Option<string>,
                      subredditCap: Option<int>, day: string): seq<KeyCap> {
    [KeyCap(CapKeys.CampaignCapKey(campaign, day), campaignCap)]
    + if subreddit.Some? then [KeyCap(CapKeys.SubredditCapKey(org, subreddit.value, day), subredditCap)] else []
  }

  lemma CapKeyListIsApart(campaign: nat, campaignCap: Option<int>, org: nat, subreddit: Option<string>,
                          subredditCap: Option<int>, day: string)
    ensures NoRepeats(Keys(CapKeyList(campaign, campaignCap, org, subreddit, subredditCap, day)))
  {
    if subreddit.Some? {
      CapKeys.CapKeysDisjoint(campaign, day, org, subreddit.value, day);
    }
  }

  /** The filters `prefilter_node` builds: it peeks at the gate's counters, and the query for existing
      drafts of the org finds at least the campaign's own rows. */
  ghost predicate Peeks(f: Filters, g: Gate, s: Store) {
    && 1 <= |g.keyCaps| <= 2
    && f.campaign == Remaining(g.redis, s.counters, g.keyCaps[0])
    && f.subreddit == (if |g.keyCaps| == 2 then Some(Remaining(g.redis, s.counters, g.keyCaps[1])) else None)
    && forall p :: (g.campaign, p) in s.rows ==> p in f.drafted
  }

  lemma {:induction false} KeptPassTheScreens(f: Filters, posts: seq<Post>, n: nat, post: Post)
    requires n <= |posts| && post in Kept(f, posts, n)
    ensures post.id !in f.posted && post.id !in f.drafted
  {
    if n > 0 && post in Kept(f, posts, n - 1) {
      KeptPassTheScreens(f, posts, n - 1, post);
    }
  }

  lemma SurvivorsArePeekedFor(g: Gate, s: Store, f: Filters, posts: seq<Post>, drafts: seq<PostId>)
    requires Peeks(f, g, s) && NoRepeats(Keys(g.keyCaps))
    requires forall p | p in drafts :: p in Ids(Survivors(f, posts))
    ensures PeekedFor(g, s, Ids(Survivors(f, posts)), drafts)
  {
    var survivors := Ids(Survivors(f, posts));
    KeptAreTheFirstEligible(f, posts, |posts|);
    forall p | p in drafts ensures (g.campaign, p) !in s.rows {
      var i :| 0 <= i < |survivors| && survivors[i] == p;
      KeptPassTheScreens(f, posts, |posts|, Survivors(f, posts)[i]);
    }
  }

  /** End to end, for a run alone on its keys: whatever the scout selects among the survivors, with
      repetitions, and in whatever order the drafts come back, each drafted post gets a row. */
  lemma PeekIsExact(g: Gate, s: Store, f: Filters, posts: seq<Post>, drafts: seq<PostId>)
    requires Peeks(f, g, s) && NoRepeats(Keys(g.keyCaps))
    requires forall p | p in drafts :: p in Ids(Survivors(f, posts))
    ensures AllPersisted(g, s, drafts, PersistAll(g, s, drafts))
  {
    SurvivorsArePeekedFor(g, s, f, posts, drafts);
    SurvivorsAreNotRefused(g, s, Ids(Survivors(f, posts)), drafts);
  }

  /** And the peek drops nothing it could have kept: once every survivor has its row, a post it dropped for a cap
      would be refused by the gate, exactly if the poll listed no survivor twice.  The loop counts a slot each time
      a post is listed, the gate only one, so a later post is dropped that the gate would let in. */
  lemma CapDropsAreRight(g: Gate, s: Store, f: Filters, posts: seq<Post>, k: nat, drafts: seq<PostId>)
    requires Peeks(f, g, s) && NoRepeats(Keys(g.keyCaps))
    requires k < |posts| && Passes(f, posts[k]) && Verdict(f, posts, k).Some?
    requires forall p :: p in drafts <==> p in Ids(Survivors(f, posts))
    ensures !CanReserve(g.redis, PersistAll(g, s, drafts).counters, g.keyCaps) <==> NoRepeats(Ids(Survivors(f, posts)))
  {
    var survivors, done := Ids(Survivors(f, posts)), PersistAll(g, s, drafts);
    PeekIsExact(g, s, f, posts, drafts);
    CapDropMeansFull(f, posts, k);
    assert Distinct(drafts) == Distinct(survivors);
    DistinctAreFewer(survivors);
    if NoRepeats(survivors) {
      FullCounterRefuses(g, s, drafts, done, if Room(f) == f.campaign then 0 else 1);
    } else {
      SurvivorsArePeekedFor(g, s, f, posts, drafts);
      FewerThanPeekedFor(g, s, survivors, drafts, done);
    }
  }

  lemma CapDropMeansFull(f: Filters, posts: seq<Post>, k: nat)
    requires k < |posts| && Passes(f, posts[k]) && Verdict(f, posts, k).Some?
    ensures |Survivors(f, posts)| == Room(f)
  {
    KeptAreTheFirstEligible(f, posts, |posts|);
    EligibleGrows(f, posts, k, |posts|);
  }

  lemma FullCounterRefuses(g: Gate, s: Store, drafts: seq<PostId>, done: Store, i: nat)
    requires AllPersisted(g, s, drafts, done) && NoRepeats(Keys(g.keyCaps))
    requires i < |g.keyCaps| && Remaining(g.redis, s.counters, g.keyCaps[i]) <= |Distinct(drafts)|
    ensures !CanReserve(g.redis, done.counters, g.keyCaps)
  {
    OnceInList(Keys(g.keyCaps), i);
    assert !g.redis || !HasRoom(done.counters, g.keyCaps, i);
  }

  lemma {:induction false} EligibleGrows(f: Filters, posts: seq<Post>, k: nat, n: nat)
    requires k <= n <= |posts|
    ensures |Eligible(f, posts, k)| <= |Eligible(f, posts, n)|
  {
    if k < n {
      EligibleGrows(f, posts, k, n - 1);
    }
  }
}
