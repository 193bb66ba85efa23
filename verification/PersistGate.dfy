/** `reserve_daily_slot`, `reserve_daily_slots` and the loop of `persist_gate_node`, run alone on their keys.

    The methods work on a Redis counter store and a draft table in place; `PersistAll` says what a whole run
    of the gate does, and redelivery is proved about it. */
module PersistGate {
  import opened Common
  import opened DailyCap

  datatype KeyCap = KeyCap(key: Key, cap: Option<int>)

  /** What one run of the gate debits for each draft. */
  datatype Gate = Gate(campaign: int, keyCaps: seq<KeyCap>, redis: bool)

  datatype Store = Store(counters: map<Key, int>, rows: set<(int, PostId)>)

  function Keys(keyCaps: seq<KeyCap>): (keys: seq<Key>)
    ensures |keys| == |keyCaps|
    ensures forall i | 0 <= i < |keyCaps| :: keys[i] == keyCaps[i].key
  {
    if keyCaps == [] then [] else Keys(keyCaps[..|keyCaps| - 1]) + [keyCaps[|keyCaps| - 1].key]
  }

  /** Key number i still has room once the keys before it in the list are debited. */
  predicate HasRoom(counters: map<Key, int>, keyCaps: seq<KeyCap>, i: nat)
    requires i < |keyCaps|
  {
    && keyCaps[i].cap.Some? && keyCaps[i].cap.value > 0
    && Get(counters, keyCaps[i].key) + Count(Keys(keyCaps)[..i], keyCaps[i].key) < keyCaps[i].cap.value
  }

  predicate CanReserve(redis: bool, counters: map<Key, int>, keyCaps: seq<KeyCap>) {
    (redis || keyCaps == []) && forall i | 0 <= i < |keyCaps| :: HasRoom(counters, keyCaps, i)
  }

  function Debit(counters: map<Key, int>, keys: seq<Key>): (result: map<Key, int>)
    ensures forall k :: Get(result, k) == Get(counters, k) + Count(keys, k)
  {
    if keys == [] then counters
    else
      var n := |keys| - 1;
      assert keys == keys[..n] + [keys[n]];
      Bump(Debit(counters, keys[..n]), keys[n], 1)
  }

  function PersistOne(g: Gate, s: Store, post: PostId): Store {
    if !CanReserve(g.redis, s.counters, g.keyCaps) || (g.campaign, post) in s.rows then s
    else Store(Debit(s.counters, Keys(g.keyCaps)), s.rows + {(g.campaign, post)})
  }

  function PersistAll(g: Gate, s: Store, posts: seq<PostId>): Store {
    if posts == [] then s
    else PersistOne(g, PersistAll(g, s, posts[..|posts| - 1]), posts[|posts| - 1])
  }

  /* ---- redelivery ---- */

  /** Offering the post again would change nothing. */
  predicate Settled(g: Gate, s: Store, post: PostId) {
    PersistOne(g, s, post) == s
  }

  /** Fuller counters never make room. */
  lemma RoomShrinks(redis: bool, a: map<Key, int>, b: map<Key, int>, keyCaps: seq<KeyCap>)
    requires forall k :: Get(a, k) <= Get(b, k)
    requires CanReserve(redis, b, keyCaps)
    ensures CanReserve(redis, a, keyCaps)
  {
    forall i | 0 <= i < |keyCaps| ensures HasRoom(a, keyCaps, i) {
      assert HasRoom(b, keyCaps, i);
    }
  }

  lemma SettledMeans(g: Gate, s: Store, post: PostId)
    ensures Settled(g, s, post) <==>
            !CanReserve(g.redis, s.counters, g.keyCaps) || (g.campaign, post) in s.rows
  {
    if CanReserve(g.redis, s.counters, g.keyCaps) && (g.campaign, post) !in s.rows {
      assert (g.campaign, post) in PersistOne(g, s, post).rows;
    }
  }

  /** A refusal or a duplicate stays one, whichever drafts any gate persists in between. */
  lemma SettledIsStable(g: Gate, s: Store, post: PostId, other: Gate, next: PostId)
    requires Settled(g, s, post)
    ensures Settled(g, PersistOne(other, s, next), post)
  {
    var s' := PersistOne(other, s, next);
    SettledMeans(g, s, post);
    SettledMeans(g, s', post);
    if CanReserve(g.redis, s'.counters, g.keyCaps) {
      RoomShrinks(g.redis, s.counters, s'.counters, g.keyCaps);
    }
  }

  lemma {:induction false} SettledSurvivesRun(g: Gate, s: Store, post: PostId, other: Gate, posts: seq<PostId>)
    requires Settled(g, s, post)
    ensures Settled(g, PersistAll(other, s, posts), post)
  {
    if posts != [] {
      var n := |posts| - 1;
      SettledSurvivesRun(g, s, post, other, posts[..n]);
      SettledIsStable(g, PersistAll(other, s, posts[..n]), post, other, posts[n]);
    }
  }

  lemma {:induction false} RunSettlesItsPosts(g: Gate, s: Store, posts: seq<PostId>, i: nat)
    requires i < |posts|
    ensures Settled(g, PersistAll(g, s, posts), posts[i])
  {
    var n := |posts| - 1;
    if i < n {
      RunSettlesItsPosts(g, s, posts[..n], i);
      SettledIsStable(g, PersistAll(g, s, posts[..n]), posts[i], g, posts[n]);
    } else {
      var before := PersistAll(g, s, posts[..n]);
      if PersistOne(g, before, posts[n]) == before {
      } else {
        assert (g.campaign, posts[n]) in PersistOne(g, before, posts[n]).rows;
      }
    }
  }

  lemma {:induction false} SettledPostsAreIdle(g: Gate, s: Store, posts: seq<PostId>)
    requires forall i | 0 <= i < |posts| :: Settled(g, s, posts[i])
    ensures PersistAll(g, s, posts) == s
  {
    if posts != [] {
      var n := |posts| - 1;
      assert forall i | 0 <= i < n :: posts[..n][i] == posts[i];
      SettledPostsAreIdle(g, s, posts[..n]);
    }
  }

  /** The exact condition for a whole run to be idle: each of its drafts is refused as the counters stand, or has
      its row already. */
  lemma RunIsIdleExactly(g: Gate, s: Store, posts: seq<PostId>)
    ensures PersistAll(g, s, posts) == s <==>
            forall p | p in posts :: !CanReserve(g.redis, s.counters, g.keyCaps) || (g.campaign, p) in s.rows
  {
    if PersistAll(g, s, posts) == s {
      forall p | p in posts ensures !CanReserve(g.redis, s.counters, g.keyCaps) || (g.campaign, p) in s.rows {
        var i :| 0 <= i < |posts| && posts[i] == p;
        RunSettlesItsPosts(g, s, posts, i);
        SettledMeans(g, s, p);
      }
    }
    if forall p | p in posts :: !CanReserve(g.redis, s.counters, g.keyCaps) || (g.campaign, p) in s.rows {
      forall i | 0 <= i < |posts| ensures Settled(g, s, posts[i]) {
        SettledMeans(g, s, posts[i]);
      }
      SettledPostsAreIdle(g, s, posts);
    }
  }

  /** Runs of the gate, one after the other. */
  function PersistRuns(s: Store, runs: seq<(Gate, seq<PostId>)>): Store {
    if runs == [] then s
    else PersistAll(runs[|runs| - 1].0, PersistRuns(s, runs[..|runs| - 1]), runs[|runs| - 1].1)
  }

  lemma {:induction false} SettledAfterRuns(s: Store, runs: seq<(Gate, seq<PostId>)>, k: nat, post: PostId)
    requires k < |runs| && post in runs[k].1
    ensures Settled(runs[k].0, PersistRuns(s, runs), post)
  {
    var n := |runs| - 1;
    var before := PersistRuns(s, runs[..n]);
    if k == n {
      var i :| 0 <= i < |runs[n].1| && runs[n].1[i] == post;
      RunSettlesItsPosts(runs[n].0, before, runs[n].1, i);
    } else {
      SettledAfterRuns(s, runs[..n], k, post);
      SettledSurvivesRun(runs[k].0, before, post, runs[n].0, runs[n].1);
    }
  }

  /** Redelivery: once the gate has run over its drafts, running it again over any of them, in any order,
      at once or after any other runs in series, adds no row and leaves every counter as it stood. */
  lemma RedeliveryChangesNothing(s: Store, runs: seq<(Gate, seq<PostId>)>, k: nat, again: seq<PostId>)
    requires k < |runs| && forall p | p in again :: p in runs[k].1
    ensures var done := PersistRuns(s, runs);
      PersistAll(runs[k].0, done, again) == done
  {
    var done := PersistRuns(s, runs);
    forall j | 0 <= j < |again| ensures Settled(runs[k].0, done, again[j]) {
      SettledAfterRuns(s, runs, k, again[j]);
    }
    SettledPostsAreIdle(runs[k].0, done, again);
  }

  /* ---- the code, on shared stores ---- */

  class RedisCounters {
    var values: map<Key, int>

    method Incr(k: Key) returns (v: int)
      modifies this
      ensures values == Bump(old(values), k, 1) && v == Get(values, k)
    {
      values := Bump(values, k, 1);
      v := values[k];
    }

    method Decr(k: Key)
      modifies this
      ensures values == Bump(old(values), k, -1)
    {
      values := Bump(values, k, -1);
    }
  }

  class DraftTable {
    var rows: set<(int, PostId)>

    /** The savepoint insert: refused by the unique constraint on (campaign, post). */
    method Insert(campaign: int, post: PostId) returns (inserted: bool)
      modifies this
      ensures inserted <==> (campaign, post) !in old(rows)
      ensures rows == old(rows) + {(campaign, post)}
    {
      inserted := (campaign, post) !in rows;
      rows := rows + {(campaign, post)};
    }
  }

  method ReserveDailySlot(redis: RedisCounters?, key: Key, cap: Option<int>) returns (ok: bool)
    modifies redis
    ensures ok <==> redis != null && cap.Some? && cap.value > 0 && old(Get(redis.values, key)) < cap.value
    ensures redis != null ==>
      forall k :: Get(redis.values, k) == old(Get(redis.values, k)) + if ok && k == key then 1 else 0
  {
    if cap.None? || cap.value <= 0 {
      return false;
    }
    if redis == null {
      return false;
    }
    var value := redis.Incr(key);
    if value > cap.value {
      redis.Decr(key);
      return false;
    }
    return true;
  }

  /** Give one slot back on each key. */
  method ReleaseSlots(redis: RedisCounters, keys: seq<Key>)
    modifies redis
    ensures forall k :: Get(redis.values, k) == old(Get(redis.values, k)) - Count(keys, k)
  {
    for i := 0 to |keys|
      invariant forall k :: Get(redis.values, k) == old(Get(redis.values, k)) - Count(keys[..i], k)
    {
      assert keys[..i + 1] == keys[..i] + [keys[i]];
      redis.Decr(keys[i]);
    }
    assert keys[..|keys|] == keys;
  }

  method ReserveDailySlots(redis: RedisCounters?, keyCaps: seq<KeyCap>) returns (ok: bool)
    modifies redis
    ensures ok <==> CanReserve(redis != null, old(Reading(redis)), keyCaps)
    ensures redis != null ==>
      forall k :: Get(redis.values, k) == old(Get(redis.values, k)) + if ok then Count(Keys(keyCaps), k) else 0
  {
    var reserved: seq<Key> := [];
    var keys := Keys(keyCaps);
    for i := 0 to |keyCaps|
      invariant reserved == keys[..i]
      invariant redis == null ==> i == 0
      invariant redis != null ==> forall j | 0 <= j < i :: HasRoom(old(redis.values), keyCaps, j)
      invariant redis != null ==>
        forall k :: Get(redis.values, k) == old(Get(redis.values, k)) + Count(reserved, k)
    {
      assert keys[..i + 1] == keys[..i] + [keys[i]];
      var claimed := ReserveDailySlot(redis, keyCaps[i].key, keyCaps[i].cap);
      if claimed {
        reserved := reserved + [keyCaps[i].key];
      } else {
        if redis != null {
          assert !HasRoom(old(redis.values), keyCaps, i);
          ReleaseSlots(redis, reserved);
        }
        return false;
      }
    }
    assert keys[..|keyCaps|] == keys;
    return true;
  }

  ghost predicate SameCounts(a: map<Key, int>, b: map<Key, int>) {
    forall k :: Get(a, k) == Get(b, k)
  }

  lemma SameCountsReserveAlike(redis: bool, a: map<Key, int>, b: map<Key, int>, keyCaps: seq<KeyCap>)
    requires SameCounts(a, b)
    ensures CanReserve(redis, a, keyCaps) == CanReserve(redis, b, keyCaps)
  {
    if CanReserve(redis, a, keyCaps) { RoomShrinks(redis, b, a, keyCaps); }
    if CanReserve(redis, b, keyCaps) { RoomShrinks(redis, a, b, keyCaps); }
  }

  ghost function Reading(redis: RedisCounters?): map<Key, int>
    reads redis
  {
    if redis == null then map[] else redis.values
  }

  /** One round of the loop. */
  method PersistPost(redis: RedisCounters?, table: DraftTable, campaign: int, keyCaps: seq<KeyCap>, post: PostId,
                     ghost before: Store) returns (inserted: bool)
    requires keyCaps != [] && SameCounts(Reading(redis), before.counters) && table.rows == before.rows
    modifies redis, table
    ensures var after := PersistOne(Gate(campaign, keyCaps, redis != null), before, post);
      SameCounts(Reading(redis), after.counters) && table.rows == after.rows
    ensures inserted <==> (campaign, post) in table.rows && (campaign, post) !in before.rows
    ensures table.rows == before.rows + if inserted then {(campaign, post)} else {}
  {
    SameCountsReserveAlike(redis != null, Reading(redis), before.counters, keyCaps);
    var reserved := ReserveDailySlots(redis, keyCaps);
    if !reserved {
      return false;
    }
    inserted := table.Insert(campaign, post);
    if !inserted {
      ReleaseSlots(redis, Keys(keyCaps));
    }
  }

  /** Every draft debits the campaign counter, and a Reddit draft its subreddit's too. */
  method PersistGateNode(redis: RedisCounters?, table: DraftTable, campaign: int, keyCaps: seq<KeyCap>,
                         posts: seq<PostId>) returns (persisted: seq<PostId>)
    requires keyCaps != []
    modifies redis, table
    ensures var done := PersistAll(Gate(campaign, keyCaps, redis != null),
                                   Store(old(Reading(redis)), old(table.rows)), posts);
      SameCounts(Reading(redis), done.counters) && table.rows == done.rows
    ensures NoRepeats(persisted)
    ensures forall p :: p in persisted <==> (campaign, p) in table.rows && (campaign, p) !in old(table.rows)
  {
    persisted := [];
    ghost var g := Gate(campaign, keyCaps, redis != null);
    ghost var start := Store(Reading(redis), table.rows);
    for i := 0 to |posts|
      invariant SameCounts(Reading(redis), PersistAll(g, start, posts[..i]).counters)
      invariant table.rows == PersistAll(g, start, posts[..i]).rows
      invariant NoRepeats(persisted)
      invariant table.rows >= start.rows
      invariant forall p :: p in persisted <==> (campaign, p) in table.rows && (campaign, p) !in start.rows
    {
      assert posts[..i + 1][..i] == posts[..i];
      var inserted := PersistPost(redis, table, campaign, keyCaps, posts[i], PersistAll(g, start, posts[..i]));
      if inserted {
        persisted := persisted + [posts[i]];
      }
    }
    assert posts[..|posts|] == posts;
  }
}
