/** The in-process id cache of `utils/auth.py` and the JIT provisioning that reads through it.  Times are
    in seconds; the clock may jump. */
module IdCache {
  import opened Common

  datatype Entry = Entry(value: int, at: int)

  type Cache = map<string, Entry>

  const TTL := 300
  const MAX_SIZE := 10_000

  /* ---- the cache ---- */

  predicate Live(cache: Cache, key: string, now: int) {
    key in cache && now - cache[key].at <= TTL
  }

  function Hit(cache: Cache, key: string, now: int): Option<int> {
    if Live(cache, key, now) then Some(cache[key].value) else None
  }

  /** A read drops the entry it finds expired. */
  function AfterGet(cache: Cache, key: string, now: int): Cache {
    if Live(cache, key, now) then cache else cache - {key}
  }

  /** A write to a full cache evicts the victim first. */
  function AfterSet(cache: Cache, key: string, value: int, now: int, victim: string): Cache {
    (if |cache| >= MAX_SIZE && key !in cache then cache - {victim} else cache)[key := Entry(value, now)]
  }

  predicate Oldest(cache: Cache, victim: string) {
    victim in cache && forall k | k in cache :: cache[victim].at <= cache[k].at
  }

  class IdCacheStore {
    var entries: Cache

    constructor ()
      ensures entries == map[]
    {
      entries := map[];
    }

    method Get(key: string, now: int) returns (value: Option<int>)
      modifies this
      ensures value == Hit(old(entries), key, now) && entries == AfterGet(old(entries), key, now)
      ensures value.Some? <==> key in old(entries) && now - old(entries)[key].at <= 300
      ensures value.Some? ==> value.value == old(entries)[key].value && entries == old(entries)
      ensures value.None? ==> entries == old(entries) - {key}
    {
      if key !in entries {
        assert entries - {key} == entries;
        return None;
      }
      var entry := entries[key];
      if now - entry.at > TTL {
        entries := entries - {key};
        return None;
      }
      return Some(entry.value);
    }

    /** `min(cache, key=...)` over the insertion times. */
    method FindOldest() returns (victim: string)
      requires entries != map[]
      ensures Oldest(entries, victim)
    {
      var first :| first in entries;
      victim := first;
      var left := entries.Keys;
      while left != {}
        invariant left <= entries.Keys && victim in entries
        invariant forall k | k in entries && k !in left :: entries[victim].at <= entries[k].at
        decreases |left|
      {
        var k :| k in left;
        if entries[k].at < entries[victim].at {
          victim := k;
        }
        left := left - {k};
      }
    }

    method Set(key: string, value: int, now: int) returns (ghost victim: string)
      requires |entries| <= MAX_SIZE
      modifies this
      ensures entries == AfterSet(old(entries), key, value, now, victim)
      ensures old(entries) != map[] ==>
        victim in old(entries) && forall k | k in old(entries) :: old(entries)[victim].at <= old(entries)[k].at
      ensures key in entries && entries[key] == Entry(value, now)
      ensures forall k | k != key :: k in entries <==>
        k in old(entries) && !(|old(entries)| >= 10_000 && key !in old(entries) && k == victim)
      ensures forall k | k in entries && k != key :: entries[k] == old(entries)[k]
      ensures |entries| <= MAX_SIZE
    {
      victim := key;
      if entries != map[] {
        var oldest := FindOldest();
        victim := oldest;
        if |entries| >= MAX_SIZE && key !in entries {
          entries := entries - {oldest};
        }
      }
      entries := entries[key := Entry(value, now)];
    }
  }

  /* ---- what a hit means, over any run of the cache ---- */

  datatype Op = SetOp(key: string, value: int, at: int, victim: string) | GetOp(key: string, at: int) | PopOp(key: string)

  function Apply(cache: Cache, op: Op): Cache {
    match op
    case SetOp(key, value, at, victim) => AfterSet(cache, key, value, at, victim)
    case GetOp(key, at) => AfterGet(cache, key, at)
    case PopOp(key) => cache - {key}
  }

  function Run(ops: seq<Op>): Cache {
    if ops == [] then map[] else Apply(Run(ops[..|ops| - 1]), ops[|ops| - 1])
  }

  ghost predicate LastSet(ops: seq<Op>, i: nat, key: string) {
    && i < |ops| && ops[i].SetOp? && ops[i].key == key
    && forall j | i < j < |ops| && ops[j].SetOp? :: ops[j].key != key
  }

  lemma LastSetExtends(ops: seq<Op>, i: nat, key: string)
    requires |ops| > 0 && LastSet(ops[..|ops| - 1], i, key)
    requires !(ops[|ops| - 1].SetOp? && ops[|ops| - 1].key == key)
    ensures LastSet(ops, i, key)
  {
    forall j | i < j < |ops| && ops[j].SetOp? ensures ops[j].key != key {
      if j < |ops| - 1 { assert ops[..|ops| - 1][j] == ops[j]; }
    }
  }

  lemma {:induction false} EntryIsTheLastSet(ops: seq<Op>, key: string) returns (i: nat)
    requires key in Run(ops)
    ensures LastSet(ops, i, key) && Run(ops)[key] == Entry(ops[i].value, ops[i].at)
  {
    var n := |ops| - 1;
    if ops[n].SetOp? && ops[n].key == key {
      i := n;
    } else {
      i := EntryIsTheLastSet(ops[..n], key);
      LastSetExtends(ops, i, key);
    }
  }

  /** A hit is the last value set for that key, and it was set no longer than the TTL ago. */
  lemma HitIsTheLastSet(ops: seq<Op>, key: string, now: int) returns (i: nat)
    requires Hit(Run(ops), key, now).Some?
    ensures LastSet(ops, i, key) && Hit(Run(ops), key, now) == Some(ops[i].value) && now - ops[i].at <= TTL
  {
    i := EntryIsTheLastSet(ops, key);
  }

  /** And a value just set is a hit for as long as the TTL, whatever else the cache holds. */
  lemma SetIsHit(ops: seq<Op>, key: string, value: int, at: int, victim: string, now: int)
    ensures Hit(Run(ops + [SetOp(key, value, at, victim)]), key, now) == if now - at <= 300 then Some(value) else None
    ensures Hit(Run(ops + [PopOp(key)]), key, now) == None
    ensures forall other | other != key && other != victim ::
      Hit(Run(ops + [SetOp(key, value, at, victim)]), other, now) == Hit(Run(ops), other, now)
    ensures forall other | other != key ::
      Hit(Run(ops + [PopOp(key)]), other, now) == Hit(Run(ops), other, now)
  {
    assert (ops + [SetOp(key, value, at, victim)])[..|ops|] == ops;
    assert (ops + [PopOp(key)])[..|ops|] == ops;
  }

  /* ---- provisioning ---- */

  /** A table of rows with their clerk ids, the unique index on those, and the id sequence. */
  datatype Table = Table(rows: map<int, string>, byClerk: map<string, int>, next: int)

  ghost predicate Consistent(t: Table) {
    && (forall id | id in t.rows :: t.rows[id] in t.byClerk && t.byClerk[t.rows[id]] == id && id < t.next)
    && (forall clerk | clerk in t.byClerk :: t.byClerk[clerk] in t.rows && t.rows[t.byClerk[clerk]] == clerk)
  }

  function Insert(t: Table, clerk: string): Table {
    Table(t.rows[t.next := clerk], t.byClerk[clerk := t.next], t.next + 1)
  }

  datatype Answer = Answer(table: Table, id: int)

  /** Get-or-create without a cache.  If another request inserts the row between the lookup and the insert,
      its row is the answer and the insert that did nothing has used up an id. */
  function Direct(t: Table, clerk: string, raced: bool): Answer {
    if clerk in t.byClerk then Answer(t, t.byClerk[clerk])
    else
      var t' := Insert(t, clerk);
      Answer(if raced then t'.(next := t'.next + 1) else t', t.next)
  }

  lemma DirectIsRight(t: Table, clerk: string, raced: bool)
    requires Consistent(t)
    ensures var Answer(t', id) := Direct(t, clerk, raced);
      && Consistent(t') && id in t'.rows && t'.rows[id] == clerk
      && (forall other | other in t.rows :: other in t'.rows && t'.rows[other] == t.rows[other])
      && (clerk in t.byClerk ==> t' == t)
      && (clerk !in t.byClerk ==> t'.rows == t.rows[t.next := clerk] && id == t.next)
  {
  }

  /** An organization hit is used only if the row is there under the same clerk id. */
  predicate OrgHitUsed(t: Table, cache: Cache, clerk: string, now: int) {
    var hit := Hit(cache, clerk, now);
    hit.Some? && hit.value in t.rows && t.rows[hit.value] == clerk
  }

  /** A user hit is used if the row is there at all. */
  predicate UserHitUsed(t: Table, cache: Cache, clerk: string, now: int) {
    var hit := Hit(cache, clerk, now);
    hit.Some? && hit.value in t.rows
  }

  function ViaOrgCache(t: Table, cache: Cache, clerk: string, now: int, raced: bool): Answer {
    if OrgHitUsed(t, cache, clerk, now) then Answer(t, Hit(cache, clerk, now).value) else Direct(t, clerk, raced)
  }

  /** An organization is found through the cache as without it, whatever the cache holds. */
  lemma OrgCacheIsTransparent(t: Table, cache: Cache, clerk: string, now: int, raced: bool)
    requires Consistent(t)
    ensures ViaOrgCache(t, cache, clerk, now, raced) == Direct(t, clerk, raced)
  {
    if OrgHitUsed(t, cache, clerk, now) {
      assert t.byClerk[t.rows[Hit(cache, clerk, now).value]] == Hit(cache, clerk, now).value;
    }
  }

  function ViaUserCache(t: Table, cache: Cache, clerk: string, now: int, raced: bool): Answer {
    if UserHitUsed(t, cache, clerk, now) then Answer(t, Hit(cache, clerk, now).value) else Direct(t, clerk, raced)
  }

  /** What the user cache may say of a table: no entry names another user's row, now or ever. */
  ghost predicate Sound(cache: Cache, t: Table) {
    forall k | k in cache ::
      cache[k].value < t.next && (cache[k].value in t.rows ==> t.rows[cache[k].value] == k)
  }

  /** A user is found through the cache as without it exactly when the live entry, if any, does not name
      another user's row. */
  lemma UserCacheIsExact(t: Table, cache: Cache, clerk: string, now: int, raced: bool)
    requires Consistent(t)
    ensures ViaUserCache(t, cache, clerk, now, raced) == Direct(t, clerk, raced)
            <==> (UserHitUsed(t, cache, clerk, now) ==> t.rows[Hit(cache, clerk, now).value] == clerk)
  {
    if UserHitUsed(t, cache, clerk, now) {
      var id := Hit(cache, clerk, now).value;
      if clerk in t.byClerk { assert t.rows[t.byClerk[clerk]] == clerk; }
      if t.rows[id] == clerk { assert t.byClerk[clerk] == id; }
    }
  }

  /** Whatever part of a sound cache is left, it is sound of the table after a lookup or insert, whose row is set. */
  lemma SetKeepsSound(t: Table, cache: Cache, clerk: string, now: int, raced: bool, victim: string)
    requires Consistent(t) && Sound(cache, t)
    ensures var Answer(t', id) := Direct(t, clerk, raced); Sound(AfterSet(cache, clerk, id, now, victim), t')
  {
    DirectIsRight(t, clerk, raced);
  }

  class Provisioning {
    var table: Table
    const cache: IdCacheStore

    constructor (cache: IdCacheStore)
      ensures this.cache == cache && table == Table(map[], map[], 1)
    {
      this.cache := cache;
      table := Table(map[], map[], 1);
    }

    /** The lookup, the insert that does nothing on a conflict, and the fetch of the winner's row. */
    method SelectOrInsert(clerk: string, now: int, raced: bool) returns (id: int)
      requires |cache.entries| <= MAX_SIZE
      modifies this, cache
      ensures Answer(table, id) == Direct(old(table), clerk, raced)
      ensures exists victim :: cache.entries == AfterSet(old(cache.entries), clerk, id, now, victim)
      ensures |cache.entries| <= MAX_SIZE
    {
      if clerk in table.byClerk {
        id := table.byClerk[clerk];
      } else {
        var next := table.next;
        if raced {
          table := Insert(table, clerk);
          table := table.(next := table.next + 1);
          id := table.byClerk[clerk];
        } else {
          table := Insert(table, clerk);
          id := next;
        }
      }
      ghost var victim := cache.Set(clerk, id, now);
    }

    /** The same row as without a cache, for any cache contents whatever. */
    method GetOrCreateOrganization(clerk: string, now: int, raced: bool) returns (id: int)
      requires Consistent(table) && |cache.entries| <= MAX_SIZE
      modifies this, cache
      ensures Answer(table, id) == Direct(old(table), clerk, raced)
      ensures id in table.rows && table.rows[id] == clerk
      ensures clerk in old(table).byClerk ==> table == old(table)
      ensures clerk !in old(table).byClerk ==> table.rows == old(table).rows[id := clerk] && id !in old(table).rows
      ensures Consistent(table) && |cache.entries| <= MAX_SIZE
    {
      DirectIsRight(table, clerk, raced);
      var cached := cache.Get(clerk, now);
      assert cache.entries.Keys <= old(cache.entries.Keys);
      SubsetIsNoLarger(cache.entries.Keys, old(cache.entries.Keys));
      if cached.Some? {
        if cached.value in table.rows && table.rows[cached.value] == clerk {
          return cached.value;
        }
        SubsetIsNoLarger((cache.entries - {clerk}).Keys, cache.entries.Keys);
        cache.entries := cache.entries - {clerk};
      }
      id := SelectOrInsert(clerk, now, raced);
    }

    /** The same row as without a cache, if the cache is sound; and it stays so. */
    method GetOrCreateUser(clerk: string, now: int, raced: bool) returns (id: int)
      requires Consistent(table) && |cache.entries| <= MAX_SIZE
      modifies this, cache
      ensures Answer(table, id) == ViaUserCache(old(table), old(cache.entries), clerk, now, raced)
      ensures clerk in old(cache.entries) && now - old(cache.entries)[clerk].at <= 300 && old(cache.entries)[clerk].value in old(table).rows
              ==> id == old(cache.entries)[clerk].value && table == old(table) && cache.entries == old(cache.entries)
      ensures old(Sound(cache.entries, table)) ==>
        && Answer(table, id) == Direct(old(table), clerk, raced) && Sound(cache.entries, table)
        && id in table.rows && table.rows[id] == clerk
        && (if clerk in old(table).byClerk then table == old(table) else table.rows == old(table).rows[id := clerk])
      ensures Consistent(table) && |cache.entries| <= MAX_SIZE
    {
      DirectIsRight(table, clerk, raced);
      UserCacheIsExact(table, cache.entries, clerk, now, raced);
      var cached := cache.Get(clerk, now);
      assert cache.entries.Keys <= old(cache.entries.Keys);
      SubsetIsNoLarger(cache.entries.Keys, old(cache.entries.Keys));
      if cached.Some? {
        if cached.value in table.rows {
          return cached.value;
        }
      }
      ghost var read := cache.entries;
      id := SelectOrInsert(clerk, now, raced);
      if old(Sound(cache.entries, table)) {
        ghost var victim :| cache.entries == AfterSet(read, clerk, id, now, victim);
        SetKeepsSound(old(table), read, clerk, now, raced, victim);
      }
    }
  }

  /* ---- the user cache of one process over any run ---- */

  /** Requests of this process, inserts by others, and rows that vanish: a rolled-back transaction leaves
      the cache naming a row that is not there, and its id is never given out again. */
  datatype Event =
    | Request(clerk: string, now: int, raced: bool, victim: string)
    | OtherInsert(clerk: string)
    | Vanish(id: int)

  datatype State = State(table: Table, cache: Cache)

  function Step(s: State, e: Event): State {
    match e
    case Request(clerk, now, raced, victim) =>
      var Answer(table, id) := ViaUserCache(s.table, s.cache, clerk, now, raced);
      var read := AfterGet(s.cache, clerk, now);
      State(table, if UserHitUsed(s.table, s.cache, clerk, now) then read else AfterSet(read, clerk, id, now, victim))
    case OtherInsert(clerk) =>
      if clerk in s.table.byClerk then s.(table := s.table.(next := s.table.next + 1))
      else s.(table := Insert(s.table, clerk))
    case Vanish(id) =>
      if id !in s.table.rows then s
      else s.(table := s.table.(rows := s.table.rows - {id}, byClerk := s.table.byClerk - {s.table.rows[id]}))
  }

  function Exec(s: State, events: seq<Event>): State {
    if events == [] then s else Step(Exec(s, events[..|events| - 1]), events[|events| - 1])
  }

  lemma StepKeepsSound(s: State, e: Event)
    requires Consistent(s.table) && Sound(s.cache, s.table)
    ensures Consistent(Step(s, e).table) && Sound(Step(s, e).cache, Step(s, e).table)
    ensures e.Request? && e.clerk in s.cache && e.now - s.cache[e.clerk].at <= 300 && s.cache[e.clerk].value in s.table.rows
            ==> Step(s, e) == s
  {
    match e
    case Request(clerk, now, raced, victim) =>
      UserCacheIsExact(s.table, s.cache, clerk, now, raced);
      SetKeepsSound(s.table, AfterGet(s.cache, clerk, now), clerk, now, raced, victim);
      DirectIsRight(s.table, clerk, raced);
    case OtherInsert(_) =>
    case Vanish(_) =>
  }

  lemma SixSteps(s: State, e: seq<Event>)
    requires |e| == 6
    ensures Exec(s, e) == Step(Step(Step(Step(Step(Step(s, e[0]), e[1]), e[2]), e[3]), e[4]), e[5])
  {
    assert e[..5][..4] == e[..4] && e[..4][..3] == e[..3] && e[..3][..2] == e[..2] && e[..2][..1] == e[..1] && e[..1][..0] == [];
    assert Exec(s, e[..1]) == Step(s, e[0]);
    assert Exec(s, e[..3]) == Step(Step(Exec(s, e[..1]), e[1]), e[2]);
    assert Exec(s, e[..5]) == Step(Step(Exec(s, e[..3]), e[3]), e[4]);
  }

  lemma CachedThenGone(user: string, now: int, victim: string)
    ensures Step(Step(State(Table(map[], map[], 1), map[]), Request(user, now, false, victim)), Vanish(1))
         == State(Table(map[], map[], 2), map[user := Entry(1, now)])
  {
    var s1 := Step(State(Table(map[], map[], 1), map[]), Request(user, now, false, victim));
    assert s1.table.rows == map[1 := user] && s1.table.byClerk == map[user := 1];
    assert s1.cache == map[user := Entry(1, now)];
  }

  lemma ThreeInserts(user: string, other: string, cache: Cache)
    requires user != other
    ensures Step(Step(Step(State(Table(map[], map[], 2), cache), OtherInsert(user)), OtherInsert(user)), OtherInsert(other))
         == State(Table(map[2 := user, 4 := other], map[user := 2, other := 4], 5), cache)
  {
    assert Step(State(Table(map[], map[], 2), cache), OtherInsert(user)) == State(Table(map[2 := user], map[user := 2], 3), cache);
  }

  lemma EntryWithoutRow(user: string, other: string, now: int, victim: string)
    requires user != other
    ensures var table := Table(map[2 := user, 4 := other], map[user := 2, other := 4], 5);
      Step(State(table, map[user := Entry(1, now)]), Request(user, now, false, victim)) == State(table, map[user := Entry(2, now)])
  {
    var cache := map[user := Entry(1, now)];
    assert 1 !in map[2 := user, 4 := other];
    assert AfterGet(cache, user, now) == cache && cache[user := Entry(2, now)] == map[user := Entry(2, now)];
  }

  /** A row that vanishes leaves its id in the cache; the next request of that user finds no row there and gets the
      row that another request has inserted meanwhile.  An insert that finds its user there uses up an id. */
  lemma VanishedRowIsNotUsed(user: string, other: string, now: int, victim: string) returns (events: seq<Event>)
    requires user != other
    ensures Exec(State(Table(map[], map[], 1), map[]), events)
         == State(Table(map[2 := user, 4 := other], map[user := 2, other := 4], 5), map[user := Entry(2, now)])
  {
    var request := Request(user, now, false, victim);
    events := [request, Vanish(1), OtherInsert(user), OtherInsert(user), OtherInsert(other), request];
    CachedThenGone(user, now, victim);
    ThreeInserts(user, other, map[user := Entry(1, now)]);
    EntryWithoutRow(user, other, now, victim);
    SixSteps(State(Table(map[], map[], 1), map[]), events);
  }

  /** Over any run, whatever vanishes from the table, a user request is answered as if there were no cache:
      with a row of the user it asks for. */
  lemma {:induction false} UserCacheIsTransparent(s: State, events: seq<Event>, clerk: string, now: int, raced: bool)
    requires Consistent(s.table) && Sound(s.cache, s.table)
    ensures var t := Exec(s, events);
      && ViaUserCache(t.table, t.cache, clerk, now, raced) == Direct(t.table, clerk, raced)
      && Consistent(t.table) && Sound(t.cache, t.table)
  {
    if events != [] {
      var n := |events| - 1;
      UserCacheIsTransparent(s, events[..n], clerk, now, raced);
      StepKeepsSound(Exec(s, events[..n]), events[n]);
    }
    var t := Exec(s, events);
    UserCacheIsExact(t.table, t.cache, clerk, now, raced);
  }
}
