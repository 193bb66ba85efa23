/** The persist gate with its cost check: which calls it records, the status of each row, and what a rerun
    records again. */
module GateUsage {
  import opened Common
  import opened DailyCap
  import opened PersistGate
  import Guard = SpendGuard

  datatype RowStatus = PENDING | FAILED | FAILED_COST_LIMIT

  /** A finalized draft: its post, whether its text is blank, and its token estimate with the price. */
  datatype Draft = Draft(post: PostId, blank: bool, call: Guard.Call)

  /** The stores, the spend counters, the calls recorded and the rows written so far. */
  datatype Progress = Progress(
    store: Store, daily: int, monthly: int, calls: seq<Guard.Call>, rows: seq<(PostId, RowStatus)>)

  /** The status a draft gets, by the spend counters as they stand. */
  function StatusOf(config: Option<Guard.Limits>, daily: int, monthly: int, d: Draft): RowStatus {
    if d.blank then FAILED
    else if config.None? then PENDING
    else if Guard.Breach(config.value, Guard.Tokens, daily, d.call) || Guard.Breach(config.value, Guard.Cost, monthly, d.call)
    then FAILED_COST_LIMIT
    else PENDING
  }

  /** The draft's estimate is recorded: its slots are granted, its text is not blank and the org has a
      configuration.  Whether its row then turns out a duplicate does not matter. */
  predicate Records(g: Gate, store: Store, config: bool, d: Draft) {
    CanReserve(g.redis, store.counters, g.keyCaps) && !d.blank && config
  }

  /** One draft. */
  function Round(g: Gate, config: Option<Guard.Limits>, p: Progress, d: Draft): Progress {
    var recorded := Records(g, p.store, config.Some?, d);
    var store' := PersistOne(g, p.store, d.post);
    Progress(store',
             if recorded then p.daily + d.call.tokens else p.daily,
             if recorded then p.monthly + d.call.cost else p.monthly,
             if recorded then p.calls + [d.call] else p.calls,
             if store' == p.store then p.rows else p.rows + [(d.post, StatusOf(config, p.daily, p.monthly, d))])
  }

  function Rounds(g: Gate, config: Option<Guard.Limits>, p: Progress, drafts: seq<Draft>): Progress {
    if drafts == [] then p
    else Round(g, config, Rounds(g, config, p, drafts[..|drafts| - 1]), drafts[|drafts| - 1])
  }

  function Posts(drafts: seq<Draft>): (posts: seq<PostId>)
    ensures |posts| == |drafts| && forall i | 0 <= i < |drafts| :: posts[i] == drafts[i].post
  {
    seq(|drafts|, i requires 0 <= i < |drafts| => drafts[i].post)
  }

  function Start(store: Store, daily: int, monthly: int): Progress {
    Progress(store, daily, monthly, [], [])
  }

  lemma RoundAddsUp(g: Gate, config: Option<Guard.Limits>, p: Progress, d: Draft, daily: int, monthly: int)
    requires p.daily == daily + Guard.Spent(Guard.Tokens, p.calls) && p.monthly == monthly + Guard.Spent(Guard.Cost, p.calls)
    ensures var p' := Round(g, config, p, d);
      p'.daily == daily + Guard.Spent(Guard.Tokens, p'.calls) && p'.monthly == monthly + Guard.Spent(Guard.Cost, p'.calls)
  {
    Guard.SpentAppend(Guard.Tokens, p.calls, d.call);
    Guard.SpentAppend(Guard.Cost, p.calls, d.call);
  }

  /** The cost check changes nothing about caps and rows: the stores are those of the gate without it, each post
      written has a new row, and the spend counters have moved by exactly the recorded calls. */
  lemma {:induction false} RoundsKeepTheBooks(g: Gate, config: Option<Guard.Limits>, s: Store, daily: int, monthly: int,
                                              drafts: seq<Draft>)
    ensures var p := Rounds(g, config, Start(s, daily, monthly), drafts);
      && p.store == PersistAll(g, s, Posts(drafts))
      && p.daily == daily + Guard.Spent(Guard.Tokens, p.calls) && p.monthly == monthly + Guard.Spent(Guard.Cost, p.calls)
      && p.store.rows == s.rows + (set row | row in p.rows :: (g.campaign, row.0))
      && forall row | row in p.rows :: (g.campaign, row.0) !in s.rows
  {
    if drafts != [] {
      var init, d := drafts[..|drafts| - 1], drafts[|drafts| - 1];
      RoundsKeepTheBooks(g, config, s, daily, monthly, init);
      var p := Rounds(g, config, Start(s, daily, monthly), init);
      assert Posts(drafts)[..|drafts| - 1] == Posts(init);
      RoundAddsUp(g, config, p, d, daily, monthly);
      RoundAddsItsRow(g, config, p, d);
    }
  }

  lemma RoundAddsItsRow(g: Gate, config: Option<Guard.Limits>, p: Progress, d: Draft)
    ensures var p' := Round(g, config, p, d);
      if p'.store == p.store then p'.rows == p.rows
      else
        && |p'.rows| == |p.rows| + 1 && p'.rows[..|p.rows|] == p.rows && p'.rows[|p.rows|].0 == d.post
        && p'.store.rows == p.store.rows + {(g.campaign, d.post)} && (g.campaign, d.post) !in p.store.rows
        && (set row | row in p'.rows :: (g.campaign, row.0)) == (set row | row in p.rows :: (g.campaign, row.0)) + {(g.campaign, d.post)}
  {
    var p' := Round(g, config, p, d);
    if p'.store != p.store {
      var row := (d.post, StatusOf(config, p.daily, p.monthly, d));
      assert p'.rows == p.rows + [row];
      assert forall r :: r in p'.rows <==> r in p.rows || r == row;
    }
  }

  /** The calls recorded for the first i drafts: those with a text whose slots were granted as they came up, if
      there is a configuration. */
  function Recorded(g: Gate, config: bool, s: Store, drafts: seq<Draft>, i: nat): seq<Guard.Call>
    requires i <= |drafts|
  {
    if i == 0 then []
    else
      var granted := CanReserve(g.redis, PersistAll(g, s, Posts(drafts)[..i - 1]).counters, g.keyCaps);
      Recorded(g, config, s, drafts, i - 1)
      + if config && !drafts[i - 1].blank && granted then [drafts[i - 1].call] else []
  }

  lemma {:induction false} RoundsRecord(g: Gate, config: Option<Guard.Limits>, s: Store, daily: int, monthly: int,
                                        drafts: seq<Draft>, i: nat)
    requires i <= |drafts|
    ensures var p := Rounds(g, config, Start(s, daily, monthly), drafts[..i]);
      && p.calls == Recorded(g, config.Some?, s, drafts, i)
      && p.store == PersistAll(g, s, Posts(drafts)[..i])
      && p.daily == daily + Guard.Spent(Guard.Tokens, p.calls) && p.monthly == monthly + Guard.Spent(Guard.Cost, p.calls)
  {
    RoundsKeepTheBooks(g, config, s, daily, monthly, drafts[..i]);
    assert Posts(drafts[..i]) == Posts(drafts)[..i];
    if i > 0 {
      RoundsRecord(g, config, s, daily, monthly, drafts, i - 1);
      assert drafts[..i][..i - 1] == drafts[..i - 1];
    }
  }

  /** FAILED exactly without a text; FAILED_COST_LIMIT exactly if there is a text and a configuration, and a limit
      that is set and not zero is exceeded by what was used before plus this estimate; PENDING otherwise. */
  ghost predicate RightStatus(config: Option<Guard.Limits>, daily: int, monthly: int, d: Draft, status: RowStatus) {
    && (status == FAILED <==> d.blank)
    && (status == FAILED_COST_LIMIT <==>
          && !d.blank && config.Some?
          && (|| (config.value.tokens.Some? && config.value.tokens.value != 0
                  && daily + d.call.tokens > config.value.tokens.value)
              || (config.value.cost.Some? && config.value.cost.value != 0
                  && monthly + d.call.cost > config.value.cost.value)))
  }

  /** The row is that of draft i, which had none before it came up, with the right status by what the drafts before
      it have recorded. */
  ghost predicate RowOf(g: Gate, config: Option<Guard.Limits>, s: Store, daily: int, monthly: int,
                        drafts: seq<Draft>, i: nat, row: (PostId, RowStatus))
    requires i < |drafts|
  {
    var calls := Recorded(g, config.Some?, s, drafts, i);
    && row.0 == drafts[i].post
    && (g.campaign, row.0) !in PersistAll(g, s, Posts(drafts)[..i]).rows
    && (g.campaign, row.0) in PersistAll(g, s, Posts(drafts)[..i + 1]).rows
    && RightStatus(config, daily + Guard.Spent(Guard.Tokens, calls), monthly + Guard.Spent(Guard.Cost, calls), drafts[i], row.1)
  }

  lemma StatusIsRight(config: Option<Guard.Limits>, daily: int, monthly: int, d: Draft)
    ensures RightStatus(config, daily, monthly, d, StatusOf(config, daily, monthly, d))
  {
  }

  lemma OfferedOneMore(g: Gate, s: Store, drafts: seq<Draft>, i: nat)
    requires i < |drafts|
    ensures PersistAll(g, s, Posts(drafts)[..i + 1]) == PersistOne(g, PersistAll(g, s, Posts(drafts)[..i]), drafts[i].post)
  {
    assert Posts(drafts)[..i + 1][..i] == Posts(drafts)[..i];
  }

  lemma NewRowIsRight(g: Gate, config: Option<Guard.Limits>, s: Store, daily: int, monthly: int, drafts: seq<Draft>, i: nat)
    requires i < |drafts|
    requires var p := Rounds(g, config, Start(s, daily, monthly), drafts[..i]); PersistOne(g, p.store, drafts[i].post) != p.store
    ensures var p := Rounds(g, config, Start(s, daily, monthly), drafts[..i]);
      RowOf(g, config, s, daily, monthly, drafts, i, (drafts[i].post, StatusOf(config, p.daily, p.monthly, drafts[i])))
  {
    var p := Rounds(g, config, Start(s, daily, monthly), drafts[..i]);
    RoundsRecord(g, config, s, daily, monthly, drafts, i);
    OfferedOneMore(g, s, drafts, i);
    StatusIsRight(config, p.daily, p.monthly, drafts[i]);
  }

  /** Each row is one of the drafts', with the right status. */
  lemma {:induction false} RowStatuses(g: Gate, config: Option<Guard.Limits>, s: Store, daily: int, monthly: int,
                                       drafts: seq<Draft>, n: nat, row: (PostId, RowStatus))
    requires n <= |drafts| && row in Rounds(g, config, Start(s, daily, monthly), drafts[..n]).rows
    ensures exists i | 0 <= i < n :: RowOf(g, config, s, daily, monthly, drafts, i, row)
  {
    if n > 0 {
      assert drafts[..n][..n - 1] == drafts[..n - 1];
      if row in Rounds(g, config, Start(s, daily, monthly), drafts[..n - 1]).rows {
        RowStatuses(g, config, s, daily, monthly, drafts, n - 1, row);
      } else {
        NewRowIsRight(g, config, s, daily, monthly, drafts, n - 1);
      }
    }
  }

  /* ---- a rerun ---- */

  /** The calls of the drafts that have a text. */
  function Calls(drafts: seq<Draft>): seq<Guard.Call> {
    if drafts == [] then []
    else Calls(drafts[..|drafts| - 1]) + if drafts[|drafts| - 1].blank then [] else [drafts[|drafts| - 1].call]
  }

  /** Drafts that would all be refused, or all are duplicates, write nothing; they are recorded or not all
      alike. */
  lemma {:induction false} IdleRounds(g: Gate, config: Option<Guard.Limits>, p: Progress, drafts: seq<Draft>)
    requires forall d | d in drafts :: Settled(g, p.store, d.post)
    ensures var p' := Rounds(g, config, p, drafts);
      && p'.store == p.store && p'.rows == p.rows
      && p'.calls == p.calls +
           if config.Some? && CanReserve(g.redis, p.store.counters, g.keyCaps) then Calls(drafts) else []
  {
    if drafts != [] {
      var init, d := drafts[..|drafts| - 1], drafts[|drafts| - 1];
      IdleRounds(g, config, p, init);
      assert d in drafts && Settled(g, p.store, d.post);
    }
  }

  /** A rerun of the gate over its drafts, or some of them, writes no row.  But usage it records again: for every
      draft with a text if there is a configuration and the counters still have room, else for none. */
  lemma RerunRecordsAgain(g: Gate, config: Option<Guard.Limits>, s: Store, daily: int, monthly: int,
                          drafts: seq<Draft>, again: seq<Draft>)
    requires forall d | d in again :: d.post in Posts(drafts)
    ensures var done := PersistAll(g, s, Posts(drafts));
      var p := Rounds(g, config, Start(done, daily, monthly), again);
      && p.store == done && p.rows == []
      && p.calls == (if config.Some? && CanReserve(g.redis, done.counters, g.keyCaps) then Calls(again) else [])
      && p.daily == daily + Guard.Spent(Guard.Tokens, p.calls) && p.monthly == monthly + Guard.Spent(Guard.Cost, p.calls)
  {
    var done := PersistAll(g, s, Posts(drafts));
    forall d | d in again ensures Settled(g, done, d.post) {
      var i :| 0 <= i < |drafts| && Posts(drafts)[i] == d.post;
      RunSettlesItsPosts(g, s, Posts(drafts), i);
    }
    IdleRounds(g, config, Start(done, daily, monthly), again);
    RoundsKeepTheBooks(g, config, done, daily, monthly, again);
  }

  /* ---- the code ---- */

  /** The status and, if its text is not blank, the cost check of one draft with its slots granted. */
  method CheckDraft(meter: Guard.LlmMeter, config: Option<Guard.Limits>, d: Draft) returns (status: RowStatus)
    modifies meter
    ensures status == StatusOf(config, old(meter.daily), old(meter.monthly), d)
    ensures status == FAILED <==> d.blank
    ensures status == FAILED_COST_LIMIT <==>
      && !d.blank && config.Some?
      && (|| (config.value.tokens.Some? && config.value.tokens.value != 0
              && old(meter.daily) + d.call.tokens > config.value.tokens.value)
          || (config.value.cost.Some? && config.value.cost.value != 0
              && old(meter.monthly) + d.call.cost > config.value.cost.value))
    ensures meter.daily == old(meter.daily) + if !d.blank && config.Some? then d.call.tokens else 0
    ensures meter.monthly == old(meter.monthly) + if !d.blank && config.Some? then d.call.cost else 0
  {
    status := PENDING;
    if d.blank {
      status := FAILED;
    } else {
      var outcome := meter.CheckAndRecord(config, d.call);
      if outcome != Guard.Pass {
        status := FAILED_COST_LIMIT;
      }
    }
  }

  /** The stores and the meter show this progress. */
  ghost predicate Shows(p: Progress, redis: RedisCounters?, table: DraftTable, meter: Guard.LlmMeter)
    reads redis, table, meter
  {
    && SameCounts(Reading(redis), p.store.counters) && table.rows == p.store.rows
    && meter.daily == p.daily && meter.monthly == p.monthly
  }

  /** One round of the gate's loop. */
  method PersistDraft(redis: RedisCounters?, table: DraftTable, meter: Guard.LlmMeter, config: Option<Guard.Limits>,
                      campaign: int, keyCaps: seq<KeyCap>, d: Draft, ghost p: Progress)
    returns (row: Option<(PostId, RowStatus)>)
    requires keyCaps != [] && Shows(p, redis, table, meter)
    modifies redis, table, meter
    ensures var p' := Round(Gate(campaign, keyCaps, redis != null), config, p, d);
      && Shows(p', redis, table, meter)
      && p'.rows == p.rows + if row.Some? then [row.value] else []
  {
    ghost var g := Gate(campaign, keyCaps, redis != null);
    SameCountsReserveAlike(redis != null, Reading(redis), p.store.counters, keyCaps);
    SettledMeans(g, p.store, d.post);
    var reserved := ReserveDailySlots(redis, keyCaps);
    if !reserved {
      return None;
    }
    var status := CheckDraft(meter, config, d);
    var inserted := table.Insert(campaign, d.post);
    if !inserted {
      ReleaseSlots(redis, Keys(keyCaps));
      return None;
    }
    return Some((d.post, status));
  }

  /** The whole loop. */
  method PersistDrafts(redis: RedisCounters?, table: DraftTable, meter: Guard.LlmMeter, config: Option<Guard.Limits>,
                       campaign: int, keyCaps: seq<KeyCap>, drafts: seq<Draft>)
    returns (rows: seq<(PostId, RowStatus)>)
    requires keyCaps != []
    modifies redis, table, meter
    ensures var start := Start(Store(old(Reading(redis)), old(table.rows)), old(meter.daily), old(meter.monthly));
      var done := Rounds(Gate(campaign, keyCaps, redis != null), config, start, drafts);
      Shows(done, redis, table, meter) && rows == done.rows
    ensures var g, s := Gate(campaign, keyCaps, redis != null), Store(old(Reading(redis)), old(table.rows));
      forall row | row in rows :: exists i | 0 <= i < |drafts| ::
        RowOf(g, config, s, old(meter.daily), old(meter.monthly), drafts, i, row)
  {
    rows := [];
    ghost var g := Gate(campaign, keyCaps, redis != null);
    ghost var start := Start(Store(Reading(redis), table.rows), meter.daily, meter.monthly);
    for i := 0 to |drafts|
      invariant Shows(Rounds(g, config, start, drafts[..i]), redis, table, meter)
      invariant rows == Rounds(g, config, start, drafts[..i]).rows
    {
      assert drafts[..i + 1][..i] == drafts[..i];
      var row := PersistDraft(redis, table, meter, config, campaign, keyCaps, drafts[i],
                              Rounds(g, config, start, drafts[..i]));
      rows := rows + if row.Some? then [row.value] else [];
    }
    assert drafts[..|drafts|] == drafts;
    forall row | row in rows
      ensures exists i | 0 <= i < |drafts| :: RowOf(g, config, start.store, start.daily, start.monthly, drafts, i, row)
    {
      RowStatuses(g, config, start.store, start.daily, start.monthly, drafts, |drafts|, row);
    }
  }
}
