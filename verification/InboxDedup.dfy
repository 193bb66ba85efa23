/** Dedup across the campaigns of an org, on the machine in `Inbox`: when two drafts can share a post, and what
    posted history holds. */
module InboxDedup {
  import opened Common
  import opened Inbox

  /* ---- no two drafts of one post ---- */

  ghost predicate Apart(drafts: seq<Draft>) {
    forall i, j | 0 <= i < j < |drafts| :: drafts[i].key != drafts[j].key
  }

  /** The survivors of a run had no draft among those there were when it looked. */
  ghost predicate LookedRight(drafts: seq<Draft>, run: PipelineRun) {
    && run.mark <= |drafts|
    && forall i, post | 0 <= i < run.mark && post in run.survivors :: drafts[i].key != KeyOf(run, post)
  }

  ghost predicate AllLookedRight(s: State) {
    forall r | 0 <= r < |s.runs| :: LookedRight(s.drafts, s.runs[r])
  }

  /** The gate would insert this proposal: it survived the prefilter, and its campaign has no row for it. */
  predicate Insertable(drafts: seq<Draft>, run: PipelineRun, p: Proposal) {
    p.post in run.survivors && p.status in {PENDING, FAILED, FAILED_COST_LIMIT} && !CampaignHas(drafts, run.campaign, p.post)
  }

  /** Some draft of the post has come up since the run's prefilter looked. */
  predicate CameUp(drafts: seq<Draft>, run: PipelineRun, post: string) {
    exists i | run.mark <= i < |drafts| :: drafts[i].key == KeyOf(run, post)
  }

  /** The step commits a run of which another campaign was faster with some post: drafted between this run's
      prefilter and its gate. */
  predicate Overtaken(s: State, e: Event) {
    && e.Commit? && e.run < |s.runs|
    && exists k | 0 <= k < |e.proposals| ::
         Insertable(s.drafts, s.runs[e.run], e.proposals[k]) && CameUp(s.drafts, s.runs[e.run], e.proposals[k].post)
  }

  lemma {:induction false} UnseenMeans(s: State, org: int, platform: string, posts: seq<string>, post: string)
    requires post in Unseen(s, org, platform, posts)
    ensures !SeenBefore(s, PostKey(org, platform, post))
  {
    var n := |posts| - 1;
    if post in Unseen(s, org, platform, posts[..n]) {
      UnseenMeans(s, org, platform, posts[..n], post);
    }
  }

  lemma StepKeepsLookedRight(s: State, e: Event)
    requires AllLookedRight(s)
    ensures AllLookedRight(Step(s, e))
  {
    var s' := Step(s, e);
    match e
    case Peek(org, platform, _, posts) =>
      forall post | post in Unseen(s, org, platform, posts) ensures !SeenBefore(s, PostKey(org, platform, post)) {
        UnseenMeans(s, org, platform, posts, post);
      }
      assert LookedRight(s'.drafts, s'.runs[|s.runs|]);
    case Commit(run, proposals) =>
      if run < |s.runs| { InsertedOnlyAppends(s.drafts, s.runs[run], proposals); }
    case Ask(r) =>
      assert forall i | 0 <= i < |s.drafts| :: s'.drafts[i].key == s.drafts[i].key;
    case _ =>
      assert forall i | 0 <= i < |s.drafts| :: s'.drafts[i].key == s.drafts[i].key;
  }

  /** The row is what the run makes of an insertable proposal. */
  predicate Offered(drafts: seq<Draft>, run: PipelineRun, proposals: seq<Proposal>, d: Draft) {
    exists k | 0 <= k < |proposals| ::
      && Insertable(drafts, run, proposals[k])
      && d == Draft(PostKey(run.org, run.platform, proposals[k].post), run.campaign, proposals[k].status, proposals[k].text, None, None)
  }

  lemma OfferedStill(drafts: seq<Draft>, run: PipelineRun, proposals: seq<Proposal>, p: Proposal, d: Draft)
    requires Offered(drafts, run, proposals, d)
    ensures Offered(drafts, run, proposals + [p], d)
  {
    var k :| 0 <= k < |proposals| && Insertable(drafts, run, proposals[k])
             && d == Draft(PostKey(run.org, run.platform, proposals[k].post), run.campaign, proposals[k].status, proposals[k].text, None, None);
    assert (proposals + [p])[k] == proposals[k];
  }

  /** What the gate adds: rows of its campaign for insertable proposals, none twice, and none left out. */
  ghost predicate Added(drafts: seq<Draft>, after: seq<Draft>, run: PipelineRun, proposals: seq<Proposal>) {
    && drafts <= after
    && (forall i | |drafts| <= i < |after| :: after[i].campaign == run.campaign && after[i].key == KeyOf(run, after[i].key.post))
    && (forall i | |drafts| <= i < |after| :: Offered(drafts, run, proposals, after[i]))
    && (forall i, j | |drafts| <= i < j < |after| :: after[i].key != after[j].key)
    && forall k | 0 <= k < |proposals| && Insertable(drafts, run, proposals[k]) ::
         CampaignHas(after, run.campaign, proposals[k].post)
  }

  lemma CampaignKeeps(before: seq<Draft>, after: seq<Draft>, campaign: int, post: string)
    requires before <= after && CampaignHas(before, campaign, post)
    ensures CampaignHas(after, campaign, post)
  {
    var i :| 0 <= i < |before| && before[i].campaign == campaign && before[i].key.post == post;
    assert after[i] == before[i];
  }

  lemma AddOne(drafts: seq<Draft>, before: seq<Draft>, run: PipelineRun, proposals: seq<Proposal>, p: Proposal)
    requires Added(drafts, before, run, proposals)
    requires p.post in run.survivors && InitialStatus(p.status) && !CampaignHas(before, run.campaign, p.post)
    ensures Added(drafts, before + [Draft(KeyOf(run, p.post), run.campaign, p.status, p.text, None, None)], run, proposals + [p])
  {
    var d := Draft(KeyOf(run, p.post), run.campaign, p.status, p.text, None, None);
    var after, all := before + [d], proposals + [p];
    if CampaignHas(drafts, run.campaign, p.post) { CampaignKeeps(drafts, before, run.campaign, p.post); }
    assert all[|proposals|] == p && after[|before|] == d;
    forall i | |drafts| <= i < |after| ensures Offered(drafts, run, all, after[i]) {
      if i < |before| { OfferedStill(drafts, run, proposals, p, before[i]); }
    }
    forall i | |drafts| <= i < |before| ensures before[i].key != d.key {
      assert before[i].campaign == run.campaign;
    }
    forall k | 0 <= k < |all| && Insertable(drafts, run, all[k]) ensures CampaignHas(after, run.campaign, all[k].post) {
      if k < |proposals| { CampaignKeeps(before, after, run.campaign, proposals[k].post); }
    }
  }

  lemma SkipOne(drafts: seq<Draft>, before: seq<Draft>, run: PipelineRun, proposals: seq<Proposal>, p: Proposal)
    requires Added(drafts, before, run, proposals)
    requires p.post !in run.survivors || !InitialStatus(p.status) || CampaignHas(before, run.campaign, p.post)
    ensures Added(drafts, before, run, proposals + [p])
  {
    var all := proposals + [p];
    forall i | |drafts| <= i < |before| ensures Offered(drafts, run, all, before[i]) {
      OfferedStill(drafts, run, proposals, p, before[i]);
    }
    forall k | 0 <= k < |all| && Insertable(drafts, run, all[k]) ensures CampaignHas(before, run.campaign, all[k].post) {
      assert all[k] == if k < |proposals| then proposals[k] else p;
    }
  }

  lemma {:induction false} InsertedAdds(drafts: seq<Draft>, run: PipelineRun, proposals: seq<Proposal>)
    ensures Added(drafts, Inserted(drafts, run, proposals), run, proposals)
  {
    if proposals != [] {
      var init, p := proposals[..|proposals| - 1], proposals[|proposals| - 1];
      InsertedAdds(drafts, run, init);
      assert proposals == init + [p];
      var before := Inserted(drafts, run, init);
      if p.post !in run.survivors || !InitialStatus(p.status) || CampaignHas(before, run.campaign, p.post) {
        SkipOne(drafts, before, run, init, p);
      } else {
        AddOne(drafts, before, run, init, p);
      }
    }
  }

  lemma OvertakenCollides(s: State, e: Event)
    requires Overtaken(s, e)
    ensures !Apart(Step(s, e).drafts)
  {
    var run := s.runs[e.run];
    var k :| 0 <= k < |e.proposals| && Insertable(s.drafts, run, e.proposals[k]) && CameUp(s.drafts, run, e.proposals[k].post);
    InsertedAdds(s.drafts, run, e.proposals);
  }

  lemma OthersStayApart(s: State, e: Event)
    requires Apart(s.drafts) && AllLookedRight(s) && e.Commit? && e.run < |s.runs| && !Overtaken(s, e)
    ensures Apart(Step(s, e).drafts)
  {
    var run, drafts, after := s.runs[e.run], s.drafts, Step(s, e).drafts;
    InsertedAdds(drafts, run, e.proposals);
    forall i, j | 0 <= i < |drafts| <= j < |after| ensures after[i].key != after[j].key {
      assert Offered(drafts, run, e.proposals, after[j]);
      var k :| 0 <= k < |e.proposals| && e.proposals[k].post == after[j].key.post && Insertable(drafts, run, e.proposals[k]);
      assert LookedRight(drafts, run);
      assert !CameUp(drafts, run, e.proposals[k].post);
    }
  }

  /** One step keeps drafts of one post apart, across all campaigns, exactly if it does not commit a run that was
      overtaken. */
  lemma ApartIsExact(s: State, e: Event)
    requires Apart(s.drafts) && AllLookedRight(s)
    ensures Apart(Step(s, e).drafts) <==> !Overtaken(s, e)
  {
    var s' := Step(s, e);
    if e.Commit? && e.run < |s.runs| {
      if Overtaken(s, e) { OvertakenCollides(s, e); } else { OthersStayApart(s, e); }
    } else {
      assert |s'.drafts| == |s.drafts| && forall i | 0 <= i < |s.drafts| :: s'.drafts[i].key == s.drafts[i].key;
    }
  }

  /** Apart after every step of the run. */
  ghost predicate StaysApart(s: State, events: seq<Event>) {
    (events != [] ==> StaysApart(s, events[..|events| - 1])) && Apart(Exec(s, events).drafts)
  }

  ghost predicate NoneOvertaken(s: State, events: seq<Event>) {
    events != [] ==>
      && NoneOvertaken(s, events[..|events| - 1])
      && !Overtaken(Exec(s, events[..|events| - 1]), events[|events| - 1])
  }

  lemma {:induction false} RunsLookedRight(now: int, events: seq<Event>)
    ensures AllLookedRight(Exec(Init(now), events))
  {
    if events != [] {
      RunsLookedRight(now, events[..|events| - 1]);
      StepKeepsLookedRight(Exec(Init(now), events[..|events| - 1]), events[|events| - 1]);
    }
  }

  /** Over whole runs of overlapping pipelines, requests and reaper passes: no two drafts ever share
      (org, platform, post), if and only if no run is overtaken between its prefilter and its gate. */
  lemma {:induction false} NoPostIsDraftedTwiceExactly(now: int, events: seq<Event>)
    ensures StaysApart(Init(now), events) <==> NoneOvertaken(Init(now), events)
  {
    if events != [] {
      var init, e := events[..|events| - 1], events[|events| - 1];
      NoPostIsDraftedTwiceExactly(now, init);
      RunsLookedRight(now, init);
      if StaysApart(Init(now), init) {
        ApartIsExact(Exec(Init(now), init), e);
      }
    }
  }

  /** Pipeline runs in series: only the run whose prefilter looked last commits. */
  ghost predicate InSeries(s: State, events: seq<Event>) {
    events != [] ==>
      && InSeries(s, events[..|events| - 1])
      && (events[|events| - 1].Commit? ==> events[|events| - 1].run + 1 >= |Exec(s, events[..|events| - 1]).runs|)
  }

  /** Every draft since the last look is of the campaign that looked. */
  ghost predicate LastLookIsAlone(s: State) {
    s.runs != [] ==>
      var run := s.runs[|s.runs| - 1];
      run.mark <= |s.drafts| && forall i | run.mark <= i < |s.drafts| :: s.drafts[i].campaign == run.campaign
  }

  lemma SeriesStep(s: State, e: Event)
    requires LastLookIsAlone(s) && (e.Commit? ==> e.run + 1 >= |s.runs|)
    ensures LastLookIsAlone(Step(s, e)) && !Overtaken(s, e)
  {
    var s' := Step(s, e);
    if e.Commit? && e.run < |s.runs| {
      var run := s.runs[e.run];
      InsertedAdds(s.drafts, run, e.proposals);
      forall k | 0 <= k < |e.proposals| && CameUp(s.drafts, run, e.proposals[k].post)
        ensures CampaignHas(s.drafts, run.campaign, e.proposals[k].post)
      {
        var i :| run.mark <= i < |s.drafts| && s.drafts[i].key == KeyOf(run, e.proposals[k].post);
        assert s.drafts[i].campaign == run.campaign;
      }
    } else {
      assert |s'.drafts| == |s.drafts| && forall i | 0 <= i < |s.drafts| :: s'.drafts[i].campaign == s.drafts[i].campaign;
    }
  }

  /** In series, none is overtaken, so no two drafts share a post. */
  lemma {:induction false} SerialRunsStayApart(now: int, events: seq<Event>)
    requires InSeries(Init(now), events)
    ensures LastLookIsAlone(Exec(Init(now), events)) && NoneOvertaken(Init(now), events)
    ensures StaysApart(Init(now), events)
  {
    if events != [] {
      SerialRunsStayApart(now, events[..|events| - 1]);
      SeriesStep(Exec(Init(now), events[..|events| - 1]), events[|events| - 1]);
    }
    NoPostIsDraftedTwiceExactly(now, events);
  }

  /* ---- posted history ---- */

  predicate IsPosted(drafts: seq<Draft>, key: PostKey) {
    exists i | 0 <= i < |drafts| :: drafts[i].key == key && drafts[i].status == POSTED
  }

  ghost predicate HistoryIsTrue(s: State) {
    && (forall i, j | 0 <= i < j < |s.history| :: s.history[i] != s.history[j])
    && forall key :: key in s.history <==> IsPosted(s.drafts, key)
  }

  lemma PostedKeeps(s: State, e: Event, key: PostKey)
    requires IsPosted(s.drafts, key)
    ensures IsPosted(Step(s, e).drafts, key)
  {
    var i :| 0 <= i < |s.drafts| && s.drafts[i].key == key && s.drafts[i].status == POSTED;
    StepMovesStatus(s, e, i);
    assert Unlocked(s.drafts[i]).status == POSTED && Step(s, e).drafts[i].key == key;
  }

  /** A step posts a draft only as a confirmation, which records it. */
  lemma NewlyPosted(s: State, e: Event, key: PostKey)
    requires IsPosted(Step(s, e).drafts, key) && !IsPosted(s.drafts, key)
    ensures key in Step(s, e).history && e.Ask?
  {
    var s' := Step(s, e);
    var i :| 0 <= i < |s'.drafts| && s'.drafts[i].key == key && s'.drafts[i].status == POSTED;
    if i < |s.drafts| {
      StepMovesStatus(s, e, i);
    } else {
      InsertedStatuses(s.drafts, s.runs[e.run], e.proposals);
    }
  }

  lemma {:induction false} InsertedStatuses(drafts: seq<Draft>, run: PipelineRun, proposals: seq<Proposal>)
    ensures drafts <= Inserted(drafts, run, proposals)
    ensures forall i | |drafts| <= i < |Inserted(drafts, run, proposals)| :: InitialStatus(Inserted(drafts, run, proposals)[i].status)
  {
    if proposals != [] {
      InsertedStatuses(drafts, run, proposals[..|proposals| - 1]);
    }
  }

  lemma StepKeepsHistoryTrue(s: State, e: Event)
    requires HistoryIsTrue(s)
    ensures HistoryIsTrue(Step(s, e))
  {
    var s' := Step(s, e);
    forall key ensures key in s'.history <==> IsPosted(s'.drafts, key) {
      assert key in s.history <==> IsPosted(s.drafts, key);
      if IsPosted(s.drafts, key) {
        PostedKeeps(s, e, key);
      } else {
        if IsPosted(s'.drafts, key) { NewlyPosted(s, e, key); }
        if key in s'.history { NewlyRecorded(s, e, key); }
      }
    }
  }

  lemma NewlyRecorded(s: State, e: Event, key: PostKey)
    requires key in Step(s, e).history && key !in s.history
    ensures IsPosted(Step(s, e).drafts, key)
  {
    var d := Step(s, e).drafts[e.request.draft];
    assert d.key == key && d.status == POSTED;
  }

  lemma {:induction false} OccursOnce(keys: seq<PostKey>, key: PostKey)
    requires forall i, j | 0 <= i < j < |keys| :: keys[i] != keys[j]
    ensures multiset(keys)[key] == if key in keys then 1 else 0
  {
    if keys != [] {
      var n := |keys| - 1;
      assert keys == keys[..n] + [keys[n]];
      OccursOnce(keys[..n], key);
    }
  }

  lemma {:induction false} HistoryStaysTrue(now: int, events: seq<Event>)
    ensures HistoryIsTrue(Exec(Init(now), events))
  {
    if events != [] {
      HistoryStaysTrue(now, events[..|events| - 1]);
      StepKeepsHistoryTrue(Exec(Init(now), events[..|events| - 1]), events[|events| - 1]);
    }
  }

  /** Over any run, overlapping pipelines included: posted history has a key exactly once if some draft with that
      key is POSTED, else not at all. */
  lemma PostedIsRecordedOnce(now: int, events: seq<Event>, key: PostKey)
    ensures var s := Exec(Init(now), events);
      multiset(s.history)[key] == if IsPosted(s.drafts, key) then 1 else 0
  {
    HistoryStaysTrue(now, events);
    OccursOnce(Exec(Init(now), events).history, key);
  }

  /* ---- two campaigns, one post ---- */

  lemma Then(s: State, events: seq<Event>, e: Event, s': State)
    requires Step(Exec(s, events), e) == s'
    ensures Exec(s, events + [e]) == s'
  {
    assert (events + [e])[..|events|] == events;
  }

  function Waiting(key: PostKey, campaign: int): Draft {
    Draft(key, campaign, PENDING, "", None, None)
  }

  /** Both prefilters look before either gate commits. */
  function BothCommit(key: PostKey, c1: int, c2: int): seq<Event> {
    [] + [Peek(key.org, key.platform, c1, [key.post])] + [Peek(key.org, key.platform, c2, [key.post])]
    + [Commit(0, [Proposal(key.post, PENDING, "")])] + [Commit(1, [Proposal(key.post, PENDING, "")])]
  }

  lemma PeekOne(s: State, key: PostKey, campaign: int)
    requires !SeenBefore(s, key)
    ensures Step(s, Peek(key.org, key.platform, campaign, [key.post]))
         == s.(runs := s.runs + [PipelineRun(key.org, key.platform, campaign, [key.post], |s.drafts|)])
  {
    assert PostKey(key.org, key.platform, key.post) == key;
    var posts := [key.post];
    assert posts[..0] == [] && posts[|posts| - 1] == key.post;
    assert Unseen(s, key.org, key.platform, posts) == Unseen(s, key.org, key.platform, posts[..0]) + [key.post] == [key.post];
  }

  lemma CommitOne(s: State, run: nat, key: PostKey, campaign: int)
    requires run < |s.runs| && s.runs[run] == PipelineRun(key.org, key.platform, campaign, [key.post], s.runs[run].mark)
    requires !CampaignHas(s.drafts, campaign, key.post)
    ensures Step(s, Commit(run, [Proposal(key.post, PENDING, "")])) == s.(drafts := s.drafts + [Waiting(key, campaign)])
  {
    var proposals := [Proposal(key.post, PENDING, "")];
    assert proposals[..0] == [];
    assert Inserted(s.drafts, s.runs[run], []) == s.drafts;
    assert KeyOf(s.runs[run], key.post) == key;
  }

  lemma BothInsert(now: int, key: PostKey, c1: int, c2: int)
    requires c1 != c2
    ensures var s := Exec(Init(now), BothCommit(key, c1, c2));
      s.drafts == [Waiting(key, c1), Waiting(key, c2)] && s.history == [] && s.now == now
  {
    var r1, r2 := PipelineRun(key.org, key.platform, c1, [key.post], 0), PipelineRun(key.org, key.platform, c2, [key.post], 0);
    var s0 := Init(now);
    var s1 := s0.(runs := [] + [r1]);
    var s2 := s1.(runs := [r1] + [r2]);
    var s3 := s2.(drafts := [] + [Waiting(key, c1)]);
    var s4 := s3.(drafts := [Waiting(key, c1)] + [Waiting(key, c2)]);
    var p1, p2 := Peek(key.org, key.platform, c1, [key.post]), Peek(key.org, key.platform, c2, [key.post]);
    var commit := [Proposal(key.post, PENDING, "")];
    PeekOne(s0, key, c1);
    Then(s0, [], p1, s1);
    PeekOne(s1, key, c2);
    Then(s0, [] + [p1], p2, s2);
    CommitOne(s2, 0, key, c1);
    Then(s0, [] + [p1] + [p2], Commit(0, commit), s3);
    CommitOne(s3, 1, key, c2);
    Then(s0, [] + [p1] + [p2] + [Commit(0, commit)], Commit(1, commit), s4);
  }

  /** One user opens and confirms the draft. */
  lemma PostOne(s: State, user: UserId, i: nat)
    requires i < |s.drafts| && s.drafts[i].status == PENDING && s.drafts[i].lockedBy.None?
    ensures var d := s.drafts[i];
      var open, confirm := Ask(Request(d.key.org, user, i, OpenCopy)), Ask(Request(d.key.org, user, i, ConfirmPosted));
      var s' := Step(Step(s, open), confirm);
      && s'.drafts == s.drafts[i := Draft(d.key, d.campaign, POSTED, d.text, Some(user), Some(s.now))]
      && s'.history == Remember(s.history, d.key)
  {
  }

  lemma {:induction false} BothArePosted(s: State, key: PostKey, c1: int, c2: int, user: UserId) returns (after: State, events: seq<Event>)
    requires s.drafts == [Waiting(key, c1), Waiting(key, c2)] && s.history == []
    ensures after == Exec(s, events)
    ensures |after.drafts| == 2 && forall i | 0 <= i < 2 :: after.drafts[i].key == key && after.drafts[i].status == POSTED
    ensures after.history == [key]
  {
    var o0, f0 := Ask(Request(key.org, user, 0, OpenCopy)), Ask(Request(key.org, user, 0, ConfirmPosted));
    var o1, f1 := Ask(Request(key.org, user, 1, OpenCopy)), Ask(Request(key.org, user, 1, ConfirmPosted));
    var s1 := Step(s, o0);
    var s2 := Step(s1, f0);
    var s3 := Step(s2, o1);
    PostOne(s, user, 0);
    PostOne(s2, user, 1);
    after := Step(s3, f1);
    Then(s, [], o0, s1);
    Then(s, [] + [o0], f0, s2);
    Then(s, [] + [o0] + [f0], o1, s3);
    Then(s, [] + [o0] + [f0] + [o1], f1, after);
    events := [] + [o0] + [f0] + [o1] + [f1];
    assert [] + [key] == [key];
  }

  lemma {:induction false} ExecConcat(s: State, a: seq<Event>, b: seq<Event>)
    ensures Exec(s, a + b) == Exec(Exec(s, a), b)
  {
    if b == [] {
      assert a + b == a;
    } else {
      var n := |b| - 1;
      assert (a + b)[..|a| + n] == a + b[..n];
      ExecConcat(s, a, b[..n]);
    }
  }

  /** Any two campaigns whose runs overlap on a post both draft it, and both drafts can be posted; posted history
      has the post once and does not show it. */
  lemma TwoCampaignsPostTwice(now: int, key: PostKey, c1: int, c2: int, user: UserId) returns (events: seq<Event>)
    requires c1 != c2
    ensures var s := Exec(Init(now), events);
      && |s.drafts| == 2 && (forall i | 0 <= i < 2 :: s.drafts[i].key == key && s.drafts[i].status == POSTED)
      && s.history == [key]
  {
    BothInsert(now, key, c1, c2);
    var first := BothCommit(key, c1, c2);
    var after, rest := BothArePosted(Exec(Init(now), first), key, c1, c2, user);
    ExecConcat(Init(now), first, rest);
    events := first + rest;
  }
}
