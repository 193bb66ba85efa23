/** From the scout's answer to the rows of the persist gate: the validation loop of `scout_node`, the
    batches of `strategist_node` in any completion order, and what `persist_gate_node` writes.  What the
    models answer is arbitrary. */
module Provenance {
  import opened Common

  type PostId = string

  /** A scraped comment; its id may be missing. */
  datatype Comment = Comment(id: Option<string>, content: string)

  datatype Post = Post(id: PostId, comments: seq<Comment>)

  datatype ReplyType = NEW_COMMENT | REPLY_TO_COMMENT

  datatype Selection = Selection(post: PostId, angle: string, kind: ReplyType, target: Option<string>)

  datatype Reason = UNKNOWN_POST | UNKNOWN_ANGLE(angle: string)

  datatype Drop = Drop(id: PostId, reason: Reason)

  /** `{p["post_id"]: p for p in posts}`: the last post of an id wins. */
  function ById(posts: seq<Post>): (byId: map<PostId, Post>)
    ensures forall id :: id in byId <==> exists i | 0 <= i < |posts| :: posts[i].id == id
    ensures forall id | id in byId :: byId[id] in posts && byId[id].id == id
  {
    if posts == [] then map[] else ById(posts[..|posts| - 1])[posts[|posts| - 1].id := posts[|posts| - 1]]
  }

  lemma {:induction false} LastPostWins(posts: seq<Post>, i: nat)
    requires i < |posts| && forall j | i < j < |posts| :: posts[j].id != posts[i].id
    ensures ById(posts)[posts[i].id] == posts[i]
  {
    if i < |posts| - 1 {
      LastPostWins(posts[..|posts| - 1], i);
    }
  }

  predicate HasComment(post: Post, id: string) {
    exists i | 0 <= i < |post.comments| :: post.comments[i].id == Some(id)
  }

  function FindComment(comments: seq<Comment>, id: string): (found: Option<Comment>)
    ensures found.Some? <==> exists i | 0 <= i < |comments| :: comments[i].id == Some(id)
    ensures found.Some? ==> found.value in comments && found.value.id == Some(id)
  {
    if comments == [] then None
    else if comments[0].id == Some(id) then Some(comments[0])
    else FindComment(comments[1..], id)
  }

  /* ---- scout: which selections are let through ---- */

  predicate Known(byId: map<PostId, Post>, angles: set<string>, sel: Selection) {
    sel.post in byId && sel.angle in angles
  }

  predicate RealTarget(byId: map<PostId, Post>, sel: Selection) {
    && sel.post in byId && sel.target.Some? && sel.target.value != ""
    && HasComment(byId[sel.post], sel.target.value)
  }

  /** A reply to a comment that is not there becomes a comment on the post. */
  function Checked(byId: map<PostId, Post>, sel: Selection): Selection {
    if sel.kind == REPLY_TO_COMMENT && !RealTarget(byId, sel) then sel.(kind := NEW_COMMENT, target := None) else sel
  }

  function Valid(byId: map<PostId, Post>, angles: set<string>, selections: seq<Selection>, n: nat): seq<Selection>
    requires n <= |selections|
  {
    if n == 0 then []
    else
      var sel := selections[n - 1];
      Valid(byId, angles, selections, n - 1) + if Known(byId, angles, sel) then [Checked(byId, sel)] else []
  }

  function Rejected(byId: map<PostId, Post>, angles: set<string>, selections: seq<Selection>, n: nat): seq<Drop>
    requires n <= |selections|
  {
    if n == 0 then []
    else
      var sel := selections[n - 1];
      var init := Rejected(byId, angles, selections, n - 1);
      if Known(byId, angles, sel) then init
      else init + [Drop(sel.post, if sel.post !in byId then UNKNOWN_POST else UNKNOWN_ANGLE(sel.angle))]
  }

  method ValidateSelections(posts: seq<Post>, angles: set<string>, selections: seq<Selection>, droppedBefore: seq<Drop>)
    returns (valid: seq<Selection>, dropped: seq<Drop>)
    ensures valid == Valid(ById(posts), angles, selections, |selections|)
    ensures dropped == droppedBefore + Rejected(ById(posts), angles, selections, |selections|)
    ensures |valid| + |dropped| == |droppedBefore| + |selections|
  {
    var byId := ById(posts);
    valid, dropped := [], droppedBefore;
    for i := 0 to |selections|
      invariant valid == Valid(byId, angles, selections, i)
      invariant dropped == droppedBefore + Rejected(byId, angles, selections, i)
      invariant |valid| + |dropped| == |droppedBefore| + i
    {
      var sel := selections[i];
      if sel.post !in byId {
        dropped := dropped + [Drop(sel.post, UNKNOWN_POST)];
      } else if sel.angle !in angles {
        dropped := dropped + [Drop(sel.post, UNKNOWN_ANGLE(sel.angle))];
      } else {
        var kind, target := sel.kind, sel.target;
        if kind == REPLY_TO_COMMENT {
          if target.None? || target.value == "" || FindComment(byId[sel.post].comments, target.value).None? {
            kind, target := NEW_COMMENT, None;
          }
        }
        valid := valid + [Selection(sel.post, sel.angle, kind, target)];
      }
    }
  }

  /** Each drop names a selection with an unknown post or angle, and says which. */
  lemma {:induction false} RejectedMeans(byId: map<PostId, Post>, angles: set<string>, selections: seq<Selection>, n: nat)
    requires n <= |selections|
    ensures forall drop | drop in Rejected(byId, angles, selections, n) :: exists i | 0 <= i < n ::
      && !(selections[i].post in byId && selections[i].angle in angles) && drop.id == selections[i].post
      && drop.reason == if selections[i].post !in byId then UNKNOWN_POST else UNKNOWN_ANGLE(selections[i].angle)
  {
    if n > 0 {
      RejectedMeans(byId, angles, selections, n - 1);
    }
  }

  lemma {:induction false} ValidAreSound(byId: map<PostId, Post>, angles: set<string>, selections: seq<Selection>, n: nat, sel: Selection)
    requires n <= |selections| && sel in Valid(byId, angles, selections, n)
    ensures sel.post in byId && sel.angle in angles
    ensures sel.kind == REPLY_TO_COMMENT ==> sel.target.Some? && exists c | c in byId[sel.post].comments :: c.id == sel.target
    ensures exists i | 0 <= i < n :: Known(byId, angles, selections[i]) && sel == Checked(byId, selections[i])
  {
    if n > 0 && sel in Valid(byId, angles, selections, n - 1) {
      ValidAreSound(byId, angles, selections, n - 1, sel);
    }
  }

  /** A selection with a known post and angle goes through as it is, unless it replies to no comment of the post. */
  lemma KnownGoThrough(byId: map<PostId, Post>, angles: set<string>, selections: seq<Selection>, sel: Selection)
    requires sel in selections && sel.post in byId && sel.angle in angles
    ensures (if sel.kind == REPLY_TO_COMMENT
                && (sel.target.None? || sel.target.value == "" || forall c | c in byId[sel.post].comments :: c.id != sel.target)
             then Selection(sel.post, sel.angle, NEW_COMMENT, None) else sel)
            in Valid(byId, angles, selections, |selections|)
  {
    var i :| 0 <= i < |selections| && selections[i] == sel;
    KnownAreValid(byId, angles, selections, |selections|, i);
  }

  lemma {:induction false} KnownAreValid(byId: map<PostId, Post>, angles: set<string>, selections: seq<Selection>, n: nat, i: nat)
    requires i < n <= |selections| && Known(byId, angles, selections[i])
    ensures Checked(byId, selections[i]) in Valid(byId, angles, selections, n)
  {
    if i < n - 1 {
      KnownAreValid(byId, angles, selections, n - 1, i);
    }
  }

  /** A plain comment that comes with a target which is no comment of the post. */
  predicate MadeUpTarget(byId: map<PostId, Post>, sel: Selection) {
    sel.kind == NEW_COMMENT && sel.target.Some? && !RealTarget(byId, sel)
  }

  /** A comment target is only looked at when the scout asks for a reply to it.  So every target that goes
      through is a comment of its post if and only if the scout paired no plain comment, on a known post and
      angle, with a made-up one. */
  lemma TargetsAreRealExactly(byId: map<PostId, Post>, angles: set<string>, selections: seq<Selection>)
    ensures var valid := Valid(byId, angles, selections, |selections|);
      (forall sel | sel in valid && sel.target.Some? :: RealTarget(byId, sel))
      <==> forall sel | sel in selections && Known(byId, angles, sel) :: !MadeUpTarget(byId, sel)
  {
    var valid := Valid(byId, angles, selections, |selections|);
    if forall sel | sel in valid && sel.target.Some? :: RealTarget(byId, sel) {
      forall sel | sel in selections && Known(byId, angles, sel) ensures !MadeUpTarget(byId, sel) {
        var i :| 0 <= i < |selections| && selections[i] == sel;
        KnownAreValid(byId, angles, selections, |selections|, i);
        assert Checked(byId, sel) in valid;
      }
    }
    if forall sel | sel in selections && Known(byId, angles, sel) :: !MadeUpTarget(byId, sel) {
      forall sel | sel in valid && sel.target.Some? ensures RealTarget(byId, sel) {
        ValidAreSound(byId, angles, selections, |selections|, sel);
        var i :| 0 <= i < |selections| && Known(byId, angles, selections[i]) && sel == Checked(byId, selections[i]);
        assert selections[i] in selections && !MadeUpTarget(byId, selections[i]);
      }
    }
  }

  lemma UncheckedTargetGoesThrough()
    ensures var byId := ById([Post("p", [])]);
      var sel := Selection("p", "story", NEW_COMMENT, Some("c9"));
      Valid(byId, {"story"}, [sel], 1) == [sel] && !RealTarget(byId, sel)
  {
    var byId := ById([Post("p", [])]);
    var sel := Selection("p", "story", NEW_COMMENT, Some("c9"));
    assert [Post("p", [])][0].id == "p";
    assert byId["p"] == Post("p", []);
    assert Valid(byId, {"story"}, [sel], 0) == [];
  }

  /* ---- strategist: items, batches, drafts ---- */

  const BATCH_SIZE := 4

  /** `shown` is the target comment as the prompt shows it: only if it survived token budgeting. */
  datatype Item = Item(sel: Selection, shown: Option<Comment>)

  datatype Draft = Draft(item: Item, text: string)

  /** The comments the prompt may use: the budgeted ones where the post has an entry. */
  function ItemOf(byId: map<PostId, Post>, budgeted: map<PostId, seq<Comment>>, sel: Selection): (item: Item)
    requires sel.post in byId
    ensures item.sel == sel
    ensures var comments := if sel.post in budgeted then budgeted[sel.post] else byId[sel.post].comments;
      && (item.shown.Some? <==>
            && sel.kind == REPLY_TO_COMMENT && sel.target.Some? && sel.target.value != ""
            && exists k | 0 <= k < |comments| :: comments[k].id == sel.target)
      && (item.shown.Some? ==> item.shown.value in comments && item.shown.value.id == sel.target)
  {
    var comments := if sel.post in budgeted then budgeted[sel.post] else byId[sel.post].comments;
    assert sel.target.Some? ==> sel.target == Some(sel.target.value);
    Item(sel, if sel.kind == REPLY_TO_COMMENT && sel.target.Some? && sel.target.value != ""
              then FindComment(comments, sel.target.value) else None)
  }

  function Items(byId: map<PostId, Post>, budgeted: map<PostId, seq<Comment>>, sels: seq<Selection>): seq<Item> {
    if sels == [] then []
    else
      var n := |sels| - 1;
      Items(byId, budgeted, sels[..n]) + if sels[n].post in byId then [ItemOf(byId, budgeted, sels[n])] else []
  }

  function SelectionsOf(items: seq<Item>): seq<Selection> {
    seq(|items|, i requires 0 <= i < |items| => items[i].sel)
  }

  function ItemsOf(drafts: seq<Draft>): seq<Item> {
    seq(|drafts|, i requires 0 <= i < |drafts| => drafts[i].item)
  }

  lemma {:induction false} NoItemIsSkipped(byId: map<PostId, Post>, budgeted: map<PostId, seq<Comment>>, sels: seq<Selection>)
    requires forall sel | sel in sels :: sel.post in byId
    ensures SelectionsOf(Items(byId, budgeted, sels)) == sels
  {
    if sels != [] {
      var n := |sels| - 1;
      NoItemIsSkipped(byId, budgeted, sels[..n]);
      assert sels[n] in sels;
    }
  }

  /** An empty or all-whitespace answer. */
  predicate Blank(text: string) {
    forall c | c in text :: c in " \t\n\r"
  }

  /** The batch answer with the gaps filled by one call a post; a failed call leaves "". */
  function Filled(answer: map<PostId, string>, chunk: seq<Item>, calls: seq<Option<string>>, n: nat): map<PostId, string>
    requires n <= |chunk| == |calls|
  {
    if n == 0 then answer
    else
      var before, id := Filled(answer, chunk, calls, n - 1), chunk[n - 1].sel.post;
      if id in before && !Blank(before[id]) then before
      else before[id := if calls[n - 1].Some? then calls[n - 1].value else ""]
  }

  /** A batch: the model's answer, then a call for each item still without a text.  `calls[i]` is what the
      call for item i returns or would have returned; none if it raises. */
  method DraftBatch(chunk: seq<Item>, answer: map<PostId, string>, calls: seq<Option<string>>) returns (drafts: seq<Draft>)
    requires |chunk| == |calls|
    ensures ItemsOf(drafts) == chunk
    ensures var texts := Filled(answer, chunk, calls, |chunk|);
      forall i | 0 <= i < |drafts| :: drafts[i].item.sel.post in texts && drafts[i].text == texts[drafts[i].item.sel.post]
    ensures forall i | 0 <= i < |drafts| ::
      var id, text := chunk[i].sel.post, drafts[i].text;
      && (id in answer && (exists c | c in answer[id] :: c !in " \t\n\r") ==> text == answer[id])
      && (!(id in answer && !Blank(answer[id])) && !Blank(text) ==>
            exists j | 0 <= j < |chunk| && chunk[j].sel.post == id && calls[j] == Some(text) ::
              forall k | 0 <= k < j && chunk[k].sel.post == id :: calls[k].None? || Blank(calls[k].value))
      && (Blank(text) ==> forall j | 0 <= j < |chunk| && chunk[j].sel.post == id :: calls[j].None? || Blank(calls[j].value))
  {
    var texts := answer;
    for i := 0 to |chunk|
      invariant texts == Filled(answer, chunk, calls, i)
      invariant forall j | 0 <= j < i :: chunk[j].sel.post in texts
    {
      var id := chunk[i].sel.post;
      var text := if id in texts then texts[id] else "";
      if Blank(text) {
        texts := texts[id := if calls[i].Some? then calls[i].value else ""];
      }
    }
    drafts := [];
    for i := 0 to |chunk|
      invariant |drafts| == i
      invariant forall j | 0 <= j < i :: drafts[j] == Draft(chunk[j], texts[chunk[j].sel.post])
    {
      drafts := drafts + [Draft(chunk[i], texts[chunk[i].sel.post])];
    }
    forall i | 0 <= i < |chunk| ensures RightText(answer, chunk, calls, |chunk|, chunk[i].sel.post, drafts[i].text) {
      FilledIsRight(answer, chunk, calls, |chunk|, chunk[i].sel.post);
    }
  }

  /** The batch's text if it is not blank; else the first of the post's calls that is not; else a blank one. */
  ghost predicate RightText(answer: map<PostId, string>, chunk: seq<Item>, calls: seq<Option<string>>, n: nat, id: PostId, text: string)
    requires n <= |chunk| == |calls|
  {
    && (id in answer && !Blank(answer[id]) ==> text == answer[id])
    && (!(id in answer && !Blank(answer[id])) && !Blank(text) ==>
          exists j | 0 <= j < n && chunk[j].sel.post == id && calls[j] == Some(text) ::
            forall k | 0 <= k < j && chunk[k].sel.post == id :: calls[k].None? || Blank(calls[k].value))
    && (Blank(text) ==> forall j | 0 <= j < n && chunk[j].sel.post == id :: calls[j].None? || Blank(calls[j].value))
  }

  lemma {:induction false} FilledIsRight(answer: map<PostId, string>, chunk: seq<Item>, calls: seq<Option<string>>, n: nat, id: PostId)
    requires n <= |chunk| == |calls| && id in Filled(answer, chunk, calls, n)
    ensures RightText(answer, chunk, calls, n, id, Filled(answer, chunk, calls, n)[id])
  {
    if n > 0 {
      if id in Filled(answer, chunk, calls, n - 1) {
        FilledIsRight(answer, chunk, calls, n - 1, id);
      } else {
        NotFilledYet(answer, chunk, calls, n - 1, id);
      }
    }
  }

  lemma {:induction false} NotFilledYet(answer: map<PostId, string>, chunk: seq<Item>, calls: seq<Option<string>>, n: nat, id: PostId)
    requires n <= |chunk| == |calls| && id !in Filled(answer, chunk, calls, n)
    ensures id !in answer && forall j | 0 <= j < n :: chunk[j].sel.post != id
  {
    if n > 0 {
      NotFilledYet(answer, chunk, calls, n - 1, id);
    }
  }

  predicate GotText(answer: map<PostId, string>, chunk: seq<Item>, calls: seq<Option<string>>, n: nat, id: PostId)
    requires n <= |chunk| == |calls|
  {
    || (id in answer && !Blank(answer[id]))
    || exists i | 0 <= i < n :: chunk[i].sel.post == id && calls[i].Some? && !Blank(calls[i].value)
  }

  /** A post is left without a text only if the batch and every call for it failed to give one. */
  lemma {:induction false} TextUnlessAllFail(answer: map<PostId, string>, chunk: seq<Item>, calls: seq<Option<string>>, n: nat, id: PostId)
    requires n <= |chunk| == |calls|
    ensures (id in Filled(answer, chunk, calls, n) && !Blank(Filled(answer, chunk, calls, n)[id]))
            <==> GotText(answer, chunk, calls, n, id)
  {
    if n > 0 {
      TextUnlessAllFail(answer, chunk, calls, n - 1, id);
      var before := Filled(answer, chunk, calls, n - 1);
      assert GotText(answer, chunk, calls, n, id) <==>
        GotText(answer, chunk, calls, n - 1, id)
        || (chunk[n - 1].sel.post == id && calls[n - 1].Some? && !Blank(calls[n - 1].value));
    }
  }

  /** `all_drafts`: the batches' drafts in the order the batches finish. */
  function Gather<T>(batches: seq<seq<T>>, order: seq<nat>): seq<T>
    requires forall i | 0 <= i < |order| :: order[i] < |batches|
  {
    if order == [] then [] else Gather(batches, order[..|order| - 1]) + batches[order[|order| - 1]]
  }

  ghost predicate IsOrder(order: seq<nat>, n: nat) {
    && |order| == n
    && (forall i | 0 <= i < |order| :: order[i] < n)
    && (forall i, j | 0 <= i < j < |order| :: order[i] != order[j])
    && (forall k: nat | k < n :: k in order)
  }

  function Flat<T>(batches: seq<seq<T>>): seq<T> {
    if batches == [] then [] else Flat(batches[..|batches| - 1]) + batches[|batches| - 1]
  }

  /** The batch that finishes at position p moved to the end. */
  lemma {:induction false} GatherWithout<T>(batches: seq<seq<T>>, order: seq<nat>, p: nat)
    requires p < |order| && forall i | 0 <= i < |order| :: order[i] < |batches|
    ensures multiset(Gather(batches, order))
            == multiset(Gather(batches, order[..p] + order[p + 1..])) + multiset(batches[order[p]])
  {
    var n := |order| - 1;
    var rest := order[..p] + order[p + 1..];
    if p == n {
      assert rest == order[..n];
    } else {
      assert order[..n][..p] + order[..n][p + 1..] == rest[..n - 1];
      assert rest[n - 1] == order[n];
      GatherWithout(batches, order[..n], p);
      assert Gather(batches, rest) == Gather(batches, rest[..n - 1]) + batches[order[n]];
      assert Gather(batches, order) == Gather(batches, order[..n]) + batches[order[n]];
    }
  }

  lemma {:induction false} GatherFewer<T>(batches: seq<seq<T>>, order: seq<nat>)
    requires |batches| > 0 && forall i | 0 <= i < |order| :: order[i] < |batches| - 1
    ensures Gather(batches, order) == Gather(batches[..|batches| - 1], order)
  {
    if order != [] {
      GatherFewer(batches, order[..|order| - 1]);
    }
  }

  /** Whatever the order in which the batches finish, no draft is lost or doubled. */
  lemma {:induction false} AnyOrderGathersAll<T>(batches: seq<seq<T>>, order: seq<nat>)
    requires IsOrder(order, |batches|)
    ensures multiset(Gather(batches, order)) == multiset(Flat(batches))
  {
    if batches == [] {
      assert order == [];
    } else {
      var n := |batches| - 1;
      assert n in order;
      var p :| 0 <= p < |order| && order[p] == n;
      var rest := order[..p] + order[p + 1..];
      GatherWithout(batches, order, p);
      RestIsOrder(order, n, p);
      GatherFewer(batches, rest);
      AnyOrderGathersAll(batches[..n], rest);
    }
  }

  lemma RestIsOrder(order: seq<nat>, n: nat, p: nat)
    requires IsOrder(order, n + 1) && p < |order| && order[p] == n
    ensures IsOrder(order[..p] + order[p + 1..], n)
  {
    var rest := order[..p] + order[p + 1..];
    forall k: nat | k < n ensures k in rest {
      assert k in order;
      var i :| 0 <= i < |order| && order[i] == k;
      assert rest[if i < p then i else i - 1] == k;
    }
  }

  function Chunks<T>(items: seq<T>): seq<seq<T>> {
    if |items| <= BATCH_SIZE then (if items == [] then [] else [items])
    else [items[..BATCH_SIZE]] + Chunks(items[BATCH_SIZE..])
  }

  lemma {:induction false} FlatFront<T>(batch: seq<T>, rest: seq<seq<T>>)
    ensures Flat([batch] + rest) == batch + Flat(rest)
  {
    var all := [batch] + rest;
    if rest == [] {
      assert Flat(all[..0]) == [];
      assert all == [batch];
    } else {
      assert all[..|all| - 1] == [batch] + rest[..|rest| - 1];
      FlatFront(batch, rest[..|rest| - 1]);
    }
  }

  /** Batching cuts the list up in runs of four, the last of one to four. */
  lemma {:induction false} ChunksJoin<T>(items: seq<T>)
    ensures Flat(Chunks(items)) == items
    ensures forall i | 0 <= i < |Chunks(items)| ::
      1 <= |Chunks(items)[i]| <= 4 && (i < |Chunks(items)| - 1 ==> |Chunks(items)[i]| == 4)
  {
    if |items| <= BATCH_SIZE {
      if items != [] { FlatFront(items, []); }
    } else {
      ChunksJoin(items[BATCH_SIZE..]);
      FlatFront(items[..BATCH_SIZE], Chunks(items[BATCH_SIZE..]));
      assert items == items[..BATCH_SIZE] + items[BATCH_SIZE..];
    }
  }

  /** The batches answer the chunks, item by item. */
  ghost predicate Answers(batches: seq<seq<Draft>>, chunks: seq<seq<Item>>) {
    |batches| == |chunks| && forall i | 0 <= i < |chunks| :: ItemsOf(batches[i]) == chunks[i]
  }

  lemma {:induction false} GatherItems(batches: seq<seq<Draft>>, chunks: seq<seq<Item>>, order: seq<nat>)
    requires Answers(batches, chunks) && forall i | 0 <= i < |order| :: order[i] < |batches|
    ensures ItemsOf(Gather(batches, order)) == Gather(chunks, order)
  {
    if order != [] {
      var n := |order| - 1;
      GatherItems(batches, chunks, order[..n]);
      var init, last := Gather(batches, order[..n]), batches[order[n]];
      assert ItemsOf(init + last) == ItemsOf(init) + ItemsOf(last);
      assert ItemsOf(last) == chunks[order[n]];
    }
  }

  /** One draft for each valid selection, whatever the models answer and whichever batch finishes first. */
  lemma DraftsArePermutation(byId: map<PostId, Post>, angles: set<string>, selections: seq<Selection>,
                             budgeted: map<PostId, seq<Comment>>, batches: seq<seq<Draft>>, order: seq<nat>)
    requires var items := Items(byId, budgeted, Valid(byId, angles, selections, |selections|));
      Answers(batches, Chunks(items)) && IsOrder(order, |batches|)
    ensures var valid := Valid(byId, angles, selections, |selections|);
      && multiset(ItemsOf(Gather(batches, order))) == multiset(Items(byId, budgeted, valid))
      && SelectionsOf(Items(byId, budgeted, valid)) == valid
  {
    var valid := Valid(byId, angles, selections, |selections|);
    var items := Items(byId, budgeted, valid);
    forall sel | sel in valid ensures sel.post in byId {
      ValidAreSound(byId, angles, selections, |selections|, sel);
    }
    NoItemIsSkipped(byId, budgeted, valid);
    GatherItems(batches, Chunks(items), order);
    AnyOrderGathersAll(Chunks(items), order);
    ChunksJoin(items);
  }

  /* ---- persist: the row of a draft ---- */

  datatype Row = Row(post: PostId, angle: string, kind: ReplyType, target: Option<string>, targetContent: Option<string>)

  /** The row's target is looked up among all the scraped comments, not the budgeted ones. */
  function RowOf(byId: map<PostId, Post>, draft: Draft): Row {
    var sel := draft.item.sel;
    var comments := if sel.post in byId then byId[sel.post].comments else [];
    var found := if sel.kind == REPLY_TO_COMMENT && sel.target.Some? && sel.target.value != ""
                 then FindComment(comments, sel.target.value) else None;
    Row(sel.post, sel.angle, sel.kind, sel.target, if found.Some? then Some(found.value.content) else None)
  }

  /** The row names one of the posts and a known angle; and if it replies to a comment, a scraped comment of
      that post, with its text. */
  ghost predicate Grounded(posts: seq<Post>, angles: set<string>, row: Row) {
    && row.post in ById(posts) && row.angle in angles
    && (row.kind == REPLY_TO_COMMENT ==>
          && row.target.Some? && row.targetContent.Some?
          && Comment(row.target, row.targetContent.value) in ById(posts)[row.post].comments)
    && (row.kind == NEW_COMMENT ==> row.targetContent == None)
  }

  /** End to end: whatever the scout and the strategist answer, whatever token budgeting cut, whichever batch
      finished first and however the texts were finalized, every draft that becomes a row is grounded. */
  lemma EveryRowIsGrounded(posts: seq<Post>, angles: set<string>, selections: seq<Selection>,
                           budgeted: map<PostId, seq<Comment>>, batches: seq<seq<Draft>>, order: seq<nat>,
                           finalized: seq<Draft>, draft: Draft)
    requires var items := Items(ById(posts), budgeted, Valid(ById(posts), angles, selections, |selections|));
      Answers(batches, Chunks(items)) && IsOrder(order, |batches|)
    requires ItemsOf(finalized) == ItemsOf(Gather(batches, order)) && draft in finalized
    ensures Grounded(posts, angles, RowOf(ById(posts), draft))
    ensures var row, sel := RowOf(ById(posts), draft), draft.item.sel;
      row.post == sel.post && row.angle == sel.angle && row.kind == sel.kind && row.target == sel.target
  {
    var byId := ById(posts);
    var valid := Valid(byId, angles, selections, |selections|);
    var items := Items(byId, budgeted, valid);
    DraftsArePermutation(byId, angles, selections, budgeted, batches, order);
    var i :| 0 <= i < |finalized| && finalized[i] == draft;
    assert ItemsOf(finalized)[i] in multiset(items);
    var j :| 0 <= j < |items| && items[j] == draft.item;
    assert SelectionsOf(items)[j] == draft.item.sel;
    ValidAreSound(byId, angles, selections, |selections|, draft.item.sel);
  }

  /** Token budgeting may hide the target from the prompt; the row still has it. */
  lemma HiddenTargetIsKept()
    ensures var posts := [Post("p", [Comment(Some("c1"), "hi")])];
      var sel := Selection("p", "story", REPLY_TO_COMMENT, Some("c1"));
      var item := ItemOf(ById(posts), map["p" := []], sel);
      item.shown == None && RowOf(ById(posts), Draft(item, "text")).targetContent == Some("hi")
  {
    var posts := [Post("p", [Comment(Some("c1"), "hi")])];
    assert posts[0].id == "p";
    assert ById(posts)["p"] == posts[0];
  }
}
