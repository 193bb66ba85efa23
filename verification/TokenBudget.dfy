/** Token budgeting: the pop loop of `token_budget_node` with its running total, against recounting from
    scratch.  The tokenizer is any function to the naturals. */
module TokenBudget {
  import opened Common

  type PostId = string

  datatype Post = Post(content: string, comments: seq<string>)

  datatype Truncated = Truncated(content: string, comments: seq<string>, truncated: bool, removed: nat)

  type Tokenizer = string -> nat

  const SEPARATOR := "\n\n"

  function CommentTokens(tokens: Tokenizer, comments: seq<string>, n: nat): nat
    requires n <= |comments|
  {
    if n == 0 then 0 else CommentTokens(tokens, comments, n - 1) + tokens(comments[n - 1])
  }

  /** The code's total for the content and the first n comments, counted from scratch. */
  function Total(tokens: Tokenizer, post: Post, n: nat): nat
    requires n <= |post.comments|
  {
    tokens(post.content) + CommentTokens(tokens, post.comments, n) + tokens(SEPARATOR) * Max(0, n - 1)
  }

  /** The total once rendered: content and comments joined, a separator before each comment. */
  function Rendered(tokens: Tokenizer, post: Post, n: nat): nat
    requires n <= |post.comments|
  {
    tokens(post.content) + CommentTokens(tokens, post.comments, n) + tokens(SEPARATOR) * n
  }

  /** The longest prefix of the comments whose total is within the budget; none if there is none. */
  ghost predicate IsLongest(tokens: Tokenizer, post: Post, budget: int, n: nat) {
    && n <= |post.comments|
    && (n > 0 ==> Total(tokens, post, n) <= budget)
    && forall m: nat | n < m <= |post.comments| :: Total(tokens, post, m) > budget
  }

  /** The longest prefix that fits once rendered. */
  ghost predicate IsLongestRendered(tokens: Tokenizer, post: Post, budget: int, n: nat) {
    && n <= |post.comments|
    && (n > 0 ==> Rendered(tokens, post, n) <= budget)
    && forall m: nat | n < m <= |post.comments| :: Rendered(tokens, post, m) > budget
  }

  function MaxChars(budget: int): nat {
    Max(500, budget * 4)
  }

  /** What the budget leaves of a post, given how many comments it keeps. */
  function Cut(tokens: Tokenizer, post: Post, budget: int, n: nat): Truncated
    requires n <= |post.comments|
  {
    var tooLong := Total(tokens, post, n) > budget && |post.content| > MaxChars(budget);
    Truncated(if tooLong then post.content[..MaxChars(budget)] else post.content,
              post.comments[..n], n < |post.comments| || tooLong, |post.comments| - n)
  }

  /** The method keeps a running total and two lists in step; it agrees with recounting. */
  method TruncatePost(tokens: Tokenizer, post: Post, budget: int) returns (t: Truncated)
    ensures IsLongest(tokens, post, budget, |t.comments|)
    ensures t == Cut(tokens, post, budget, |t.comments|)
    ensures t.comments == post.comments[..|t.comments|] && t.removed == |post.comments| - |t.comments|
    ensures t.content == if Total(tokens, post, |t.comments|) > budget && |post.content| > 500 && |post.content| > 4 * budget
                         then post.content[..Max(500, 4 * budget)] else post.content
    ensures t.truncated <==> t.comments != post.comments || t.content != post.content
    ensures t.content != post.content ==> t.comments == [] && t.content <= post.content && |t.content| >= 500
  {
    var content, comments := post.content, post.comments;
    var contentTokens := tokens(content);
    var commentTokens: seq<nat> := seq(|comments|, i requires 0 <= i < |comments| => tokens(comments[i]));
    var commentsSum := CommentTokens(tokens, comments, |comments|);
    var separatorTokens := tokens(SEPARATOR);
    var removed: nat := 0;
    while |comments| > 0 && contentTokens + commentsSum + separatorTokens * Max(0, |comments| - 1) > budget
      invariant |comments| + removed == |post.comments| && |commentTokens| == |comments|
      invariant comments == post.comments[..|comments|]
      invariant forall i | 0 <= i < |comments| :: commentTokens[i] == tokens(comments[i])
      invariant commentsSum == CommentTokens(tokens, post.comments, |comments|)
      invariant forall m: nat | |comments| < m <= |post.comments| :: Total(tokens, post, m) > budget
    {
      assert Total(tokens, post, |comments|) > budget;
      var last := |comments| - 1;
      comments := comments[..last];
      commentsSum := commentsSum - commentTokens[last];
      commentTokens := commentTokens[..last];
      removed := removed + 1;
    }
    var truncated := removed > 0;
    if contentTokens + commentsSum + separatorTokens * Max(0, |comments| - 1) > budget {
      var maxChars := Max(500, budget * 4);
      if |content| > maxChars {
        content := content[..maxChars];
        truncated := true;
      }
    }
    t := Truncated(content, comments, truncated, removed);
  }

  lemma TotalGrows(tokens: Tokenizer, post: Post, m: nat, n: nat)
    requires m <= n <= |post.comments|
    ensures Total(tokens, post, m) <= Total(tokens, post, n)
    ensures Rendered(tokens, post, m) <= Rendered(tokens, post, n)
  {
    if m < n {
      TotalGrows(tokens, post, m, n - 1);
      var sep := tokens(SEPARATOR);
      assert sep * Max(0, n - 2) <= sep * Max(0, n - 1);
      assert sep * (n - 1) <= sep * n;
    }
  }

  /** The prefix kept is the only longest one, and every shorter one fits too: nothing that could have been
      kept was popped, nothing kept is over. */
  lemma KeptIsTheLongest(tokens: Tokenizer, post: Post, budget: int, n: nat, m: nat)
    requires IsLongest(tokens, post, budget, n)
    requires 0 < m <= |post.comments|
    ensures m <= n <==> Total(tokens, post, m) <= budget
  {
    if m <= n {
      TotalGrows(tokens, post, m, n);
    }
  }

  /* ---- one separator short ---- */

  /** The code charges a separator less than the rendered text has, so it may keep a comment that no longer
      fits: at most one, and none exactly when no prefix of the comments leaves the budget less than a
      separator. */
  lemma OneSeparatorShort(tokens: Tokenizer, post: Post, budget: int, kept: nat, fitting: nat)
    requires IsLongest(tokens, post, budget, kept)
    requires IsLongestRendered(tokens, post, budget, fitting)
    ensures kept - 1 <= fitting <= kept
    ensures fitting == kept <==> forall n: nat | 0 < n <= |post.comments| ::
      !(Total(tokens, post, n) <= budget < Total(tokens, post, n) + tokens(SEPARATOR))
  {
    forall n: nat | 0 < n <= |post.comments|
      ensures Rendered(tokens, post, n) == Total(tokens, post, n) + tokens(SEPARATOR)
      ensures n <= kept ==> Total(tokens, post, n) <= Total(tokens, post, kept)
      ensures n <= fitting ==> Rendered(tokens, post, n) <= Rendered(tokens, post, fitting)
    {
      RenderedIsOneMore(tokens, post, n);
      if n <= kept { TotalGrows(tokens, post, n, kept); }
      if n <= fitting { TotalGrows(tokens, post, n, fitting); }
    }
    if kept > 0 { RenderedIsOneMore(tokens, post, kept); }
    if fitting > 0 { RenderedIsOneMore(tokens, post, fitting); }
  }

  lemma RenderedIsOneMore(tokens: Tokenizer, post: Post, n: nat)
    requires 0 < n <= |post.comments|
    ensures Rendered(tokens, post, n) == Total(tokens, post, n) + tokens(SEPARATOR)
    ensures Rendered(tokens, post, n - 1) <= Total(tokens, post, n)
  {
    var sep := tokens(SEPARATOR);
    assert sep * n == sep * (n - 1) + sep;
  }

  function OneEach(text: string): nat { 1 }

  /** One token a text and a budget of two: content and comment are kept, but rendered they take three. */
  lemma KeptCanBeOver()
    ensures var post := Post("a", ["b"]);
      IsLongest(OneEach, post, 2, 1) && Rendered(OneEach, post, 1) == 3
  {
    var post := Post("a", ["b"]);
    assert CommentTokens(OneEach, post.comments, 0) == 0;
    assert CommentTokens(OneEach, post.comments, 1) == 1;
    assert Max(0, 0) == 0;
  }

  /* ---- the node ---- */

  /** One entry for each selected post the run knows; none at all without a persona. */
  method TokenBudgetNode(tokens: Tokenizer, selections: seq<PostId>, posts: map<PostId, Post>, persona: bool, budget: int)
    returns (truncated: map<PostId, Truncated>)
    ensures truncated.Keys == if persona then (set id | id in selections && id in posts) else {}
    ensures forall id | id in truncated ::
      var post, t := posts[id], truncated[id];
      && IsLongest(tokens, post, budget, |t.comments|)
      && t == Cut(tokens, post, budget, |t.comments|)
  {
    truncated := map[];
    if !persona {
      return;
    }
    for i := 0 to |selections|
      invariant truncated.Keys == set id | id in selections[..i] && id in posts
      invariant forall id | id in truncated ::
        && IsLongest(tokens, posts[id], budget, |truncated[id].comments|)
        && truncated[id] == Cut(tokens, posts[id], budget, |truncated[id].comments|)
    {
      assert selections[..i + 1] == selections[..i] + [selections[i]];
      if selections[i] in posts {
        var t := TruncatePost(tokens, posts[selections[i]], budget);
        truncated := truncated[selections[i] := t];
      }
    }
    assert selections[..|selections|] == selections;
  }
}
