/** The string names that keep runs and counters apart: checkpoint thread ids and daily-cap keys. */
module Keys {

  function Digit(d: nat): char
    requires d < 10
  {
    '0' + d as char
  }

  /** A row id as f-strings print it. */
  function Decimal(n: nat): (s: string)
    ensures |s| > 0 && forall i | 0 <= i < |s| :: '0' <= s[i] <= '9'
  {
    if n < 10 then [Digit(n)] else Decimal(n / 10) + [Digit(n % 10)]
  }

  lemma {:induction false} DecimalInjective(a: nat, b: nat)
    requires Decimal(a) == Decimal(b)
    ensures a == b
  {
    var s, t := Decimal(a), Decimal(b);
    assert s[|s| - 1] == Digit(a % 10) && t[|t| - 1] == Digit(b % 10);
    if a >= 10 && b >= 10 {
      assert s[..|s| - 1] == Decimal(a / 10) && t[..|t| - 1] == Decimal(b / 10);
      DecimalInjective(a / 10, b / 10);
    }
  }

  predicate NoColon(s: string) {
    forall i | 0 <= i < |s| :: s[i] != ':'
  }

  /** A colon-free field is read back unambiguously. */
  lemma {:induction false} FirstField(a: string, b: string, x: string, y: string)
    requires NoColon(a) && NoColon(b) && a + ":" + x == b + ":" + y
    ensures a == b && x == y
  {
    var s := a + ":" + x;
    assert s[|a|] == ':' && (b + ":" + y)[|b|] == ':';
    assert a == s[..|a|] && b == s[..|b|];
    assert x == s[|a| + 1..] && y == s[|b| + 1..];
  }

  lemma DropPrefix(p: string, x: string, y: string)
    requires p + x == p + y
    ensures x == y
  {
    assert x == (p + x)[|p|..] && y == (p + y)[|p|..];
  }

  /** `thread_id_for` of the reply graph; the timestamp as printed. */
  function ReplyThread(campaign: nat, scheduledTs: string): string {
    "campaign:" + (Decimal(campaign) + ":" + ("run:" + scheduledTs))
  }

  /** `thread_id_for` of the analyst graph; the week is an ISO date. */
  function AnalystThread(org: nat, week: string, run: nat): string {
    "analyst:" + (Decimal(org) + ":" + (week + ":" + Decimal(run)))
  }

  lemma ReplyThreadInjective(c1: nat, t1: string, c2: nat, t2: string)
    requires ReplyThread(c1, t1) == ReplyThread(c2, t2)
    ensures c1 == c2 && t1 == t2
  {
    DropPrefix("campaign:", Decimal(c1) + ":" + ("run:" + t1), Decimal(c2) + ":" + ("run:" + t2));
    FirstField(Decimal(c1), Decimal(c2), "run:" + t1, "run:" + t2);
    DecimalInjective(c1, c2);
    DropPrefix("run:", t1, t2);
  }

  lemma AnalystThreadInjective(o1: nat, w1: string, r1: nat, o2: nat, w2: string, r2: nat)
    requires NoColon(w1) && NoColon(w2)
    requires AnalystThread(o1, w1, r1) == AnalystThread(o2, w2, r2)
    ensures o1 == o2 && w1 == w2 && r1 == r2
  {
    var x1, x2 := w1 + ":" + Decimal(r1), w2 + ":" + Decimal(r2);
    DropPrefix("analyst:", Decimal(o1) + ":" + x1, Decimal(o2) + ":" + x2);
    FirstField(Decimal(o1), Decimal(o2), x1, x2);
    DecimalInjective(o1, o2);
    FirstField(w1, w2, Decimal(r1), Decimal(r2));
    DecimalInjective(r1, r2);
  }

  /** The two graphs never share a checkpoint thread. */
  lemma ThreadsDisjoint(c: nat, t: string, o: nat, w: string, r: nat)
    ensures ReplyThread(c, t) != AnalystThread(o, w, r)
  {
    assert ReplyThread(c, t)[0] == 'c' && AnalystThread(o, w, r)[0] == 'a';
  }

  function CampaignCapKey(campaign: nat, day: string): string {
    "draftcap:" + ("campaign:" + (Decimal(campaign) + ":" + day))
  }

  function SubredditCapKey(org: nat, subreddit: string, day: string): string {
    "draftcap:" + ("subreddit:" + (Decimal(org) + ":" + (subreddit + ":" + day)))
  }

  lemma CampaignCapKeyInjective(c1: nat, d1: string, c2: nat, d2: string)
    requires CampaignCapKey(c1, d1) == CampaignCapKey(c2, d2)
    ensures c1 == c2 && d1 == d2
  {
    var x1, x2 := Decimal(c1) + ":" + d1, Decimal(c2) + ":" + d2;
    DropPrefix("draftcap:", "campaign:" + x1, "campaign:" + x2);
    DropPrefix("campaign:", x1, x2);
    FirstField(Decimal(c1), Decimal(c2), d1, d2);
    DecimalInjective(c1, c2);
  }

  /** Even a subreddit value with colons in it names one counter: the day has a fixed length. */
  lemma SubredditCapKeyInjective(o1: nat, s1: string, d1: string, o2: nat, s2: string, d2: string)
    requires |d1| == |d2| && SubredditCapKey(o1, s1, d1) == SubredditCapKey(o2, s2, d2)
    ensures o1 == o2 && s1 == s2 && d1 == d2
  {
    var x1, x2 := s1 + ":" + d1, s2 + ":" + d2;
    var y1, y2 := Decimal(o1) + ":" + x1, Decimal(o2) + ":" + x2;
    DropPrefix("draftcap:", "subreddit:" + y1, "subreddit:" + y2);
    DropPrefix("subreddit:", y1, y2);
    FirstField(Decimal(o1), Decimal(o2), x1, x2);
    DecimalInjective(o1, o2);
    assert s1 == x1[..|x1| - |d1| - 1] && s2 == x2[..|x2| - |d2| - 1];
    assert d1 == x1[|x1| - |d1|..] && d2 == x2[|x2| - |d2|..];
  }

  lemma CapKeysDisjoint(c: nat, d1: string, o: nat, s: string, d2: string)
    ensures CampaignCapKey(c, d1) != SubredditCapKey(o, s, d2)
  {
    var x, y := "campaign:" + (Decimal(c) + ":" + d1), "subreddit:" + (Decimal(o) + ":" + (s + ":" + d2));
    assert x[0] == 'c' && y[0] == 's';
    if CampaignCapKey(c, d1) == SubredditCapKey(o, s, d2) {
      DropPrefix("draftcap:", x, y);
    }
  }
}
