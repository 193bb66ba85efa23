/** When finalizing a draft a second time changes nothing: `finalize_draft` calls itself idempotent, and is so
    for some hooks only. */
module DraftAgain {
  import opened DraftFormat

  /* ---- counting what is not white space ---- */

  function Ink(r: Rules, s: string): nat {
    if s == "" then 0 else (if r.isSpace(s[0]) then 0 else 1) + Ink(r, s[1..])
  }

  function InkOf(r: Rules, lines: seq<string>): nat {
    if lines == [] then 0 else Ink(r, lines[0]) + InkOf(r, lines[1..])
  }

  lemma {:induction false} InkConcat(r: Rules, a: string, b: string)
    ensures Ink(r, a + b) == Ink(r, a) + Ink(r, b)
  {
    if a == "" {
      assert a + b == b;
    } else {
      assert (a + b)[1..] == a[1..] + b;
      InkConcat(r, a[1..], b);
    }
  }

  lemma {:induction false} InkOfConcat(r: Rules, a: seq<string>, b: seq<string>)
    ensures InkOf(r, a + b) == InkOf(r, a) + InkOf(r, b)
  {
    if a == [] {
      assert a + b == b;
    } else {
      assert (a + b)[1..] == a[1..] + b;
      InkOfConcat(r, a[1..], b);
    }
  }

  lemma {:induction false} InkBlank(r: Rules, s: string)
    ensures Ink(r, s) == 0 <==> Blank(r, s)
  {
    if s != "" {
      InkBlank(r, s[1..]);
      assert s == [s[0]] + s[1..];
    }
  }

  lemma {:induction false} InkOfJoin(r: Rules, lines: seq<string>)
    requires r.isSpace('\n')
    ensures Ink(r, Join(lines)) == InkOf(r, lines)
  {
    if |lines| > 1 {
      InkOfJoin(r, lines[1..]);
      InkConcat(r, lines[0] + "\n", Join(lines[1..]));
      InkConcat(r, lines[0], "\n");
    }
  }

  lemma InkOfLines(r: Rules, s: string)
    requires r.isSpace('\n')
    ensures InkOf(r, Lines(s)) == Ink(r, s)
  {
    JoinOfLines(s);
    InkOfJoin(r, Lines(s));
  }

  lemma {:induction false} InkOfCollapse(r: Rules, s: string)
    requires r.isSpace('\n')
    ensures Ink(r, Collapse(s)) == Ink(r, s)
  {
    if s != "" {
      InkOfCollapse(r, s[1..]);
      if !(|s| >= 3 && s[0] == s[1] == s[2] == '\n') {
        assert ([s[0]] + Collapse(s[1..]))[1..] == Collapse(s[1..]);
      }
    }
  }

  lemma {:induction false} InkOfLStrip(r: Rules, s: string)
    ensures Ink(r, LStrip(r, s)) == Ink(r, s)
  {
    if s != "" && r.isSpace(s[0]) {
      InkOfLStrip(r, s[1..]);
    }
  }

  lemma {:induction false} InkOfRStrip(r: Rules, s: string)
    ensures Ink(r, RStrip(r, s)) == Ink(r, s)
  {
    if s != "" && r.isSpace(s[|s| - 1]) {
      InkOfRStrip(r, s[..|s| - 1]);
      assert s == s[..|s| - 1] + [s[|s| - 1]];
      InkConcat(r, s[..|s| - 1], [s[|s| - 1]]);
    }
  }

  /** Filtering loses exactly the ink of the link and promotion lines. */
  lemma InkOfFiltered(r: Rules, clean: string)
    requires r.isSpace('\n')
    ensures Ink(r, Filtered(r, clean)) == InkOf(r, WithoutCta(r, Lines(clean)))
  {
    var joined := Join(WithoutCta(r, Lines(clean)));
    InkOfJoin(r, WithoutCta(r, Lines(clean)));
    InkOfCollapse(r, joined);
    InkOfLStrip(r, Collapse(joined));
    InkOfRStrip(r, LStrip(r, Collapse(joined)));
  }

  /* ---- the lines of a hook ---- */

  /** Its lines that are not blank are all link or promotion lines. */
  ghost predicate AllLinks(r: Rules, s: string) {
    forall line | line in Lines(s) :: r.isCta(line) || Blank(r, line)
  }

  lemma {:induction false} InkOfKept(r: Rules, lines: seq<string>)
    requires Regular(r)
    ensures InkOf(r, WithoutCta(r, lines)) <= InkOf(r, lines)
    ensures InkOf(r, WithoutCta(r, lines)) == 0 <==> forall line | line in lines :: r.isCta(line) || Blank(r, line)
    ensures InkOf(r, WithoutCta(r, lines)) == InkOf(r, lines) <==> forall line | line in lines :: !r.isCta(line)
  {
    if lines != [] {
      InkOfKept(r, lines[1..]);
      InkBlank(r, lines[0]);
      assert lines == [lines[0]] + lines[1..];
      if r.isCta(lines[0]) {
        assert WithoutCta(r, lines) == WithoutCta(r, lines[1..]);
        assert lines[0] in lines;
      } else {
        InkOfConcat(r, [lines[0]], WithoutCta(r, lines[1..]));
      }
    }
  }

  lemma {:induction false} WithoutCtaConcat(r: Rules, a: seq<string>, b: seq<string>)
    ensures WithoutCta(r, a + b) == WithoutCta(r, a) + WithoutCta(r, b)
  {
    if a == [] {
      assert a + b == b;
    } else {
      assert (a + b)[1..] == a[1..] + b;
      WithoutCtaConcat(r, a[1..], b);
    }
  }

  lemma {:induction false} NothingFiltered(r: Rules, lines: seq<string>)
    requires forall line | line in lines :: !r.isCta(line)
    ensures WithoutCta(r, lines) == lines
  {
    if lines != [] {
      NothingFiltered(r, lines[1..]);
    }
  }

  /** A trimmed text without link lines and triple newlines is left alone. */
  lemma FilteredClear(r: Rules, s: string)
    requires Clear(r, s) && NoTriple(s) && Trim(r, s)
    ensures Filtered(r, s) == s
  {
    NothingFiltered(r, Lines(s));
    JoinOfLines(s);
    CollapseFixed(s);
    StripTrims(r, s);
  }

  /* ---- blank lines at the end ---- */

  lemma {:induction false} CollapseAfter(s: string, t: string)
    requires NoTriple(s) && s != "" && s[|s| - 1] != '\n'
    ensures Collapse(s + t) == s + Collapse(t)
  {
    var whole := s + t;
    assert whole[0] == s[0] && whole[1..] == s[1..] + t;
    if |s| > 1 {
      assert NoTriple(s[1..]);
      CollapseAfter(s[1..], t);
      if |s| >= 3 { assert !(s[0] == s[0 + 1] == s[0 + 2] == '\n'); }
      assert Collapse(whole) == [s[0]] + (s[1..] + Collapse(t));
    } else {
      assert whole[1..] == t && s == [s[0]];
    }
  }

  lemma {:induction false} RStripBlankEnd(r: Rules, s: string, t: string)
    requires Blank(r, t) && s != "" && !r.isSpace(s[|s| - 1])
    ensures RStrip(r, s + t) == s
  {
    if t == "" {
      assert s + t == s;
    } else {
      var n := |t| - 1;
      assert (s + t)[..|s| + n] == s + t[..n] && (s + t)[|s| + n] == t[n];
      RStripBlankEnd(r, s, t[..n]);
    }
  }

  lemma StripBlankEnd(r: Rules, s: string, t: string)
    requires r.isSpace('\n') && NoTriple(s) && Trim(r, s) && s != "" && Blank(r, t)
    ensures Strip(r, Collapse(s + t)) == s
  {
    CollapseAfter(s, t);
    InkBlank(r, t);
    InkOfCollapse(r, t);
    InkBlank(r, Collapse(t));
    assert (s + Collapse(t))[0] == s[0];
    RStripBlankEnd(r, s, Collapse(t));
  }

  lemma {:induction false} JoinConcat(a: seq<string>, b: seq<string>)
    requires a != [] && b != []
    ensures Join(a + b) == Join(a) + "\n" + Join(b)
  {
    if |a| == 1 {
      assert (a + b)[1..] == b;
    } else {
      assert (a + b)[1..] == a[1..] + b;
      JoinConcat(a[1..], b);
    }
  }

  /* ---- the second run ---- */

  lemma LinesWithHook(body: string, h: string)
    ensures Lines(body + "\n\n" + h) == Lines(body) + ([""] + Lines(h))
  {
    LinesOfConcat(body, "\n" + h);
    LinesOfConcat("", h);
    assert "" + "\n" + h == "\n" + h;
    assert body + "\n" + ("\n" + h) == body + "\n\n" + h;
  }

  lemma KeptWithHook(r: Rules, body: string, h: string)
    requires Regular(r) && Clear(r, body)
    ensures WithoutCta(r, Lines(body + "\n\n" + h)) == Lines(body) + ([""] + WithoutCta(r, Lines(h)))
    ensures Ink(r, Filtered(r, body + "\n\n" + h)) == Ink(r, body) + InkOf(r, WithoutCta(r, Lines(h)))
  {
    var kept := WithoutCta(r, Lines(h));
    LinesWithHook(body, h);
    NothingFiltered(r, Lines(body));
    WithoutCtaConcat(r, Lines(body), [""] + Lines(h));
    WithoutCtaConcat(r, [""], Lines(h));
    assert Blank(r, "");
    NothingFiltered(r, [""]);
    InkOfFiltered(r, body + "\n\n" + h);
    InkOfConcat(r, Lines(body), [""] + kept);
    InkOfConcat(r, [""], kept);
    InkOfLines(r, body);
  }

  /** Nothing but blank lines stays of a hook of link lines. */
  lemma LinksLeaveBlank(r: Rules, h: string)
    requires Regular(r) && AllLinks(r, h)
    ensures Blank(r, "\n" + Join([""] + WithoutCta(r, Lines(h))))
  {
    var kept := WithoutCta(r, Lines(h));
    InkOfKept(r, Lines(h));
    InkOfConcat(r, [""], kept);
    InkOfJoin(r, [""] + kept);
    InkConcat(r, "\n", Join([""] + kept));
    InkBlank(r, "\n" + Join([""] + kept));
  }

  lemma LinksAreDropped(r: Rules, body: string, h: string)
    requires Regular(r) && Clear(r, body) && NoTriple(body) && Trim(r, body) && body != "" && AllLinks(r, h)
    ensures Filtered(r, body + "\n\n" + h) == body
  {
    KeptWithHook(r, body, h);
    LinksLeaveBlank(r, h);
    BlankLinesAfter(r, body, [""] + WithoutCta(r, Lines(h)));
  }

  lemma BlankLinesAfter(r: Rules, body: string, kept: seq<string>)
    requires r.isSpace('\n') && NoTriple(body) && Trim(r, body) && body != ""
    requires kept != [] && Blank(r, "\n" + Join(kept))
    ensures Strip(r, Collapse(Join(Lines(body) + kept))) == body
  {
    var lines, tail := Lines(body), Join(kept);
    JoinConcat(lines, kept);
    JoinOfLines(body);
    assert body + "\n" + tail == body + ("\n" + tail);
    StripBlankEnd(r, body, "\n" + tail);
  }

  /** What filtering leaves of a body with a hook behind it, or of the hook alone: all of it if no line of the
      hook is a link, the body if all are, and something of another amount of ink otherwise. */
  lemma FilteredWithHook(r: Rules, body: string, h: string)
    requires Regular(r) && Clear(r, body) && NoTriple(body) && Trim(r, body)
    requires h != "" && NoTriple(h) && Trim(r, h)
    ensures var out := if body == "" then h else body + "\n\n" + h;
      && (Clear(r, h) && NoTriple(out) ==> Filtered(r, out) == out)
      && (AllLinks(r, h) ==> Filtered(r, out) == body)
      && (!Clear(r, h) && !AllLinks(r, h) ==> Ink(r, body) < Ink(r, Filtered(r, out)) < Ink(r, out))
  {
    InkOfKept(r, Lines(h));
    InkOfLines(r, h);
    if body == "" {
      HookAlone(r, h);
    } else {
      BodyAndHook(r, body, h);
    }
  }

  lemma HookAlone(r: Rules, h: string)
    requires Regular(r) && NoTriple(h) && Trim(r, h)
    ensures Clear(r, h) ==> Filtered(r, h) == h
    ensures AllLinks(r, h) ==> Filtered(r, h) == ""
    ensures !Clear(r, h) && !AllLinks(r, h) ==> 0 < Ink(r, Filtered(r, h)) < Ink(r, h)
  {
    InkOfKept(r, Lines(h));
    InkOfLines(r, h);
    InkOfFiltered(r, h);
    if Clear(r, h) { FilteredClear(r, h); }
    var left := Filtered(r, h);
    StripTrims(r, Collapse(Join(WithoutCta(r, Lines(h)))));
    InkBlank(r, left);
    if left != "" { assert left[0] in left; }
  }

  lemma BodyAndHook(r: Rules, body: string, h: string)
    requires Regular(r) && Clear(r, body) && NoTriple(body) && Trim(r, body) && body != ""
    requires h != "" && Trim(r, h)
    ensures var out := body + "\n\n" + h;
      && (Clear(r, h) && NoTriple(out) ==> Filtered(r, out) == out)
      && (AllLinks(r, h) ==> Filtered(r, out) == body)
      && (!Clear(r, h) && !AllLinks(r, h) ==> Ink(r, body) < Ink(r, Filtered(r, out)) < Ink(r, out))
  {
    var out := body + "\n\n" + h;
    KeptWithHook(r, body, h);
    InkOfKept(r, Lines(h));
    InkOfLines(r, h);
    InkConcat(r, body + "\n\n", h);
    InkConcat(r, body, "\n\n");
    if AllLinks(r, h) { LinksAreDropped(r, body, h); }
    if Clear(r, h) && NoTriple(out) {
      LinesWithHook(body, h);
      assert Blank(r, "");
      FilteredClear(r, out);
    }
  }

  /** With more ink than the body and less than the result, a second body leads to another result. */
  lemma OtherInkOtherResult(r: Rules, body: string, h: string, again: string)
    requires r.isSpace('\n') && h != "" && (body != "" ==> !EndsWith(body, h))
    requires Ink(r, body) < Ink(r, again) < Ink(r, WithHook(body, h))
    ensures WithHook(again, h) != WithHook(body, h)
  {
    InkOfHooked(r, body, h);
    InkOfHooked(r, again, h);
  }

  lemma InkOfHooked(r: Rules, body: string, h: string)
    requires r.isSpace('\n')
    ensures Ink(r, body + "\n\n" + h) == Ink(r, body) + Ink(r, h)
  {
    InkConcat(r, body + "\n\n", h);
    InkConcat(r, body, "\n\n");
    InkConcat(r, "\n", "\n");
  }

  /** The case of a draft that did not end with the hook by itself. */
  lemma HookAddedTwice(r: Rules, body: string, h: string)
    requires Regular(r) && Clear(r, body) && NoTriple(body) && Trim(r, body)
    requires h != "" && NoTriple(h) && Trim(r, h) && !EndsWith(body, h)
    requires NoTriple(WithHook(body, h))
    ensures var out := WithHook(body, h);
      WithHook(Filtered(r, out), h) == out <==> AllLinks(r, h) || Clear(r, h)
  {
    var out := WithHook(body, h);
    FilteredWithHook(r, body, h);
    if !Clear(r, h) && !AllLinks(r, h) {
      OtherInkOtherResult(r, body, h, Filtered(r, out));
    } else if Clear(r, h) {
      assert EndsWith(out, h);
    }
  }

  /** The end of a text without triple newlines. */
  lemma EndHasNoTriple(s: string, h: string)
    requires NoTriple(s) && EndsWith(s, h)
    ensures NoTriple(h)
  {
  }

  /** The exact condition.  Where cleaning leaves the result alone, finalizing it again changes nothing if and
      only if the draft ended with the hook by itself, or the hook's lines that are not blank are all link
      lines, or none is. */
  lemma FinalizeTwice(r: Rules, text: string, hook: string)
    requires Regular(r)
    requires Clean(r, Finalize(r, text, hook)) == Finalize(r, text, hook)
    ensures var out, h := Finalize(r, text, hook), Strip(r, hook);
      Finalize(r, out, hook) == out <==> EndsWith(Body(r, text), h) || AllLinks(r, h) || Clear(r, h)
  {
    var out, h, body := Finalize(r, text, hook), Strip(r, hook), Body(r, text);
    BodyIsClear(r, text);
    CleanIsTrim(r, out);
    if EndsWith(body, h) {
      FilteredClear(r, body);
    } else {
      StripTrims(r, hook);
      FinalizedShape(r, text, hook);
      EndHasNoTriple(out, h);
      HookAddedTwice(r, body, h);
    }
  }

  /* ---- drafts and hooks that cleaning leaves alone ---- */

  predicate Unmarked(r: Rules, s: string) {
    forall c | c in s :: !r.isMark(c)
  }

  predicate Trimmed(r: Rules, line: string) {
    line == "" || (!r.isSpace(line[0]) && !r.isSpace(line[|line| - 1]))
  }

  /** A line with no mark, label, heading or bullet, and no white space at an end. */
  function Plain(r: Rules): string -> bool {
    line => Unmarked(r, line) && !r.isLabel(line) && r.plain(line) == line && Trimmed(r, line)
  }

  /** Without marks there is nothing to drop from the text, and the empty line is plain. */
  ghost predicate MarksMatter(r: Rules) {
    && (forall t | Unmarked(r, t) :: r.inline(t) == t)
    && !r.isMark('\n') && Plain(r)("")
  }

  lemma {:induction false} UnmarkedLines(r: Rules, lines: seq<string>)
    requires !r.isMark('\n') && forall line | line in lines :: Unmarked(r, line)
    ensures Unmarked(r, Join(lines))
  {
    if |lines| > 0 {
      assert Unmarked(r, lines[0]);
      UnmarkedLines(r, lines[1..]);
    }
  }

  lemma {:induction false} NothingCleaned(r: Rules, lines: seq<string>, n: nat)
    requires n <= |lines| && forall line | line in lines :: Plain(r)(line)
    ensures CleanLines(r, lines, n) == lines[..n]
  {
    if n > 0 {
      NothingCleaned(r, lines, n - 1);
      assert Plain(r)(lines[n - 1]);
    }
  }

  lemma PlainIsCleaned(r: Rules, text: string)
    requires MarksMatter(r) && AllLines(Plain(r), text)
    ensures Clean(r, text) == Strip(r, Collapse(text))
  {
    var lines := Lines(text);
    JoinOfLines(text);
    UnmarkedLines(r, lines);
    NothingCleaned(r, lines, |lines|);
    assert lines[..|lines|] == lines;
  }

  lemma PlainIsFixed(r: Rules, out: string)
    requires MarksMatter(r) && AllLines(Plain(r), out) && NoTriple(out) && Trim(r, out)
    ensures Clean(r, out) == out
  {
    PlainIsCleaned(r, out);
    CollapseFixed(out);
    StripTrims(r, out);
  }

  lemma PlainBody(r: Rules, text: string)
    requires r.isSpace('\n') && MarksMatter(r) && AllLines(Plain(r), text)
    ensures AllLines(Plain(r), Body(r, text))
  {
    PlainIsCleaned(r, text);
    assert SurvivesStrip(r, Plain(r));
    CollapseKeepsLines(Plain(r), text);
    LStripKeepsLines(r, Plain(r), Collapse(text));
    RStripKeepsLines(r, Plain(r), LStrip(r, Collapse(text)));
    FilteredKeepsLines(r, Plain(r), Clean(r, text));
  }

  lemma HookedHasNoTriple(body: string, h: string)
    requires NoTriple(body) && NoTriple(h) && (body != "" ==> body[|body| - 1] != '\n') && (h != "" ==> h[0] != '\n')
    ensures NoTriple(WithHook(body, h))
    ensures body != "" && h != "" ==> NoTriple(body + "\n\n" + h)
  {
    var out := body + "\n\n" + h;
    forall i | 0 <= i < |out| - 2 && body != "" && h != ""
      ensures !(out[i] == out[i + 1] == out[i + 2] == '\n')
    {
      if i < |body| - 2 {
        assert !(body[i] == body[i + 1] == body[i + 2] == '\n');
      } else if i > |body| + 1 {
        var j := i - |body| - 2;
        assert !(h[j] == h[j + 1] == h[j + 2] == '\n');
      }
    }
  }

  /** A plain draft and a plain hook make a result that cleaning leaves alone. */
  lemma PlainIsLeftAlone(r: Rules, text: string, hook: string)
    requires Regular(r) && MarksMatter(r)
    requires AllLines(Plain(r), text) && AllLines(Plain(r), Strip(r, hook)) && NoTriple(Strip(r, hook))
    ensures Clean(r, Finalize(r, text, hook)) == Finalize(r, text, hook)
  {
    var h, body := Strip(r, hook), Body(r, text);
    var out := WithHook(body, h);
    BodyIsClear(r, text);
    StripTrims(r, hook);
    PlainBody(r, text);
    LinesWithHook(body, h);
    HookedHasNoTriple(body, h);
    assert AllLines(Plain(r), out);
    PlainIsFixed(r, out);
  }

  /** The condition on what goes in: for a plain draft and a plain hook, finalizing twice is finalizing once if
      and only if the draft ended with the hook by itself, or the hook's lines that are not blank are all
      link lines, or none is. */
  lemma FinalizePlainTwice(r: Rules, text: string, hook: string)
    requires Regular(r) && MarksMatter(r)
    requires AllLines(Plain(r), text) && AllLines(Plain(r), Strip(r, hook)) && NoTriple(Strip(r, hook))
    ensures var h := Strip(r, hook);
      Finalize(r, Finalize(r, text, hook), hook) == Finalize(r, text, hook)
      <==> EndsWith(Body(r, text), h) || AllLinks(r, h) || Clear(r, h)
  {
    PlainIsLeftAlone(r, text, hook);
    FinalizeTwice(r, text, hook);
  }

  /** A hook of one line, link or not, is never added twice. */
  lemma OneLineHookIsAddedOnce(r: Rules, text: string, hook: string)
    requires Regular(r) && OneLine(Strip(r, hook))
    requires Clean(r, Finalize(r, text, hook)) == Finalize(r, text, hook)
    ensures Finalize(r, Finalize(r, text, hook), hook) == Finalize(r, text, hook)
  {
    LinesOfFirst(Strip(r, hook), "");
    FinalizeTwice(r, text, hook);
  }

  /** A sentence followed by a link is added twice to every plain draft that does not end with it. */
  lemma SentenceAndLinkAreAddedTwice(r: Rules, text: string, sentence: string, link: string)
    requires Regular(r) && MarksMatter(r) && AllLines(Plain(r), text)
    requires OneLine(sentence) && Plain(r)(sentence) && !r.isCta(sentence) && sentence != ""
    requires OneLine(link) && Plain(r)(link) && r.isCta(link)
    requires !EndsWith(Body(r, text), sentence + "\n" + link)
    ensures var hook := sentence + "\n" + link;
      Finalize(r, Finalize(r, text, hook), hook) != Finalize(r, text, hook)
  {
    var hook := sentence + "\n" + link;
    MixedHook(r, sentence, link);
    StripTrims(r, hook);
    FinalizePlainTwice(r, text, hook);
  }

  lemma MixedHook(r: Rules, sentence: string, link: string)
    requires Regular(r) && OneLine(sentence) && Plain(r)(sentence) && !r.isCta(sentence) && sentence != ""
    requires OneLine(link) && Plain(r)(link) && r.isCta(link)
    ensures var hook := sentence + "\n" + link;
      AllLines(Plain(r), hook) && NoTriple(hook) && Trim(r, hook) && !AllLinks(r, hook) && !Clear(r, hook)
  {
    var hook := sentence + "\n" + link;
    TwoLines(sentence, link);
    assert Lines(hook)[0] == sentence && Lines(hook)[1] == link;
    assert sentence in Lines(hook) && link in Lines(hook);
    assert hook[0] == sentence[0] && hook[|hook| - 1] == link[|link| - 1];
  }

  lemma TwoLines(a: string, b: string)
    requires OneLine(a) && OneLine(b)
    ensures Lines(a + "\n" + b) == [a, b]
  {
    LinesOfFirst(a, b);
    LinesOfFirst(b, "");
  }

  /* ---- a hook that cleaning changes ---- */

  /** If the second body has more ink than the first and does not end with the hook, the hook is added again. */
  lemma MoreInkIsAnotherHook(r: Rules, text: string, hook: string)
    requires r.isSpace('\n') && Strip(r, hook) != ""
    requires var again := Body(r, Finalize(r, text, hook));
      Ink(r, Body(r, text)) < Ink(r, again) && !EndsWith(again, Strip(r, hook))
    ensures Finalize(r, Finalize(r, text, hook), hook) != Finalize(r, text, hook)
  {
    InkOfHooked(r, Body(r, text), Strip(r, hook));
    InkOfHooked(r, Body(r, Finalize(r, text, hook)), Strip(r, hook));
  }

  lemma PlainIsUnmarked(r: Rules, s: string)
    requires !r.isMark('\n') && AllLines(Plain(r), s)
    ensures Unmarked(r, s)
  {
    JoinOfLines(s);
    UnmarkedLines(r, Lines(s));
  }

  /** What stands before the hook. */
  function Before(body: string): string {
    if body == "" then "" else body + "\n\n"
  }

  lemma PlainWithWord(r: Rules, body: string, word: string)
    requires Plain(r)("") && AllLines(Plain(r), body) && OneLine(word) && Plain(r)(word)
    ensures AllLines(Plain(r), Before(body) + word)
  {
    LinesOfFirst(word, "");
    if body == "" {
      assert Before(body) + word == word;
    } else {
      LinesWithHook(body, word);
      assert Before(body) + word == body + "\n\n" + word;
    }
  }

  lemma WordIsClear(r: Rules, word: string)
    requires OneLine(word) && Plain(r)(word) && !r.isCta(word) && word != ""
    ensures Clear(r, word) && NoTriple(word) && Trim(r, word) && 0 < Ink(r, word)
  {
    LinesOfFirst(word, "");
    InkBlank(r, word);
    assert word[0] in word;
  }

  /** A plain word behind a plain body is a body again. */
  lemma WordIsKept(r: Rules, body: string, word: string)
    requires Regular(r) && MarksMatter(r)
    requires AllLines(Plain(r), body) && Clear(r, body) && NoTriple(body) && Trim(r, body)
    requires OneLine(word) && Plain(r)(word) && !r.isCta(word) && word != ""
    ensures var s := Before(body) + word; AllLines(Plain(r), s) && Body(r, s) == s
    ensures Ink(r, body) < Ink(r, Before(body) + word)
  {
    var s := Before(body) + word;
    PlainWithWord(r, body, word);
    WordIsClear(r, word);
    HookedHasNoTriple(body, word);
    FilteredWithHook(r, body, word);
    InkOfHooked(r, body, word);
    assert s == if body == "" then word else body + "\n\n" + word;
    PlainIsFixed(r, s);
  }

  /** That cleaning leaves the result alone matters too: a hook with a mark in it, of which cleaning makes a plain
      word, is added twice to every plain draft. */
  lemma MarkedHookIsAddedTwice(r: Rules, text: string, word: string, hook: string)
    requires Regular(r) && MarksMatter(r) && AllLines(Plain(r), text)
    requires OneLine(word) && Plain(r)(word) && !r.isCta(word) && word != ""
    requires !Unmarked(r, Strip(r, hook))
    requires var before := Before(Body(r, text)); r.inline(before + Strip(r, hook)) == before + word
    ensures Finalize(r, Finalize(r, text, hook), hook) != Finalize(r, text, hook)
  {
    var h, body := Strip(r, hook), Body(r, text);
    var again := Before(body) + word;
    BodyIsClear(r, text);
    PlainBody(r, text);
    WordIsKept(r, body, word);
    PlainIsUnmarked(r, body);
    PlainIsUnmarked(r, again);
    assert Finalize(r, text, hook) == Before(body) + h;
    MoreInkIsAnotherHook(r, text, hook);
  }

  /** The rules for a bold word, on one draft: nothing to clean but the bold. */
  function BoldRules(): Rules {
    Rules(c => c == '\n' || c == ' ', c => c == '*', t => if t == "a\n\n**x**" then "a\n\nx" else t,
          line => false, line => line, line => false)
  }

  lemma BoldMarksMatter(r: Rules)
    requires r == BoldRules()
    ensures Regular(r) && MarksMatter(r)
  {
    var bold := "a\n\n**x**";
    assert bold[3] == '*' && bold[3] in bold;
    assert !Unmarked(r, bold);
    assert r.plain("") == "" && Unmarked(r, "");
  }

  lemma PlainCharBody(r: Rules, text: string)
    requires r == BoldRules() && MarksMatter(r) && OneLine(text) && Plain(r)(text) && |text| == 1
    ensures AllLines(Plain(r), text) && Body(r, text) == text
  {
    LinesOfFirst(text, "");
    PlainIsFixed(r, text);
    FilteredClear(r, text);
  }

  lemma BoldHook(r: Rules, text: string, word: string, hook: string)
    requires r == BoldRules() && text == "a" && word == "x" && hook == "**x**"
    ensures !Unmarked(r, hook) && Strip(r, hook) == hook
    ensures r.inline(Before(text) + hook) == Before(text) + word
  {
    StripTrims(r, hook);
    assert hook[0] in hook;
    assert Before(text) + hook == "a\n\n**x**" && Before(text) + word == "a\n\nx";
  }

  /** Such as a bold one. */
  lemma BoldHookIsAddedTwice(r: Rules, text: string, word: string, hook: string)
    requires r == BoldRules() && text == "a" && word == "x" && hook == "**x**"
    ensures Finalize(r, Finalize(r, text, hook), hook) != Finalize(r, text, hook)
  {
    BoldMarksMatter(r);
    PlainCharBody(r, text);
    BoldHook(r, text, word, hook);
    assert OneLine(word) && Plain(r)(word) && !r.isCta(word);
    MarkedHookIsAddedTwice(r, text, word, hook);
  }
}
