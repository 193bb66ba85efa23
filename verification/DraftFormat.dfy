/** Draft finalization: `clean_draft`, `finalize_draft` and `append_disclosure`.  The regular expressions are
    arbitrary functions; splitting, joining, collapsing blank lines and stripping are spelled out. */
module DraftFormat {

  /** `inline` drops emphasis and code from the text, marked by `isMark` characters; `isLabel` recognizes
      stray labels, `plain` drops heading and bullet marks from a line, `isCta` recognizes link and promotion
      lines. */
  datatype Rules = Rules(
    isSpace: char -> bool, isMark: char -> bool, inline: string -> string, isLabel: string -> bool,
    plain: string -> string, isCta: string -> bool)

  function LStrip(r: Rules, s: string): string {
    if s != "" && r.isSpace(s[0]) then LStrip(r, s[1..]) else s
  }

  function RStrip(r: Rules, s: string): string {
    if s != "" && r.isSpace(s[|s| - 1]) then RStrip(r, s[..|s| - 1]) else s
  }

  function Strip(r: Rules, s: string): string {
    RStrip(r, LStrip(r, s))
  }

  /** `s.split("\n")`. */
  function Lines(s: string): (lines: seq<string>)
    ensures |lines| >= 1
  {
    if s == "" then [""]
    else
      var rest := Lines(s[1..]);
      if s[0] == '\n' then [""] + rest else [[s[0]] + rest[0]] + rest[1..]
  }

  /** `"\n".join(lines)`. */
  function Join(lines: seq<string>): string {
    if |lines| == 0 then "" else if |lines| == 1 then lines[0] else lines[0] + "\n" + Join(lines[1..])
  }

  /** Every run of three or more newlines becomes two. */
  function Collapse(s: string): string {
    if s == "" then ""
    else if |s| >= 3 && s[0] == s[1] == s[2] == '\n' then Collapse(s[1..])
    else [s[0]] + Collapse(s[1..])
  }

  predicate NoTriple(s: string) {
    forall i | 0 <= i < |s| - 2 :: !(s[i] == s[i + 1] == s[i + 2] == '\n')
  }

  function CleanLines(r: Rules, lines: seq<string>, n: nat): seq<string>
    requires n <= |lines|
  {
    if n == 0 then []
    else
      CleanLines(r, lines, n - 1)
      + if r.isLabel(lines[n - 1]) then [] else [RStrip(r, r.plain(lines[n - 1]))]
  }

  /** Cleaning drops the label lines, and of each other line the marks and the white space at its end. */
  lemma {:induction false} LabelsAreDropped(r: Rules, lines: seq<string>, n: nat) returns (at: seq<nat>)
    requires n <= |lines|
    ensures (forall i | 0 <= i < |at| :: at[i] < n) && forall i, j | 0 <= i < j < |at| :: at[i] < at[j]
    ensures forall j: nat | j < n :: j in at <==> !r.isLabel(lines[j])
    ensures |CleanLines(r, lines, n)| == |at|
    ensures forall i | 0 <= i < |at| :: CleanLines(r, lines, n)[i] == RStrip(r, r.plain(lines[at[i]]))
  {
    at := [];
    if n > 0 {
      at := LabelsAreDropped(r, lines, n - 1);
      if !r.isLabel(lines[n - 1]) {
        at := at + [n - 1];
      }
    }
  }

  function Clean(r: Rules, text: string): string {
    if text == "" then ""
    else
      var lines := Lines(r.inline(text));
      Strip(r, Collapse(Join(CleanLines(r, lines, |lines|))))
  }

  method CleanDraft(r: Rules, text: string) returns (clean: string)
    ensures clean == Clean(r, text)
  {
    if text == "" {
      return "";
    }
    var lines := Lines(r.inline(text));
    var cleaned: seq<string> := [];
    for i := 0 to |lines|
      invariant cleaned == CleanLines(r, lines, i)
    {
      if !r.isLabel(lines[i]) {
        cleaned := cleaned + [RStrip(r, r.plain(lines[i]))];
      }
    }
    return Strip(r, Collapse(Join(cleaned)));
  }

  function WithoutCta(r: Rules, lines: seq<string>): (kept: seq<string>)
    ensures forall line | line in kept :: line in lines && !r.isCta(line)
  {
    if lines == [] then []
    else (if r.isCta(lines[0]) then [] else [lines[0]]) + WithoutCta(r, lines[1..])
  }

  /** A cleaned draft without its link and promotion lines. */
  function Filtered(r: Rules, clean: string): string {
    Strip(r, Collapse(Join(WithoutCta(r, Lines(clean)))))
  }

  /** The draft without the hook. */
  function Body(r: Rules, text: string): string {
    Filtered(r, Clean(r, text))
  }

  predicate EndsWith(s: string, suffix: string) {
    |suffix| <= |s| && s[|s| - |suffix|..] == suffix
  }

  function WithHook(body: string, h: string): string {
    if h == "" then body
    else if body == "" then h
    else if EndsWith(body, h) then body
    else body + "\n\n" + h
  }

  function Finalize(r: Rules, text: string, hook: string): string {
    WithHook(Body(r, text), Strip(r, hook))
  }

  /* ---- lines ---- */

  predicate OneLine(line: string) {
    '\n' !in line
  }

  lemma {:induction false} JoinOfLines(s: string)
    ensures Join(Lines(s)) == s
    ensures forall line | line in Lines(s) :: OneLine(line)
  {
    if s != "" {
      JoinOfLines(s[1..]);
      var rest := Lines(s[1..]);
      if s[0] == '\n' {
        assert Lines(s)[1..] == rest;
      } else {
        assert Lines(s)[1..] == rest[1..];
        assert OneLine(rest[0]) && OneLine([s[0]] + rest[0]);
      }
    }
  }

  lemma {:induction false} LinesOfFirst(line: string, rest: string)
    requires OneLine(line)
    ensures Lines(line + "\n" + rest) == [line] + Lines(rest)
    ensures Lines(line) == [line]
  {
    var s := line + "\n" + rest;
    if line == "" {
      assert s[1..] == rest;
    } else {
      assert s[1..] == line[1..] + "\n" + rest;
      assert s[0] == line[0] != '\n';
      assert line == [line[0]] + line[1..];
      LinesOfFirst(line[1..], rest);
    }
  }

  lemma {:induction false} LinesOfJoin(lines: seq<string>)
    requires |lines| >= 1 && forall line | line in lines :: OneLine(line)
    ensures Lines(Join(lines)) == lines
  {
    LinesOfFirst(lines[0], "");
    if |lines| > 1 {
      LinesOfJoin(lines[1..]);
      LinesOfFirst(lines[0], Join(lines[1..]));
    }
  }

  lemma {:induction false} LinesOfConcat(a: string, b: string)
    ensures Lines(a + "\n" + b) == Lines(a) + Lines(b)
  {
    var s := a + "\n" + b;
    if a == "" {
      assert s[1..] == b;
    } else {
      assert s[1..] == a[1..] + "\n" + b;
      LinesOfConcat(a[1..], b);
    }
  }

  ghost predicate AllLines(p: string -> bool, s: string) {
    forall line | line in Lines(s) :: p(line)
  }

  function NotCta(r: Rules): string -> bool {
    line => !r.isCta(line)
  }

  /** No line of the text is a link or promotion line. */
  ghost predicate Clear(r: Rules, s: string) {
    AllLines(NotCta(r), s)
  }

  function AddFirst(c: char, lines: seq<string>): seq<string>
    requires |lines| >= 1
  {
    if c == '\n' then [""] + lines else [[c] + lines[0]] + lines[1..]
  }

  /* ---- collapsing ---- */

  lemma {:induction false} CollapseHead(s: string)
    ensures s != "" ==> Collapse(s) != "" && Collapse(s)[0] == s[0]
    ensures |s| >= 2 && s[0] == s[1] == '\n' ==> |Collapse(s)| >= 2 && Collapse(s)[1] == '\n'
    ensures s != "" && !(|s| >= 2 && s[1] == '\n') && s[0] == '\n' ==> !(|Collapse(s)| >= 2 && Collapse(s)[1] == '\n')
  {
    if s != "" { CollapseHead(s[1..]); }
  }

  lemma {:induction false} CollapseHasNoTriple(s: string)
    ensures NoTriple(Collapse(s))
  {
    if s != "" {
      CollapseHasNoTriple(s[1..]);
      if !(|s| >= 3 && s[0] == s[1] == s[2] == '\n') {
        var rest := Collapse(s[1..]);
        CollapseHead(s[1..]);
        forall i | 0 <= i < |[s[0]] + rest| - 2
          ensures !(([s[0]] + rest)[i] == ([s[0]] + rest)[i + 1] == ([s[0]] + rest)[i + 2] == '\n')
        {
          if i > 0 { assert !(rest[i - 1] == rest[i] == rest[i + 1] == '\n'); }
        }
      }
    }
  }

  lemma {:induction false} CollapseFixed(s: string)
    requires NoTriple(s)
    ensures Collapse(s) == s
  {
    if s != "" {
      assert NoTriple(s[1..]) by {
        forall i | 0 <= i < |s[1..]| - 2 ensures !(s[1..][i] == s[1..][i + 1] == s[1..][i + 2] == '\n') {
          assert !(s[i + 1] == s[i + 2] == s[i + 3] == '\n');
        }
      }
      if |s| >= 3 { assert !(s[0] == s[0 + 1] == s[0 + 2] == '\n'); }
      CollapseFixed(s[1..]);
    }
  }

  /** Collapsing only removes empty lines. */
  lemma {:induction false} CollapseLines(s: string)
    ensures Lines(Collapse(s))[0] == Lines(s)[0]
    ensures forall line | line in Lines(Collapse(s))[1..] :: line in Lines(s)[1..]
  {
    if s != "" {
      CollapseLines(s[1..]);
      var before, after := Lines(s[1..]), Lines(Collapse(s[1..]));
      assert before == [before[0]] + before[1..] && after == [after[0]] + after[1..];
      if |s| >= 3 && s[0] == s[1] == s[2] == '\n' {
        assert Lines(s) == [""] + before && before[0] == "";
      } else {
        assert ([s[0]] + Collapse(s[1..]))[1..] == Collapse(s[1..]);
        assert Lines(s) == AddFirst(s[0], before) && Lines(Collapse(s)) == AddFirst(s[0], after);
        if s[0] == '\n' {
          assert Lines(s)[1..] == before && Lines(Collapse(s))[1..] == after;
        } else {
          assert Lines(s)[1..] == before[1..] && Lines(Collapse(s))[1..] == after[1..];
        }
      }
    }
  }

  lemma CollapseKeepsLines(p: string -> bool, s: string)
    requires AllLines(p, s)
    ensures AllLines(p, Collapse(s))
  {
    CollapseLines(s);
    var lines := Lines(Collapse(s));
    forall line | line in lines ensures p(line) {
      assert lines == [lines[0]] + lines[1..];
      assert Lines(s) == [Lines(s)[0]] + Lines(s)[1..];
    }
  }

  /* ---- stripping ---- */

  predicate Blank(r: Rules, line: string) {
    forall c | c in line :: r.isSpace(c)
  }

  /** Newlines are white space, a blank line is no link or promotion line, and adding white space at an end
      of a line leaves a link or promotion line one. */
  ghost predicate Regular(r: Rules) {
    && r.isSpace('\n')
    && (forall line | r.isCta(line) :: !Blank(r, line))
    && (forall c, line | r.isSpace(c) && r.isCta(line) :: r.isCta([c] + line))
    && (forall c, line | r.isSpace(c) && r.isCta(line) :: r.isCta(line + [c]))
  }

  /** The property survives taking white space off an end of a line. */
  ghost predicate SurvivesStrip(r: Rules, p: string -> bool) {
    && (forall c, line | r.isSpace(c) && p([c] + line) :: p(line))
    && (forall c, line | r.isSpace(c) && p(line + [c]) :: p(line))
  }

  lemma {:induction false} LStripKeepsLines(r: Rules, p: string -> bool, s: string)
    requires SurvivesStrip(r, p) && AllLines(p, s)
    ensures AllLines(p, LStrip(r, s))
  {
    if s != "" && r.isSpace(s[0]) {
      var rest := Lines(s[1..]);
      assert rest == [rest[0]] + rest[1..];
      forall line | line in rest ensures p(line) {
        assert if s[0] == '\n' then line in Lines(s) else Lines(s)[0] == [s[0]] + rest[0];
      }
      LStripKeepsLines(r, p, s[1..]);
    }
  }

  function AddLast(lines: seq<string>, c: char): seq<string>
    requires |lines| >= 1
  {
    if c == '\n' then lines + [""] else lines[..|lines| - 1] + [lines[|lines| - 1] + [c]]
  }

  lemma AddBothEnds(a: char, lines: seq<string>, c: char)
    requires |lines| >= 1
    ensures AddFirst(a, AddLast(lines, c)) == AddLast(AddFirst(a, lines), c)
  {
    var n := |lines| - 1;
    if c == '\n' {
      assert (lines + [""])[1..] == lines[1..] + [""];
    } else if a == '\n' {
      assert ([""] + lines)[..n + 1] == [""] + lines[..n];
    } else if n == 0 {
      assert [a] + (lines[0] + [c]) == ([a] + lines[0]) + [c];
    } else {
      assert AddFirst(a, lines)[..n] == [[a] + lines[0]] + lines[1..n];
      assert AddLast(lines, c)[1..] == lines[1..n] + [lines[n] + [c]];
    }
  }

  lemma {:induction false} LinesOfInit(s: string)
    requires s != ""
    ensures Lines(s) == AddLast(Lines(s[..|s| - 1]), s[|s| - 1])
  {
    if |s| > 1 {
      LinesOfInit(s[1..]);
      assert s[1..][..|s| - 2] == s[..|s| - 1][1..];
      AddBothEnds(s[0], Lines(s[..|s| - 1][1..]), s[|s| - 1]);
    } else {
      assert [s[0]] + "" == "" + [s[0]];
    }
  }

  lemma DropLastKeepsLines(r: Rules, p: string -> bool, s: string)
    requires SurvivesStrip(r, p) && AllLines(p, s) && s != "" && r.isSpace(s[|s| - 1])
    ensures AllLines(p, s[..|s| - 1])
  {
    LinesOfInit(s);
    var init, last := Lines(s[..|s| - 1]), s[|s| - 1];
    if last != '\n' {
      assert init[|init| - 1] + [last] in Lines(s);
    }
    forall i | 0 <= i < |init| ensures p(init[i]) {
      if last == '\n' || i < |init| - 1 { assert Lines(s)[i] == init[i]; }
    }
  }

  lemma {:induction false} RStripKeepsLines(r: Rules, p: string -> bool, s: string)
    requires SurvivesStrip(r, p) && AllLines(p, s)
    ensures AllLines(p, RStrip(r, s))
  {
    if s != "" && r.isSpace(s[|s| - 1]) {
      DropLastKeepsLines(r, p, s);
      RStripKeepsLines(r, p, s[..|s| - 1]);
    }
  }

  /** What holds of every line, and of the empty one, holds of every line that filtering leaves. */
  lemma FilteredKeepsLines(r: Rules, p: string -> bool, clean: string)
    requires SurvivesStrip(r, p) && p("")
    requires forall line | line in Lines(clean) && !r.isCta(line) :: p(line)
    ensures AllLines(p, Filtered(r, clean))
  {
    var kept := WithoutCta(r, Lines(clean));
    JoinOfLines(clean);
    if kept != [] { LinesOfJoin(kept); }
    CollapseKeepsLines(p, Join(kept));
    LStripKeepsLines(r, p, Collapse(Join(kept)));
    RStripKeepsLines(r, p, LStrip(r, Collapse(Join(kept))));
  }

  /** No white space at either end. */
  ghost predicate Trim(r: Rules, s: string) {
    s != "" ==> !r.isSpace(s[0]) && !r.isSpace(s[|s| - 1])
  }

  lemma {:induction false} LStripIsSuffix(r: Rules, s: string)
    ensures EndsWith(s, LStrip(r, s))
    ensures LStrip(r, s) != "" ==> !r.isSpace(LStrip(r, s)[0])
  {
    if s != "" && r.isSpace(s[0]) {
      LStripIsSuffix(r, s[1..]);
    }
  }

  lemma {:induction false} RStripIsPrefix(r: Rules, s: string)
    ensures RStrip(r, s) <= s
    ensures RStrip(r, s) != "" ==> !r.isSpace(RStrip(r, s)[|RStrip(r, s)| - 1])
  {
    if s != "" && r.isSpace(s[|s| - 1]) {
      RStripIsPrefix(r, s[..|s| - 1]);
    }
  }

  lemma StripTrims(r: Rules, s: string)
    ensures Trim(r, Strip(r, s))
    ensures Trim(r, s) ==> Strip(r, s) == s
  {
    LStripIsSuffix(r, s);
    RStripIsPrefix(r, LStrip(r, s));
  }

  lemma StripKeepsNoTriple(r: Rules, s: string)
    requires NoTriple(s)
    ensures NoTriple(Strip(r, s))
  {
    LStripIsSuffix(r, s);
    RStripIsPrefix(r, LStrip(r, s));
  }

  /* ---- the promises ---- */

  lemma BodyIsClear(r: Rules, text: string)
    requires Regular(r)
    ensures Clear(r, Body(r, text)) && NoTriple(Body(r, text)) && Trim(r, Body(r, text))
  {
    var clean := Clean(r, text);
    var joined := Join(WithoutCta(r, Lines(clean)));
    assert Blank(r, "");
    FilteredKeepsLines(r, NotCta(r), clean);
    CollapseHasNoTriple(joined);
    StripTrims(r, Collapse(joined));
    StripKeepsNoTriple(r, Collapse(joined));
  }

  /** The finalized draft ends with the stripped hook; what stands before it, and all of it when there is
      no hook, has no link or promotion line and no triple newline. */
  lemma FinalizedShape(r: Rules, text: string, hook: string)
    requires Regular(r)
    ensures var out, h := Finalize(r, text, hook), Strip(r, hook);
      && EndsWith(out, h)
      && (h == "" ==> Clear(r, out) && NoTriple(out))
      && out == (if h == "" || (Body(r, text) != "" && EndsWith(Body(r, text), h)) then Body(r, text)
                 else if Body(r, text) == "" then h else Body(r, text) + "\n\n" + h)
      && Clear(r, Body(r, text)) && NoTriple(Body(r, text))
  {
    BodyIsClear(r, text);
  }

  /** Cleaning is over once it changes nothing: a cleaned text is trimmed and has no triple newline. */
  lemma CleanIsTrim(r: Rules, text: string)
    ensures NoTriple(Clean(r, text)) && Trim(r, Clean(r, text))
  {
    if text != "" {
      var lines := Lines(r.inline(text));
      CollapseHasNoTriple(Join(CleanLines(r, lines, |lines|)));
      StripTrims(r, Collapse(Join(CleanLines(r, lines, |lines|))));
      StripKeepsNoTriple(r, Collapse(Join(CleanLines(r, lines, |lines|))));
    }
  }

  /* ---- the disclosure line ---- */

  /** Lower-casing may turn one letter into several and look at the letters around it, but not across an empty
      line. */
  ghost predicate LowersByParagraph(low: string -> string) {
    forall a, b :: low(a + "\n\n" + b) == low(a + "\n\n") + low(b)
  }

  predicate Contains(s: string, part: string) {
    exists i | 0 <= i <= |s| :: part <= s[i..]
  }

  /** No name, no disclosure. */
  function AppendDisclosure(low: string -> string, text: string, name: string): string {
    if name == "" then text
    else
      var disclosure := "(I work on " + name + ")";
      if Contains(low(text), low(disclosure)) then text
      else if text == "" then disclosure
      else text + "\n\n" + disclosure
  }

  /** One disclosure is enough, however often it is asked for; and with a name it is there, up to case. */
  lemma DisclosedOnce(low: string -> string, text: string, name: string)
    requires LowersByParagraph(low)
    ensures var out := AppendDisclosure(low, text, name);
      && AppendDisclosure(low, out, name) == out
      && text <= out
      && (name == "" ==> out == text)
      && (out == text || out == text + (if text == "" then "" else "\n\n") + "(I work on " + name + ")")
      && (name != "" ==> Contains(low(out), low("(I work on " + name + ")")))
  {
    var disclosure, out := "(I work on " + name + ")", AppendDisclosure(low, text, name);
    if out == disclosure {
      assert low(out)[0..] == low(disclosure);
    } else if out != text {
      assert low(out) == low(text + "\n\n") + low(disclosure);
      assert low(out)[|low(text + "\n\n")|..] == low(disclosure);
    }
  }
}
