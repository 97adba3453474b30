/** `sidepanel.js`: the side panel that summarizes the selection of the
    active tab, appends summaries to a notes buffer and saves the notes.
    The browser (tabs, script injection, storage) and the backend are
    parameters: each handler receives what they would have answered. */
module SidePanel {
  import opened Wrappers
  import opened Text
  import Api

  /** The number of words the offline fallback keeps. */
  const FallbackWords := 30
  const Ellipsis := "..."

  /** The first `FallbackWords` pieces of `split(' ')`, rejoined with spaces. */
  function LeadingWords(sel: string): string {
    var parts := Split(sel, ' ');
    Join(parts[..if |parts| < FallbackWords then |parts| else FallbackWords], ' ')
  }

  /** The summary shown when summarizing fails: the leading words of the
      selection followed by "...". */
  function FallbackSummary(sel: string): (r: string)
    ensures |r| >= |Ellipsis| && r[|r| - |Ellipsis|..] == Ellipsis
  {
    LeadingWords(sel) + Ellipsis
  }

  /** A selection of at most 30 words is kept whole: split and join are
      inverse. */
  lemma FallbackOfShortSelection(sel: string)
    requires |Split(sel, ' ')| <= FallbackWords
    ensures FallbackSummary(sel) == sel + Ellipsis
  {
    var parts := Split(sel, ' ');
    assert parts[..|parts|] == parts;
    JoinSplit(sel, ' ');
  }

  /** The fallback is a prefix of the selection followed by "...", and that
      prefix consists of exactly the selection's first (at most 30) words. */
  lemma FallbackKeepsLeadingWords(sel: string)
    ensures LeadingWords(sel) <= sel
    ensures var parts := Split(sel, ' ');
      Split(LeadingWords(sel), ' ') == parts[..if |parts| < FallbackWords then |parts| else FallbackWords]
    ensures |Split(LeadingWords(sel), ' ')| <= FallbackWords
  {
    var parts := Split(sel, ' ');
    var k := if |parts| < FallbackWords then |parts| else FallbackWords;
    JoinTakeIsPrefix(parts, k, ' ');
    JoinSplit(sel, ' ');
    SplitJoin(parts[..k], ' ');
  }

  // ---------------------------------------------------------------------
  // From the summary's markup to plain text: the five `replace` calls of
  // `appendToNotes`, each a left-to-right scan for non-overlapping matches.

  /** The length of the `<br\s*\/?>` match (any letter case) at the start of
      `s`, or 0 when there is none. */
  function BreakTagLength(s: string): (n: nat)
    ensures n <= |s|
    ensures n > 0 ==> n >= 4 && s[0] == '<'
  {
    if |s| >= 3 && s[0] == '<' && LowerChar(s[1]) == 'b' && LowerChar(s[2]) == 'r' then
      var rest := TrimStart(s[3..], IsJsSpace);
      if |rest| >= 1 && rest[0] == '>' then |s| - |rest| + 1
      else if |rest| >= 2 && rest[0] == '/' && rest[1] == '>' then |s| - |rest| + 2
      else 0
    else 0
  }

  /** `replace(/<br\s*\/?>/gi, '\n')`. */
  function ReplaceBreaks(s: string): string
    decreases |s|
  {
    if s == [] then []
    else
      var n := BreakTagLength(s);
      if n > 0 then "\n" + ReplaceBreaks(s[n..])
      else [s[0]] + ReplaceBreaks(s[1..])
  }

  /** `s` starts with `pat` up to ASCII letter case (`pat` is lower case). */
  predicate StartsWithFolded(s: string, pat: string) {
    |pat| <= |s| && Lower(s[..|pat|]) == pat
  }

  /** `replace(/pat/gi, rep)` for a pattern without special characters. */
  function ReplaceFolded(s: string, pat: string, rep: string): string
    requires |pat| > 0
    decreases |s|
  {
    if s == [] then []
    else if StartsWithFolded(s, pat) then rep + ReplaceFolded(s[|pat|..], pat, rep)
    else [s[0]] + ReplaceFolded(s[1..], pat, rep)
  }

  /** The position of the first `c` in `s`. */
  function IndexOf(s: string, c: char): (i: nat)
    requires c in s
    ensures i < |s| && s[i] == c && c !in s[..i]
  {
    if s[0] == c then 0 else 1 + IndexOf(s[1..], c)
  }

  /** The first `c` of `u + [c] + v` when `u` holds none. */
  lemma {:induction false} IndexOfAfter(u: string, v: string, c: char)
    requires c !in u
    ensures IndexOf(u + [c] + v, c) == |u|
  {
    if u != [] {
      assert (u + [c] + v)[0] == u[0];
      assert (u + [c] + v)[1..] == u[1..] + [c] + v;
      IndexOfAfter(u[1..], v, c);
    }
  }

  /** No `<` is followed, anywhere later, by a `>`. */
  predicate NoTagLeft(r: string) {
    forall i, j :: 0 <= i < j < |r| && r[i] == '<' ==> r[j] != '>'
  }

  /** `replace(/<[^>]*>/g, '')`: a `<` and everything up to the first `>`
      after it disappear; a `<` with no `>` after it stays. */
  function StripTags(s: string): (r: string)
    ensures NoTagLeft(r)
    ensures forall c :: c in r ==> c in s
    decreases |s|
  {
    if s == [] then []
    else if s[0] == '<' && '>' in s[1..] then
      var j := IndexOf(s[1..], '>');
      StripTags(s[j + 2..])
    else
      var rest := StripTags(s[1..]);
      assert forall c :: c in rest ==> c in s[1..];
      [s[0]] + rest
  }

  const BoldOpen := "<b>"
  const BoldClose := "</b>"
  const Nbsp := "&nbsp;"

  /** The last step: `replace(/&nbsp;/gi, ' ')`, then the tag removal. */
  function StepsFromNbsp(x: string): (r: string)
    ensures NoTagLeft(r)
  {
    StripTags(ReplaceFolded(x, Nbsp, " "))
  }

  /** The steps from `replace(/<\/b>/gi, '')` on. */
  function StepsFromBoldClose(x: string): (r: string)
    ensures NoTagLeft(r)
  {
    StepsFromNbsp(ReplaceFolded(x, BoldClose, ""))
  }

  /** The steps from `replace(/<b>/gi, '')` on. */
  function StepsFromBoldOpen(x: string): (r: string)
    ensures NoTagLeft(r)
  {
    StepsFromBoldClose(ReplaceFolded(x, BoldOpen, ""))
  }

  /** The plain text `appendToNotes` makes of a summary: the five
      replacements in their order. */
  function PlainText(summary: string): (r: string)
    ensures NoTagLeft(r)
  {
    StepsFromBoldOpen(ReplaceBreaks(summary))
  }

  /** Text without `<` and `&` holds no markup for any of the five steps. */
  predicate MarkupFree(a: string) {
    '<' !in a && '&' !in a
  }

  /** A character other than `<` starts no break tag and is copied. */
  lemma ReplaceBreaksCopies(s: string)
    requires s != [] && s[0] != '<'
    ensures ReplaceBreaks(s) == [s[0]] + ReplaceBreaks(s[1..])
  {
    assert BreakTagLength(s) == 0;
  }

  lemma {:induction false} ReplaceBreaksPrefix(a: string, x: string)
    requires '<' !in a
    ensures ReplaceBreaks(a + x) == a + ReplaceBreaks(x)
  {
    if a == [] {
      assert a + x == x;
    } else {
      var s := a + x;
      var y := ReplaceBreaks(x);
      assert s[0] == a[0] && s[1..] == a[1..] + x;
      assert ReplaceBreaks(s) == [a[0]] + ReplaceBreaks(a[1..] + x) by {
        ReplaceBreaksCopies(s);
      }
      assert ReplaceBreaks(a[1..] + x) == a[1..] + y by {
        ReplaceBreaksPrefix(a[1..], x);
      }
      HeadAndTail(a, y);
    }
  }

  /** `a + y` is the head of `a`, then its tail, then `y`. */
  lemma HeadAndTail(a: string, y: string)
    requires a != []
    ensures [a[0]] + (a[1..] + y) == a + y
  {
    assert [a[0]] + a[1..] == a;
  }

  lemma {:induction false} ReplaceFoldedPrefix(a: string, x: string, pat: string, rep: string)
    requires |pat| > 0 && (pat[0] == '<' || pat[0] == '&') && pat[0] !in a
    ensures ReplaceFolded(a + x, pat, rep) == a + ReplaceFolded(x, pat, rep)
  {
    if a != [] {
      assert (a + x)[0] == a[0];
      if StartsWithFolded(a + x, pat) {
        assert false;
      }
      assert (a + x)[1..] == a[1..] + x;
      ReplaceFoldedPrefix(a[1..], x, pat, rep);
    } else {
      assert a + x == x;
    }
  }

  /** A case variant of the pattern is replaced. */
  lemma ReplaceFoldedAtMatch(t: string, x: string, pat: string, rep: string)
    requires |pat| > 0 && Lower(t) == pat
    ensures ReplaceFolded(t + x, pat, rep) == rep + ReplaceFolded(x, pat, rep)
  {
    assert (t + x)[..|pat|] == t;
    assert (t + x)[|pat|..] == x;
  }

  lemma {:induction false} StripTagsPrefix(a: string, x: string)
    requires '<' !in a
    ensures StripTags(a + x) == a + StripTags(x)
  {
    if a != [] {
      assert (a + x)[0] == a[0];
      assert (a + x)[1..] == a[1..] + x;
      StripTagsPrefix(a[1..], x);
    } else {
      assert a + x == x;
    }
  }

  lemma StepsFromNbspPrefix(a: string, x: string)
    requires MarkupFree(a)
    ensures StepsFromNbsp(a + x) == a + StepsFromNbsp(x)
  {
    ReplaceFoldedPrefix(a, x, Nbsp, " ");
    StripTagsPrefix(a, ReplaceFolded(x, Nbsp, " "));
  }

  lemma StepsFromBoldClosePrefix(a: string, x: string)
    requires MarkupFree(a)
    ensures StepsFromBoldClose(a + x) == a + StepsFromBoldClose(x)
  {
    ReplaceFoldedPrefix(a, x, BoldClose, "");
    StepsFromNbspPrefix(a, ReplaceFolded(x, BoldClose, ""));
  }

  lemma StepsFromBoldOpenPrefix(a: string, x: string)
    requires MarkupFree(a)
    ensures StepsFromBoldOpen(a + x) == a + StepsFromBoldOpen(x)
  {
    ReplaceFoldedPrefix(a, x, BoldOpen, "");
    StepsFromBoldClosePrefix(a, ReplaceFolded(x, BoldOpen, ""));
  }

  /** Markup-free text passes through every step unchanged, so a summary
      can be taken apart at markup-free prefixes. */
  lemma PlainTextPrefix(a: string, x: string)
    requires MarkupFree(a)
    ensures PlainText(a + x) == a + PlainText(x)
  {
    ReplaceBreaksPrefix(a, x);
    StepsFromBoldOpenPrefix(a, ReplaceBreaks(x));
  }

  /** A summary without markup is appended as it is. */
  lemma PlainTextOfMarkupFree(a: string)
    requires MarkupFree(a)
    ensures PlainText(a) == a
  {
    PlainTextPrefix(a, []);
    assert a + [] == a;
  }

  /** The end of a break tag is not white space. */
  lemma TagEndNotSpace(close: string, b: string)
    requires close == ">" || close == "/>"
    ensures TrimStart(close + b, IsJsSpace) == close + b
  {
    assert (close + b)[0] == close[0];
    assert !IsJsSpace(close[0]);
  }

  /** The pieces of a break tag followed by more text. */
  lemma BreakTagShape(br: string, sp: string, close: string, b: string)
    requires |br| == 3 && Lower(br) == "<br"
    ensures var s := br + sp + close + b;
      && s[3..] == sp + (close + b)
      && s[0] == '<' && LowerChar(s[1]) == 'b' && LowerChar(s[2]) == 'r'
  {
    var s := br + sp + close + b;
    assert s[..3] == br;
    assert LowerChar(s[1]) == Lower(br)[1] && LowerChar(s[2]) == Lower(br)[2];
    assert Lower(br)[0] == LowerChar(s[0]);
  }

  /** The break pattern matches `<br`, then the whole run of white space,
      then the closing `>` or `/>`. */
  lemma BreakTagLengthAt(s: string, sp: string, close: string, b: string)
    requires |s| >= 3 && s[0] == '<' && LowerChar(s[1]) == 'b' && LowerChar(s[2]) == 'r'
    requires AllSpace(sp, IsJsSpace) && (close == ">" || close == "/>")
    requires s[3..] == sp + (close + b)
    ensures BreakTagLength(s) == 3 + |sp| + |close|
  {
    var rest := TrimStart(s[3..], IsJsSpace);
    TrimStartSkipsSpaces(sp, close + b, IsJsSpace);
    TagEndNotSpace(close, b);
    assert rest == close + b;
    assert |s| - |rest| == 3 + |sp|;
    if close == ">" {
      assert rest[0] == '>';
    } else {
      assert rest[0] == '/' && rest[1] == '>';
    }
  }

  /** A whole break tag at the start is one match of the break pattern. */
  lemma BreakTagMatches(br: string, sp: string, close: string, b: string)
    requires |br| == 3 && Lower(br) == "<br"
    requires AllSpace(sp, IsJsSpace) && (close == ">" || close == "/>")
    ensures ReplaceBreaks(br + sp + close + b) == "\n" + ReplaceBreaks(b)
  {
    var s := br + sp + close + b;
    BreakTagShape(br, sp, close, b);
    BreakTagLengthAt(s, sp, close, b);
    assert s[3 + |sp| + |close|..] == b;
  }

  /** A break tag in any letter case (`<br`, white space, then `>` or
      `/>`) becomes a line break. */
  lemma BreakBecomesNewline(a: string, br: string, sp: string, close: string, b: string)
    requires MarkupFree(a) && |br| == 3 && Lower(br) == "<br"
    requires AllSpace(sp, IsJsSpace) && (close == ">" || close == "/>")
    ensures PlainText(a + (br + sp + close + b)) == a + "\n" + PlainText(b)
  {
    BreakTagMatches(br, sp, close, b);
    NewlineAfterPrefix(a, br + sp + close + b, b);
  }

  /** Text whose first step yields a line break followed by the first step
      of `b`, after a markup-free prefix. */
  lemma NewlineAfterPrefix(a: string, x: string, b: string)
    requires MarkupFree(a)
    requires ReplaceBreaks(x) == "\n" + ReplaceBreaks(b)
    ensures PlainText(a + x) == a + "\n" + PlainText(b)
  {
    LeadingNewline(x, b);
    PlainTextPrefix(a, x);
  }

  lemma LeadingNewline(x: string, b: string)
    requires ReplaceBreaks(x) == "\n" + ReplaceBreaks(b)
    ensures PlainText(x) == "\n" + PlainText(b)
  {
    StepsFromBoldOpenPrefix("\n", ReplaceBreaks(b));
  }

  /** The characters of a bold tag that the first step looks at. */
  lemma BoldTagChars(t: string)
    requires Lower(t) == BoldOpen || Lower(t) == BoldClose
    ensures |t| >= 3 && t[0] == '<' && '<' !in t[1..] && LowerChar(t[2]) != 'r'
  {
    BoldTagsLookLikeTags(BoldOpen);
    BoldTagsLookLikeTags(BoldClose);
    FoldedTagChars(t, Lower(t));
  }

  lemma BoldTagsLookLikeTags(l: string)
    requires l == BoldOpen || l == BoldClose
    ensures |l| >= 3 && l[0] == '<' && '<' !in l[1..] && l[2] != 'r'
  {
    assert l[1..] == if l == BoldOpen then "b>" else "/b>";
  }

  /** What the lower-cased form of a tag says about the tag itself. */
  lemma FoldedTagChars(t: string, l: string)
    requires Lower(t) == l && |l| >= 3 && l[0] == '<' && '<' !in l[1..] && l[2] != 'r'
    ensures |t| >= 3 && t[0] == '<' && '<' !in t[1..] && LowerChar(t[2]) != 'r'
  {
    assert l[0] == LowerChar(t[0]);
    forall i | 0 <= i < |t| - 1 ensures t[1..][i] != '<' {
      assert l[1..][i] == l[i + 1] == LowerChar(t[i + 1]);
    }
  }

  /** Text that starts with `<` and a third character other than `r` starts
      no break tag. */
  lemma NoBreakTagAt(t: string, b: string)
    requires |t| >= 3 && LowerChar(t[2]) != 'r'
    ensures BreakTagLength(t + b) == 0
  {
    assert (t + b)[2] == t[2];
  }

  /** Where no break tag starts, the first step copies one character. */
  lemma ReplaceBreaksStep(s: string)
    requires s != [] && BreakTagLength(s) == 0
    ensures ReplaceBreaks(s) == [s[0]] + ReplaceBreaks(s[1..])
  {
  }

  /** A tag that is `<` followed by characters other than `<`, and that is
      not a break tag, is copied by the first step. */
  lemma ReplaceBreaksCopiesTag(t: string, b: string)
    requires |t| >= 3 && t[0] == '<' && '<' !in t[1..] && LowerChar(t[2]) != 'r'
    ensures ReplaceBreaks(t + b) == t + ReplaceBreaks(b)
  {
    var s := t + b;
    NoBreakTagAt(t, b);
    ReplaceBreaksStep(s);
    assert s[1..] == t[1..] + b;
    ReplaceBreaksPrefix(t[1..], b);
    HeadAndTail(t, ReplaceBreaks(b));
  }

  /** `<b>` disappears in its own step. */
  lemma BoldOpenSteps(t: string, x: string)
    requires Lower(t) == BoldOpen
    ensures StepsFromBoldOpen(t + x) == StepsFromBoldOpen(x)
  {
    ReplaceFoldedAtMatch(t, x, BoldOpen, "");
    assert "" + ReplaceFolded(x, BoldOpen, "") == ReplaceFolded(x, BoldOpen, "");
  }

  /** `</b>` is copied by the step for `<b>`. */
  lemma BoldOpenStepCopiesClose(t: string, x: string)
    requires Lower(t) == BoldClose
    ensures ReplaceFolded(t + x, BoldOpen, "") == t + ReplaceFolded(x, BoldOpen, "")
  {
    assert Lower(t)[0] == LowerChar(t[0]) && Lower(t)[1] == LowerChar(t[1]);
    assert '<' !in t[1..] by {
      forall i | 0 <= i < |t| - 1 ensures t[1..][i] != '<' {
        assert Lower(t)[i + 1] == LowerChar(t[i + 1]);
      }
    }
    assert !StartsWithFolded(t + x, BoldOpen) by {
      assert Lower((t + x)[..3])[1] == LowerChar(t[1]);
    }
    assert (t + x)[1..] == t[1..] + x;
    ReplaceFoldedPrefix(t[1..], x, BoldOpen, "");
    assert [t[0]] + (t[1..] + ReplaceFolded(x, BoldOpen, "")) == t + ReplaceFolded(x, BoldOpen, "");
  }

  /** `</b>` disappears in its own step. */
  lemma BoldCloseSteps(t: string, x: string)
    requires Lower(t) == BoldClose
    ensures StepsFromBoldOpen(t + x) == StepsFromBoldOpen(x)
  {
    BoldOpenStepCopiesClose(t, x);
    var x2 := ReplaceFolded(x, BoldOpen, "");
    ReplaceFoldedAtMatch(t, x2, BoldClose, "");
    assert "" + ReplaceFolded(x2, BoldClose, "") == ReplaceFolded(x2, BoldClose, "");
  }

  /** `<b>` and `</b>`, in either letter case, vanish. */
  lemma BoldTagVanishes(a: string, t: string, b: string)
    requires MarkupFree(a) && (Lower(t) == BoldOpen || Lower(t) == BoldClose)
    ensures PlainText(a + (t + b)) == a + PlainText(b)
  {
    BoldTagChars(t);
    ReplaceBreaksCopiesTag(t, b);
    if Lower(t) == BoldOpen {
      BoldOpenSteps(t, ReplaceBreaks(b));
    } else {
      BoldCloseSteps(t, ReplaceBreaks(b));
    }
    PlainTextPrefix(a, t + b);
  }

  /** The first three steps copy `&nbsp;`; the fourth turns it into a space. */
  lemma NbspSteps(t: string, x: string)
    requires Lower(t) == Nbsp
    ensures StepsFromBoldOpen(t + x) == " " + StepsFromBoldOpen(x)
  {
    assert '<' !in t && '&' == t[0] by {
      assert Lower(t)[0] == LowerChar(t[0]);
      forall i | 0 <= i < |t| ensures t[i] != '<' {
        assert Lower(t)[i] == LowerChar(t[i]);
      }
    }
    ReplaceFoldedPrefix(t, x, BoldOpen, "");
    var x2 := ReplaceFolded(x, BoldOpen, "");
    ReplaceFoldedPrefix(t, x2, BoldClose, "");
    var x3 := ReplaceFolded(x2, BoldClose, "");
    ReplaceFoldedAtMatch(t, x3, Nbsp, " ");
    StripTagsPrefix(" ", ReplaceFolded(x3, Nbsp, " "));
  }

  /** `&nbsp;`, in any letter case, becomes one space. */
  lemma NbspBecomesSpace(a: string, t: string, b: string)
    requires MarkupFree(a) && Lower(t) == Nbsp
    ensures PlainText(a + (t + b)) == a + " " + PlainText(b)
  {
    assert '<' !in t by {
      forall i | 0 <= i < |t| ensures t[i] != '<' {
        assert Lower(t)[i] == LowerChar(t[i]);
      }
    }
    ReplaceBreaksPrefix(t, b);
    NbspSteps(t, ReplaceBreaks(b));
    PlainTextPrefix(a, t + b);
  }

  /** A tag at the front, from `<` to the first `>`, is dropped. */
  lemma LeadingTagDropped(body: string, b: string)
    requires '>' !in body
    ensures StripTags("<" + (body + ">" + b)) == StripTags(b)
  {
    var rest := body + ">" + b;
    var s := "<" + rest;
    assert s[1..] == rest;
    assert rest[|body|] == '>';
    IndexOfAfter(body, b, '>');
    assert s[|body| + 2..] == b;
  }

  /** Any other tag, from `<` to the first `>`, is removed by the last step. */
  lemma TagRemoved(a: string, body: string, b: string)
    requires '<' !in a && '>' !in body
    ensures StripTags(a + ("<" + (body + ">" + b))) == a + StripTags(b)
  {
    LeadingTagDropped(body, b);
    StripTagsPrefix(a, "<" + (body + ">" + b));
  }

  /** The notes after appending a summary: a blank line between the old
      notes and the summary's plain text when there were notes, and a final
      line break. */
  function AppendedNotes(notes: string, summary: string): (r: string)
    ensures notes <= r
    ensures |r| > 0 && r[|r| - 1] == '\n'
  {
    notes + (if notes != "" then "\n\n" else "") + PlainText(summary) + "\n"
  }

  /** Appending the same summary twice leaves two copies of it, separated
      by a blank line. */
  lemma AppendTwice(notes: string, summary: string)
    ensures AppendedNotes(AppendedNotes(notes, summary), summary)
      == AppendedNotes(notes, summary) + "\n\n" + PlainText(summary) + "\n"
  {
  }

  // ---------------------------------------------------------------------
  // The panel's state and its three button handlers.

  /** The active tab as `chrome.tabs.query` reports it: a URL, or nothing
      usable (no tab, or a tab whose URL the extension may not read). */
  datatype TabInfo = Tab(url: string) | NoTab

  /** What injecting `getSelectedText` into the tab produced: the page's
      selection (`None` when the script returned nothing), or a refusal. */
  datatype Probe = Injected(selection: Option<string>) | InjectionFailed

  /** The backend's answer to `POST /process`. */
  datatype SummaryReply = Summary(text: string) | HttpStatus(code: nat) | NetworkError(message: string)

  /** The backend's answer to `POST /api/research`: a saved entity, a body
      that is not JSON, an error status with its body, or no answer. */
  datatype SaveReply = Saved | Unreadable(message: string) | Rejected(body: string) | Unreachable(message: string)

  /** A request the panel sent to the backend. */
  datatype Request = Process(body: Api.ResearchRequest) | Save(title: string, content: string)

  /** The status line: a message with its style, or an error whose text the
      JavaScript engine chooses (a TypeError on a missing tab). */
  datatype Status = Ok(message: string) | Err(message: string) | EngineError

  const BrowserPage := "Cannot access browser pages. Please try on a regular website."
  const Inaccessible := "Cannot access this page. Please try on a different website."
  const NoSelection := "Please select some text on the page first!"
  const SummaryDone := "Summary complete!"
  const NothingToAppend := "No summary to append!"
  const Appended := "Summary appended to notes!"
  const NoTitle := "Please add a title for your research!"
  const NoNotes := "Please add some notes!"
  const SavedMessage := "Notes saved to database successfully!"

  const SavingError := "Error saving: "
  const SaveFailed := "Error saving: Save failed: "

  /** The message that stops `saveNotes` before the request: the title is
      checked first, then the notes, each after trimming. */
  function ValidationError(title: string, notes: string): (e: Option<string>)
    ensures e == Some(NoTitle) <==> JsTrim(title) == ""
    ensures e == Some(NoNotes) <==> JsTrim(title) != "" && JsTrim(notes) == ""
    ensures e.None? <==> JsTrim(title) != "" && JsTrim(notes) != ""
  {
    if JsTrim(title) == "" then Some(NoTitle)
    else if JsTrim(notes) == "" then Some(NoNotes)
    else None
  }

  /** The status shown when the save request does not succeed. */
  function SaveError(reply: SaveReply): (r: string)
    requires !reply.Saved?
    ensures SavingError <= r
    ensures reply.Rejected? ==> r == SaveFailed + reply.body
    ensures !reply.Rejected? ==> r[|SavingError|..] == reply.message
  {
    match reply
    case Rejected(body) => SaveFailed + body
    case Unreadable(m) => SavingError + m
    case Unreachable(m) => SavingError + m
  }

  /** The status `summarizeText` shows for the backend's answer. */
  function SummaryStatus(reply: SummaryReply): Status {
    match reply
    case Summary(_) => Ok(SummaryDone)
    case HttpStatus(code) => Err("Error: Server error: " + IntToString(code))
    case NetworkError(m) => Err("Error: " + m)
  }

  /** Only a summary is reported as done; every failure is an error whose
      text starts with "Error: ", and a failed request shows its own
      message after it. */
  lemma SummaryStatusReports(reply: SummaryReply)
    ensures SummaryStatus(reply).Ok? <==> reply.Summary?
    ensures reply.Summary? ==> SummaryStatus(reply) == Ok(SummaryDone)
    ensures !reply.Summary? ==>
      var s := SummaryStatus(reply);
      s.Err? && |s.message| >= 7 && s.message[..7] == "Error: "
    ensures reply.NetworkError? ==> SummaryStatus(reply).message[7..] == reply.message
  {
  }

  /** A page the extension may not script. */
  predicate Privileged(url: string) {
    "chrome://" <= url || "edge://" <= url
  }

  /** A URL with a scheme is refused exactly when the scheme is `chrome` or
      `edge`. */
  lemma PrivilegedByScheme(scheme: string, rest: string)
    requires ':' !in scheme
    ensures Privileged(scheme + "://" + rest) <==> scheme == "chrome" || scheme == "edge"
  {
    var url := scheme + "://" + rest;
    assert url[|scheme|] == ':';
    assert url[..|scheme|] == scheme;
    assert forall i :: 0 <= i < |scheme| ==> url[i] != ':' by {
      forall i | 0 <= i < |scheme| ensures url[i] != ':' {
        assert url[i] == scheme[i];
      }
    }
    if "chrome://" <= url {
      assert url[6] == ':' && url[..6] == "chrome";
      assert |scheme| == 6;
    }
    if "edge://" <= url {
      assert url[4] == ':' && url[..4] == "edge";
      assert |scheme| == 4;
    }
  }

  /** The selection as `getSelectedText` returns it, or "" for no result. */
  function ProbedText(selection: Option<string>): string {
    if selection.Some? then JsTrim(selection.value) else ""
  }

  /** The body of the summarize request. */
  function SummarizeRequest(sel: string): Api.ResearchRequest {
    Api.ResearchRequest(Some(sel), Some("summarize"), Some("research"), false)
  }

  /** The panel: the module-level `currentSummary` and `selectedText`, the
      title input, the notes text area, the append button's enabled flag,
      the notes kept in extension storage, and the requests sent. */
  class Panel {
    var currentSummary: string
    var selectedText: string
    var title: string
    var notes: string
    var appendEnabled: bool
    var storedNotes: Option<string>
    var requests: seq<Request>

    /** Whenever there is a summary, the append button is enabled. */
    ghost predicate Valid()
      reads this
    {
      currentSummary != "" ==> appendEnabled
    }

    /** The panel as the page loads (`loadSavedNotes`): empty fields, append
        disabled, and the stored notes, if any, in the text area. */
    constructor (stored: Option<string>)
      ensures Valid()
      ensures currentSummary == "" && selectedText == "" && title == "" && !appendEnabled
      ensures notes == (if stored.Some? then stored.value else "")
      ensures storedNotes == stored && requests == []
    {
      currentSummary := "";
      selectedText := "";
      title := "";
      notes := if stored.Some? then stored.value else "";
      appendEnabled := false;
      storedNotes := stored;
      requests := [];
    }

    /** The `catch` of `summarizeText`: with a selection, fall back on its
        leading words. */
    method Fallback()
      requires Valid()
      modifies this`currentSummary, this`appendEnabled
      ensures Valid()
      ensures selectedText != "" ==> currentSummary == FallbackSummary(selectedText) && appendEnabled
      ensures selectedText == "" ==> currentSummary == old(currentSummary) && appendEnabled == old(appendEnabled)
    {
      if selectedText != "" {
        var parts := Split(selectedText, ' ');
        var k := if |parts| < FallbackWords then |parts| else FallbackWords;
        currentSummary := Join(parts[..k], ' ') + Ellipsis;
        appendEnabled := true;
      }
    }

    /** `summarizeText`. */
    method Summarize(tab: TabInfo, probe: Probe, reply: SummaryReply) returns (status: Status)
      requires Valid()
      modifies this
      ensures Valid()
      ensures unchanged(this`title, this`notes, this`storedNotes)
      // No tab: the TypeError is caught and the fallback applies to the
      // previous selection.
      ensures tab.NoTab? ==>
        && status == EngineError && unchanged(this`requests, this`selectedText)
        && (old(selectedText) != "" ==> currentSummary == FallbackSummary(old(selectedText)) && appendEnabled)
        && (old(selectedText) == "" ==> unchanged(this`currentSummary, this`appendEnabled))
      // A browser page or a page that refuses the script: nothing changes.
      ensures tab.Tab? && Privileged(tab.url) ==> status == Err(BrowserPage) && unchanged(this)
      ensures tab.Tab? && !Privileged(tab.url) && probe.InjectionFailed? ==>
        status == Err(Inaccessible) && unchanged(this)
      // Otherwise the selection is read and asked about.
      ensures tab.Tab? && !Privileged(tab.url) && probe.Injected? ==>
        var sel := ProbedText(probe.selection);
        && selectedText == sel
        && (sel == "" ==> status == Err(NoSelection) && unchanged(this`requests, this`currentSummary, this`appendEnabled))
        && (sel != "" ==>
              && requests == old(requests) + [Process(SummarizeRequest(sel))]
              && appendEnabled && status == SummaryStatus(reply)
              && (reply.Summary? ==> currentSummary == reply.text)
              && (!reply.Summary? ==> currentSummary == FallbackSummary(sel)))
    {
      if tab.NoTab? {
        Fallback();
        return EngineError;
      }
      if Privileged(tab.url) {
        return Err(BrowserPage);
      }
      if probe.InjectionFailed? {
        return Err(Inaccessible);
      }
      status := Ask(ProbedText(probe.selection), reply);
    }

    /** `summarizeText` once the selection `sel` is read: an empty one stops
        before the request; otherwise it is sent once and the reply decides
        the summary. */
    method Ask(sel: string, reply: SummaryReply) returns (status: Status)
      requires Valid()
      modifies this`selectedText, this`requests, this`currentSummary, this`appendEnabled
      ensures Valid() && selectedText == sel
      ensures sel == "" ==> status == Err(NoSelection) && unchanged(this`requests, this`currentSummary, this`appendEnabled)
      ensures sel != "" ==>
        && requests == old(requests) + [Process(SummarizeRequest(sel))]
        && appendEnabled && status == SummaryStatus(reply)
        && (reply.Summary? ==> currentSummary == reply.text)
        && (!reply.Summary? ==> currentSummary == FallbackSummary(sel))
    {
      selectedText := sel;
      if selectedText == "" {
        return Err(NoSelection);
      }
      requests := requests + [Process(SummarizeRequest(selectedText))];
      status := Receive(reply);
    }

    /** What `summarizeText` does with the backend's answer to a request
        for the selection: a summary is shown; an error status or a failed
        request falls back on the selection's leading words. */
    method Receive(reply: SummaryReply) returns (status: Status)
      requires Valid() && selectedText != ""
      modifies this`currentSummary, this`appendEnabled
      ensures Valid() && appendEnabled && status == SummaryStatus(reply)
      ensures reply.Summary? ==> currentSummary == reply.text
      ensures !reply.Summary? ==> currentSummary == FallbackSummary(selectedText)
    {
      match reply {
        case Summary(text) =>
          currentSummary := text;
          appendEnabled := true;
          status := Ok(SummaryDone);
        case HttpStatus(code) =>
          Fallback();
          status := Err("Error: Server error: " + IntToString(code));
        case NetworkError(m) =>
          Fallback();
          status := Err("Error: " + m);
      }
    }

    /** `appendToNotes`. */
    method AppendToNotes() returns (status: Status)
      requires Valid()
      modifies this`notes
      ensures Valid()
      ensures currentSummary == "" ==> status == Err(NothingToAppend) && notes == old(notes)
      ensures currentSummary != "" ==>
        status == Ok(Appended) && notes == AppendedNotes(old(notes), currentSummary)
    {
      if currentSummary == "" {
        return Err(NothingToAppend);
      }
      var separator := if notes != "" then "\n\n" else "";
      notes := notes + separator + PlainText(currentSummary) + "\n";
      status := Ok(Appended);
    }

    /** The form after a confirmed save: title, notes, summary and
        selection emptied, the append button disabled. */
    ghost predicate Cleared()
      reads this
    {
      title == "" && notes == "" && currentSummary == "" && selectedText == "" && !appendEnabled
    }

    /** What `saveNotes` does once the input is valid: it sends the trimmed
        title and notes, and only a save the backend confirms stores the
        notes and clears the form. */
    method Send(t: string, c: string, reply: SaveReply) returns (status: Status)
      requires Valid()
      modifies this
      ensures Valid()
      ensures requests == old(requests) + [Save(t, c)]
      ensures reply.Saved? ==> status == Ok(SavedMessage) && storedNotes == Some(c) && Cleared()
      ensures !reply.Saved? ==>
        && status == Err(SaveError(reply))
        && unchanged(this`title, this`notes, this`storedNotes, this`currentSummary, this`selectedText, this`appendEnabled)
    {
      requests := requests + [Save(t, c)];
      match reply {
        case Rejected(body) =>
          return Err(SaveFailed + body);
        case Unreadable(m) =>
          return Err(SavingError + m);
        case Unreachable(m) =>
          return Err(SavingError + m);
        case Saved =>
          storedNotes := Some(c);
          title := "";
          notes := "";
          currentSummary := "";
          selectedText := "";
          appendEnabled := false;
          status := Ok(SavedMessage);
      }
    }

    /** `saveNotes`: an empty title or empty notes (after trimming) stop it
        before the request, with nothing changed. */
    method SaveNotes(reply: SaveReply) returns (status: Status)
      requires Valid()
      modifies this
      ensures Valid()
      ensures ValidationError(old(title), old(notes)).Some? ==>
        status == Err(ValidationError(old(title), old(notes)).value) && unchanged(this)
      ensures ValidationError(old(title), old(notes)).None? ==>
        && requests == old(requests) + [Save(JsTrim(old(title)), JsTrim(old(notes)))]
        && (reply.Saved? ==> status == Ok(SavedMessage) && storedNotes == Some(JsTrim(old(notes))) && Cleared())
        && (!reply.Saved? ==>
              && status == Err(SaveError(reply))
              && unchanged(this`title, this`notes, this`storedNotes, this`currentSummary, this`selectedText, this`appendEnabled))
    {
      var problem := ValidationError(title, notes);
      if problem.Some? {
        return Err(problem.value);
      }
      status := Send(JsTrim(title), JsTrim(notes), reply);
    }
  }
}
