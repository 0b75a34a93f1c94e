/** The problem-bank client (backend/agent/leetcode_service.py): how a search request is
    built, how a reply becomes a problem list or a problem record, and how a problem record
    is shaped for display. The HTTP exchange is a parameter (`server`): it receives the
    request variables and gives back what the exchange produced. */
module LeetCodeService {
  import opened Wrappers
  import opened Strings

  datatype TopicTag = TopicTag(name: string, slug: string)

  /** One entry of the `questions` list of a search reply. */
  datatype Question = Question(questionId: string, questionFrontendId: string, title: string, titleSlug: string,
                               difficulty: string, topicTags: seq<TopicTag>, isPaidOnly: bool)

  datatype CodeSnippet = CodeSnippet(lang: string, langSlug: string, code: string)

  /** The `question` of a details reply; `content` and `exampleTestcases` may be JSON null. */
  datatype ProblemDetails = ProblemDetails(questionId: string, questionFrontendId: string, title: string,
                                           titleSlug: string, content: Option<string>, difficulty: string,
                                           topicTags: seq<TopicTag>, codeSnippets: seq<CodeSnippet>,
                                           sampleTestCase: Option<string>, exampleTestcases: Option<string>)

  /** The `filters` map of a search request: each key is either present with its value or absent. */
  datatype Filters = Filters(tags: Option<seq<string>>, difficulty: Option<string>)

  datatype SearchVariables = SearchVariables(categorySlug: string, skip: int, limit: int, filters: Filters)

  /** The decoded body of a status-200 reply: a GraphQL `errors` member, a `data` member whose
      payload is absent or null (`None`) or present, or a body that is not JSON. */
  datatype Body<T> = GraphQLErrors | Data(payload: Option<T>) | NotJson

  /** What one HTTP exchange produced. */
  datatype Reply<T> = Response(status: int, body: Body<T>) | TimedOut | Raised(message: string)

  /** The payload of a reply, when the reply is a status-200 JSON body without errors. */
  function Payload<T>(reply: Reply<T>): Option<T> {
    if reply.Response? && reply.status == 200 && reply.body.Data? then reply.body.payload else None
  }

  /** Python truthiness of an optional string argument. */
  predicate Given(s: Option<string>) { s.Some? && s.value != "" }

  /** The request variables of `search_problems`. */
  function SearchVariablesFor(tags: Option<seq<string>>, difficulty: Option<string>, limit: int): (v: SearchVariables)
    ensures v.filters.tags.Some? <==> tags.Some? && tags.value != []
    ensures v.filters.tags.Some? ==> v.filters.tags == tags
    ensures v.filters.difficulty.Some? <==> Given(difficulty)
    ensures v.filters.difficulty.Some? ==> v.filters.difficulty == difficulty
    ensures v.categorySlug == "" && v.skip == 0 && v.limit == limit
  {
    var tagFilter := if tags.Some? && tags.value != [] then tags else None;
    var difficultyFilter := if Given(difficulty) then difficulty else None;
    SearchVariables("", 0, limit, Filters(tagFilter, difficultyFilter))
  }

  /** The questions that are not paid-only, in their original order. */
  function Unpaid(qs: seq<Question>): (r: seq<Question>)
    ensures forall i :: 0 <= i < |r| ==> !r[i].isPaidOnly
    ensures forall q :: q in qs && !q.isPaidOnly ==> q in r
    ensures IsSubsequence(r, qs)
    ensures forall q: Question :: !q.isPaidOnly ==> multiset(r)[q] == multiset(qs)[q]
  {
    if qs == [] then []
    else
      var rest := Unpaid(qs[1..]);
      assert qs == [qs[0]] + qs[1..];
      assert multiset(qs) == multiset{qs[0]} + multiset(qs[1..]);
      if qs[0].isPaidOnly then rest
      else
        var r := [qs[0]] + rest;
        assert r[1..] == rest;
        assert multiset(r) == multiset{qs[0]} + multiset(rest);
        r
  }

  /** `search_problems`: the reply's questions without the paid-only ones; every
      other outcome (GraphQL errors, status 429 or any other status, a timeout,
      an exception) is the empty list. It never raises. */
  function SearchProblems(tags: Option<seq<string>>, difficulty: Option<string>, limit: int,
                          server: SearchVariables -> Reply<seq<Question>>): (r: seq<Question>)
    ensures var reply := server(SearchVariablesFor(tags, difficulty, limit));
      && (Payload(reply).Some? ==> r == Unpaid(Payload(reply).value))
      && (Payload(reply).None? ==> r == [])
  {
    var reply := server(SearchVariablesFor(tags, difficulty, limit));
    if reply.Response? && reply.status == 200 then
      match reply.body
      case Data(Some(questions)) => Unpaid(questions)
      case _ => []
    else []
  }

  /** `get_problem_details`: the question when the reply holds one, `None` on every error path. */
  function GetProblemDetails(titleSlug: string, server: string -> Reply<ProblemDetails>): (r: Option<ProblemDetails>)
    ensures r == Payload(server(titleSlug))
    ensures r.Some? ==> server(titleSlug).Response? && server(titleSlug).status == 200
  {
    var reply := server(titleSlug);
    if reply.Response? && reply.status == 200 then
      match reply.body
      case Data(question) => question
      case _ => None
    else None
  }

  /** Position of the first snippet whose language slug is "python3" (`|snippets|` when none is). */
  function FirstPython3(snippets: seq<CodeSnippet>): (k: nat)
    ensures k <= |snippets|
    ensures k < |snippets| ==> snippets[k].langSlug == "python3"
    ensures forall j :: 0 <= j < k ==> snippets[j].langSlug != "python3"
  {
    if snippets == [] then 0
    else if snippets[0].langSlug == "python3" then 0
    else 1 + FirstPython3(snippets[1..])
  }

  /** What `format_problem_for_display` returns. */
  datatype DisplayProblem = DisplayProblem(id: string, title: string, difficulty: string, description: Option<string>,
                                           codeTemplate: string, topics: seq<string>, testCases: Option<string>)

  function TagNames(tags: seq<TopicTag>): (names: seq<string>)
    ensures |names| == |tags| && forall i :: 0 <= i < |tags| ==> names[i] == tags[i].name
  {
    seq(|tags|, i requires 0 <= i < |tags| => tags[i].name)
  }

  // ---- Whitespace clean-up: the last five rewrites of the description ----

  /** One whitespace run (it holds only whitespace) after `\n\s*\n\s*\n+` -> `\n\n`:
      when it holds three or more newlines, everything from its first to its last
      newline becomes one blank line. */
  function CollapseRun(run: string): (r: string)
    requires forall i :: 0 <= i < |run| ==> IsSpace(run[i])
    ensures forall i :: 0 <= i < |r| ==> IsSpace(r[i])
    ensures CountOf(run, '\n') < 3 ==> r == run
    ensures CountOf(run, '\n') >= 3 ==> CountOf(r, '\n') == 2
  {
    if CountOf(run, '\n') >= 3 then
      var first := IndexOf(run, '\n');
      var last := LastIndexOf(run, '\n');
      var before, after := run[..first], run[last + 1..];
      CountOfConcat(before, "\n\n", '\n');
      CountOfConcat(before + "\n\n", after, '\n');
      NewlineCounts();
      before + "\n\n" + after
    else run
  }

  function CountOf(s: string, c: char): (n: nat)
    ensures n > 0 <==> c in s
  {
    if s == [] then 0 else (if s[0] == c then 1 else 0) + CountOf(s[1..], c)
  }

  lemma {:induction false} CountOfConcat(a: string, b: string, c: char)
    ensures CountOf(a + b, c) == CountOf(a, c) + CountOf(b, c)
    decreases |a|
  {
    if a == [] {
      assert a + b == b;
    } else {
      assert (a + b)[1..] == a[1..] + b;
      CountOfConcat(a[1..], b, c);
    }
  }

  lemma NewlineCounts()
    ensures CountOf("\n\n", '\n') == 2 && CountOf("\n\n\n", '\n') == 3
  {
    assert "\n\n\n"[1..] == "\n\n";
    assert "\n\n"[1..] == "\n";
    assert "\n"[1..] == "";
  }

  function LastIndexOf(s: string, c: char): (i: nat)
    requires c in s
    ensures i < |s| && s[i] == c && c !in s[i + 1..]
  {
    if s[|s| - 1] == c then |s| - 1 else LastIndexOf(s[..|s| - 1], c)
  }

  /** Length of the whitespace run at the front of `s`. */
  function SpaceRun(s: string): (n: nat)
    ensures n <= |s| && (forall i :: 0 <= i < n ==> IsSpace(s[i])) && (n < |s| ==> !IsSpace(s[n]))
  {
    if s != [] && IsSpace(s[0]) then 1 + SpaceRun(s[1..]) else 0
  }

  predicate IsShown(c: char) { !IsSpace(c) }

  /** The non-whitespace characters of `s`, in order. */
  function Visible(s: string): string {
    Filter(s, IsShown)
  }

  /** `re.sub(r'\n\s*\n\s*\n+', '\n\n', s)`: each maximal whitespace run is rewritten by `CollapseRun`;
      the other characters are kept, in order. */
  function CollapseBlankLines(s: string): string
    decreases |s|
  {
    if s == [] then []
    else if !IsSpace(s[0]) then [s[0]] + CollapseBlankLines(s[1..])
    else
      var n := SpaceRun(s);
      CollapseRun(s[..n]) + CollapseBlankLines(s[n..])
  }

  /** Collapsing blank lines keeps every visible character, in order. */
  lemma {:induction false} CollapseKeepsVisible(s: string)
    ensures Visible(CollapseBlankLines(s)) == Visible(s)
    decreases |s|
  {
    if s != [] && !IsSpace(s[0]) {
      CollapseKeepsVisible(s[1..]);
      VisibleCons(s[0], CollapseBlankLines(s[1..]));
    } else if s != [] {
      var n := SpaceRun(s);
      CollapseKeepsVisible(s[n..]);
      CollapsedRunInvisible(s, n);
      SkipSpaces(s, n);
    }
  }

  /** A leading whitespace run, once collapsed, adds nothing visible. */
  lemma CollapsedRunInvisible(s: string, n: nat)
    requires s != [] && IsSpace(s[0]) && n == SpaceRun(s)
    ensures Visible(CollapseBlankLines(s)) == Visible(CollapseBlankLines(s[n..]))
  {
    var collapsed := CollapseRun(s[..n]);
    assert CollapseBlankLines(s) == collapsed + CollapseBlankLines(s[n..]);
    SpacesInvisible(collapsed, CollapseBlankLines(s[n..]));
  }

  /** Leading whitespace adds nothing visible. */
  lemma {:induction false} SkipSpaces(s: string, n: nat)
    requires n <= |s| && forall i :: 0 <= i < n ==> IsSpace(s[i])
    ensures Visible(s) == Visible(s[n..])
    decreases n
  {
    if n > 0 {
      SkipSpaces(s[1..], n - 1);
      assert s[1..][n - 1..] == s[n..];
    }
  }

  lemma VisibleCons(c: char, x: string)
    requires !IsSpace(c)
    ensures Visible([c] + x) == [c] + Visible(x)
  {
    assert ([c] + x)[1..] == x;
  }

  /** Whitespace in front changes nothing visible. */
  lemma SpacesInvisible(a: string, b: string)
    requires forall i :: 0 <= i < |a| ==> IsSpace(a[i])
    ensures Visible(a + b) == Visible(b)
  {
    FilterConcat(a, b, IsShown);
    FilterNone(a, IsShown);
  }

  predicate IsBlank(c: char) { c == ' ' || c == '\t' }

  predicate IsNotBlank(c: char) { !IsBlank(c) }

  /** `re.sub(r'[ \t]+', ' ', s)`: every run of spaces and tabs becomes one space. */
  function CollapseBlanks(s: string): (r: string)
    ensures s == [] <==> r == []
    ensures s != [] && IsBlank(s[0]) ==> r[0] == ' '
    ensures s != [] && !IsBlank(s[0]) ==> r[0] == s[0]
    decreases |s|
  {
    if s == [] then []
    else if IsBlank(s[0]) then " " + CollapseBlanks(TrimStart(s, IsBlank))
    else [s[0]] + CollapseBlanks(s[1..])
  }

  /** Collapsing keeps every character other than a space or a tab, newlines included, in
      order. */
  lemma {:induction false} CollapseBlanksKeeps(s: string)
    ensures Filter(CollapseBlanks(s), IsNotBlank) == Filter(s, IsNotBlank)
    decreases |s|
  {
    if s != [] && IsBlank(s[0]) {
      var rest := TrimStart(s, IsBlank);
      var tail := CollapseBlanks(rest);
      CollapseBlanksKeeps(rest);
      assert CollapseBlanks(s) == " " + tail;
      assert Filter(s, IsNotBlank) == Filter(rest, IsNotBlank) by {
        assert s[|s| - |rest|..|s|] == rest;
        FilterSlice(s, |s| - |rest|, |s|, IsNotBlank);
      }
      assert Filter(" " + tail, IsNotBlank) == Filter(tail, IsNotBlank) by {
        FilterConcat(" ", tail, IsNotBlank);
        FilterNone(" ", IsNotBlank);
      }
    } else if s != [] {
      var tail := CollapseBlanks(s[1..]);
      CollapseBlanksKeeps(s[1..]);
      assert CollapseBlanks(s) == [s[0]] + tail;
      assert s == [s[0]] + s[1..];
      FilterConcat([s[0]], tail, IsNotBlank);
      FilterConcat([s[0]], s[1..], IsNotBlank);
    }
  }

  /** Collapsing keeps every visible character, in order. */
  lemma CollapseBlanksVisible(s: string)
    ensures Visible(CollapseBlanks(s)) == Visible(s)
  {
    CollapseBlanksKeeps(s);
    FilterFilter(CollapseBlanks(s), IsShown, IsNotBlank);
    FilterFilter(s, IsShown, IsNotBlank);
  }

  /** After collapsing there is no tab and no two spaces in a row. */
  lemma {:induction false} CollapsedBlanks(s: string)
    ensures var r := CollapseBlanks(s);
      '\t' !in r && !Contains(r, "  ")
    decreases |s|
  {
    var r := CollapseBlanks(s);
    if s == [] {
      NotContainsShort(r, "  ");
    } else if IsBlank(s[0]) {
      var rest := TrimStart(s, IsBlank);
      var y := CollapseBlanks(rest);
      CollapsedBlanks(rest);
      assert r == [' '] + y;
      assert y == [] || y[0] == rest[0];
      assert |r| < 2 || r[1] != ' ';
      assert !StartsWith(r, "  ") by { if |r| >= 2 { assert r[..2][1] == r[1]; } }
      ContainsCons(' ', y, "  ");
    } else {
      var y := CollapseBlanks(s[1..]);
      CollapsedBlanks(s[1..]);
      assert r == [s[0]] + y;
      assert !StartsWith(r, "  ") by { if |r| >= 2 { assert r[..2][0] == r[0]; } }
      ContainsCons(s[0], y, "  ");
    }
  }

  /** `re.sub(r' \n', '\n', s)` on text without tabs or double spaces leaves no space before a newline. */
  lemma {:induction false} NoSpaceBeforeNewline(s: string)
    requires '\t' !in s && !Contains(s, "  ")
    ensures var r := Replace(s, " \n", "\n");
      '\t' !in r && !Contains(r, "  ") && !Contains(r, " \n")
    decreases |s|
  {
    var r := Replace(s, " \n", "\n");
    ReplaceKeepsOut(s, " \n", "\n", '\t');
    if |s| < 2 {
      assert r == s;
      NotContainsShort(s, " \n");
    } else if s[..2] == " \n" {
      ContainsSlice(s, 2, |s|, "  ");
      NoSpaceBeforeNewline(s[2..]);
      assert r == "\n" + Replace(s[2..], " \n", "\n");
      assert r[1..] == Replace(s[2..], " \n", "\n");
      assert r[0] == '\n';
      assert !StartsWith(r, " \n") && !StartsWith(r, "  ");
    } else {
      ContainsSlice(s, 1, |s|, "  ");
      NoSpaceBeforeNewline(s[1..]);
      assert r[1..] == Replace(s[1..], " \n", "\n");
      if s[0] == ' ' {
        assert s[..2] == [s[0], s[1]];
        ReplaceHead(s[1..], " \n", "\n");
      }
    }
  }

  /** `re.sub(r'\n ', '\n', s)` on text without tabs, double spaces or a space before a newline
      leaves no space on either side of a newline. */
  lemma {:induction false} NoSpaceAfterNewline(s: string)
    requires '\t' !in s && !Contains(s, "  ") && !Contains(s, " \n")
    ensures var r := Replace(s, "\n ", "\n");
      '\t' !in r && !Contains(r, "  ") && !Contains(r, " \n") && !Contains(r, "\n ")
    decreases |s|
  {
    var r := Replace(s, "\n ", "\n");
    ReplaceKeepsOut(s, "\n ", "\n", '\t');
    if |s| < 2 {
      assert r == s;
      NotContainsShort(s, "\n ");
    } else if s[..2] == "\n " {
      ContainsSlice(s, 2, |s|, "  ");
      ContainsSlice(s, 2, |s|, " \n");
      ContainsSlice(s, 1, |s|, "  ");
      NoSpaceAfterNewline(s[2..]);
      assert r[1..] == Replace(s[2..], "\n ", "\n");
      if |s| > 2 {
        assert s[1..][..2] == [s[1], s[2]];
        ReplaceHead(s[2..], "\n ", "\n");
      }
    } else {
      ContainsSlice(s, 1, |s|, "  ");
      ContainsSlice(s, 1, |s|, " \n");
      NoSpaceAfterNewline(s[1..]);
      assert r[1..] == Replace(s[1..], "\n ", "\n");
      if s[0] == ' ' || s[0] == '\n' {
        assert s[..2] == [s[0], s[1]];
        ReplaceHead(s[1..], "\n ", "\n");
      }
    }
  }

  /** The final whitespace normalisation of a description (the rewrites after the HTML stage). */
  function NormalizeWhitespace(s: string): string {
    Strip(Replace(Replace(CollapseBlanks(CollapseBlankLines(s)), " \n", "\n"), "\n ", "\n"))
  }

  /** A normalised description has no tab, no two spaces in a row, no space beside a newline
      and no whitespace at either end. */
  lemma NormalizedIsClean(s: string)
    ensures var r := NormalizeWhitespace(s);
      && '\t' !in r && !Contains(r, "  ") && !Contains(r, " \n") && !Contains(r, "\n ")
      && (r == [] || (!IsSpace(r[0]) && !IsSpace(r[|r| - 1])))
  {
    var a := CollapseBlanks(CollapseBlankLines(s));
    CollapsedBlanks(CollapseBlankLines(s));
    NoSpaceBeforeNewline(a);
    var b := Replace(a, " \n", "\n");
    NoSpaceAfterNewline(b);
    var c := Replace(b, "\n ", "\n");
    StripKeepsClean(c);
  }

  /** The normalisation removes only whitespace: every visible character is kept, in order. */
  lemma NormalizedKeepsVisible(s: string)
    ensures Visible(NormalizeWhitespace(s)) == Visible(s)
  {
    CollapseKeepsVisible(s);
    CollapseBlanksVisible(CollapseBlankLines(s));
    var a := CollapseBlanks(CollapseBlankLines(s));
    FilterNone(" \n", IsShown);
    FilterNone("\n ", IsShown);
    FilterNone("\n", IsShown);
    FilterReplace(a, " \n", "\n", IsShown);
    var b := Replace(a, " \n", "\n");
    FilterReplace(b, "\n ", "\n", IsShown);
    var c := Replace(b, "\n ", "\n");
    var lo, hi := StripSlice(c);
    FilterSlice(c, lo, hi, IsShown);
  }

  /** After the blank-line rewrite no three newlines stand in a row. */
  lemma {:induction false} CollapsedNoTriple(s: string)
    ensures !Contains(CollapseBlankLines(s), "\n\n\n")
    decreases |s|
  {
    if s == [] {
      NotContainsShort([], "\n\n\n");
    } else if !IsSpace(s[0]) {
      var rest := CollapseBlankLines(s[1..]);
      CollapsedNoTriple(s[1..]);
      ContainsCons(s[0], rest, "\n\n\n");
      assert !StartsWith([s[0]] + rest, "\n\n\n") by {
        if |[s[0]] + rest| >= 3 {
          assert ([s[0]] + rest)[..3][0] == s[0];
        }
      }
    } else {
      var n := SpaceRun(s);
      var run := s[..n];
      assert forall i :: 0 <= i < |run| ==> IsSpace(run[i]);
      CollapsedNoTriple(s[n..]);
      NoTripleAcross(CollapseRun(run), CollapseBlankLines(s[n..]));
    }
  }

  /** Three newlines in a row cannot straddle a whitespace run holding at most two newlines
      and a text that starts with a visible character. */
  lemma {:induction false} NoTripleAcross(a: string, b: string)
    requires forall i :: 0 <= i < |a| ==> IsSpace(a[i])
    requires CountOf(a, '\n') <= 2
    requires b == [] || !IsSpace(b[0])
    requires !Contains(b, "\n\n\n")
    ensures !Contains(a + b, "\n\n\n")
    decreases |a|
  {
    if a == [] {
      assert a + b == b;
    } else {
      var t := a + b;
      NoTripleAcross(a[1..], b);
      assert t[1..] == a[1..] + b;
      assert !StartsWith(t, "\n\n\n") by {
        if |a| < 3 {
          assert |t| > |a| ==> t[|a|] == b[0];
          assert |t| >= 3 ==> t[|a|] == t[..3][|a|];
        } else {
          assert a == a[..3] + a[3..];
          CountOfConcat(a[..3], a[3..], '\n');
          NewlineCounts();
          assert a[..3] == t[..3];
        }
      }
    }
  }

  /** Stripping the ends keeps a text free of tabs, double spaces and spaces beside newlines. */
  lemma StripKeepsClean(c: string)
    requires '\t' !in c && !Contains(c, "  ") && !Contains(c, " \n") && !Contains(c, "\n ")
    ensures var r := Strip(c);
      && '\t' !in r && !Contains(r, "  ") && !Contains(r, " \n") && !Contains(r, "\n ")
      && (r == [] || (!IsSpace(r[0]) && !IsSpace(r[|r| - 1])))
  {
    var r := Strip(c);
    var lo, hi := StripSlice(c);
    ContainsSlice(c, lo, hi, "  ");
    ContainsSlice(c, lo, hi, " \n");
    ContainsSlice(c, lo, hi, "\n ");
    assert '\t' !in r by { assert forall i :: 0 <= i < |r| ==> r[i] == c[lo + i]; }
  }

  /** The description shown: the HTML stage (`htmlToText`: the tag rewrites and entity
      unescaping) and then the whitespace normalisation, applied only to non-empty content;
      empty or null content is passed through. */
  function Describe(content: Option<string>, htmlToText: string -> string): (r: Option<string>)
    ensures !Given(content) ==> r == content
    ensures Given(content) ==> r.Some? && Visible(r.value) == Visible(htmlToText(content.value))
    ensures Given(content) ==> var t := r.value;
      && '\t' !in t && !Contains(t, "  ") && !Contains(t, " \n") && !Contains(t, "\n ")
      && (t == [] || (!IsSpace(t[0]) && !IsSpace(t[|t| - 1])))
  {
    if Given(content) then
      var h := htmlToText(content.value);
      NormalizedKeepsVisible(h);
      NormalizedIsClean(h);
      Some(NormalizeWhitespace(h))
    else content
  }

  /** `format_problem_for_display` */
  function FormatProblemForDisplay(d: ProblemDetails, htmlToText: string -> string): (p: DisplayProblem)
    ensures p.id == d.titleSlug && p.title == d.title && p.difficulty == d.difficulty
    ensures |p.topics| == |d.topicTags| && forall i :: 0 <= i < |d.topicTags| ==> p.topics[i] == d.topicTags[i].name
    ensures p.testCases == d.exampleTestcases
    ensures var k := FirstPython3(d.codeSnippets);
      p.codeTemplate == if k < |d.codeSnippets| then d.codeSnippets[k].code else ""
    ensures !Given(d.content) ==> p.description == d.content
    ensures p.description == Describe(d.content, htmlToText)
    ensures Given(d.content) ==> p.description.Some? && Visible(p.description.value) == Visible(htmlToText(d.content.value))
  {
    var k := FirstPython3(d.codeSnippets);
    var code := if k < |d.codeSnippets| then d.codeSnippets[k].code else "";
    DisplayProblem(d.titleSlug, d.title, d.difficulty, Describe(d.content, htmlToText), code,
                   TagNames(d.topicTags), d.exampleTestcases)
  }

  /** A shown description is clean whenever it was rewritten. */
  lemma DisplayedDescriptionIsClean(d: ProblemDetails, htmlToText: string -> string)
    requires Given(d.content)
    ensures var r := FormatProblemForDisplay(d, htmlToText).description.value;
      && '\t' !in r && !Contains(r, "  ") && !Contains(r, " \n") && !Contains(r, "\n ")
      && (r == [] || (!IsSpace(r[0]) && !IsSpace(r[|r| - 1])))
  {
    NormalizedIsClean(htmlToText(d.content.value));
  }
}
