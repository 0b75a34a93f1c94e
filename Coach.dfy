/** The voice coach's own logic (backend/agent/coach.py): the context shared with the
    editor and how incoming editor messages update it, the code-and-cursor report the
    coach reads every turn, the normalisation of a spoken problem id, the clean-up of a
    generated solution, and the knowledge-base query text. The voice session, the room
    and the language-model call are left to their callers: what the model replied and
    whether a room is connected are parameters. */
module Coach {
  import opened Wrappers
  import opened Strings
  import opened LeetCodeService
  import Tools

  // ---- Problem id normalisation ----

  /** The id needs normalising when it holds a space or an upper-case letter. */
  predicate NeedsNormalizing(id: string) {
    ' ' in id || exists i :: 0 <= i < |id| && IsUpper(id[i])
  }

  predicate IsSlugChar(c: char) { IsAlnum(c) || c == '-' }

  /** The characters a slug keeps: letters, digits and '-', in their order, each as often
      as `s` holds it, and nothing else. */
  function KeepSlugChars(s: string): (r: string)
    ensures forall c :: c in r ==> c in s && (IsAlnum(c) || c == '-')
    ensures forall i :: 0 <= i < |s| && (IsAlnum(s[i]) || s[i] == '-') ==> s[i] in r
    ensures IsSubsequence(r, s)
    ensures forall c :: IsAlnum(c) || c == '-' ==> multiset(r)[c] == multiset(s)[c]
  {
    FilterKeeps(s, IsSlugChar);
    var r := Filter(s, IsSlugChar);
    assert forall i :: 0 <= i < |s| && IsSlugChar(s[i]) ==> s[i] in r by {
      forall i | 0 <= i < |s| && IsSlugChar(s[i]) ensures s[i] in r {
        assert s[i] in multiset(s);
      }
    }
    r
  }

  /** `s` with every run of '-' shortened to one '-': what the `while "--" in s` loop leaves. */
  function Squeeze(s: string): (r: string)
    ensures forall c :: c in r ==> c in s
    ensures s != [] ==> r != [] && r[0] == s[0]
    ensures !Contains(r, "--")
    decreases |s|
  {
    if |s| < 2 then
      NotContainsShort(s, "--");
      s
    else if s[0] == '-' && s[1] == '-' then
      Squeeze(s[1..])
    else
      var rest := Squeeze(s[1..]);
      var r := [s[0]] + rest;
      assert r[1..] == rest;
      assert r[..2] == [s[0], s[1]];
      r
  }

  /** Squeezing `[c] + x` depends on `x` only through `Squeeze(x)`. */
  lemma SqueezeCons(c: char, x: string)
    ensures Squeeze([c] + x) == if x != [] && c == '-' && Squeeze(x)[0] == '-' then Squeeze(x) else [c] + Squeeze(x)
  {
    assert ([c] + x)[1..] == x;
  }

  /** One pass of `replace("--", "-")` does not change what squeezing gives. */
  lemma {:induction false} SqueezeReplace(s: string)
    ensures Squeeze(Replace(s, "--", "-")) == Squeeze(s)
    decreases |s|
  {
    if |s| >= 2 {
      if s[..2] == "--" {
        var tail := s[2..];
        var r := Replace(tail, "--", "-");
        SqueezeReplace(tail);
        assert Replace(s, "--", "-") == "-" + r;
        assert s[0] == '-' && s[1] == '-' by { assert s[0] == s[..2][0] && s[1] == s[..2][1]; }
        assert s[1..] == ['-'] + tail;
        SqueezeCons('-', r);
        SqueezeCons('-', tail);
      } else {
        var tail := s[1..];
        var r := Replace(tail, "--", "-");
        SqueezeReplace(tail);
        assert Replace(s, "--", "-") == [s[0]] + r;
        assert s == [s[0]] + tail;
        SqueezeCons(s[0], r);
        SqueezeCons(s[0], tail);
      }
    }
  }

  /** A string without "--" is its own squeeze. */
  lemma {:induction false} SqueezeFixed(s: string)
    requires !Contains(s, "--")
    ensures Squeeze(s) == s
    decreases |s|
  {
    if |s| >= 2 {
      SqueezeFixed(s[1..]);
      assert s[..2] == [s[0], s[1]];
    }
  }

  /** The slug that the normalisation produces: lowered, stripped, spaces to '-', only
      letters, digits and '-' kept, runs of '-' squeezed, '-' stripped from both ends. */
  function NormalizedSlug(id: string): string {
    StripChar(Squeeze(KeepSlugChars(Replace(Strip(Lower(id)), " ", "-"))), '-')
  }

  /** The id that `select_leetcode_problem` looks up. */
  function SlugFor(id: string): string {
    if NeedsNormalizing(id) then NormalizedSlug(id) else id
  }

  /** The normalisation as the source performs it, with its `while` loop. */
  method NormalizeProblemId(id: string) returns (slug: string)
    ensures slug == SlugFor(id)
  {
    if !NeedsNormalizing(id) {
      return id;
    }
    var s := KeepSlugChars(Replace(Strip(Lower(id)), " ", "-"));
    ghost var start := s;
    while Contains(s, "--")
      invariant Squeeze(s) == Squeeze(start)
      decreases |s|
    {
      ReplaceShrinks(s, "--", "-");
      SqueezeReplace(s);
      s := Replace(s, "--", "-");
    }
    SqueezeFixed(s);
    slug := StripChar(s, '-');
  }

  /** Squeezing drops only '-', so it keeps every character that `p` accepts and '-' does not satisfy. */
  lemma {:induction false} FilterSqueeze(s: string, p: char -> bool)
    requires !p('-')
    ensures Filter(Squeeze(s), p) == Filter(s, p)
    decreases |s|
  {
    if |s| >= 2 {
      var rest := Squeeze(s[1..]);
      FilterSqueeze(s[1..], p);
      if !(s[0] == '-' && s[1] == '-') {
        assert Squeeze(s) == [s[0]] + rest;
        assert ([s[0]] + rest)[1..] == rest;
      }
    }
  }

  /** The letters and digits of a normalised slug are those of the lowered id, in order:
      normalising removes only whitespace and punctuation. */
  lemma NormalizedKeepsAlnums(id: string)
    ensures Filter(NormalizedSlug(id), IsAlnum) == Filter(Lower(id), IsAlnum)
  {
    var lowered := Lower(id);
    var lo, hi := StripSlice(lowered);
    FilterSlice(lowered, lo, hi, IsAlnum);
    var stripped := Strip(lowered);
    FilterNone(" ", IsAlnum);
    FilterNone("-", IsAlnum);
    FilterReplace(stripped, " ", "-", IsAlnum);
    var dashed := Replace(stripped, " ", "-");
    FilterFilter(dashed, IsAlnum, IsSlugChar);
    var kept := KeepSlugChars(dashed);
    FilterSqueeze(kept, IsAlnum);
    var squeezed := Squeeze(kept);
    var lo2, hi2 := StripCharSlice(squeezed, '-');
    FilterSlice(squeezed, lo2, hi2, IsAlnum);
  }

  /** The id that is looked up holds the letters and digits of the lowered id, in order. */
  lemma SlugForKeepsAlnums(id: string)
    ensures Filter(SlugFor(id), IsAlnum) == Filter(Lower(id), IsAlnum)
  {
    if NeedsNormalizing(id) {
      NormalizedKeepsAlnums(id);
    } else {
      assert Lower(id) == id;
    }
  }

  /** Only lower-case letters, digits and '-'. */
  predicate SlugAlphabet(s: string) {
    forall c :: c in s ==> IsLower(c) || IsDigit(c) || c == '-'
  }

  predicate NoUpper(s: string) {
    forall c :: c in s ==> !IsUpper(c)
  }

  lemma LoweredNoUpper(id: string)
    ensures NoUpper(Strip(Lower(id)))
  {
    var lowered := Lower(id);
    var lo, hi := StripSlice(lowered);
    SliceNoUpper(lowered, lo, hi);
  }

  lemma SliceNoUpper(s: string, lo: nat, hi: nat)
    requires lo <= hi <= |s| && forall i :: 0 <= i < |s| ==> !IsUpper(s[i])
    ensures NoUpper(s[lo..hi])
  {
    var kept := s[lo..hi];
    forall i | 0 <= i < |kept| ensures !IsUpper(kept[i]) {
      assert kept[i] == s[lo + i];
    }
  }

  lemma KeptAlphabet(s: string)
    requires NoUpper(s)
    ensures SlugAlphabet(KeepSlugChars(Replace(s, " ", "-")))
  {
    ReplaceChars(s, " ", "-");
  }

  /** Squeezing and then stripping '-' keeps the alphabet and leaves no "--" and no '-' at
      either end. */
  lemma SqueezedShape(s: string)
    requires SlugAlphabet(s)
    ensures var r := StripChar(Squeeze(s), '-');
      SlugAlphabet(r) && !Contains(r, "--") && (r == [] || (r[0] != '-' && r[|r| - 1] != '-'))
  {
    var squeezed := Squeeze(s);
    var r := StripChar(squeezed, '-');
    var lo, hi := StripCharSlice(squeezed, '-');
    ContainsSlice(squeezed, lo, hi, "--");
    SliceAlphabet(squeezed, lo, hi);
  }

  lemma SliceAlphabet(s: string, lo: nat, hi: nat)
    requires lo <= hi <= |s| && SlugAlphabet(s)
    ensures SlugAlphabet(s[lo..hi])
  {
    var kept := s[lo..hi];
    forall i | 0 <= i < |kept| ensures IsLower(kept[i]) || IsDigit(kept[i]) || kept[i] == '-' {
      assert kept[i] == s[lo + i];
      assert s[lo + i] in s;
    }
  }

  /** A normalised slug holds only lower-case letters, digits and '-', never "--", and
      neither starts nor ends with '-'. */
  lemma SlugShape(id: string)
    ensures var r := NormalizedSlug(id);
      && SlugAlphabet(r)
      && !Contains(r, "--")
      && (r == [] || (r[0] != '-' && r[|r| - 1] != '-'))
  {
    var stripped := Strip(Lower(id));
    LoweredNoUpper(id);
    KeptAlphabet(stripped);
    SqueezedShape(KeepSlugChars(Replace(stripped, " ", "-")));
  }

  /** A string in the slug alphabet needs no normalising. */
  lemma AlphabetNeedsNothing(s: string)
    requires SlugAlphabet(s)
    ensures !NeedsNormalizing(s)
  {
    assert forall i :: 0 <= i < |s| ==> s[i] in s;
  }

  /** Normalising is idempotent: a looked-up id needs no further normalising. */
  lemma SlugIdempotent(id: string)
    ensures !NeedsNormalizing(SlugFor(id))
    ensures SlugFor(SlugFor(id)) == SlugFor(id)
  {
    if NeedsNormalizing(id) {
      SlugShape(id);
      AlphabetNeedsNothing(NormalizedSlug(id));
    }
  }

  // ---- The shared context ----

  /** An editor message: `Undecodable` when the bytes are not a UTF-8 JSON object. A field
      is `None` when its key is absent. */
  datatype Packet =
    | Undecodable
    | Message(kind: Option<string>, code: Option<string>, problem: Option<string>,
              cursorLine: Option<int>, cursorColumn: Option<int>)

  /** What the coach reports in `generate_solution`. */
  datatype SolutionOutcome = SolutionOutcome(message: string, published: Option<string>)

  /** The module-level `_shared_context` dictionary. */
  class SharedContext {
    var currentCode: string
    var currentProblem: string
    var codeTemplate: string
    var cursorLine: Option<int>
    var cursorColumn: Option<int>

    constructor()
      ensures currentCode == "" && currentProblem == "" && codeTemplate == ""
      ensures cursorLine == None && cursorColumn == None
    {
      currentCode, currentProblem, codeTemplate := "", "", "";
      cursorLine, cursorColumn := None, None;
    }

    /** `on_data_received`: a "code_update" message replaces the code, problem and cursor
        (absent code or problem becoming ""); anything else changes nothing, and the code
        template is never touched. */
    method OnDataReceived(p: Packet)
      modifies this
      ensures codeTemplate == old(codeTemplate)
      ensures p.Message? && p.kind == Some("code_update") ==>
        && currentCode == p.code.GetOr("") && currentProblem == p.problem.GetOr("")
        && cursorLine == p.cursorLine && cursorColumn == p.cursorColumn
      ensures !(p.Message? && p.kind == Some("code_update")) ==>
        && currentCode == old(currentCode) && currentProblem == old(currentProblem)
        && cursorLine == old(cursorLine) && cursorColumn == old(cursorColumn)
    {
      if p.Message? && p.kind == Some("code_update") {
        currentCode := p.code.GetOr("");
        currentProblem := p.problem.GetOr("");
        cursorLine := p.cursorLine;
        cursorColumn := p.cursorColumn;
      }
    }

    /** `get_current_code_and_problem` */
    method GetCurrentCodeAndProblem() returns (r: string)
      ensures r == Report(currentCode, currentProblem, cursorLine, cursorColumn)
    {
      r := Report(currentCode, currentProblem, cursorLine, cursorColumn);
    }

    /** `select_leetcode_problem` of the coach: normalise the id, select through the tools,
        and when that succeeds in a connected room, remember the problem's code template. */
    method SelectLeetCodeProblem(problemId: string, server: string -> Reply<ProblemDetails>,
                                 htmlToText: string -> string, roomConnected: bool)
      returns (r: Tools.SelectResponse)
      modifies this
      ensures r == Tools.SelectLeetCodeProblem(SlugFor(problemId), server, htmlToText)
      ensures r.Selected? && roomConnected ==> codeTemplate == r.problem.codeTemplate
      ensures !(r.Selected? && roomConnected) ==> codeTemplate == old(codeTemplate)
      ensures currentCode == old(currentCode) && currentProblem == old(currentProblem)
      ensures cursorLine == old(cursorLine) && cursorColumn == old(cursorColumn)
    {
      var id := NormalizeProblemId(problemId);
      r := Tools.SelectLeetCodeProblem(id, server, htmlToText);
      if r.Selected? && roomConnected {
        codeTemplate := r.problem.codeTemplate;
      }
    }

    /** `generate_solution`, given the model's reply (or the error text of the call). */
    method GenerateSolution(reply: Result<string, string>, roomConnected: bool) returns (r: SolutionOutcome)
      ensures r == SolutionFor(currentProblem, reply, roomConnected)
    {
      r := SolutionFor(currentProblem, reply, roomConnected);
    }
  }

  // ---- The code report ----

  const NothingYet := "No problem selected and no code written yet."
  const ProblemHeading := "[Current Problem]\n"
  const NoProblemYet := ProblemHeading + "No problem selected yet."
  const NoCodeYet := "[User's Current Code]\nNo code written yet."

  function ProblemPart(problem: string): string {
    if problem != "" then ProblemHeading + problem else NoProblemYet
  }

  /** Line `k` of the numbered code: `k` right-aligned in three columns, then " | ". */
  function NumberedLine(k: nat, line: string): string {
    PadLeft(NatToString(k), 3) + " | " + line
  }

  function NumberLines(lines: seq<string>): (r: seq<string>)
    ensures |r| == |lines| && forall i :: 0 <= i < |lines| ==> r[i] == NumberedLine(i + 1, lines[i])
  {
    seq(|lines|, i requires 0 <= i < |lines| => NumberedLine(i + 1, lines[i]))
  }

  function NumberedCode(code: string): string {
    Join(NumberLines(Split(code, '\n')), "\n")
  }

  function CodePart(code: string): string {
    "[User's Current Code]\n```python\n" + NumberedCode(code) + "\n```"
  }

  const FocusHint := "\n\n\U{1F4A1} The user is actively working on line "
  const FocusTail := ". Focus your feedback on this area if relevant."

  /** The cursor section, with the current line shown only when the cursor is on a line. */
  function CursorPart(lines: seq<string>, line: int, column: Option<int>): string {
    var head := "[Cursor Position]\nLine " + IntToString(line + 1);
    var withColumn := if column.Some? then head + ", Column " + IntToString(column.value + 1) else head;
    if 0 <= line < |lines| then
      withColumn + ("\nCurrent line content: `" + lines[line] + "`") + (FocusHint + IntToString(line + 1) + FocusTail)
    else withColumn
  }

  /** The text of `get_current_code_and_problem`. */
  function Report(code: string, problem: string, cursorLine: Option<int>, cursorColumn: Option<int>): string {
    if problem == "" && code == "" then NothingYet
    else
      var parts :=
        if code != "" && Strip(code) != "" then
          if cursorLine.Some? then
            [ProblemPart(problem), CodePart(code), CursorPart(Split(code, '\n'), cursorLine.value, cursorColumn)]
          else [ProblemPart(problem), CodePart(code)]
        else [ProblemPart(problem), NoCodeYet];
      Join(parts, "\n\n")
  }

  /** The report is the fixed sentence exactly when there is neither a problem nor code;
      otherwise it opens with the problem section. */
  lemma ReportNothingIff(code: string, problem: string, cursorLine: Option<int>, cursorColumn: Option<int>)
    ensures Report(code, problem, cursorLine, cursorColumn) == NothingYet <==> problem == "" && code == ""
    ensures problem != "" || code != "" ==> StartsWith(Report(code, problem, cursorLine, cursorColumn), ProblemHeading)
  {
    if problem != "" || code != "" {
      var p := ProblemPart(problem);
      assert StartsWith(p, ProblemHeading) by {
        if problem != "" {
          Ends(ProblemHeading, problem);
        } else {
          Ends(ProblemHeading, "No problem selected yet.");
        }
      }
      var parts :=
        if code != "" && Strip(code) != "" then
          if cursorLine.Some? then
            [p, CodePart(code), CursorPart(Split(code, '\n'), cursorLine.value, cursorColumn)]
          else [p, CodePart(code)]
        else [p, NoCodeYet];
      JoinStartsWith(parts, "\n\n", ProblemHeading);
      var r := Report(code, problem, cursorLine, cursorColumn);
      assert r[0] == ProblemHeading[0] == '[';
      assert NothingYet[0] == 'N';
    }
  }

  /** A numbered line holds no line break when the code line holds none. */
  lemma NumberedLineSingle(k: nat, line: string)
    requires '\n' !in line
    ensures '\n' !in NumberedLine(k, line)
  {
    var digits := NatToString(k);
    assert '\n' !in digits by {
      forall i | 0 <= i < |digits| ensures digits[i] != '\n' { assert IsDigit(digits[i]); }
    }
  }

  /** The numbered code has one line per code line, line `k` numbered `k` and ending with
      the code line. */
  lemma NumberedCodeLines(code: string)
    ensures var lines := Split(code, '\n');
      var out := Split(NumberedCode(code), '\n');
      && |out| == |lines|
      && forall k :: 0 <= k < |lines| ==> out[k] == NumberedLine(k + 1, lines[k])
  {
    var lines := Split(code, '\n');
    var numbered := NumberLines(lines);
    forall k | 0 <= k < |numbered| ensures '\n' !in numbered[k] {
      NumberedLineSingle(k + 1, lines[k]);
    }
    SplitJoin(numbered, '\n');
  }

  /** With code and a cursor, the report is the problem, code and cursor sections. */
  lemma ReportWithCursor(code: string, problem: string, line: int, column: Option<int>)
    requires Strip(code) != []
    ensures Report(code, problem, Some(line), column)
      == ProblemPart(problem) + "\n\n" + CodePart(code) + "\n\n" + CursorPart(Split(code, '\n'), line, column)
  {
    assert code != "";
    JoinThree(ProblemPart(problem), CodePart(code), CursorPart(Split(code, '\n'), line, column), "\n\n");
  }

  /** A cursor on one of the lines shows that line's content. */
  lemma CursorPartShows(lines: seq<string>, line: int, column: Option<int>)
    requires 0 <= line < |lines|
    ensures Contains(CursorPart(lines, line, column), "\nCurrent line content: `" + lines[line] + "`")
  {
    var head := "[Cursor Position]\nLine " + IntToString(line + 1);
    var withColumn := if column.Some? then head + ", Column " + IntToString(column.value + 1) else head;
    ContainsInfix(withColumn, "\nCurrent line content: `" + lines[line] + "`", FocusHint + IntToString(line + 1) + FocusTail);
  }

  /** With code and a cursor on one of its lines, the report shows that line's content. */
  lemma CursorLineShown(code: string, problem: string, line: int, column: Option<int>)
    requires Strip(code) != []
    requires 0 <= line < |Split(code, '\n')|
    ensures Contains(Report(code, problem, Some(line), column), "\nCurrent line content: `" + Split(code, '\n')[line] + "`")
  {
    var lines := Split(code, '\n');
    ReportWithCursor(code, problem, line, column);
    CursorPartShows(lines, line, column);
    ContainsSuffix(ProblemPart(problem) + "\n\n" + CodePart(code) + "\n\n", CursorPart(lines, line, column),
                   "\nCurrent line content: `" + lines[line] + "`");
  }

  /** Code that is only whitespace is reported as not written yet, with no cursor section. */
  lemma BlankCodeReport(code: string, problem: string, cursorLine: Option<int>, cursorColumn: Option<int>)
    requires Strip(code) == [] && (code != [] || problem != [])
    ensures Report(code, problem, cursorLine, cursorColumn) == ProblemPart(problem) + "\n\n" + NoCodeYet
  {
    JoinTwo(ProblemPart(problem), NoCodeYet, "\n\n");
  }

  // ---- Generated solutions ----

  /** A run of three equal characters. */
  function Triple(c: char): string { [c, c, c] }

  /** Removing every run of three `c` cannot leave two `c` at the front of a string that did
      not start with two. */
  lemma NoPairHead(x: string, c: char)
    requires !StartsWith(x, [c, c])
    ensures !StartsWith(Replace(x, Triple(c), ""), [c, c])
  {
    if |x| >= 3 {
      assert x[..3][..2] == x[..2];
      assert !StartsWith(x, Triple(c));
      assert Replace(x, Triple(c), "") == [x[0]] + Replace(x[1..], Triple(c), "");
      if x[0] == c {
        assert x[..2] == [x[0], x[1]];
        assert x[1..][0] == x[1];
        ReplaceHead(x[1..], Triple(c), "");
      }
    }
  }

  /** `s.replace("```", "")` leaves no "```": each run of backticks keeps fewer than three. */
  lemma {:induction false} NoTripleLeft(s: string, c: char)
    ensures !Contains(Replace(s, Triple(c), ""), Triple(c))
    decreases |s|
  {
    var r := Replace(s, Triple(c), "");
    if |s| < 3 {
      NotContainsShort(r, Triple(c));
    } else if s[..3] == Triple(c) {
      NoTripleLeft(s[3..], c);
      assert r == Replace(s[3..], Triple(c), "");
    } else {
      var t := Replace(s[1..], Triple(c), "");
      NoTripleLeft(s[1..], c);
      assert r == [s[0]] + t;
      assert r[1..] == t;
      if s[0] == c {
        assert s[..3] == [s[0]] + s[1..][..2];
        NoPairHead(s[1..], c);
        assert |r| < 3 || r[..3] == [c] + t[..2];
      }
    }
  }

  const Fence := "```"
  const PythonFence := "```python"

  /** The clean-up of the model's reply: stripped, and when it opens with a fence, every
      "```python" and then every "```" removed and the rest stripped again. */
  function StripFences(reply: string): string {
    var s := Strip(reply);
    if StartsWith(s, PythonFence) then Strip(Replace(Replace(s, PythonFence, ""), Fence, ""))
    else if StartsWith(s, Fence) then Strip(Replace(s, Fence, ""))
    else s
  }

  /** A reply that opens with a fence comes back with no fence left anywhere; any other
      reply is only stripped. */
  lemma FencesRemoved(reply: string)
    ensures StartsWith(Strip(reply), Fence) ==> !Contains(StripFences(reply), Fence)
    ensures !StartsWith(Strip(reply), Fence) ==> StripFences(reply) == Strip(reply)
  {
    var s := Strip(reply);
    assert Fence == Triple('`');
    if StartsWith(s, PythonFence) {
      assert StartsWith(s, Fence) by { assert s[..3] == s[..9][..3]; }
      var x := Replace(Replace(s, PythonFence, ""), Fence, "");
      NoTripleLeft(Replace(s, PythonFence, ""), '`');
      var lo, hi := StripSlice(x);
      ContainsSlice(x, lo, hi, Fence);
    } else if StartsWith(s, Fence) {
      var x := Replace(s, Fence, "");
      NoTripleLeft(s, '`');
      var lo, hi := StripSlice(x);
      ContainsSlice(x, lo, hi, Fence);
    }
  }

  const NoProblemLoaded := "No problem is currently loaded."
  const SolutionShown := "Solution generated successfully and displayed in the code editor."

  /** `generate_solution`: without a current problem nothing is asked; otherwise the cleaned
      reply is published when a room is connected, and a failed call is reported. */
  function SolutionFor(problem: string, reply: Result<string, string>, roomConnected: bool): (r: SolutionOutcome)
    ensures problem == "" ==> r == SolutionOutcome(NoProblemLoaded, None)
    ensures problem != "" && reply.Failure? ==>
      r == SolutionOutcome("Sorry, I encountered an error generating the solution: " + reply.error, None)
    ensures problem != "" && reply.Success? ==> r.message == SolutionShown
    ensures r.published.Some? <==> problem != "" && reply.Success? && roomConnected
    ensures r.published.Some? ==> r.published.value == StripFences(reply.value)
  {
    if problem == "" then SolutionOutcome(NoProblemLoaded, None)
    else
      match reply
      case Failure(e) => SolutionOutcome("Sorry, I encountered an error generating the solution: " + e, None)
      case Success(text) =>
        SolutionOutcome(SolutionShown, if roomConnected then Some(StripFences(text)) else None)
  }

  // ---- Knowledge-base query ----

  /** The query of `query_company_leetcode_questions`: the company's question phrase, then the
      difficulty phrase when a difficulty is given, joined by a space. */
  function CompanyQuery(companyName: string, difficulty: Option<string>): (q: string)
    ensures StartsWith(q, companyName + " LeetCode interview questions")
    ensures !Given(difficulty) ==> q == companyName + " LeetCode interview questions"
    ensures Given(difficulty) ==> q[|companyName + " LeetCode interview questions"|..] == " " + difficulty.value + " difficulty"
  {
    var parts := [companyName + " LeetCode interview questions"] + (if Given(difficulty) then [difficulty.value + " difficulty"] else []);
    var q := Join(parts, " ");
    assert Given(difficulty) ==> q == parts[0] + " " + parts[1] by {
      if Given(difficulty) {
        JoinTwo(parts[0], parts[1], " ");
      }
    }
    q
  }
}
