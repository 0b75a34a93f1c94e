/** The HTTP API (backend/api/server.py): the token endpoint, the two problem-bank endpoints
    and the code runner. What the submitted code does is a parameter (`Program`): whether
    running it defines a `Solution` class with a public method, how many parameters that
    method takes, and what calling it with parsed inputs gives. Parsing one input line as
    JSON is a parameter too (`parse`). */
module Server {
  import opened Wrappers
  import opened Strings
  import opened LeetCodeService

  // ---- Token endpoint ----

  /** The grants written into an access token. */
  datatype Grants = Grants(identity: string, name: string, room: string, roomJoin: bool,
                           canPublish: bool, canSubscribe: bool, canPublishData: bool)

  datatype TokenOutcome =
    | ServerError(status: int, detail: string)
    | TokenIssued(grants: Grants, roomName: string, url: string)

  function Prefix(s: string, n: nat): string {
    if |s| <= n then s else s[..n]
  }

  /** `get_token`: HTTP 500 unless all three credentials are set; otherwise the requested room,
      or "interview-" and the first eight hex digits of a fresh identifier (`uuidHex`). */
  function GetToken(livekitUrl: Option<string>, apiKey: Option<string>, apiSecret: Option<string>,
                    roomName: Option<string>, participantName: string, uuidHex: string): (r: TokenOutcome)
    ensures r.ServerError? <==> !(Given(livekitUrl) && Given(apiKey) && Given(apiSecret))
    ensures r.ServerError? ==> r.status == 500
    ensures r.TokenIssued? ==> && r.url == livekitUrl.value && r.grants.room == r.roomName
                               && r.grants.identity == participantName && r.grants.name == participantName
                               && r.grants.roomJoin && r.grants.canPublish && r.grants.canSubscribe
                               && r.grants.canPublishData
    ensures r.TokenIssued? && Given(roomName) ==> r.roomName == roomName.value
    ensures r.TokenIssued? && !Given(roomName) ==>
      && StartsWith(r.roomName, "interview-")
      && r.roomName[|"interview-"|..] == Prefix(uuidHex, 8)
  {
    if !(Given(livekitUrl) && Given(apiKey) && Given(apiSecret)) then
      ServerError(500, "LiveKit credentials not configured. Check your .env file.")
    else
      var room := if Given(roomName) then roomName.value else "interview-" + Prefix(uuidHex, 8);
      TokenIssued(Grants(participantName, participantName, room, true, true, true, true), room, livekitUrl.value)
  }

  /** A fresh room name has eighteen characters when the identifier has at least eight. */
  lemma DefaultRoomLength(livekitUrl: Option<string>, apiKey: Option<string>, apiSecret: Option<string>,
                          participantName: string, uuidHex: string)
    requires Given(livekitUrl) && Given(apiKey) && Given(apiSecret) && |uuidHex| >= 8
    ensures |GetToken(livekitUrl, apiKey, apiSecret, None, participantName, uuidHex).roomName| == 18
  {
  }

  // ---- Problem-bank endpoints ----

  datatype Simplified = Simplified(id: string, title: string, difficulty: string, topics: seq<string>)

  datatype SearchReply = Problems(problems: seq<Simplified>, message: Option<string>)

  /** `POST /leetcode/search`: the problems found, or none with a message. */
  function SearchEndpoint(tags: Option<seq<string>>, difficulty: Option<string>, limit: int,
                          server: SearchVariables -> Reply<seq<Question>>): (r: SearchReply)
    ensures var found := SearchProblems(tags, difficulty, limit, server);
      && |r.problems| == |found|
      && (forall i :: 0 <= i < |found| ==> r.problems[i].id == found[i].titleSlug && r.problems[i].title == found[i].title
                                           && r.problems[i].difficulty == found[i].difficulty
                                           && r.problems[i].topics == TagNames(found[i].topicTags))
      && (found == [] ==> r.message == Some("No problems found matching criteria"))
      && (found != [] ==> r.message.None?)
  {
    var found := SearchProblems(tags, difficulty, limit, server);
    if found == [] then Problems([], Some("No problems found matching criteria"))
    else
      Problems(seq(|found|, i requires 0 <= i < |found| =>
                 Simplified(found[i].titleSlug, found[i].title, found[i].difficulty, TagNames(found[i].topicTags))),
               None)
  }

  datatype ProblemReply = Formatted(problem: DisplayProblem) | HttpError(status: int, detail: string)

  /** `GET /leetcode/problem/{title_slug}`: the shaped problem, or HTTP 404. */
  function ProblemEndpoint(titleSlug: string, server: string -> Reply<ProblemDetails>, htmlToText: string -> string)
    : (r: ProblemReply)
    ensures r.HttpError? <==> GetProblemDetails(titleSlug, server).None?
    ensures r.HttpError? ==> r.status == 404 && r.detail == "Problem not found"
    ensures r.Formatted? ==> r.problem == FormatProblemForDisplay(GetProblemDetails(titleSlug, server).value, htmlToText)
  {
    match GetProblemDetails(titleSlug, server)
    case None => HttpError(404, "Problem not found")
    case Some(d) => Formatted(FormatProblemForDisplay(d, htmlToText))
  }

  // ---- Code runner ----

  /** A parsed JSON input. Numbers are integers here. */
  datatype Json =
    | JNull
    | JBool(b: bool)
    | JNumber(n: int)
    | JString(s: string)
    | JArray(items: seq<Json>)
    | JObject(members: seq<(string, Json)>)

  /** What executing the submitted code gives: an exception (from `exec` or from creating the
      `Solution` instance), no `Solution` class, no public method, or the first public method
      with its parameter count and its behaviour (`str` of the result, or the exception text). */
  datatype Program =
    | Raises(message: string)
    | NoSolutionClass
    | NoMethod
    | Method(paramCount: nat, call: seq<Json> -> Result<string, string>)

  datatype TestResult = TestResult(testCase: nat, input: string, output: Option<string>, passed: bool, error: Option<string>)

  datatype RunResponse =
    | Ran(allPassed: bool, results: seq<TestResult>)
    | Rejected(error: string)

  /** The text of Python's `ZeroDivisionError` for `n % 0`. */
  const ZeroModulo := "integer modulo by zero"

  /** The strings that are not empty, in order. */
  function DropEmpty(xs: seq<string>): (r: seq<string>)
    ensures forall i :: 0 <= i < |r| ==> r[i] != "" && r[i] in xs
    decreases |xs|
  {
    if xs == [] then []
    else
      var rest := DropEmpty(xs[1..]);
      assert forall x :: x in xs[1..] ==> x in xs;
      if xs[0] != "" then [xs[0]] + rest else rest
  }

  /** The test lines of `run_code`: the lines of the stripped input, each stripped, blank ones dropped. */
  function TestLines(testCases: string): seq<string> {
    DropEmpty(StripEach(Split(Strip(testCases), '\n')))
  }

  /** Only empty strings are dropped: the rest keep their order, and each non-empty string is
      kept as often as it occurs. */
  lemma {:induction false} DropEmptyKeeps(xs: seq<string>)
    ensures IsSubsequence(DropEmpty(xs), xs)
    ensures forall x :: x != "" ==> multiset(DropEmpty(xs))[x] == multiset(xs)[x]
    decreases |xs|
  {
    if xs != [] {
      DropEmptyKeeps(xs[1..]);
      var rest := DropEmpty(xs[1..]);
      assert xs == [xs[0]] + xs[1..];
      if xs[0] == "" {
        assert rest == [] || rest[0] != xs[0];
      }
    }
  }

  /** Every test line is a non-empty line that stripping leaves unchanged. */
  lemma TestLinesStripped(testCases: string)
    ensures forall i :: 0 <= i < |TestLines(testCases)| ==>
      TestLines(testCases)[i] != "" && Strip(TestLines(testCases)[i]) == TestLines(testCases)[i]
  {
    var lines := Split(Strip(testCases), '\n');
    var r := TestLines(testCases);
    forall i | 0 <= i < |r| ensures Strip(r[i]) == r[i] {
      var j :| 0 <= j < |lines| && StripEach(lines)[j] == r[i];
      StripIdempotent(lines[j]);
    }
  }

  /** `[lines[i:i+k] for i in range(0, len(lines), k)]` */
  function Blocks(lines: seq<string>, k: nat): (r: seq<seq<string>>)
    requires k > 0
    ensures forall j :: 0 <= j < |r| ==> 0 < |r[j]| <= k
    decreases |lines|
  {
    if lines == [] then []
    else if |lines| <= k then [lines]
    else [lines[..k]] + Blocks(lines[k..], k)
  }

  function Concat(blocks: seq<seq<string>>): seq<string> {
    if blocks == [] then [] else blocks[0] + Concat(blocks[1..])
  }

  /** The blocks put back together are the lines. */
  lemma {:induction false} BlocksConcat(lines: seq<string>, k: nat)
    requires k > 0
    ensures Concat(Blocks(lines, k)) == lines
    decreases |lines|
  {
    if |lines| > k {
      BlocksConcat(lines[k..], k);
      assert Blocks(lines, k)[1..] == Blocks(lines[k..], k);
      assert lines == lines[..k] + lines[k..];
    } else if lines != [] {
      assert Concat([lines]) == lines + Concat([]);
    }
  }

  /** `q * k` lines make `q` blocks of exactly `k` lines. */
  lemma {:induction false} BlocksCount(lines: seq<string>, k: nat, q: nat)
    requires k > 0 && |lines| == q * k
    ensures |Blocks(lines, k)| == q
    ensures forall j :: 0 <= j < q ==> |Blocks(lines, k)[j]| == k
    decreases q
  {
    if q > 0 {
      var b := Blocks(lines, k);
      MulAtLeast(q, k);
      assert (q - 1) * k == |lines| - k;
      if |lines| <= k {
        MulBound(q - 1, k);
      } else {
        BlocksCount(lines[k..], k, q - 1);
        assert b[1..] == Blocks(lines[k..], k);
      }
    }
  }

  /** Of `q * k` lines, block `j` is lines `j*k` up to `j*k + k`. */
  lemma BlockAt(lines: seq<string>, k: nat, q: nat, j: nat)
    requires k > 0 && |lines| == q * k && j < q
    ensures j * k + k <= |lines| && j < |Blocks(lines, k)| && Blocks(lines, k)[j] == lines[j * k..j * k + k]
  {
    MulSub(q, j, k);
    MulAtLeast(q - j, k);
    OffsetIsProduct(j, k);
    BlockFrom(lines, k, j);
  }

  /** Where block `j` starts: `j` steps of `k`. */
  function Offset(j: nat, k: nat): nat {
    if j == 0 then 0 else Offset(j - 1, k) + k
  }

  lemma {:induction false} OffsetIsProduct(j: nat, k: nat)
    ensures Offset(j, k) == j * k
  {
    if j > 0 {
      OffsetIsProduct(j - 1, k);
      MulSub(j, 1, k);
    }
  }

  /** Block `j` is the `k` lines from `Offset(j, k)`. */
  lemma {:induction false} BlockFrom(lines: seq<string>, k: nat, j: nat)
    requires k > 0 && Offset(j, k) + k <= |lines|
    ensures j < |Blocks(lines, k)| && Blocks(lines, k)[j] == lines[Offset(j, k)..Offset(j, k) + k]
    decreases j
  {
    BlocksFirst(lines, k);
    if j > 0 {
      var off, rest := Offset(j, k), lines[k..];
      BlockFrom(rest, k, j - 1);
      SliceOfDrop(lines, k, off - k, off);
      var b := Blocks(lines, k);
      assert b[j] == b[1..][j - 1];
    }
  }

  /** At least `k` lines open with a block of the first `k`; more lines leave the rest to the later blocks. */
  lemma BlocksFirst(lines: seq<string>, k: nat)
    requires 0 < k <= |lines|
    ensures |Blocks(lines, k)| > 0 && Blocks(lines, k)[0] == lines[..k]
    ensures |lines| > k ==> Blocks(lines, k)[1..] == Blocks(lines[k..], k)
  {
  }

  lemma SliceOfDrop(s: seq<string>, k: nat, lo: nat, hi: nat)
    requires k <= |s| && lo <= hi <= |s| - k
    ensures s[k..][lo..hi] == s[k + lo..k + hi]
  {
  }

  lemma MulSub(a: int, b: int, k: int)
    ensures (a - b) * k == a * k - b * k
  {
  }

  lemma MulAtLeast(a: int, k: int)
    requires a >= 1 && k > 0
    ensures a * k >= k
  {
  }

  /** The only multiple of `k` strictly between `-k` and `k` is zero. */
  lemma MulBound(a: int, k: int)
    requires k > 0 && -k < a * k < k
    ensures a == 0
  {
    if a >= 1 {
      MulAtLeast(a, k);
    } else if a <= -1 {
      MulAtLeast(-a, k);
    }
  }

  /** Position of the first line that does not parse (`|block|` when every line parses). */
  function FirstUnparsable(block: seq<string>, parse: string -> Result<Json, string>): (k: nat)
    ensures k <= |block|
    ensures forall j :: 0 <= j < k ==> parse(block[j]).Success?
    ensures k < |block| ==> parse(block[k]).Failure?
  {
    if block == [] || parse(block[0]).Failure? then 0
    else
      var k := FirstUnparsable(block[1..], parse);
      assert forall j :: 1 <= j < k + 1 ==> block[j] == block[1..][j - 1];
      1 + k
  }

  /** Parses the inputs in order, stopping at the first line that is not JSON. */
  function ParseAll(block: seq<string>, parse: string -> Result<Json, string>): (r: Result<seq<Json>, string>)
    ensures r.Success? ==> |r.value| == |block| && forall i :: 0 <= i < |block| ==> parse(block[i]) == Success(r.value[i])
    ensures r.Failure? <==> exists i :: 0 <= i < |block| && parse(block[i]).Failure?
    ensures r.Failure? ==> var k := FirstUnparsable(block, parse);
      k < |block| && parse(block[k]) == Failure(r.error)
  {
    if block == [] then Success([])
    else
      match parse(block[0])
      case Failure(e) => Failure(e)
      case Success(v) =>
        match ParseAll(block[1..], parse)
        case Failure(e) =>
          assert exists i :: 0 <= i < |block| - 1 && parse(block[1..][i]).Failure?;
          Failure(e)
        case Success(vs) => Success([v] + vs)
  }

  /** The result of test case number `n` with input lines `block`. */
  function RunBlock(n: nat, block: seq<string>, parse: string -> Result<Json, string>,
                    call: seq<Json> -> Result<string, string>): (t: TestResult)
    ensures t.testCase == n
    ensures t.passed <==> t.output.Some?
    ensures t.passed <==> t.error.None?
    ensures block != [] ==> t.input == Join(block, ", ")
    ensures t.passed <==> ParseAll(block, parse).Success? && call(ParseAll(block, parse).value).Success?
    ensures t.passed ==> t.output == Some(call(ParseAll(block, parse).value).value)
    ensures !t.passed ==> t.error == Some(if ParseAll(block, parse).Failure? then ParseAll(block, parse).error
                                          else call(ParseAll(block, parse).value).error)
    ensures block == [] ==> t.input == if t.passed then "" else "N/A"
  {
    match ParseAll(block, parse)
    case Failure(e) => TestResult(n, if block != [] then Join(block, ", ") else "N/A", None, false, Some(e))
    case Success(inputs) =>
      match call(inputs)
      case Success(out) => TestResult(n, Join(block, ", "), Some(out), true, None)
      case Failure(e) => TestResult(n, if block != [] then Join(block, ", ") else "N/A", None, false, Some(e))
  }

  function MismatchMessage(paramCount: nat, values: nat): string {
    "Test case count mismatch. Method expects " + NatToString(paramCount) + " parameters, but got "
    + NatToString(values) + " values."
  }

  /** The results of the test cases, numbered from 1. */
  function Results(blocks: seq<seq<string>>, parse: string -> Result<Json, string>,
                   call: seq<Json> -> Result<string, string>): (rs: seq<TestResult>)
    ensures |rs| == |blocks| && forall j :: 0 <= j < |blocks| ==> rs[j] == RunBlock(j + 1, blocks[j], parse, call)
  {
    seq(|blocks|, j requires 0 <= j < |blocks| => RunBlock(j + 1, blocks[j], parse, call))
  }

  predicate AllPassed(results: seq<TestResult>) {
    forall j :: 0 <= j < |results| ==> results[j].passed
  }

  /** What a submission with a `k`-parameter method answers for the test lines `lines`. */
  function MethodOutcome(lines: seq<string>, k: nat, call: seq<Json> -> Result<string, string>,
                         parse: string -> Result<Json, string>): RunResponse {
    if k == 0 then Rejected("Execution error: " + ZeroModulo)
    else if |lines| % k != 0 then Rejected(MismatchMessage(k, |lines|))
    else
      var results := Results(Blocks(lines, k), parse, call);
      Ran(AllPassed(results), results)
  }

  /** What `run_code` answers, as a function of its inputs. */
  function RunCodeSpec(program: Program, testCases: string, parse: string -> Result<Json, string>): RunResponse {
    match program
    case Raises(m) => Rejected("Execution error: " + m)
    case NoSolutionClass => Rejected("No Solution class found in code")
    case NoMethod => Rejected("No solution method found")
    case Method(k, call) => MethodOutcome(TestLines(testCases), k, call, parse)
  }

  /** The submissions that are turned away before any test runs, and their error texts. */
  lemma RejectedSubmissions(program: Program, testCases: string, parse: string -> Result<Json, string>)
    ensures program.Raises? ==> RunCodeSpec(program, testCases, parse) == Rejected("Execution error: " + program.message)
    ensures program == NoSolutionClass ==> RunCodeSpec(program, testCases, parse) == Rejected("No Solution class found in code")
    ensures program == NoMethod ==> RunCodeSpec(program, testCases, parse) == Rejected("No solution method found")
    ensures program.Method? && program.paramCount == 0 ==>
      RunCodeSpec(program, testCases, parse) == Rejected("Execution error: " + ZeroModulo)
    ensures RunCodeSpec(program, testCases, parse).Ran? <==>
      program.Method? && program.paramCount > 0 && |TestLines(testCases)| % program.paramCount == 0
  {
  }

  /** The loop of `run_code` over the test cases. */
  method RunTests(blocks: seq<seq<string>>, parse: string -> Result<Json, string>,
                  call: seq<Json> -> Result<string, string>) returns (allPassed: bool, results: seq<TestResult>)
    ensures results == Results(blocks, parse, call)
    ensures allPassed == AllPassed(results)
  {
    ghost var spec := Results(blocks, parse, call);
    results := [];
    allPassed := true;
    var j := 0;
    while j < |blocks|
      invariant 0 <= j <= |blocks|
      invariant results == spec[..j]
      invariant allPassed <==> forall i :: 0 <= i < j ==> spec[i].passed
    {
      var t := RunBlock(j + 1, blocks[j], parse, call);
      assert t == spec[j];
      if !t.passed {
        allPassed := false;
      }
      results := results + [t];
      j := j + 1;
      assert results == spec[..j];
    }
    assert spec[..|blocks|] == spec;
  }

  /** `run_code` */
  method RunCode(program: Program, testCases: string, parse: string -> Result<Json, string>) returns (r: RunResponse)
    ensures r == RunCodeSpec(program, testCases, parse)
  {
    var lines := TestLines(testCases);
    match program {
      case Raises(m) => r := Rejected("Execution error: " + m);
      case NoSolutionClass => r := Rejected("No Solution class found in code");
      case NoMethod => r := Rejected("No solution method found");
      case Method(k, call) =>
        if k == 0 {
          r := Rejected("Execution error: " + ZeroModulo);
        } else if |lines| % k != 0 {
          r := Rejected(MismatchMessage(k, |lines|));
        } else {
          var allPassed, results := RunTests(Blocks(lines, k), parse, call);
          r := Ran(allPassed, results);
        }
    }
  }

  /** A count that the parameter count does not divide is rejected before the method is
      ever called: the answer is the same whatever the method does. */
  lemma MismatchNeverCalls(lines: seq<string>, k: nat, call1: seq<Json> -> Result<string, string>,
                           call2: seq<Json> -> Result<string, string>, parse: string -> Result<Json, string>)
    requires k > 0 && |lines| % k != 0
    ensures MethodOutcome(lines, k, call1, parse) == MethodOutcome(lines, k, call2, parse)
              == Rejected(MismatchMessage(k, |lines|))
  {
  }

  /** A run gives one result per block of `k` lines, numbered 1, 2, ... in order, showing
      its lines joined by ", "; all passed exactly when every result passed. */
  lemma RunResults(lines: seq<string>, k: nat, call: seq<Json> -> Result<string, string>,
                   parse: string -> Result<Json, string>)
    requires k > 0 && |lines| % k == 0
    ensures var r := MethodOutcome(lines, k, call, parse);
      && r.Ran?
      && |r.results| == |lines| / k
      && (forall j :: 0 <= j < |r.results| ==>
            && j * k + k <= |lines|
            && r.results[j].testCase == j + 1
            && r.results[j].input == Join(lines[j * k..j * k + k], ", ")
            && (r.results[j].passed <==> r.results[j].error.None?))
      && (r.allPassed <==> forall j :: 0 <= j < |r.results| ==> r.results[j].passed)
  {
    var q := |lines| / k;
    assert |lines| == q * k;
    BlocksCount(lines, k, q);
    forall j | 0 <= j < q ensures j * k + k <= |lines| && Blocks(lines, k)[j] == lines[j * k..j * k + k] {
      BlockAt(lines, k, q, j);
    }
  }
}
