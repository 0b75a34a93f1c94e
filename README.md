# CodeCoach core, modelled in Dafny

CodeCoach is a voice interview coach. A speech agent talks with the user, the editor sends
it the user's code and cursor, and an HTTP API serves problems from the LeetCode problem
bank and runs the user's code against test cases. This project models the deterministic
logic behind that:

- **Tools** (`Tools.dfy`): how a spoken topic becomes a problem-bank tag. The strategies are
  the alias table, the exact slug, the exact name up to case, a close slug, a close name,
  and finally a "not found" message. The module also covers the lazily filled tag cache and
  the JSON answers of the search and selection tools.
- **Coach** (`Coach.dfy`): the shared context that editor messages update, and the numbered
  code-and-cursor report. It also covers the normalisation of a spoken problem id into a
  slug, the clean-up of a generated solution, and the knowledge-base query text.
- **Server** (`Server.dfy`): the token endpoint's credential check and room naming, and the
  two problem-bank endpoints. The code runner cleans the input lines, checks that the
  parameter count divides them, cuts them into blocks, numbers the results and combines
  them into `all_passed`.
- **LeetCodeService** (`LeetCodeService.dfy`): the search filters and the removal of paid
  problems. Every error path of the two fetches answers empty. The module also covers how a
  problem record is shaped for display, including the final whitespace clean-up of the
  description.
- **Rag** (`Rag.dfy`): the index life cycle: load or create, rebuild, and the process-wide
  instance. These are state machines over the index field and the persisted index
  directory. The module also formats the retrieved context, with its fixed sentences.
- **FallbackSolutions** (`FallbackSolutions.dfy`): the four canned solutions and the
  Markdown document built from an entry.
- `Strings.dfy` models the parts of Python's `str` that the core uses. `Wrappers.dfy` holds
  `Option` and `Result`.

The outside world becomes parameters:
- Network replies of the problem bank are a `server` function from the request to what the
  exchange produced.
- The close-match library is a `close` function returning at most one candidate.
- The HTML stage is `htmlToText`.
- The tag file is the `file` value it parses to.
- The submitted program is a `Program` value.
- JSON parsing is `parse`.
- The language-model reply is a `Result`.
- The vector-index library consists of a `Builder` that creates the index and a `Retriever`
  that queries it.
- The fresh identifier is the string `uuidHex`.
- The data and persisted-index directories are a `Storage` object.

## Model

| member | source | states |
|---|---|---|
| Tools.TagCache.constructor | backend/agent/tools.py:16 | the tag cache starts empty |
| Tools.TagCache.Load | backend/agent/tools.py:41-60 | a filled cache is returned as it is, without reading the file; an empty cache reads the file once and keeps what it gave, so a failed read leaves the cache empty and the next call reads again |
| Tools.TagCache.FindBestMatchingTag | backend/agent/tools.py:63-127 | loads the tags through the cache, reading the file only when the cache is empty, and answers exactly what the strategy chain `BestMatchingTag` gives for the loaded tags |
| Tools.FindExactName | backend/agent/tools.py:102-105 | the scan over the name-to-slug entries stops at the first name equal to the key once lowercased, as `ExactName` specifies |
| Tools.ExactName | backend/agent/tools.py:102-105 | the position found is the first entry whose lowercased name is the key; every earlier entry differs, and the entry count means none matches |
| Tools.FirstWithSlug | backend/agent/tools.py:111-114 | the position found is the first entry mapping to the slug, or the entry count when none does |
| Tools.Lookup | backend/agent/tools.py:121 | `mapping[name]` is absent exactly when no entry has that name; a found slug is one the name maps to |
| Tools.DisplayName | backend/agent/tools.py:110-115 | the name shown for a slug is the first name mapping to it, or the slug itself when no name does |
| Tools.FuzzyMatch | backend/agent/tools.py:107-127 | a guess always carries a message; it fails exactly when no slug is close, a name is, and the name-to-slug object lacks that name |
| Tools.BestMatchingTag | backend/agent/tools.py:84-127 | without tag data it never fails; an answer without a message names an alias target, a listed slug or a slug that some name maps to |
| Tools.NoTagsNoSearch | backend/agent/tools.py:84-87 | without tag data the answer is the lowercased, stripped input with no message, whatever the close-match search would say |
| Tools.AliasFirst | backend/agent/tools.py:94-96 | an alias decides the answer, with no message, whatever the tag data and the close-match search are |
| Tools.ExactIffNoNote | backend/agent/tools.py:94-122 | the answer carries no message exactly when the key is an alias, a slug or a name up to case; such an answer does not depend on the close-match search |
| Tools.FuzzySlugShown | backend/agent/tools.py:107-115 | after the exact strategies, a close slug is the answer, explained as "Using '<display name>' (closest match to '<input>')" |
| Tools.FailureIsMissingName | backend/agent/tools.py:117-122 | the only failure is a close name absent from the name-to-slug object, after every earlier strategy failed; the failure carries that name |
| Tools.NothingMatches | backend/agent/tools.py:124-127 | with no strategy succeeding, the tag is the lowercased, stripped input and the message is the "not found" one listing the first ten slugs |
| Tools.NotFoundNote | backend/agent/tools.py:124-127 | the "not found" message opens with "Topic '<original input>' not found", so contains "not found", then lists the first ten slugs joined by ", " and ends with "..." |
| Tools.Summary | backend/agent/tools.py:166-174 | a search hit shows `titleSlug` as its id, its title and difficulty, and the names of its topic tags |
| Tools.SearchResponseFor | backend/agent/tools.py:153-188 | success exactly when problems were found; then the topic and matched tag, one summary per problem in order, `count` equal to their number, and a `note` exactly when a message exists; otherwise the message itself if it says "not found", else the generic one |
| Tools.TagCache.SearchLeetCodeProblems | backend/agent/tools.py:130-194 | resolves the topic, reading the tag file only when the cache is empty, searches with that one tag, the difficulty and a limit of 5, and answers `SearchResponseFor`; a failed resolution propagates |
| Tools.SelectLeetCodeProblem | backend/agent/tools.py:197-229 | "Problem '<id>' not found." exactly when the problem bank gives no problem, otherwise the problem shaped for display |
| Coach.KeepSlugChars | backend/agent/coach.py:73 | keeps the letters, digits and '-' of the string, in their order and each as often as it occurs, and nothing else |
| Coach.Squeeze | backend/agent/coach.py:74-75 | leaves no "--", adds no character and keeps the first character |
| Coach.SqueezeReplace | backend/agent/coach.py:74-75 | one `replace("--", "-")` pass leaves the squeezed result unchanged, so it is the loop's invariant |
| Coach.SqueezeFixed | backend/agent/coach.py:74 | a string without "--", where the loop stops, is its own squeeze |
| Coach.SqueezeCons | backend/agent/coach.py:74-75 | squeezing a string with one more character in front depends only on the squeezed rest |
| Coach.NormalizeProblemId | backend/agent/coach.py:71-76 | the `while "--"` loop gives `SlugFor(id)`: an id without spaces or capitals is passed through, any other id is normalised |
| Coach.LoweredNoUpper | backend/agent/coach.py:72 | the lowered, stripped id holds no capital letter |
| Coach.KeptAlphabet | backend/agent/coach.py:72-73 | after spaces become '-' and other symbols are dropped, only lower-case letters, digits and '-' remain |
| Coach.SqueezedShape | backend/agent/coach.py:74-76 | squeezing and stripping '-' keep that alphabet and leave no "--" and no '-' at either end |
| Coach.SlugShape | backend/agent/coach.py:72-76 | a normalised slug holds only lower-case letters, digits and '-', never "--", and neither starts nor ends with '-' |
| Coach.AlphabetNeedsNothing | backend/agent/coach.py:71 | a string in the slug alphabet does not trigger normalisation |
| Coach.SlugIdempotent | backend/agent/coach.py:71-76 | a looked-up id needs no further normalisation, and normalising it again changes nothing |
| Coach.FilterSqueeze | backend/agent/coach.py:74-75 | squeezing drops only '-', so the letters and digits stay, in order |
| Coach.NormalizedKeepsAlnums | backend/agent/coach.py:72-76 | the letters and digits of a normalised slug are those of the lowered id, in order |
| Coach.SlugForKeepsAlnums | backend/agent/coach.py:71-76 | the id looked up holds the letters and digits of the lowered id, in order, whether or not it was normalised |
| Coach.SharedContext.constructor | backend/agent/coach.py:14 | code, problem and template start empty; the cursor starts unset |
| Coach.SharedContext.OnDataReceived | backend/agent/coach.py:173-184 | a "code_update" message sets code and problem (missing as "") and the cursor (missing as unset); any other or undecodable message changes nothing; the code template is never touched |
| Coach.SharedContext.GetCurrentCodeAndProblem | backend/agent/coach.py:25-57 | answers the report `Report` of the current context |
| Coach.SharedContext.SelectLeetCodeProblem | backend/agent/coach.py:65-92 | selects `SlugFor(id)` through the tools; only a successful selection in a connected room stores the problem's code template; code, problem and cursor are unchanged |
| Coach.SharedContext.GenerateSolution | backend/agent/coach.py:107-165 | answers `SolutionFor` of the current problem |
| Coach.NumberLines | backend/agent/coach.py:42 | one numbered line per code line, line `i` numbered `i + 1` |
| Coach.ReportNothingIff | backend/agent/coach.py:34-38 | the report is "No problem selected and no code written yet." exactly when there is neither problem nor code; otherwise it opens with "[Current Problem]\n" |
| Coach.NumberedLineSingle | backend/agent/coach.py:42 | a numbered line holds no line break when the code line holds none |
| Coach.NumberedCodeLines | backend/agent/coach.py:41-42 | the numbered code has as many lines as the code, line `k` numbered `k` right-aligned in three columns, then a space, a bar and a space, then the code line |
| Coach.ReportWithCursor | backend/agent/coach.py:37-57 | with code that is not blank and a cursor, the report is the problem, code and cursor sections joined by blank lines |
| Coach.CursorPartShows | backend/agent/coach.py:45-53 | a cursor on one of the lines shows that line's content |
| Coach.CursorLineShown | backend/agent/coach.py:40-53 | with code and a cursor on one of its lines, the report shows that line's content |
| Coach.BlankCodeReport | backend/agent/coach.py:40-55 | whitespace-only code is reported as "No code written yet." with no cursor section |
| Coach.NoPairHead | backend/agent/coach.py:152-154 | removing every "```" cannot create two backticks at the front |
| Coach.NoTripleLeft | backend/agent/coach.py:152-154 | `replace("```", "")` leaves no "```" |
| Coach.FencesRemoved | backend/agent/coach.py:150-154 | a reply opening with a fence comes back with no "```" anywhere; any other reply is only stripped |
| Coach.SolutionFor | backend/agent/coach.py:112-165 | without a problem, "No problem is currently loaded." and nothing published; a failed call is reported with its error; otherwise the success sentence, and the cleaned reply is published exactly when a room is connected |
| Coach.CompanyQuery | backend/agent/coach.py:101-105 | the query is "<company> LeetCode interview questions", followed by " <difficulty> difficulty" exactly when a difficulty is given |
| Server.GetToken | backend/api/server.py:54-88 | HTTP 500 exactly when a credential is missing or empty; otherwise the grants name the participant and the room, allow joining, publishing, subscribing and data, and the room is the requested one or "interview-" and the first eight hex digits |
| Server.DefaultRoomLength | backend/api/server.py:67 | a generated room name has eighteen characters |
| Server.SearchEndpoint | backend/api/server.py:98-120 | one simplified problem per found problem, in order, with id, title, difficulty and topic names; the message "No problems found matching criteria" exactly when none was found, and no message otherwise |
| Server.ProblemEndpoint | backend/api/server.py:126-144 | HTTP 404 "Problem not found" exactly when the problem bank gives none, otherwise the problem shaped for display |
| Server.DropEmpty | backend/api/server.py:158 | only non-empty lines of the input remain |
| Server.DropEmptyKeeps | backend/api/server.py:158 | the kept lines are in their original order, and each non-empty line is kept as often as it occurs |
| Server.TestLinesStripped | backend/api/server.py:158 | every test line is non-empty and already stripped |
| Server.Blocks | backend/api/server.py:195 | every block is non-empty and at most `k` lines long |
| Server.BlocksConcat | backend/api/server.py:195 | the blocks put back together are the test lines |
| Server.BlocksCount | backend/api/server.py:189-195 | `q * k` lines make `q` blocks of exactly `k` lines |
| Server.BlockAt | backend/api/server.py:195 | block `j` is lines `j*k` up to `j*k + k` |
| Server.FirstUnparsable | backend/api/server.py:202 | the position of the first input line that does not parse; every earlier line parses |
| Server.ParseAll | backend/api/server.py:202 | parsing fails exactly when some input line is not JSON, and then with the error of the first such line; otherwise one value per line, each what that line parses to |
| Server.RunBlock | backend/api/server.py:200-223 | a result passes exactly when every input parses and the call succeeds; then the output is the call's text and there is no error; otherwise no output, and the error is the first parse error or else the call's error; the input is the block joined by ", " |
| Server.Results | backend/api/server.py:200-223 | one result per block, the `j`-th numbered `j + 1` |
| Server.RejectedSubmissions | backend/api/server.py:170-193 | a raising program, a missing `Solution` class, a missing method and a zero-parameter method are rejected with their texts; the tests run exactly when the parameter count divides the number of test lines |
| Server.RunTests | backend/api/server.py:197-223 | the loop produces `Results` and clears `all_passed` exactly when some result failed |
| Server.RunCode | backend/api/server.py:154-236 | answers `RunCodeSpec`, the outcome of the submission on the cleaned test lines |
| Server.MismatchNeverCalls | backend/api/server.py:189-193 | a count that the parameter count does not divide is rejected with the mismatch message, whatever the method does |
| Server.RunResults | backend/api/server.py:195-229 | one result per block of `k` lines, numbered 1, 2, ... in order, showing its lines joined by ", "; all passed exactly when every result passed |
| LeetCodeService.SearchVariablesFor | backend/agent/leetcode_service.py:53-64 | the tags filter is present exactly when the tags are non-empty, the difficulty filter exactly when the difficulty is non-empty; no category, skip 0, the limit passed through |
| LeetCodeService.Unpaid | backend/agent/leetcode_service.py:96-97 | no paid-only problem is kept, every other one is kept as often as it occurs, and the order is kept |
| LeetCodeService.SearchProblems | backend/agent/leetcode_service.py:20-111 | the unpaid questions of a status-200 reply with data; every other outcome is the empty list |
| LeetCodeService.GetProblemDetails | backend/agent/leetcode_service.py:113-189 | the question of a status-200 reply with data; every error path is `None` |
| LeetCodeService.FirstPython3 | backend/agent/leetcode_service.py:193-194 | the first snippet whose language slug is "python3", or none |
| LeetCodeService.TagNames | backend/agent/leetcode_service.py:241 | the tag names, in order |
| LeetCodeService.CollapseRun | backend/agent/leetcode_service.py:227 | a whitespace run stays whitespace; one with three or more newlines keeps exactly two, and any other run is unchanged |
| LeetCodeService.CountOf | backend/agent/leetcode_service.py:227 | the count is positive exactly when the character occurs |
| LeetCodeService.CountOfConcat | backend/agent/leetcode_service.py:227 | the count in a concatenation is the sum of the counts |
| LeetCodeService.LastIndexOf | backend/agent/leetcode_service.py:227 | the position of the last occurrence |
| LeetCodeService.SpaceRun | backend/agent/leetcode_service.py:227 | the length of the leading whitespace run |
| LeetCodeService.CollapseKeepsVisible | backend/agent/leetcode_service.py:227 | collapsing blank lines keeps every non-whitespace character, in order |
| LeetCodeService.CollapsedNoTriple | backend/agent/leetcode_service.py:227 | after the blank-line rewrite no three newlines stand in a row |
| LeetCodeService.NoTripleAcross | backend/agent/leetcode_service.py:227 | three newlines cannot straddle a collapsed run and the visible character after it |
| LeetCodeService.CollapseBlanks | backend/agent/leetcode_service.py:228 | empty exactly for empty text; a run of spaces and tabs in front becomes one space, any other first character is kept |
| LeetCodeService.CollapseBlanksKeeps | backend/agent/leetcode_service.py:228 | every character other than a space or a tab, newlines included, is kept, in order |
| LeetCodeService.CollapseBlanksVisible | backend/agent/leetcode_service.py:228 | every non-whitespace character is kept, in order |
| LeetCodeService.CollapsedBlanks | backend/agent/leetcode_service.py:228 | after `[ \t]+` becomes ' ' there is no tab and no two spaces in a row |
| LeetCodeService.NoSpaceBeforeNewline | backend/agent/leetcode_service.py:229 | removing " \n" from such text leaves no space before a newline and keeps the earlier guarantees |
| LeetCodeService.NoSpaceAfterNewline | backend/agent/leetcode_service.py:230 | removing "\n " then leaves no space after a newline and keeps the earlier guarantees |
| LeetCodeService.StripKeepsClean | backend/agent/leetcode_service.py:231 | the final strip keeps those guarantees and leaves no whitespace at either end |
| LeetCodeService.NormalizedIsClean | backend/agent/leetcode_service.py:227-231 | a normalised description has no tab, no two spaces in a row, no space beside a newline, and no whitespace at either end |
| LeetCodeService.NormalizedKeepsVisible | backend/agent/leetcode_service.py:227-231 | the whole whitespace normalisation removes only whitespace: every other character is kept, in order |
| LeetCodeService.Describe | backend/agent/leetcode_service.py:196-231 | empty or null content is passed through; other content is shown with every non-whitespace character of its HTML-stage text kept in order, and with no tab, no two spaces, no space beside a newline and no whitespace at either end |
| LeetCodeService.FormatProblemForDisplay | backend/agent/leetcode_service.py:191-243 | id is the title slug; title and difficulty are copied; topics are the tag names in order; the test cases are `exampleTestcases`; the template is the first python3 snippet's code or ""; the description is `Describe` of the content, so empty content is kept and other content keeps its visible text |
| LeetCodeService.DisplayedDescriptionIsClean | backend/agent/leetcode_service.py:198-231 | a rewritten description is clean in the sense of `NormalizedIsClean` |
| Rag.Storage.constructor | backend/agent/rag.py:27-29 | the two directories as given |
| Rag.StartupLoadsOrCreates | backend/agent/rag.py:50-64 | start-up succeeds exactly when a readable index is persisted or creation succeeds; a readable index is used as it is, with no creation; an absent directory with a failing creation tries creation twice |
| Rag.CreationCases | backend/agent/rag.py:66-99 | creation fails for a missing data directory, for one without PDFs and when the library fails, and otherwise gives the library's index |
| Rag.Kept | backend/agent/rag.py:130-139 | the 1-based places of exactly the non-blank texts, in increasing order |
| Rag.ContextPartsNumbered | backend/agent/rag.py:130-139 | the `j`-th part is "[Context k]\n<text>" for the `j`-th kept place `k`, so blank nodes use up their number |
| Rag.NoneKept | backend/agent/rag.py:130-139 | no part when every text is blank |
| Rag.KeptAt | backend/agent/rag.py:130-139 | every non-blank text has its place among the kept ones |
| Rag.PartShown | backend/agent/rag.py:130-141 | every non-blank text appears in the joined parts, labelled with its own place |
| Rag.NodeShown | backend/agent/rag.py:126-143 | every non-blank node appears in the answer, stripped and labelled with its 1-based place among all retrieved nodes |
| Rag.BlankNodesGiveEmpty | backend/agent/rag.py:126-143 | when every retrieved node is blank the answer is "", not the no-match sentence |
| Rag.LabelOpens | backend/agent/rag.py:139 | a label opens with '[' |
| Rag.PartsOpenWithBracket | backend/agent/rag.py:139-141 | joined parts, when there are any, open with '[' |
| Rag.SentinelsUnambiguous | backend/agent/rag.py:112-147 | the not-initialised sentence is answered exactly without an index, the no-match sentence exactly for an empty retrieval, and a failed retrieval as "Error retrieving information: <message>" |
| Rag.LeetCodeRag.constructor | backend/agent/rag.py:37 | the index starts unset |
| Rag.LeetCodeRag.CreateIndex | backend/agent/rag.py:66-99 | ends as `Creation` says; on success the index is set and persisted; on failure neither the index nor the directory changes |
| Rag.LeetCodeRag.LoadOrCreateIndex | backend/agent/rag.py:50-64 | ends as `Startup` says, after `Attempts` creations; on success the index is set and persisted; on failure nothing changes |
| Rag.LeetCodeRag.RebuildIndex | backend/agent/rag.py:149-161 | the persisted directory is removed, then an index is created; a failed creation leaves no persisted index and the old index in the field |
| Rag.LeetCodeRag.QueryCompanyQuestions | backend/agent/rag.py:101-147 | the loop over the retrieved nodes answers `Answer` of the current index |
| Rag.Registry.constructor | backend/agent/rag.py:165 | no instance at first |
| Rag.Registry.GetRagInstance | backend/agent/rag.py:168-176 | an existing instance is returned as it is; otherwise a fresh one starts up, and it is kept exactly when start-up succeeds; a failure leaves no instance and carries the start-up error |
| Rag.Registry.QueryLeetCodeRag | backend/agent/rag.py:179-190 | the instance's answer with five nodes retrieved; an existing instance is reused and the query succeeds; without one, the query succeeds exactly when `Startup` does, keeping its index; a failure carries `Startup`'s error and leaves no instance |
| FallbackSolutions.GetFallbackSolution | backend/agent/fallback_solutions.py:325-354 | `None` exactly for a slug other than the four keys, with an exact, case-sensitive lookup; otherwise the entry's title and approach and its Markdown document |
| FallbackSolutions.ContentLayout | backend/agent/fallback_solutions.py:331-348 | the document opens with "# <title> - Solution", holds the explanation, then the code between "```python\n" and "\n```", then the example, in that order, and ends with the note line and a newline |
| FallbackSolutions.KnownTitles | backend/agent/fallback_solutions.py:6-226 | the four keys give their titles, and a key differing only in case gives nothing |
| Strings.Lower | backend/agent/tools.py:89 | `lower()` keeps the length and lowers each ASCII capital |
| Strings.Strip | backend/agent/rag.py:134 | `strip()` keeps a slice, removes only whitespace, and leaves no whitespace at either end |
| Strings.StripEach | backend/api/server.py:158 | each line stripped, in order, as the test lines and the retrieved nodes are |
| Strings.StripIdempotent | backend/api/server.py:158 | stripping twice is stripping once |
| Strings.StripChar | backend/agent/coach.py:76 | `strip("-")` removes only '-' from either end and leaves no '-' at either end |
| Strings.StripCharSlice | backend/agent/coach.py:76 | what `strip("-")` keeps is one slice of the string, between the cut ends |
| Strings.ReplaceShrinks | backend/agent/coach.py:74-75 | replacing a present "--" by "-" shortens the string, so the loop ends |
| Strings.FilterReplace | backend/agent/coach.py:72 | `replace` of a pattern by a text that both lack the characters of interest keeps those characters, in order |
| Strings.FilterKeeps | backend/agent/coach.py:73 | a filter keeps a subsequence of the characters that pass, each as often as it occurs |
| Strings.FilterSlice | backend/agent/coach.py:72-76 | cutting ends that hold none of the characters of interest keeps those characters |
| Strings.Split | backend/agent/coach.py:41 | `split` gives at least one piece, none holding the separator |
| Strings.JoinSplit | backend/agent/coach.py:41-42 | joining the pieces of a split with the separator gives the text back |
| Strings.SplitJoin | backend/agent/coach.py:41-42 | splitting a join of separator-free pieces gives the pieces back |
| Strings.JoinContains | backend/agent/rag.py:141 | every piece occurs in the joined text |
| Strings.NatToString | backend/agent/rag.py:139 | decimal digits without a leading zero that spell the number |
| Strings.NatToStringInjective | backend/agent/rag.py:139 | different numbers are spelled differently |
| Strings.PadLeft | backend/agent/coach.py:42 | `{:3d}` right-aligns in three columns with spaces and keeps longer numbers whole |

## Left out

- The voice session, the room, publishing data to the editor and the language-model call are
  left out; the model's reply and whether a room is connected are parameters. The prompt
  texts, the greeting and the agent's spoken "give me a moment" lines are not modelled.
- HTTP transport, headers, the session cookie, rate-limit waits, the 60-second sleep after
  status 429, the `_last_request_time` field and logging are left out. Each fetch is the
  abstract outcome `Reply`, and all non-200 statuses answer alike.
- Executing user code (`exec`, `dir` ordering, `inspect.signature`) is the `Program`
  parameter. `str(result)` and the exception texts are the method's own output. The
  traceback text of the catch-all error answer is left out.
- JSON parsing of test inputs is the `parse` parameter. Numbers are integers, and floats are
  not modelled.
- `difflib.get_close_matches` is the `close` parameter: it returns at most one of the given
  candidates, and its 0.6 similarity cutoff is not modelled.
- The HTML rewrites and `html.unescape` of the description form one opaque stage,
  `htmlToText`. Only the five whitespace rewrites after it are modelled.
- LlamaIndex is left out: the embedding and chat models, chunk size 2048 and overlap 200,
  PDF reading, vector search and node scores. Building an index is the `Builder` parameter
  and retrieval the `Retriever` parameter. A builder gives the same outcome for the same
  documents, so the second creation attempt after a failed first one fails the same way.
- Failures of `mkdir` and of persisting the index are not modelled: a built index is always
  persisted. Removing the directory in a rebuild always succeeds.
- `uuid4` is the parameter `uuidHex`, and the JWT signing is left out.
- The `print` warning of a failed tag load is left out. A tag file that parses to an empty
  object counts as loaded here, while the source treats it like a failed load. Duplicate
  keys in the tag file's name-to-slug object are not modelled; the object is its entries in
  key order.
- Strings are ASCII for `lower()`, `isupper()` and `isalnum()`. Python's Unicode case
  mapping and letter classes are not modelled. `isspace()` uses Python's full whitespace
  set.
- A null `codeSnippets` or `topicTags`, or a snippet without `code` or `langSlug`, makes
  `format_problem_for_display` raise (backend/agent/leetcode_service.py:192-193, 241). The
  record's sequence fields cannot hold these, so the model never reaches that exception.
  The answers it leads to are left out: "Error fetching problem" of the selection tool and
  the HTTP 500 of the problem endpoint. The same holds for a search hit without the keys
  the summary reads. The `KeyError` of a close name missing from the name-to-slug
  object is raised before the search tool's `try` (backend/agent/tools.py:121, 144), so it
  escapes the tool; the model gives it as `Failure(name)`. The "Error searching problems"
  answer is reached only through the missing-key case above and is not modelled.
- The `json.loads` of the selection answer in the coach's `select_leetcode_problem` always
  succeeds on the tools' own output, so its `except` branch is not modelled.
- The long explanation, code and example texts of the four canned solutions are data given
  by `texts`, because they are never executed.
- The health-check endpoint, the CLI entry points and `main` are left out. `main` only checks
  environment variables and starts the worker.
- Server.RunCode: with a zero-parameter method, the error text is Python's message for
  `n % 0`, "integer modulo by zero", as the current CPython versions print it. Older
  versions print "integer division or modulo by zero".
- Rag.LeetCodeRag.RebuildIndex: a failed creation leaves the previous index in memory,
  because only a successful creation assigns the index; the model keeps that index.
- LeetCodeService.FormatProblemForDisplay: `content` and `exampleTestcases` may be JSON
  null. `.get` with a default returns that null when the key is present, so the model keeps
  `None`.
- LeetCodeService.CollapseBlanks: the contract and `CollapseBlanksKeeps` state that a blank
  first character becomes a space, that every character other than a space or a tab is
  kept in order, and (`CollapsedBlanks`) that no tab and no two spaces remain. Where each
  single space stands is stated only for the front.
- LeetCodeService.NormalizeWhitespace: that no three newlines stand in a row is proved after
  the blank-line rewrite (`CollapsedNoTriple`), not carried through the later rewrites.
