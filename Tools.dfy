/** The agent's problem-bank tools (backend/agent/tools.py): resolving a spoken topic to a
    problem-bank tag, the lazily loaded tag file behind it, and the shape of the search and
    selection answers. The tag file's contents, the close-match library call and the
    problem bank are parameters: `file` is what reading the tag file gives (`None` when it
    cannot be opened or parsed), `close(word, candidates)` is the best close match among
    `candidates` if any, and `server` is the problem bank's reply. */
module Tools {
  import opened Wrappers
  import opened Strings
  import opened LeetCodeService

  /** Abbreviations and plurals that users say, with the tag each stands for, in the order of the table. */
  const CommonTagAliases: seq<(string, string)> := [
    ("hashmap", "hash-table"),
    ("hash map", "hash-table"),
    ("hash", "hash-table"),
    ("hashtable", "hash-table"),
    ("arrays", "array"),
    ("dp", "dynamic-programming"),
    ("dfs", "depth-first-search"),
    ("bfs", "breadth-first-search"),
    ("linked lists", "linked-list"),
    ("trees", "tree"),
    ("graphs", "graph"),
    ("heap", "heap-priority-queue"),
    ("priority queue", "heap-priority-queue"),
    ("pq", "heap-priority-queue"),
    ("bst", "binary-search-tree"),
    ("bt", "binary-tree"),
    ("uf", "union-find"),
    ("disjoint set", "union-find")
  ]

  /** The alias table's entry for `key`, if it has one. */
  function AliasOf(key: string): Option<string> {
    Lookup(CommonTagAliases, key)
  }

  /** The tag file: the tag slugs, the display names, and the name-to-slug object as its
      (name, slug) entries in key order. */
  datatype TagsData = TagsData(slugs: seq<string>, names: seq<string>, mapping: seq<(string, string)>)

  /** A resolved topic: the tag to search with and the message explaining a guess, if any. */
  datatype TagMatch = TagMatch(slug: string, note: Option<string>)

  /** The module-level tag cache. `fileReads` counts the attempts to read the file. */
  class TagCache {
    var cache: Option<TagsData>
    ghost var fileReads: nat

    constructor()
      ensures cache == None && fileReads == 0
    {
      cache := None;
      fileReads := 0;
    }

    /** `_load_leetcode_tags`: a filled cache is returned without reading the file again;
        otherwise the file is read, and a failed read leaves the cache empty. */
    method Load(file: Option<TagsData>) returns (r: Option<TagsData>)
      modifies this
      ensures old(cache).Some? ==> r == old(cache) && cache == old(cache) && fileReads == old(fileReads)
      ensures old(cache).None? ==> r == file && cache == file && fileReads == old(fileReads) + 1
    {
      if cache.Some? {
        return cache;
      }
      fileReads := fileReads + 1;
      cache := file;
      return file;
    }

    /** `_find_best_matching_tag`: loads the tags, then tries the strategies in order. */
    method FindBestMatchingTag(userInput: string, file: Option<TagsData>, close: (string, seq<string>) -> Option<string>)
      returns (r: Result<TagMatch, string>)
      modifies this
      ensures cache == if old(cache).Some? then old(cache) else file
      ensures fileReads == if old(cache).Some? then old(fileReads) else old(fileReads) + 1
      ensures r == BestMatchingTag(userInput, cache, close)
    {
      var tags := Load(file);
      var key := Strip(Lower(userInput));
      if tags.None? {
        return Success(TagMatch(key, None));
      }
      var d := tags.value;
      var alias := AliasOf(key);
      if alias.Some? {
        return Success(TagMatch(alias.value, None));
      }
      if key in d.slugs {
        return Success(TagMatch(key, None));
      }
      var k := FindExactName(d.mapping, key);
      if k < |d.mapping| {
        return Success(TagMatch(d.mapping[k].1, None));
      }
      r := FuzzyMatch(userInput, key, d, close);
    }

    /** `search_leetcode_problems` */
    method SearchLeetCodeProblems(topic: string, difficulty: Option<string>, file: Option<TagsData>,
                                  close: (string, seq<string>) -> Option<string>,
                                  server: SearchVariables -> Reply<seq<Question>>)
      returns (r: Result<SearchResponse, string>)
      modifies this
      ensures cache == if old(cache).Some? then old(cache) else file
      ensures fileReads == if old(cache).Some? then old(fileReads) else old(fileReads) + 1
      ensures r == match BestMatchingTag(topic, cache, close)
                   case Failure(e) => Failure(e)
                   case Success(m) => Success(SearchResponseFor(topic, m, SearchProblems(Some([m.slug]), difficulty, 5, server)))
    {
      var m := FindBestMatchingTag(topic, file, close);
      if m.Failure? {
        return Failure(m.error);
      }
      var problems := SearchProblems(Some([m.value.slug]), difficulty, 5, server);
      r := Success(SearchResponseFor(topic, m.value, problems));
    }
  }

  /** The scan over the name-to-slug entries in `_find_best_matching_tag`, stopping at the first
      name that equals the key once lowercased. */
  method FindExactName(mapping: seq<(string, string)>, key: string) returns (k: nat)
    ensures k == ExactName(mapping, key)
  {
    k := 0;
    while k < |mapping|
      invariant k <= |mapping|
      invariant forall j :: 0 <= j < k ==> Lower(mapping[j].0) != key
    {
      if Lower(mapping[k].0) == key {
        return;
      }
      k := k + 1;
    }
  }

  /** Position of the first entry whose name, lowercased, is `key` (`|mapping|` when none is). */
  function ExactName(mapping: seq<(string, string)>, key: string): (k: nat)
    ensures k <= |mapping|
    ensures k < |mapping| ==> Lower(mapping[k].0) == key
    ensures forall j :: 0 <= j < k ==> Lower(mapping[j].0) != key
  {
    if mapping == [] then 0
    else if Lower(mapping[0].0) == key then 0
    else 1 + ExactName(mapping[1..], key)
  }

  /** Position of the first entry whose slug is `slug` (`|mapping|` when none is). */
  function FirstWithSlug(mapping: seq<(string, string)>, slug: string): (k: nat)
    ensures k <= |mapping|
    ensures k < |mapping| ==> mapping[k].1 == slug
    ensures forall j :: 0 <= j < k ==> mapping[j].1 != slug
  {
    if mapping == [] then 0
    else if mapping[0].1 == slug then 0
    else 1 + FirstWithSlug(mapping[1..], slug)
  }

  /** `mapping[name]` on the name-to-slug object; `None` stands for the `KeyError`. */
  function Lookup(mapping: seq<(string, string)>, name: string): (r: Option<string>)
    ensures r.None? <==> forall j :: 0 <= j < |mapping| ==> mapping[j].0 != name
    ensures r.Some? ==> (name, r.value) in mapping
  {
    if mapping == [] then None
    else if mapping[0].0 == name then Some(mapping[0].1)
    else
      assert mapping == [mapping[0]] + mapping[1..];
      Lookup(mapping[1..], name)
  }

  /** The name shown for a slug: the first name that maps to it, else the slug itself. */
  function DisplayName(mapping: seq<(string, string)>, slug: string): (n: string)
    ensures (forall j :: 0 <= j < |mapping| ==> mapping[j].1 != slug) ==> n == slug
    ensures forall j :: (0 <= j < |mapping| && mapping[j].1 == slug && (forall i :: 0 <= i < j ==> mapping[i].1 != slug))
                          ==> n == mapping[j].0
  {
    var k := FirstWithSlug(mapping, slug);
    if k < |mapping| then mapping[k].0 else slug
  }

  function FuzzyNote(name: string, userInput: string): string {
    "Using '" + name + "' (closest match to '" + userInput + "')"
  }

  const NotFound := "not found"

  /** The "not found" message: it names the original input and always contains "not found",
      which is what the search answer tests for, then lists the first ten slugs, joined by
      ", ", and ends with "...". */
  function NotFoundNote(userInput: string, slugs: seq<string>): (r: string)
    ensures StartsWith(r, "Topic '" + userInput + "' " + NotFound)
    ensures Contains(r, NotFound)
    ensures Contains(r, Join(if |slugs| <= 10 then slugs else slugs[..10], ", ") + "...")
    ensures |r| >= 3 && r[|r| - 3..] == "..."
  {
    var sample := if |slugs| <= 10 then slugs else slugs[..10];
    var head := "Topic '" + userInput + "' ";
    var listed := Join(sample, ", ") + "...";
    var middle := ". Available topics include: ";
    var r := head + NotFound + (middle + listed);
    assert StartsWith(r, head + NotFound) && Contains(r, NotFound) by {
      ContainsInfix(head, NotFound, middle + listed);
    }
    assert Contains(r, listed) by {
      assert r == (head + NotFound + middle) + listed;
      Ends(head + NotFound + middle, listed);
      ContainsAt(r, listed, |head + NotFound + middle|);
    }
    assert r[|r| - 3..] == "..." by {
      assert r[|r| - 3..] == listed[|listed| - 3..];
    }
    r
  }

  /** The strategies after the exact ones: close match on the slugs (with the lowercased,
      stripped input), then on the names (with the input as given), then the "not found"
      message. A close name missing from the name-to-slug object is a `KeyError`, which
      escapes to the caller as `Failure(name)`. */
  function FuzzyMatch(userInput: string, key: string, d: TagsData, close: (string, seq<string>) -> Option<string>)
    : (r: Result<TagMatch, string>)
    ensures r.Success? ==> r.value.note.Some?
    ensures r.Failure? <==> close(key, d.slugs).None? && close(userInput, d.names).Some?
                            && Lookup(d.mapping, close(userInput, d.names).value).None?
  {
    match close(key, d.slugs)
    case Some(slug) => Success(TagMatch(slug, Some(FuzzyNote(DisplayName(d.mapping, slug), userInput))))
    case None =>
      match close(userInput, d.names)
      case Some(name) =>
        (match Lookup(d.mapping, name)
         case Some(slug) => Success(TagMatch(slug, Some(FuzzyNote(name, userInput))))
         case None => Failure(name))
      case None => Success(TagMatch(key, Some(NotFoundNote(userInput, d.slugs))))
  }

  /** The matching strategy of `_find_best_matching_tag`, given what the tag load returned. */
  function BestMatchingTag(userInput: string, tags: Option<TagsData>, close: (string, seq<string>) -> Option<string>)
    : (r: Result<TagMatch, string>)
    ensures r.Failure? ==> tags.Some?
    ensures tags.Some? && r.Success? && r.value.note.None? ==>
      var key, d := Strip(Lower(userInput)), tags.value;
      || (AliasOf(key).Some? && r.value.slug == AliasOf(key).value)
      || r.value.slug in d.slugs
      || exists j :: 0 <= j < |d.mapping| && d.mapping[j].1 == r.value.slug
  {
    var key := Strip(Lower(userInput));
    if tags.None? then Success(TagMatch(key, None))
    else
      var d := tags.value;
      var alias := AliasOf(key);
      if alias.Some? then Success(TagMatch(alias.value, None))
      else if key in d.slugs then Success(TagMatch(key, None))
      else
        var k := ExactName(d.mapping, key);
        if k < |d.mapping| then Success(TagMatch(d.mapping[k].1, None))
        else FuzzyMatch(userInput, key, d, close)
  }

  /** The input matches a tag without guessing: an alias, a slug, or a name up to case. */
  predicate ExactlyKnown(key: string, d: TagsData) {
    AliasOf(key).Some? || key in d.slugs || exists j :: 0 <= j < |d.mapping| && Lower(d.mapping[j].0) == key
  }

  /** Without tag data the answer is the normalised input with no message, and neither the
      aliases nor the close-match search is consulted. */
  lemma NoTagsNoSearch(userInput: string, close1: (string, seq<string>) -> Option<string>,
                       close2: (string, seq<string>) -> Option<string>)
    ensures BestMatchingTag(userInput, None, close1) == BestMatchingTag(userInput, None, close2)
              == Success(TagMatch(Strip(Lower(userInput)), None))
  {
  }

  /** An alias wins over every later strategy, whatever the tag data says. */
  lemma AliasFirst(userInput: string, d1: TagsData, d2: TagsData, close1: (string, seq<string>) -> Option<string>,
                   close2: (string, seq<string>) -> Option<string>)
    requires AliasOf(Strip(Lower(userInput))).Some?
    ensures BestMatchingTag(userInput, Some(d1), close1) == BestMatchingTag(userInput, Some(d2), close2)
              == Success(TagMatch(AliasOf(Strip(Lower(userInput))).value, None))
  {
  }

  /** An exact match, of whatever kind, gives no message and does not consult the close-match
      search; a guess always gives a message or fails. */
  lemma {:induction false} ExactIffNoNote(userInput: string, d: TagsData, close: (string, seq<string>) -> Option<string>)
    ensures var r := BestMatchingTag(userInput, Some(d), close);
      (r.Success? && r.value.note.None?) <==> ExactlyKnown(Strip(Lower(userInput)), d)
    ensures ExactlyKnown(Strip(Lower(userInput)), d) ==>
      forall close2: (string, seq<string>) -> Option<string> ::
        BestMatchingTag(userInput, Some(d), close2) == BestMatchingTag(userInput, Some(d), close)
  {
    var key := Strip(Lower(userInput));
    var k := ExactName(d.mapping, key);
    if k == |d.mapping| {
      assert !exists j :: 0 <= j < |d.mapping| && Lower(d.mapping[j].0) == key;
    }
  }

  /** A close slug is the answer, explained with the name it is shown under. */
  lemma FuzzySlugShown(userInput: string, d: TagsData, close: (string, seq<string>) -> Option<string>)
    requires !ExactlyKnown(Strip(Lower(userInput)), d)
    requires close(Strip(Lower(userInput)), d.slugs).Some?
    ensures var slug := close(Strip(Lower(userInput)), d.slugs).value;
      BestMatchingTag(userInput, Some(d), close) == Success(TagMatch(slug, Some(FuzzyNote(DisplayName(d.mapping, slug), userInput))))
  {
    var key := Strip(Lower(userInput));
    assert ExactName(d.mapping, key) == |d.mapping|;
  }

  /** The only failure is a close name that the name-to-slug object lacks. */
  lemma FailureIsMissingName(userInput: string, tags: Option<TagsData>, close: (string, seq<string>) -> Option<string>)
    ensures var r := BestMatchingTag(userInput, tags, close);
      r.Failure? <==>
        && tags.Some?
        && !ExactlyKnown(Strip(Lower(userInput)), tags.value)
        && close(Strip(Lower(userInput)), tags.value.slugs).None?
        && close(userInput, tags.value.names).Some?
        && Lookup(tags.value.mapping, close(userInput, tags.value.names).value).None?
    ensures var r := BestMatchingTag(userInput, tags, close);
      r.Failure? ==> r.error == close(userInput, tags.value.names).value
  {
    if tags.Some? {
      ExactIffNoNote(userInput, tags.value, close);
    }
  }

  /** With no strategy succeeding, the tag is the normalised input and the message is the
      "not found" one. */
  lemma NothingMatches(userInput: string, d: TagsData, close: (string, seq<string>) -> Option<string>)
    requires !ExactlyKnown(Strip(Lower(userInput)), d)
    requires close(Strip(Lower(userInput)), d.slugs).None? && close(userInput, d.names).None?
    ensures BestMatchingTag(userInput, Some(d), close) == Success(TagMatch(Strip(Lower(userInput)), Some(NotFoundNote(userInput, d.slugs))))
  {
    assert ExactName(d.mapping, Strip(Lower(userInput))) == |d.mapping|;
  }

  // ---- Answers of the tools ----

  /** One formatted search hit. */
  datatype ProblemSummary = ProblemSummary(id: string, title: string, difficulty: string, topics: seq<string>)

  /** The JSON answer of `search_leetcode_problems`; `note` is `None` when the key is absent. */
  datatype SearchResponse =
    | Found(topic: string, matchedTag: string, problems: seq<ProblemSummary>, count: int, note: Option<string>)
    | Failed(message: string)

  function Summary(q: Question): (p: ProblemSummary)
    ensures p.id == q.titleSlug && p.title == q.title && p.difficulty == q.difficulty
    ensures p.topics == TagNames(q.topicTags)
  {
    ProblemSummary(q.titleSlug, q.title, q.difficulty, TagNames(q.topicTags))
  }

  function NoProblemsMessage(topic: string): string {
    "No problems found for topic '" + topic + "'. Try a different topic or difficulty level."
  }

  /** The answer for the problems found with the resolved tag `m`. */
  function SearchResponseFor(topic: string, m: TagMatch, problems: seq<Question>): (r: SearchResponse)
    ensures r.Found? <==> problems != []
    ensures r.Found? ==> && r.topic == topic && r.matchedTag == m.slug
                         && r.count == |r.problems| == |problems|
                         && (forall i :: 0 <= i < |problems| ==> r.problems[i] == Summary(problems[i]))
                         && (r.note.Some? <==> Given(m.note))
                         && (r.note.Some? ==> r.note == m.note)
    ensures r.Failed? ==> r.message == if Given(m.note) && Contains(m.note.value, NotFound) then m.note.value
                                       else NoProblemsMessage(topic)
  {
    if problems == [] then
      if Given(m.note) && Contains(m.note.value, NotFound) then Failed(m.note.value)
      else Failed(NoProblemsMessage(topic))
    else
      var hits := seq(|problems|, i requires 0 <= i < |problems| => Summary(problems[i]));
      Found(topic, m.slug, hits, |hits|, if Given(m.note) then m.note else None)
  }

  /** The JSON answer of `select_leetcode_problem`. */
  datatype SelectResponse = Selected(problem: DisplayProblem) | Missing(message: string)

  /** `select_leetcode_problem` in the tools: the shaped problem, or "Problem '<id>' not found."
      when the problem bank has none. */
  function SelectLeetCodeProblem(problemId: string, server: string -> Reply<ProblemDetails>,
                                 htmlToText: string -> string): (r: SelectResponse)
    ensures r.Missing? <==> GetProblemDetails(problemId, server).None?
    ensures r.Missing? ==> r.message == "Problem '" + problemId + "' not found."
    ensures r.Selected? ==> r.problem == FormatProblemForDisplay(GetProblemDetails(problemId, server).value, htmlToText)
  {
    match GetProblemDetails(problemId, server)
    case None => Missing("Problem '" + problemId + "' not found.")
    case Some(d) => Selected(FormatProblemForDisplay(d, htmlToText))
  }
}
