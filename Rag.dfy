/** The retrieval index over the PDF of company interview questions: loading it
    from its persisted directory or building it from the data directory,
    rebuilding it, the process-wide instance, and the numbered-context answer
    given to a query. The embedding library is reached only through two
    oracles: one that builds an index from documents and one that retrieves
    node texts for a query. */
module Rag {
  import opened Wrappers
  import opened Strings

  type Document = string

  /** An index built by the embedding library; the handle stands for what the library keeps. */
  datatype VectorIndex = VectorIndex(handle: nat)

  /** What the persisted index directory holds: an index the loader reads back, or something it cannot read. */
  datatype Persisted = Intact(index: VectorIndex) | Unreadable(reason: string)

  /** The exceptions index creation raises: `FileNotFoundError`, `ValueError`, or the library's own. */
  datatype RagError = DataDirMissing | NoPdfDocuments | LibraryError(message: string)

  /** Builds an index from the documents read out of the PDFs, or fails with the library's message. */
  type Builder = seq<Document> -> Result<VectorIndex, string>

  /** Retrieves the texts of the best nodes for a query, at most the given number, or fails with a message. */
  type Retriever = (VectorIndex, string, nat) -> Result<seq<string>, string>

  const NotInitialized := "RAG system not initialized." + " Please check the logs."
  const NoMatch := "I couldn't find relevant" + " information about that company"
    + " or topic in the LeetCode questions database."
  const RetrievalError := "Error retrieving information: "
  const ContextSeparator := "\n\n"
  const DefaultTopK: nat := 5

  /** The file system the index lives in. */
  class Storage {
    /** The persisted index directory: absent, or what it holds. */
    var persisted: Option<Persisted>
    /** The data directory: absent, or the documents its PDF files yield. */
    var documents: Option<seq<Document>>

    constructor (persisted: Option<Persisted>, documents: Option<seq<Document>>)
      ensures this.persisted == persisted && this.documents == documents
    {
      this.persisted := persisted;
      this.documents := documents;
    }
  }

  /** How creating an index ends, given the data directory and the library. */
  function Creation(documents: Option<seq<Document>>, build: Builder): Result<VectorIndex, RagError> {
    if documents.None? then Failure(DataDirMissing)
    else if documents.value == [] then Failure(NoPdfDocuments)
    else match build(documents.value)
      case Success(index) => Success(index)
      case Failure(e) => Failure(LibraryError(e))
  }

  /** How start-up ends: a readable persisted index is loaded, otherwise one is created. */
  function Startup(persisted: Option<Persisted>, documents: Option<seq<Document>>, build: Builder): Result<VectorIndex, RagError> {
    match persisted
    case Some(Intact(index)) => Success(index)
    case _ => Creation(documents, build)
  }

  /** How many times start-up tries to create an index. */
  function Attempts(persisted: Option<Persisted>, documents: Option<seq<Document>>, build: Builder): nat {
    match persisted
    case Some(Intact(_)) => 0
    case Some(Unreadable(_)) => 1
    case None => if Creation(documents, build).Success? then 1 else 2
  }

  /** Start-up succeeds exactly when a readable index is persisted or one can be created, and a
      readable persisted index is used as it is, whatever the data directory and the library. */
  lemma StartupLoadsOrCreates(persisted: Option<Persisted>, documents: Option<seq<Document>>, build: Builder)
    ensures Startup(persisted, documents, build).Success?
      <==> (persisted.Some? && persisted.value.Intact?) || Creation(documents, build).Success?
    ensures persisted.Some? && persisted.value.Intact? ==>
      Startup(persisted, documents, build) == Success(persisted.value.index)
      && Attempts(persisted, documents, build) == 0
    ensures persisted.None? && Creation(documents, build).Failure? ==> Attempts(persisted, documents, build) == 2
  {
  }

  /** Creation fails for a missing data directory, for a data directory without PDFs, and when the library
      fails; otherwise it gives the library's index. */
  lemma CreationCases(documents: Option<seq<Document>>, build: Builder)
    ensures Creation(documents, build) == Failure(DataDirMissing) <==> documents.None?
    ensures Creation(documents, build) == Failure(NoPdfDocuments) <==> documents == Some([])
    ensures Creation(documents, build).Success? <==>
      documents.Some? && documents.value != [] && build(documents.value).Success?
    ensures Creation(documents, build).Success? ==> Creation(documents, build).value == build(documents.value).value
  {
  }

  /** `f"COMPANY: {query} interview questions LeetCode problems difficulty topics"`. */
  function EnhancedQuery(query: string): string {
    "COMPANY: " + query + " interview questions LeetCode problems difficulty topics"
  }

  /** `f"[Context {i}]\n{content}"`. */
  function ContextLabel(i: nat, content: string): string {
    "[Context " + NatToString(i) + "]\n" + content
  }

  /** The labelled parts for the non-blank stripped texts, each numbered by its 1-based place in `contents`. */
  function ContextParts(contents: seq<string>): seq<string> {
    if contents == [] then []
    else
      var content := contents[|contents| - 1];
      ContextParts(contents[..|contents| - 1]) + (if content != "" then [ContextLabel(|contents|, content)] else [])
  }

  /** The 1-based places of the texts that are not blank, in order. */
  function Kept(contents: seq<string>): (ks: seq<nat>)
    ensures forall j :: 0 <= j < |ks| ==> 1 <= ks[j] <= |contents| && contents[ks[j] - 1] != ""
    ensures forall k :: 1 <= k <= |contents| && contents[k - 1] != "" ==> k in ks
    ensures forall j, l :: 0 <= j < l < |ks| ==> ks[j] < ks[l]
  {
    if contents == [] then []
    else Kept(contents[..|contents| - 1]) + (if contents[|contents| - 1] != "" then [|contents|] else [])
  }

  /** The answer text for what retrieval returned. */
  function FormatNodes(nodes: seq<string>): string {
    if nodes == [] then NoMatch else Join(ContextParts(StripEach(nodes)), ContextSeparator)
  }

  /** What `query_company_questions` answers. */
  function Answer(index: Option<VectorIndex>, query: string, topK: nat, retrieve: Retriever): string {
    if index.None? then NotInitialized
    else match retrieve(index.value, EnhancedQuery(query), topK)
      case Failure(e) => RetrievalError + e
      case Success(nodes) => FormatNodes(nodes)
  }

  /** The j-th part is the label of the j-th kept text, numbered by its place among all texts. */
  lemma {:induction false} ContextPartsNumbered(contents: seq<string>)
    ensures |ContextParts(contents)| == |Kept(contents)|
    ensures forall j :: 0 <= j < |Kept(contents)| ==>
      ContextParts(contents)[j] == ContextLabel(Kept(contents)[j], contents[Kept(contents)[j] - 1])
    decreases |contents|
  {
    if contents != [] {
      var init := contents[..|contents| - 1];
      ContextPartsNumbered(init);
      var ks, ps := Kept(contents), ContextParts(contents);
      forall j | 0 <= j < |Kept(init)|
        ensures ps[j] == ContextLabel(ks[j], contents[ks[j] - 1])
      {
        assert ps[j] == ContextParts(init)[j];
        assert ks[j] == Kept(init)[j];
      }
    }
  }

  /** No text is kept when all are blank. */
  lemma {:induction false} NoneKept(contents: seq<string>)
    requires forall i :: 0 <= i < |contents| ==> contents[i] == ""
    ensures Kept(contents) == [] && ContextParts(contents) == []
    decreases |contents|
  {
    if contents != [] {
      NoneKept(contents[..|contents| - 1]);
    }
  }

  /** The place in `Kept` of a non-blank text. */
  lemma {:induction false} KeptAt(contents: seq<string>, k: nat) returns (j: nat)
    requires 1 <= k <= |contents| && contents[k - 1] != ""
    ensures j < |Kept(contents)| && Kept(contents)[j] == k
    decreases |contents|
  {
    var init := contents[..|contents| - 1];
    if k == |contents| {
      j := |Kept(init)|;
    } else {
      assert init[k - 1] == contents[k - 1];
      j := KeptAt(init, k);
    }
  }

  /** Every non-blank text appears in the joined parts, labelled with its own 1-based place. */
  lemma PartShown(contents: seq<string>, k: nat)
    requires 1 <= k <= |contents| && contents[k - 1] != ""
    ensures Contains(Join(ContextParts(contents), ContextSeparator), ContextLabel(k, contents[k - 1]))
  {
    var ks, ps := Kept(contents), ContextParts(contents);
    var j := KeptAt(contents, k);
    ContextPartsNumbered(contents);
    assert ps[j] == ContextLabel(k, contents[k - 1]);
    JoinContains(ps, ContextSeparator, j);
  }

  /** Every non-blank node appears in the answer, stripped and labelled with its own 1-based place. */
  lemma NodeShown(nodes: seq<string>, k: nat)
    requires 1 <= k <= |nodes| && Strip(nodes[k - 1]) != ""
    ensures Contains(FormatNodes(nodes), ContextLabel(k, Strip(nodes[k - 1])))
  {
    var cs := StripEach(nodes);
    assert cs[k - 1] == Strip(nodes[k - 1]);
    PartShown(cs, k);
  }

  /** When every retrieved node is blank the answer is empty, not the no-match sentence. */
  lemma BlankNodesGiveEmpty(nodes: seq<string>)
    requires nodes != []
    requires forall i :: 0 <= i < |nodes| ==> Strip(nodes[i]) == ""
    ensures FormatNodes(nodes) == "" && FormatNodes(nodes) != NoMatch
  {
    NoneKept(StripEach(nodes));
  }

  /** A label opens with its bracket. */
  lemma LabelOpens(i: nat, content: string)
    ensures StartsWith(ContextLabel(i, content), "[")
  {
    var s := ContextLabel(i, content);
    assert s[0] == '[';
    assert s[..1] == "[";
  }

  /** Some part kept makes the joined parts open with a bracket. */
  lemma PartsOpenWithBracket(contents: seq<string>)
    requires |ContextParts(contents)| > 0
    ensures |Join(ContextParts(contents), ContextSeparator)| > 0
    ensures Join(ContextParts(contents), ContextSeparator)[0] == '['
  {
    var ps := ContextParts(contents);
    ContextPartsNumbered(contents);
    LabelOpens(Kept(contents)[0], contents[Kept(contents)[0] - 1]);
    JoinStartsWith(ps, ContextSeparator, "[");
    var joined := Join(ps, ContextSeparator);
    assert joined[..1] == "[";
    assert joined[0] == joined[..1][0];
  }

  /** The two fixed sentences are unambiguous: each is answered exactly in its own case; a failed
      retrieval is reported with its message. */
  lemma SentinelsUnambiguous(index: Option<VectorIndex>, query: string, topK: nat, retrieve: Retriever)
    ensures Answer(index, query, topK, retrieve) == NotInitialized <==> index.None?
    ensures Answer(index, query, topK, retrieve) == NoMatch
      <==> index.Some? && retrieve(index.value, EnhancedQuery(query), topK) == Success([])
    ensures index.Some? && retrieve(index.value, EnhancedQuery(query), topK).Failure? ==>
      Answer(index, query, topK, retrieve) == RetrievalError + retrieve(index.value, EnhancedQuery(query), topK).error
  {
    assert NotInitialized[0] == 'R' && NoMatch[0] == 'I';
    if index.Some? {
      match retrieve(index.value, EnhancedQuery(query), topK)
      case Failure(e) =>
        assert (RetrievalError + e)[0] == 'E';
      case Success(nodes) =>
        if nodes != [] && |ContextParts(StripEach(nodes))| > 0 {
          PartsOpenWithBracket(StripEach(nodes));
        }
    }
  }

  /** The retrieval index of one process. */
  class LeetCodeRag {
    var index: Option<VectorIndex>
    /** How many times index creation has been tried. */
    ghost var creations: nat

    constructor ()
      ensures index == None && creations == 0
    {
      index := None;
      creations := 0;
    }

    /** `_create_index`: checks the data directory and its PDFs, builds the index and persists it. */
    method CreateIndex(disk: Storage, build: Builder) returns (r: Result<VectorIndex, RagError>)
      modifies this, disk
      ensures r == Creation(old(disk.documents), build)
      ensures r.Success? ==> index == Some(r.value) && disk.persisted == Some(Intact(r.value))
      ensures r.Failure? ==> index == old(index) && disk.persisted == old(disk.persisted)
      ensures disk.documents == old(disk.documents)
      ensures creations == old(creations) + 1
    {
      creations := creations + 1;
      if disk.documents.None? {
        return Failure(DataDirMissing);
      }
      var documents := disk.documents.value;
      if documents == [] {
        return Failure(NoPdfDocuments);
      }
      match build(documents) {
        case Failure(e) =>
          return Failure(LibraryError(e));
        case Success(built) =>
          index := Some(built);
          disk.persisted := Some(Intact(built));
          return Success(built);
      }
    }

    /** `_load_or_create_index`: loads a readable persisted index, otherwise creates one; when the
        directory was absent and creation fails, the handler tries creation once more and that
        failure is the one raised. */
    method LoadOrCreateIndex(disk: Storage, build: Builder) returns (r: Result<VectorIndex, RagError>)
      modifies this, disk
      ensures r == Startup(old(disk.persisted), old(disk.documents), build)
      ensures r.Success? ==> index == Some(r.value) && disk.persisted == Some(Intact(r.value))
      ensures r.Failure? ==> index == old(index) && disk.persisted == old(disk.persisted)
      ensures disk.documents == old(disk.documents)
      ensures creations == old(creations) + Attempts(old(disk.persisted), old(disk.documents), build)
    {
      match disk.persisted {
        case Some(Intact(stored)) =>
          index := Some(stored);
          r := Success(stored);
        case Some(Unreadable(_)) =>
          r := CreateIndex(disk, build);
        case None =>
          r := CreateIndex(disk, build);
          if r.Failure? {
            r := CreateIndex(disk, build);
          }
      }
    }

    /** `rebuild_index`: removes the persisted directory, then creates afresh; a failed creation
        leaves the directory gone and the index as it was. */
    method RebuildIndex(disk: Storage, build: Builder) returns (r: Result<VectorIndex, RagError>)
      modifies this, disk
      ensures r == Creation(old(disk.documents), build)
      ensures r.Success? ==> index == Some(r.value) && disk.persisted == Some(Intact(r.value))
      ensures r.Failure? ==> index == old(index) && disk.persisted == None
      ensures disk.documents == old(disk.documents)
    {
      if disk.persisted.Some? {
        disk.persisted := None;
      }
      r := CreateIndex(disk, build);
    }

    /** `query_company_questions`: the fixed sentences for a missing index, an empty retrieval or a
        failure, otherwise the non-blank retrieved texts, stripped and labelled by place. */
    method QueryCompanyQuestions(query: string, topK: nat, retrieve: Retriever) returns (answer: string)
      ensures answer == Answer(index, query, topK, retrieve)
    {
      if index.None? {
        return NotInitialized;
      }
      match retrieve(index.value, EnhancedQuery(query), topK) {
        case Failure(e) =>
          return RetrievalError + e;
        case Success(nodes) =>
          if nodes == [] {
            return NoMatch;
          }
          ghost var contents := StripEach(nodes);
          var parts: seq<string> := [];
          var i := 0;
          while i < |nodes|
            invariant 0 <= i <= |nodes|
            invariant parts == ContextParts(contents[..i])
          {
            var content := Strip(nodes[i]);
            if content != "" {
              parts := parts + [ContextLabel(i + 1, content)];
            }
            i := i + 1;
            assert contents[..i][..i - 1] == contents[..i - 1];
          }
          assert contents[..|nodes|] == contents;
          return Join(parts, ContextSeparator);
      }
    }
  }

  /** The process-wide instance behind `get_rag_instance`. */
  class Registry {
    var instance: Option<LeetCodeRag>

    constructor ()
      ensures instance == None
    {
      instance := None;
    }

    /** `get_rag_instance`: the existing instance, or a new one that has started up; a failed
        start-up raises and leaves no instance, so the next call starts up again. */
    method GetRagInstance(disk: Storage, build: Builder) returns (r: Result<LeetCodeRag, RagError>)
      modifies this, disk
      ensures old(instance).Some? ==>
        (r == Success(old(instance).value) && instance == old(instance) && disk.persisted == old(disk.persisted))
      ensures old(instance).None? ==>
        (r.Success? <==> Startup(old(disk.persisted), old(disk.documents), build).Success?)
      ensures old(instance).None? && r.Success? ==>
        (fresh(r.value) && instance == Some(r.value)
         && r.value.index == Some(Startup(old(disk.persisted), old(disk.documents), build).value))
      ensures r.Failure? ==>
        (old(instance).None? && instance.None?
         && r.error == Startup(old(disk.persisted), old(disk.documents), build).error)
      ensures disk.documents == old(disk.documents)
    {
      if instance.Some? {
        return Success(instance.value);
      }
      var rag := new LeetCodeRag();
      var started := rag.LoadOrCreateIndex(disk, build);
      if started.Failure? {
        return Failure(started.error);
      }
      instance := Some(rag);
      r := Success(rag);
    }

    /** `query_leetcode_rag`: the instance's answer with five nodes retrieved; a failed start-up propagates. */
    method QueryLeetCodeRag(query: string, disk: Storage, build: Builder, retrieve: Retriever)
      returns (r: Result<string, RagError>)
      modifies this, disk
      ensures r.Success? ==> instance.Some? && r.value == Answer(instance.value.index, query, DefaultTopK, retrieve)
      ensures r.Failure? ==> old(instance).None? && instance.None?
      ensures old(instance).Some? ==> instance == old(instance) && r.Success?
      ensures old(instance).None? ==>
        (r.Success? <==> Startup(old(disk.persisted), old(disk.documents), build).Success?)
      ensures old(instance).None? && r.Success? ==>
        instance.value.index == Some(Startup(old(disk.persisted), old(disk.documents), build).value)
      ensures r.Failure? ==> r.error == Startup(old(disk.persisted), old(disk.documents), build).error
    {
      var rag := GetRagInstance(disk, build);
      if rag.Failure? {
        return Failure(rag.error);
      }
      var answer := rag.value.QueryCompanyQuestions(query, DefaultTopK, retrieve);
      r := Success(answer);
    }
  }
}
