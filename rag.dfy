/** `ask_with_rag` and `_index_exists` of `rag_pipeline/__init__.py`.

    Every foreign step is an oracle in `Services`: the file system and the
    splitter of `Loader`, the directory listing of the index path, loading
    and building the FAISS index, the similarity search, and the Gemini
    model. */
module Rag {
  import opened Wrappers
  import opened Text
  import opened Loader
  import opened Retriever

  const NoKnowledgeBase: string := "\U{26A0}\U{FE0F} No knowledge base documents found. Please upload `.txt` or `.md` files."
  const EmptyKnowledgeBase: string := "\U{26A0}\U{FE0F} Knowledge base documents are empty or could not be split."
  const ModelUnavailablePrefix: string := "(Model unavailable; showing context-only answer)\n\n"
  const DefaultModel: string := "gemini-1.5-pro"
  const DefaultKbPath: string := "data/knowledge_base"
  const DefaultIndexPath: string := "faiss_index"
  const DefaultK: int := 3
  const IndexSuffix: string := ".faiss"

  /** `os.listdir(path)`, None when `path` is not a directory. */
  type Listing = string -> Option<seq<string>>

  /** Some file of the listing ends with ".faiss". */
  ghost predicate HoldsIndex(listdir: Listing, path: string) {
    listdir(path).Some? && exists i :: 0 <= i < |listdir(path).value| && EndsWith(listdir(path).value[i], IndexSuffix)
  }

  /** `_index_exists(path)`: a search over the listing that stops at the first ".faiss" file. */
  method IndexExists(listdir: Listing, path: string) returns (found: bool)
    ensures found <==> HoldsIndex(listdir, path)
    ensures listdir(path).None? ==> !found
  {
    var listing := listdir(path);
    if listing.None? {
      return false;
    }
    var names := listing.value;
    for i := 0 to |names|
      invariant forall j :: 0 <= j < i ==> !EndsWith(names[j], IndexSuffix)
    {
      if EndsWith(names[i], IndexSuffix) {
        return true;
      }
    }
    return false;
  }

  /** The part of `cfg` that `ask_with_rag` reads: sections of string settings. */
  type Config = map<string, map<string, string>>

  /** `(cfg or {}).get("vector_store", {}).get("path", "faiss_index")`. */
  function IndexPath(cfg: Option<Config>): string {
    if cfg.Some? && "vector_store" in cfg.value && "path" in cfg.value["vector_store"] then
      cfg.value["vector_store"]["path"]
    else
      DefaultIndexPath
  }

  /** The FAISS store that answers the search: loaded from disk, or built from the chunks and saved. */
  datatype Index = LoadedIndex(path: string) | BuiltIndex(chunks: seq<Document>, path: string)

  /** What the Gemini call gives: it raises (at construction or at
      generation), or it returns a response whose `text` may be None. */
  datatype ModelReply = ModelRaises | ModelText(text: Option<string>)

  datatype Services = Services(
    fs: FileSystem,
    split: Splitter,
    listdir: Listing,
    /** `load_faiss_index(path, cfg)` succeeds. */
    loadIndex: string -> bool,
    /** `embed_documents(chunks, save_path=path, cfg)` succeeds. */
    buildIndex: (seq<Document>, string) -> bool,
    /** `similarity_search` on the given store. */
    search: Index -> Search,
    /** `GenerativeModel(model).generate_content(prompt)`. */
    generate: (string, string) -> ModelReply)

  /** The exception that escapes `ask_with_rag`: building the index raised. */
  datatype RagError = IndexBuildFailed(path: string)

  /** The answer, and whether the index was built (and saved) on this call. */
  datatype RagRun = RagRun(answer: Result<string, RagError>, built: bool)

  /** The prompt sent to the model. */
  function Prompt(context: string, query: string): string {
    context + "\n\nUser Query: " + query + "\nAnswer:"
  }

  /** `(response.text or "").strip() or context`, or the context-only answer when the model raises. */
  function Answer(reply: ModelReply, context: string): (a: string)
    ensures reply.ModelRaises? ==> |a| == |ModelUnavailablePrefix| + |context|
    ensures reply.ModelRaises? ==> EndsWith(a, context) && a[..|ModelUnavailablePrefix|] == ModelUnavailablePrefix
    ensures reply.ModelText? && Strip(reply.text.GetOr("")) != "" ==> a != "" && !IsSpace(a[0]) && !IsSpace(a[|a| - 1])
    ensures reply.ModelText? && IsBlank(reply.text.GetOr("")) ==> a == context
  {
    match reply
    case ModelRaises => ModelUnavailablePrefix + context
    case ModelText(t) =>
      var s := Strip(t.GetOr(""));
      if s != "" then s else context
  }

  /** The index `ask_with_rag` searches, or None when building it raised:
      an existing index is loaded, and rebuilt when loading raises; a missing one is built. */
  ghost function ChooseIndex(svc: Services, chunks: seq<Document>, path: string): (Option<Index>, bool) {
    if HoldsIndex(svc.listdir, path) && svc.loadIndex(path) then (Some(LoadedIndex(path)), false)
    else if svc.buildIndex(chunks, path) then (Some(BuiltIndex(chunks, path)), true)
    else (None, true)
  }

  /** What `ask_with_rag` does, branch by branch. */
  ghost function AskSpec(svc: Services, query: string, model: string, kbPath: string, k: int, cfg: Option<Config>): RagRun {
    var texts := FolderTexts(svc.fs, kbPath);
    if texts == [] then RagRun(Success(NoKnowledgeBase), false)
    else
      var chunks := ChunkTexts(texts, svc.split);
      if chunks == [] then RagRun(Success(EmptyKnowledgeBase), false)
      else
        var path := IndexPath(cfg);
        match ChooseIndex(svc, chunks, path)
        case (None, built) => RagRun(Failure(IndexBuildFailed(path)), built)
        case (Some(index), built) =>
          var context := RetrieveContext(query, svc.search(index), k);
          RagRun(Success(Answer(svc.generate(model, Prompt(context, query)), context)), built)
  }

  /** `ask_with_rag(query, model, kb_path, k, cfg)`. */
  method AskWithRag(svc: Services, query: string, model: string := DefaultModel, kbPath: string := DefaultKbPath,
                    k: int := DefaultK, cfg: Option<Config> := None)
    returns (answer: Result<string, RagError>, built: bool)
    ensures RagRun(answer, built) == AskSpec(svc, query, model, kbPath, k, cfg)
  {
    built := false;
    var texts := LoadTextsFromFolder(svc.fs, kbPath);
    if texts == [] {
      return Success(NoKnowledgeBase), false;
    }
    var chunks := ChunkTexts(texts, svc.split);
    if chunks == [] {
      return Success(EmptyKnowledgeBase), false;
    }
    var path := IndexPath(cfg);
    var present := IndexExists(svc.listdir, path);
    var index: Index;
    if present && svc.loadIndex(path) {
      index := LoadedIndex(path);
    } else {
      built := true;
      if !svc.buildIndex(chunks, path) {
        return Failure(IndexBuildFailed(path)), true;
      }
      index := BuiltIndex(chunks, path);
    }
    var context := RetrieveContext(query, svc.search(index), k);
    var reply := svc.generate(model, Prompt(context, query));
    answer := Success(Answer(reply, context));
  }

  // ---------------------------------------------------------------------
  // Properties

  /** No texts: the fixed no-knowledge-base message, and the index is not touched. */
  lemma NoTextsMessage(svc: Services, query: string, model: string, kbPath: string, k: int, cfg: Option<Config>)
    requires FolderTexts(svc.fs, kbPath) == []
    ensures AskSpec(svc, query, model, kbPath, k, cfg) == RagRun(Success(NoKnowledgeBase), false)
  {
  }

  /** A folder that is not a directory is a knowledge base without texts. */
  lemma MissingFolderMessage(svc: Services, query: string, model: string, kbPath: string, k: int, cfg: Option<Config>)
    requires svc.fs.walk(kbPath).None?
    ensures AskSpec(svc, query, model, kbPath, k, cfg) == RagRun(Success(NoKnowledgeBase), false)
  {
  }

  /** Texts that are all blank never reach the index: when the splitter
      gives no chunks for no documents, the answer is the empty-knowledge-base message. */
  lemma BlankTextsMessage(svc: Services, query: string, model: string, kbPath: string, k: int, cfg: Option<Config>)
    requires FolderTexts(svc.fs, kbPath) != []
    requires forall i :: 0 <= i < |FolderTexts(svc.fs, kbPath)| ==> IsBlank(FolderTexts(svc.fs, kbPath)[i])
    requires svc.split([], DefaultChunkSize, DefaultChunkOverlap) == []
    ensures AskSpec(svc, query, model, kbPath, k, cfg) == RagRun(Success(EmptyKnowledgeBase), false)
  {
    AllBlankGivesNoDocs(FolderTexts(svc.fs, kbPath));
  }

  /** The fixed messages come first, in this order, and are exact. */
  lemma FixedMessagesInOrder(svc: Services, query: string, model: string, kbPath: string, k: int, cfg: Option<Config>)
    ensures var run := AskSpec(svc, query, model, kbPath, k, cfg);
      var texts := FolderTexts(svc.fs, kbPath);
      && (run.answer == Success(NoKnowledgeBase) && !run.built <== texts == [])
      && (run.answer == Success(EmptyKnowledgeBase) && !run.built <== texts != [] && ChunkTexts(texts, svc.split) == [])
      && (run.built ==> texts != [] && ChunkTexts(texts, svc.split) != [])
  {
  }

  /** An existing index that loads is used as is; nothing is built. */
  lemma ExistingIndexLoaded(svc: Services, chunks: seq<Document>, path: string)
    requires HoldsIndex(svc.listdir, path) && svc.loadIndex(path)
    ensures ChooseIndex(svc, chunks, path) == (Some(LoadedIndex(path)), false)
  {
  }

  /** An index that is missing, or that fails to load, is built from the
      chunks and saved at the same path; the only exception that escapes is a failed build. */
  lemma OtherwiseIndexBuilt(svc: Services, chunks: seq<Document>, path: string)
    requires !HoldsIndex(svc.listdir, path) || !svc.loadIndex(path)
    ensures ChooseIndex(svc, chunks, path) ==
      if svc.buildIndex(chunks, path) then (Some(BuiltIndex(chunks, path)), true) else (None, true)
  {
  }

  /** `ask_with_rag` raises exactly when there are chunks, the index has to
      be (re)built, and building it raises. */
  lemma FailsOnlyWhenBuildFails(svc: Services, query: string, model: string, kbPath: string, k: int, cfg: Option<Config>)
    ensures var texts := FolderTexts(svc.fs, kbPath);
      var chunks := ChunkTexts(texts, svc.split);
      var path := IndexPath(cfg);
      AskSpec(svc, query, model, kbPath, k, cfg).answer.Failure? <==>
        && texts != [] && chunks != []
        && (!HoldsIndex(svc.listdir, path) || !svc.loadIndex(path))
        && !svc.buildIndex(chunks, path)
  {
  }

  /** When the model is reached, it is asked the prompt built from the
      retrieved context and the query, and the answer follows its reply. */
  lemma ModelSeesContextAndQuery(svc: Services, query: string, model: string, kbPath: string, k: int, cfg: Option<Config>)
    requires AskSpec(svc, query, model, kbPath, k, cfg).answer.Success?
    requires FolderTexts(svc.fs, kbPath) != [] && ChunkTexts(FolderTexts(svc.fs, kbPath), svc.split) != []
    ensures var index := ChooseIndex(svc, ChunkTexts(FolderTexts(svc.fs, kbPath), svc.split), IndexPath(cfg)).0;
      && index.Some?
      && var context := RetrieveContext(query, svc.search(index.value), k);
         AskSpec(svc, query, model, kbPath, k, cfg).answer.value == Answer(svc.generate(model, Prompt(context, query)), context)
  {
  }

  /** The prompt is the context, a blank line, the query and the answer cue. */
  lemma PromptShape(context: string, query: string)
    ensures Prompt(context, query)[..|context|] == context
    ensures EndsWith(Prompt(context, query), query + "\nAnswer:")
    ensures OccursAt(Prompt(context, query), "\n\nUser Query: ", |context|)
  {
    var p := Prompt(context, query);
    assert p[|context|..|context| + 14] == "\n\nUser Query: ";
    assert p == context + ("\n\nUser Query: " + query + "\nAnswer:");
    assert p[|p| - |query + "\nAnswer:"|..] == query + "\nAnswer:";
  }

  /** A model failure never escapes: the answer is the context behind the fixed notice. */
  lemma ModelFailureGivesContext(context: string)
    ensures Answer(ModelRaises, context) == ModelUnavailablePrefix + context
    ensures Answer(ModelRaises, context) != ""
  {
  }

  /** A blank or missing model text falls back to the context. */
  lemma BlankModelTextGivesContext(context: string, text: Option<string>)
    requires text.None? || IsBlank(text.value)
    ensures Answer(ModelText(text), context) == context
  {
  }

  /** A non-blank model text is returned stripped. */
  lemma ModelTextIsStripped(context: string, text: string)
    requires !IsBlank(text)
    ensures Answer(ModelText(Some(text)), context) == Strip(text)
    ensures exists a :: CutAt(text, a, Answer(ModelText(Some(text)), context))
  {
    StripIsCut(text);
  }
}
