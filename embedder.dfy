/** The embedding provider of `rag_pipeline/embedder.py`: Vertex AI first,
    and HuggingFace from the first Vertex failure on.

    The embedding services are oracles. A Vertex call is a function from a
    text to its vector, None when the call raises; a HuggingFace call
    returns None when it raises, and that exception escapes. */
module Embedder {
  import opened Wrappers

  type Vector = seq<real>

  /** An input of `VertexAIEmbeddings.embed_documents`: a Document, whose
      `page_content` is embedded, or a plain text. */
  datatype DocOrText = Doc(pageContent: string) | Plain(text: string)

  function TextOf(d: DocOrText): string {
    match d
    case Doc(c) => c
    case Plain(t) => t
  }

  const VertexModel: string := "textembedding-gecko"
  const DefaultLocation: string := "us-central1"
  const HfModel: string := "sentence-transformers/all-MiniLM-L6-v2"

  /** The configuration the constructor reads (`project_id`, `location`). */
  type Config = map<string, string>

  /** A `VertexAIEmbeddings` instance: which model, project and region it was started with. */
  datatype VertexClient = VertexClient(model: string, project: string, location: string)

  /** A `HuggingFaceEmbeddings` instance. */
  datatype HfClient = HfClient(modelName: string)

  /** `get_embeddings([t])[0].values` for one text; None when it raises. */
  type VertexEmbedOne = string -> Option<Vector>

  /** `HuggingFaceEmbeddings.embed_documents`; None when it raises. */
  type HfEmbedDocs = seq<DocOrText> -> Option<seq<Vector>>

  /** `HuggingFaceEmbeddings.embed_query`; None when it raises. */
  type HfEmbedQuery = string -> Option<Vector>

  /** `VertexAIEmbeddings.embed_documents`: one embedding per input, in input
      order, of the input's `page_content` when it has one. The list
      comprehension raises as soon as one call raises. */
  function VertexEmbedDocuments(items: seq<DocOrText>, embedOne: VertexEmbedOne): (r: Option<seq<Vector>>)
    ensures r.Some? <==> forall i :: 0 <= i < |items| ==> embedOne(TextOf(items[i])).Some?
    ensures r.Some? ==> |r.value| == |items|
    ensures r.Some? ==> forall i :: 0 <= i < |items| ==> Some(r.value[i]) == embedOne(TextOf(items[i]))
    decreases |items|
  {
    if items == [] then Some([])
    else
      var head := embedOne(TextOf(items[0]));
      var tail := VertexEmbedDocuments(items[1..], embedOne);
      assert forall i :: 1 <= i < |items| ==> items[i] == items[1..][i - 1];
      if head.None? || tail.None? then None else Some([head.value] + tail.value)
  }

  /** The provider fields of a `VertexOrHFEmbeddings`. */
  datatype EmbedState = EmbedState(useVertex: bool, vertex: Option<VertexClient>, hf: Option<HfClient>)

  /** The flag is backed by the client it selects: a Vertex client while
      `use_vertex` holds, the HuggingFace client once it does not. */
  ghost predicate ValidState(st: EmbedState) {
    && (st.useVertex ==> st.vertex.Some?)
    && (!st.useVertex ==> st.hf == Some(HfClient(HfModel)))
  }

  /** The state the constructor leaves. Reading `cfg["project_id"]` raises
      when `cfg` is None or lacks the key, and `vertexInitOk` is whether
      `vertexai.init` and loading the model succeed; any of these failures
      selects HuggingFace. */
  function Init(cfg: Option<Config>, vertexInitOk: bool): EmbedState {
    if cfg.Some? && "project_id" in cfg.value && vertexInitOk then
      var location := if "location" in cfg.value then cfg.value["location"] else DefaultLocation;
      EmbedState(true, Some(VertexClient(VertexModel, cfg.value["project_id"], location)), None)
    else
      EmbedState(false, None, Some(HfClient(HfModel)))
  }

  /** The state after a Vertex failure: HuggingFace from now on. */
  function Downgrade(st: EmbedState): EmbedState {
    st.(useVertex := false, hf := Some(HfClient(HfModel)))
  }

  /** `embed_documents`: Vertex while it is selected and works, HuggingFace otherwise. */
  function EmbedDocumentsStep(st: EmbedState, items: seq<DocOrText>, vertexOne: VertexEmbedOne, hfDocs: HfEmbedDocs)
    : (out: (Option<seq<Vector>>, EmbedState))
  {
    if st.useVertex && st.vertex.Some? then
      match VertexEmbedDocuments(items, vertexOne)
      case Some(vs) => (Some(vs), st)
      case None => (hfDocs(items), Downgrade(st))
    else
      (hfDocs(items), st)
  }

  /** `embed_query`. `VertexAIEmbeddings.embed_query` reads `.values` on the
      list that `get_embeddings` returns, which always raises, so a selected
      Vertex client always falls back here. */
  function EmbedQueryStep(st: EmbedState, text: string, hfQuery: HfEmbedQuery): (out: (Option<Vector>, EmbedState)) {
    if st.useVertex && st.vertex.Some? then (hfQuery(text), Downgrade(st))
    else (hfQuery(text), st)
  }

  /** One call on the provider, with the answers its services give. */
  datatype Request =
    | DocsRequest(items: seq<DocOrText>, vertexOne: VertexEmbedOne, hfDocs: HfEmbedDocs)
    | QueryRequest(text: string, hfQuery: HfEmbedQuery)

  /** The provider state after a series of calls. */
  function Replay(st: EmbedState, reqs: seq<Request>): EmbedState
    decreases |reqs|
  {
    if reqs == [] then st
    else
      var next := match reqs[0]
        case DocsRequest(items, v, h) => EmbedDocumentsStep(st, items, v, h).1
        case QueryRequest(text, h) => EmbedQueryStep(st, text, h).1;
      Replay(next, reqs[1..])
  }

  // ---------------------------------------------------------------------
  // Properties

  /** A successful Vertex start selects Vertex and leaves `hf` None; a
      failed one selects HuggingFace. */
  lemma InitSelectsProvider(cfg: Option<Config>, vertexInitOk: bool)
    ensures var st := Init(cfg, vertexInitOk);
      && ValidState(st)
      && (st.useVertex <==> cfg.Some? && "project_id" in cfg.value && vertexInitOk)
      && (st.useVertex ==> st.hf.None? && st.vertex.value.model == VertexModel && st.vertex.value.project == cfg.value["project_id"])
      && (!st.useVertex ==> st.vertex.None? && st.hf == Some(HfClient(HfModel)))
  {
  }

  /** The Vertex region defaults to us-central1. */
  lemma DefaultRegion(cfg: Config)
    requires "project_id" in cfg && "location" !in cfg
    ensures Init(Some(cfg), true).vertex == Some(VertexClient(VertexModel, cfg["project_id"], DefaultLocation))
  {
  }

  /** While Vertex is selected and every per-text call succeeds,
      `embed_documents` gives the Vertex vectors, one per input, and stays on Vertex. */
  lemma VertexDocumentsWhileHealthy(st: EmbedState, items: seq<DocOrText>, vertexOne: VertexEmbedOne, hfDocs: HfEmbedDocs)
    requires ValidState(st) && st.useVertex
    requires forall i :: 0 <= i < |items| ==> vertexOne(TextOf(items[i])).Some?
    ensures var (r, st') := EmbedDocumentsStep(st, items, vertexOne, hfDocs);
      && st' == st && r.Some? && |r.value| == |items|
      && forall i :: 0 <= i < |items| ==> Some(r.value[i]) == vertexOne(TextOf(items[i]))
  {
  }

  /** A Vertex failure in `embed_documents` switches to HuggingFace and returns its result. */
  lemma DocumentsFallBack(st: EmbedState, items: seq<DocOrText>, vertexOne: VertexEmbedOne, hfDocs: HfEmbedDocs, i: int)
    requires ValidState(st) && st.useVertex
    requires 0 <= i < |items| && vertexOne(TextOf(items[i])).None?
    ensures var (r, st') := EmbedDocumentsStep(st, items, vertexOne, hfDocs);
      r == hfDocs(items) && !st'.useVertex && st'.hf == Some(HfClient(HfModel)) && ValidState(st')
  {
  }

  /** `embed_query` always answers with HuggingFace and always leaves Vertex deselected. */
  lemma QueryAlwaysUsesHuggingFace(st: EmbedState, text: string, hfQuery: HfEmbedQuery)
    requires ValidState(st)
    ensures var (r, st') := EmbedQueryStep(st, text, hfQuery);
      r == hfQuery(text) && !st'.useVertex && ValidState(st')
  {
  }

  /** Once on HuggingFace, Vertex is never called: the services' Vertex answers do not matter. */
  lemma HuggingFaceIgnoresVertex(st: EmbedState, items: seq<DocOrText>, v1: VertexEmbedOne, v2: VertexEmbedOne, hfDocs: HfEmbedDocs)
    requires !st.useVertex
    ensures EmbedDocumentsStep(st, items, v1, hfDocs) == EmbedDocumentsStep(st, items, v2, hfDocs)
    ensures EmbedDocumentsStep(st, items, v1, hfDocs) == (hfDocs(items), st)
  {
  }

  /** Every call keeps the flag backed by its client. */
  lemma {:induction false} ReplayKeepsValid(st: EmbedState, reqs: seq<Request>)
    requires ValidState(st)
    ensures ValidState(Replay(st, reqs))
    decreases |reqs|
  {
    if reqs != [] {
      var next := match reqs[0]
        case DocsRequest(items, v, h) => EmbedDocumentsStep(st, items, v, h).1
        case QueryRequest(text, h) => EmbedQueryStep(st, text, h).1;
      assert ValidState(next);
      ReplayKeepsValid(next, reqs[1..]);
    }
  }

  /** The downgrade is one-way: no series of calls brings Vertex back. */
  lemma {:induction false} DowngradeIsPermanent(st: EmbedState, reqs: seq<Request>)
    requires !st.useVertex
    ensures !Replay(st, reqs).useVertex
    ensures Replay(st, reqs) == st
    decreases |reqs|
  {
    if reqs != [] {
      var next := match reqs[0]
        case DocsRequest(items, v, h) => EmbedDocumentsStep(st, items, v, h).1
        case QueryRequest(text, h) => EmbedQueryStep(st, text, h).1;
      assert next == st;
      DowngradeIsPermanent(next, reqs[1..]);
    }
  }

  /** `VertexOrHFEmbeddings`. */
  class VertexOrHFEmbeddings {
    var cfg: Option<Config>
    var vertex: Option<VertexClient>
    var hf: Option<HfClient>
    var useVertex: bool

    function State(): EmbedState
      reads this
    {
      EmbedState(useVertex, vertex, hf)
    }

    ghost predicate Valid()
      reads this
    {
      ValidState(State())
    }

    constructor (cfg: Option<Config>, vertexInitOk: bool)
      ensures Valid()
      ensures this.cfg == cfg && State() == Init(cfg, vertexInitOk)
    {
      this.cfg := cfg;
      if cfg.Some? && "project_id" in cfg.value && vertexInitOk {
        var location := if "location" in cfg.value then cfg.value["location"] else DefaultLocation;
        vertex := Some(VertexClient(VertexModel, cfg.value["project_id"], location));
        hf := None;
        useVertex := true;
      } else {
        vertex := None;
        hf := Some(HfClient(HfModel));
        useVertex := false;
      }
    }

    method EmbedDocuments(items: seq<DocOrText>, vertexOne: VertexEmbedOne, hfDocs: HfEmbedDocs)
      returns (r: Option<seq<Vector>>)
      requires Valid()
      modifies this
      ensures Valid() && cfg == old(cfg)
      ensures (r, State()) == EmbedDocumentsStep(old(State()), items, vertexOne, hfDocs)
      ensures !old(useVertex) ==> !useVertex
    {
      if useVertex && vertex.Some? {
        var vs := VertexEmbedDocuments(items, vertexOne);
        if vs.Some? {
          return vs;
        }
        useVertex := false;
        hf := Some(HfClient(HfModel));
      }
      r := hfDocs(items);
    }

    method EmbedQuery(text: string, hfQuery: HfEmbedQuery) returns (r: Option<Vector>)
      requires Valid()
      modifies this
      ensures Valid() && cfg == old(cfg)
      ensures (r, State()) == EmbedQueryStep(old(State()), text, hfQuery)
      ensures !useVertex
    {
      if useVertex && vertex.Some? {
        // the Vertex query path raises on every call
        useVertex := false;
        hf := Some(HfClient(HfModel));
      }
      r := hfQuery(text);
    }

    /** `__call__`: exactly `embed_query`. */
    method Call(text: string, hfQuery: HfEmbedQuery) returns (r: Option<Vector>)
      requires Valid()
      modifies this
      ensures Valid() && cfg == old(cfg)
      ensures (r, State()) == EmbedQueryStep(old(State()), text, hfQuery)
    {
      r := EmbedQuery(text, hfQuery);
    }
  }
}
