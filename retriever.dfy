/** `retrieve_context` of `rag_pipeline/retriever.py`: the contents of the
    top-k search hits joined with blank lines. The similarity search is an
    oracle. */
module Retriever {
  import opened Wrappers
  import opened Text

  /** A search hit; `pageContent` is None when the hit has no such attribute. */
  datatype Hit = Hit(pageContent: Option<string>)

  /** `faiss_db.similarity_search(query, k=top_k)` for a fixed index. */
  type Search = (string, int) -> seq<Hit>

  const DefaultTopK: int := 3
  const Separator: string := "\n\n"

  /** The truthy `page_content` values of the hits, in rank order. */
  function Contents(hits: seq<Hit>): (r: seq<string>)
    ensures |r| <= |hits|
    ensures forall i :: 0 <= i < |r| ==> r[i] != ""
    decreases |hits|
  {
    if hits == [] then []
    else if Truthy(hits[0].pageContent) then [hits[0].pageContent.value] + Contents(hits[1..])
    else Contents(hits[1..])
  }

  /** The context built from a list of hits. */
  function ContextOf(hits: seq<Hit>): string {
    Join(Separator, Contents(hits))
  }

  /** `retrieve_context(query, faiss_db, top_k)`. */
  function RetrieveContext(query: string, search: Search, topK: int := DefaultTopK): string {
    ContextOf(search(query, topK))
  }

  // ---------------------------------------------------------------------
  // Properties

  lemma {:induction false} ContentsAppend(a: seq<Hit>, b: seq<Hit>)
    ensures Contents(a + b) == Contents(a) + Contents(b)
    decreases |a|
  {
    if a == [] {
      assert a + b == b;
    } else {
      assert (a + b)[0] == a[0] && (a + b)[1..] == a[1..] + b;
      ContentsAppend(a[1..], b);
    }
  }

  /** When every hit has content, the contents are exactly the hits' contents, in rank order. */
  lemma {:induction false} ContentsInRankOrder(hits: seq<Hit>)
    requires forall i :: 0 <= i < |hits| ==> Truthy(hits[i].pageContent)
    ensures |Contents(hits)| == |hits|
    ensures forall i :: 0 <= i < |hits| ==> Some(Contents(hits)[i]) == hits[i].pageContent
    decreases |hits|
  {
    if hits != [] {
      assert Truthy(hits[0].pageContent);
      ContentsInRankOrder(hits[1..]);
    }
  }

  /** The context is empty exactly when no hit has content; in particular no hits give "". */
  lemma {:induction false} EmptyContextIffNoContent(hits: seq<Hit>)
    ensures ContextOf(hits) == "" <==> forall i :: 0 <= i < |hits| ==> !Truthy(hits[i].pageContent)
    decreases |hits|
  {
    JoinEmpty(Separator, Contents(hits));
    if hits != [] {
      EmptyContextIffNoContent(hits[1..]);
      JoinEmpty(Separator, Contents(hits[1..]));
      assert forall i :: 1 <= i < |hits| ==> hits[i] == hits[1..][i - 1];
    }
  }

  /** Concatenating two hit lists joins their contexts with one blank line,
      unless one side contributes nothing. */
  lemma ContextAppend(a: seq<Hit>, b: seq<Hit>)
    ensures ContextOf(a + b) ==
      if ContextOf(a) == "" then ContextOf(b)
      else if ContextOf(b) == "" then ContextOf(a)
      else ContextOf(a) + Separator + ContextOf(b)
  {
    ContentsAppend(a, b);
    JoinAppend(Separator, Contents(a), Contents(b));
    JoinEmpty(Separator, Contents(a));
    JoinEmpty(Separator, Contents(b));
  }

  /** A hit with missing or empty content is omitted. */
  lemma EmptyHitOmitted(before: seq<Hit>, h: Hit, after: seq<Hit>)
    requires !Truthy(h.pageContent)
    ensures ContextOf(before + [h] + after) == ContextOf(before + after)
  {
    assert Contents([h]) == [] by {
      assert [h][1..] == [];
    }
    calc {
      Contents(before + [h] + after);
      { ContentsAppend(before + [h], after); }
      Contents(before + [h]) + Contents(after);
      { ContentsAppend(before, [h]); }
      Contents(before) + Contents(after);
      { ContentsAppend(before, after); }
      Contents(before + after);
    }
  }

  /** A single hit with content `c` gives exactly `c`; two give `c1 + "\n\n" + c2`. */
  lemma SmallContexts(c1: string, c2: string)
    requires c1 != "" && c2 != ""
    ensures ContextOf([Hit(Some(c1))]) == c1
    ensures ContextOf([Hit(Some(c1)), Hit(Some(c2))]) == c1 + "\n\n" + c2
    ensures ContextOf([Hit(None), Hit(Some("")), Hit(Some(c2))]) == c2
  {
    var one := [Hit(Some(c1))];
    assert one[1..] == [];
    assert Contents(one) == [c1];
    var two := [Hit(Some(c1)), Hit(Some(c2))];
    assert two[1..] == [Hit(Some(c2))] && two[1..][1..] == [];
    assert Contents(two[1..]) == [c2];
    assert Contents(two) == [c1, c2];
    assert [c1, c2][1..] == [c2];
    assert Join(Separator, [c1, c2]) == c1 + Separator + Join(Separator, [c2]);
    var three := [Hit(None), Hit(Some("")), Hit(Some(c2))];
    assert three[1..] == [Hit(Some("")), Hit(Some(c2))];
    assert three[1..][1..] == [Hit(Some(c2))] && three[1..][1..][1..] == [];
    assert Contents(three[1..][1..]) == [c2];
    assert Contents(three) == [c2];
  }

  /** Without an explicit `top_k` the search is asked for the 3 best hits. */
  lemma AsksForTopK(query: string, search: Search)
    ensures RetrieveContext(query, search) == ContextOf(search(query, 3))
  {
  }
}
