/** The reshaping step of the query endpoint (`search_quotes` in
    backend/app.py): the vector store answers a query with parallel result
    lists, one row per query text; the endpoint turns row 0 into a list of
    `{quote, metadata, score}` records. Metadata entries and distances
    (floating-point values) are only copied, so their types are parameters
    here. */
module Search {
  /** How many neighbours the endpoint asks the store for. */
  const NResults: nat := 3

  /** What the store returns for a query: `documents`, `metadatas` and
      `distances`, each a list with one row per query text. */
  datatype QueryResult<Meta, Score> = QueryResult(
    documents: seq<seq<string>>,
    metadatas: seq<seq<Meta>>,
    distances: seq<seq<Score>>)

  /** One entry of the response. */
  datatype Hit<Meta, Score> = Hit(quote: string, metadata: Meta, score: Score)

  /** What the endpoint needs of the store's answer: a first row in each
      list, and first rows of metadata and distances at least as long as the
      first row of documents (otherwise the indexing fails). */
  predicate WellShaped<Meta, Score>(results: QueryResult<Meta, Score>) {
    && |results.documents| > 0
    && |results.metadatas| > 0
    && |results.distances| > 0
    && |results.metadatas[0]| >= |results.documents[0]|
    && |results.distances[0]| >= |results.documents[0]|
  }

  /** Reference definition: pair up the three lists element by element, as
      long as the list of documents. */
  function Zip<Meta, Score>(docs: seq<string>, metas: seq<Meta>, scores: seq<Score>): (r: seq<Hit<Meta, Score>>)
    requires |metas| >= |docs| && |scores| >= |docs|
    ensures |r| == |docs|
  {
    if docs == [] then []
    else [Hit(docs[0], metas[0], scores[0])] + Zip(docs[1..], metas[1..], scores[1..])
  }

  /** The i-th hit of the zip is made of the i-th entry of each list. */
  lemma {:induction false} ZipAt<Meta, Score>(docs: seq<string>, metas: seq<Meta>, scores: seq<Score>, i: nat)
    requires |metas| >= |docs| && |scores| >= |docs|
    requires i < |docs|
    ensures Zip(docs, metas, scores)[i] == Hit(docs[i], metas[i], scores[i])
  {
    if i > 0 {
      ZipAt(docs[1..], metas[1..], scores[1..], i - 1);
    }
  }

  /** Entries of metadata and distances beyond the documents are ignored. */
  lemma {:induction false} ZipIgnoresExtra<Meta, Score>(docs: seq<string>, metas: seq<Meta>, scores: seq<Score>)
    requires |metas| >= |docs| && |scores| >= |docs|
    ensures Zip(docs, metas, scores) == Zip(docs, metas[..|docs|], scores[..|docs|])
  {
    if docs != [] {
      ZipIgnoresExtra(docs[1..], metas[1..], scores[1..]);
      assert metas[..|docs|][1..] == metas[1..][..|docs| - 1];
      assert scores[..|docs|][1..] == scores[1..][..|docs| - 1];
    }
  }

  /** The loop of `search_quotes` over the store's answer. */
  method SearchQuotes<Meta, Score>(results: QueryResult<Meta, Score>) returns (output: seq<Hit<Meta, Score>>)
    requires WellShaped(results)
    ensures |output| == |results.documents[0]|
    ensures forall i :: 0 <= i < |output| ==>
      output[i] == Hit(results.documents[0][i], results.metadatas[0][i], results.distances[0][i])
    ensures output == Zip(results.documents[0], results.metadatas[0], results.distances[0])
    ensures |results.documents[0]| <= NResults ==> |output| <= NResults
  {
    output := [];
    for i := 0 to |results.documents[0]|
      invariant |output| == i
      invariant forall j :: 0 <= j < i ==>
        output[j] == Hit(results.documents[0][j], results.metadatas[0][j], results.distances[0][j])
    {
      output := output + [Hit(results.documents[0][i], results.metadatas[0][i], results.distances[0][i])];
    }
    var zipped := Zip(results.documents[0], results.metadatas[0], results.distances[0]);
    forall i | 0 <= i < |output| ensures output[i] == zipped[i] {
      ZipAt(results.documents[0], results.metadatas[0], results.distances[0], i);
    }
  }
}
