/** What `FessSearch.search` and `FessSearch._get_docs` compute from the
    server's answers: the (corpus id, score) list of one response, the score
    map of one query, and the shared results map after a run of queries.
    These are the reference definitions the imperative loops are proved
    against. */
module Scoring {
  import opened Wrappers
  import opened Wire

  /** One element of the response's `data` array. */
  datatype Hit = Hit(url: string, score: Option<Score>)

  /** The answer to one search request: the HTTP status and, when the JSON
      body has one, its `data` array. */
  datatype QueryResponse = QueryResponse(statusCode: int, data: Option<seq<Hit>>)

  /** One `{corpus_id, score}` entry of `_get_docs`'s result. */
  datatype ScoredDoc = ScoredDoc(corpusId: string, score: Score)

  /** The search server: the response to query text `q` asking for `num` hits. */
  type SearchServer = (string, int) -> QueryResponse

  type ScoreMap = map<string, Score>
  type Results = map<string, ScoreMap>

  /** The hit list of a response: nothing unless the status is 200, else one
      entry per hit, in order, identified by its url's last segment. */
  function ExtractDocs(response: QueryResponse): (docs: seq<ScoredDoc>)
    ensures response.statusCode != 200 ==> docs == []
  {
    if response.statusCode != 200 then []
    else
      var data := response.data.GetOr([]);
      seq(|data|, j requires 0 <= j < |data| =>
        ScoredDoc(LastSegment(data[j].url), data[j].score.GetOr(0.0)))
  }

  /** A hit whose url was generated for an id without `/` reads back as that id. */
  lemma ExtractDocsIds(response: QueryResponse, indexName: string, ids: seq<string>)
    requires response.statusCode == 200 && response.data.Some?
    requires |ids| == |response.data.value|
    requires forall j :: 0 <= j < |ids| ==>
      response.data.value[j].url == Url(indexName, ids[j]) && '/' !in ids[j]
    ensures var docs := ExtractDocs(response);
      |docs| == |ids| && forall j :: 0 <= j < |ids| ==> docs[j].corpusId == ids[j]
  {
    forall j | 0 <= j < |ids|
      ensures ExtractDocs(response)[j].corpusId == ids[j]
    {
      UrlIdRoundTrip(indexName, ids[j]);
    }
  }

  /** True when `docs` returns `id` somewhere. */
  ghost predicate Returned(docs: seq<ScoredDoc>, id: string) {
    exists j :: 0 <= j < |docs| && docs[j].corpusId == id
  }

  /** The score map of query `queryId` built from its hits: later hits
      overwrite earlier ones with the same id, and hits for the query's own id
      are dropped. */
  function ScoreMapOf(docs: seq<ScoredDoc>, queryId: string): (m: ScoreMap)
    ensures queryId !in m
    ensures forall id :: id in m ==> Returned(docs, id)
    decreases |docs|
  {
    if docs == [] then map[]
    else
      var m := ScoreMapOf(docs[..|docs| - 1], queryId);
      var d := docs[|docs| - 1];
      if d.corpusId != queryId then m[d.corpusId := d.score] else m
  }

  /** Every returned id other than the query's own is a key. */
  lemma {:induction false} ScoreMapKeys(docs: seq<ScoredDoc>, queryId: string, j: nat)
    requires j < |docs| && docs[j].corpusId != queryId
    ensures docs[j].corpusId in ScoreMapOf(docs, queryId)
    decreases |docs|
  {
    if j < |docs| - 1 {
      ScoreMapKeys(docs[..|docs| - 1], queryId, j);
    }
  }

  /** The score kept for an id is the one of its last occurrence. */
  lemma {:induction false} ScoreMapLastWins(docs: seq<ScoredDoc>, queryId: string, j: nat)
    requires j < |docs| && docs[j].corpusId != queryId
    requires forall i :: j < i < |docs| ==> docs[i].corpusId != docs[j].corpusId
    ensures docs[j].corpusId in ScoreMapOf(docs, queryId)
    ensures ScoreMapOf(docs, queryId)[docs[j].corpusId] == docs[j].score
    decreases |docs|
  {
    if j < |docs| - 1 {
      ScoreMapLastWins(docs[..|docs| - 1], queryId, j);
    }
  }

  /** The effect of one query on the results map: its entry is (re)assigned
      only when at least one hit came back. */
  function RecordQuery(results: Results, queryId: string, docs: seq<ScoredDoc>): (r: Results)
    ensures docs == [] ==> r == results
    ensures docs != [] ==> queryId in r && r[queryId] == ScoreMapOf(docs, queryId)
    ensures forall k :: k != queryId ==> Lookup(r, k) == Lookup(results, k)
  {
    if docs == [] then results else results[queryId := ScoreMapOf(docs, queryId)]
  }

  function Lookup<K, V>(m: map<K, V>, k: K): (v: Option<V>) {
    if k in m then Some(m[k]) else None
  }

  /** The hits fetched for one query: `top_k + 1` are asked for, so that the
      query's own document, if returned, does not take a slot. */
  function QueryDocs(server: SearchServer, queryText: string, topK: int): (docs: seq<ScoredDoc>) {
    ExtractDocs(server(queryText, topK + 1))
  }

  /** The results map after running `queries` (id, text) in order. */
  function Accumulate(results: Results, queries: seq<(string, string)>, server: SearchServer, topK: int): (r: Results)
    decreases |queries|
  {
    if queries == [] then results
    else
      var last := queries[|queries| - 1];
      RecordQuery(Accumulate(results, queries[..|queries| - 1], server, topK),
                  last.0, QueryDocs(server, last.1, topK))
  }

  /** No query is ever a result for itself. */
  ghost predicate NoSelfScores(results: Results) {
    forall q :: q in results ==> q !in results[q]
  }

  /** One query keeps every query out of its own score map. */
  lemma RecordQueryNoSelfScores(results: Results, queryId: string, docs: seq<ScoredDoc>)
    requires NoSelfScores(results)
    ensures NoSelfScores(RecordQuery(results, queryId, docs))
  {
  }

  lemma {:induction false} AccumulateNoSelfScores(results: Results, queries: seq<(string, string)>, server: SearchServer, topK: int)
    requires NoSelfScores(results)
    ensures NoSelfScores(Accumulate(results, queries, server, topK))
    decreases |queries|
  {
    if queries != [] {
      AccumulateNoSelfScores(results, queries[..|queries| - 1], server, topK);
    }
  }

  /** Entries for ids that are not among the queries are never touched. */
  lemma {:induction false} AccumulateUntouched(results: Results, queries: seq<(string, string)>, server: SearchServer, topK: int, k: string)
    requires forall i :: 0 <= i < |queries| ==> queries[i].0 != k
    ensures Lookup(Accumulate(results, queries, server, topK), k) == Lookup(results, k)
    decreases |queries|
  {
    if queries != [] {
      AccumulateUntouched(results, queries[..|queries| - 1], server, topK, k);
    }
  }

  /** The entry of a query after the run: its score map when some hit came
      back, and otherwise whatever was there before (possibly nothing). */
  lemma {:induction false} AccumulateEntry(results: Results, queries: seq<(string, string)>, server: SearchServer, topK: int, j: nat)
    requires j < |queries|
    requires forall i :: 0 <= i < |queries| && i != j ==> queries[i].0 != queries[j].0
    ensures var docs := QueryDocs(server, queries[j].1, topK);
      Lookup(Accumulate(results, queries, server, topK), queries[j].0)
        == if docs == [] then Lookup(results, queries[j].0)
           else Some(ScoreMapOf(docs, queries[j].0))
    decreases |queries|
  {
    var init := queries[..|queries| - 1];
    if j == |queries| - 1 {
      AccumulateUntouched(results, init, server, topK, queries[j].0);
    } else {
      AccumulateEntry(results, init, server, topK, j);
    }
  }
}
