/** The `FessSearch` adapter: a search backend for a retrieval benchmark that
    clears a Fess index, bulk-uploads a corpus into it and collects the
    scored hits of each query. The two endpoints it talks to are oracles:
    `BulkServer` gives the `.response.status` of the JSON answer to one bulk
    upload, `SearchServer` the answer to one search request. */
module Fess {
  import opened Wrappers
  import opened Wire
  import opened Batching
  import opened Scoring

  /** The `.response.status` field of an admin endpoint's JSON answer, `None`
      when the envelope or the field is missing. */
  type Status = Option<int>

  /** The bulk-upload endpoint: the status it answers to one batch. */
  type BulkServer = seq<RemoteDocument> -> Status

  type Batch = seq<RemoteDocument>

  /** The two `ValueError`s the adapter raises. */
  datatype Error =
    | DeleteFailed                  // the delete-all request was not acknowledged
    | BulkRejected(response: Status) // a bulk upload was not acknowledged

  /** An admin call succeeded: its status is present and equal to 0. */
  predicate Accepted(status: Status) {
    status == Some(0)
  }

  /** Every batch in `batches` was acknowledged. */
  predicate AllAccepted(bulk: BulkServer, batches: seq<Batch>) {
    forall j :: 0 <= j < |batches| ==> Accepted(bulk(batches[j]))
  }

  lemma AllAcceptedAppend(bulk: BulkServer, batches: seq<Batch>, b: Batch)
    requires AllAccepted(bulk, batches) && Accepted(bulk(b))
    ensures AllAccepted(bulk, batches + [b])
  {
  }

  /** What an upload run promises: the batches `sent` are the first groups
      of `chunks`, in order; every one but the last was accepted; the run
      passes when all groups were sent and accepted, and fails with the
      status of the last batch sent when that one was rejected (so no later
      group is ever sent). */
  ghost predicate UploadedAsSpecified(chunks: seq<Batch>, bulk: BulkServer, outcome: Outcome<Error>, sent: seq<Batch>) {
    && |sent| <= |chunks| && sent == chunks[..|sent|]
    && (forall j :: 0 <= j < |sent| - 1 ==> Accepted(bulk(sent[j])))
    && (outcome.Pass? ==> sent == chunks && AllAccepted(bulk, sent))
    && (outcome.Fail? ==>
          sent != [] && !Accepted(bulk(sent[|sent| - 1]))
          && outcome.error == BulkRejected(bulk(sent[|sent| - 1])))
  }

  /** The promise pins the run down: given the groups and the server's
      answers, there is exactly one outcome and one sequence of batches. */
  lemma UploadDeterministic(chunks: seq<Batch>, bulk: BulkServer,
                            o1: Outcome<Error>, s1: seq<Batch>, o2: Outcome<Error>, s2: seq<Batch>)
    requires UploadedAsSpecified(chunks, bulk, o1, s1)
    requires UploadedAsSpecified(chunks, bulk, o2, s2)
    ensures o1 == o2 && s1 == s2
  {
  }

  /** A run that stops at the first rejected group meets the promise. */
  lemma UploadFailed(chunks: seq<Batch>, bulk: BulkServer, sent: seq<Batch>, last: Batch, rest: seq<Batch>)
    requires chunks == sent + [last] + rest
    requires AllAccepted(bulk, sent)
    requires !Accepted(bulk(last))
    ensures UploadedAsSpecified(chunks, bulk, Fail(BulkRejected(bulk(last))), sent + [last])
  {
    assert (sent + [last] + rest)[..|sent| + 1] == sent + [last];
  }

  /** A run that sent every group, each accepted, meets the promise. */
  lemma UploadPassed(chunks: seq<Batch>, bulk: BulkServer, sent: seq<Batch>)
    requires chunks == sent
    requires AllAccepted(bulk, sent)
    ensures UploadedAsSpecified(chunks, bulk, Pass, sent)
  {
  }

  /** A successful upload of a corpus sends every record exactly once, in
      corpus order, in ceil(|corpus| / size) batches of the configured size
      (the last one possibly shorter); an empty corpus sends nothing. */
  lemma UploadCoversCorpus(language: string, indexName: string, corpus: Corpus, bulkSize: int,
                           bulk: BulkServer, sent: seq<Batch>)
    requires UploadedAsSpecified(Chunks(Records(language, indexName, corpus), BatchSize(bulkSize)), bulk, Pass, sent)
    ensures Flatten(sent) == Records(language, indexName, corpus)
    ensures |sent| == (|corpus| + BatchSize(bulkSize) - 1) / BatchSize(bulkSize)
    ensures forall j :: 0 <= j < |sent| - 1 ==> |sent[j]| == BatchSize(bulkSize)
    ensures sent != [] ==> 1 <= |sent[|sent| - 1]| <= BatchSize(bulkSize)
    ensures corpus == [] <==> sent == []
  {
    var records := Records(language, indexName, corpus);
    var k := BatchSize(bulkSize);
    UploadCoversBatches(records, k, bulk, sent);
  }

  /** The same for any record sequence and batch size. */
  lemma UploadCoversBatches(records: Batch, k: nat, bulk: BulkServer, sent: seq<Batch>)
    requires k >= 1
    requires UploadedAsSpecified(Chunks(records, k), bulk, Pass, sent)
    ensures Flatten(sent) == records
    ensures |sent| == (|records| + k - 1) / k
    ensures forall j :: 0 <= j < |sent| - 1 ==> |sent[j]| == k
    ensures sent != [] ==> 1 <= |sent[|sent| - 1]| <= k
    ensures records == [] <==> sent == []
  {
    assert sent == Chunks(records, k);
    ChunksSizes(records, k);
    ChunksFlatten(records, k);
    ChunksCount(records, k);
  }

  class FessSearch {
    /** The query id -> score map accumulated over every `Search` call. */
    var results: Results
    const initialize: bool
    const sleepFor: int
    const indexName: string
    const hostname: string
    const accessToken: Option<string>
    const language: string
    const bulkSize: int

    ghost predicate Valid()
      reads this
    {
      NoSelfScores(results)
    }

    /** Stores the configuration and starts with no results. */
    constructor (indexName: string, hostname: string, accessToken: Option<string>, language: string,
                 initialize: bool, bulkSize: int, sleepFor: int)
      ensures Valid() && results == map[]
      ensures this.indexName == indexName && this.hostname == hostname && this.accessToken == accessToken
      ensures this.language == language && this.initialize == initialize
      ensures this.bulkSize == bulkSize && this.sleepFor == sleepFor
    {
      this.results := map[];
      this.initialize := initialize;
      this.sleepFor := sleepFor;
      this.indexName := indexName;
      this.hostname := hostname;
      this.accessToken := accessToken;
      this.language := language;
      this.bulkSize := bulkSize;
    }

    /** Construction as the source does it: when `initialize` is set the
        index is cleared first, and a delete that is not acknowledged
        (`deleteStatus`) makes construction raise. */
    static method Open(indexName: string, hostname: string, accessToken: Option<string>, language: string,
                       initialize: bool, bulkSize: int, sleepFor: int, deleteStatus: Status)
      returns (r: Result<FessSearch, Error>)
      ensures r.Failure? <==> initialize && !Accepted(deleteStatus)
      ensures r.Failure? ==> r.error == DeleteFailed
      ensures r.Success? ==> fresh(r.value) && r.value.Valid() && r.value.results == map[]
      ensures r.Success? ==> r.value.indexName == indexName && r.value.language == language
                             && r.value.initialize == initialize && r.value.bulkSize == bulkSize
      ensures r.Success? ==> r.value.hostname == hostname && r.value.accessToken == accessToken
                             && r.value.sleepFor == sleepFor
    {
      var s := new FessSearch(indexName, hostname, accessToken, language, initialize, bulkSize, sleepFor);
      if initialize {
        var outcome := s.Initialise(deleteStatus);
        if outcome.Fail? {
          return Failure(outcome.error);
        }
      }
      r := Success(s);
    }

    /** Clears the remote index: fails unless the server acknowledges the
        delete-all request with status 0. */
    method Initialise(deleteStatus: Status) returns (outcome: Outcome<Error>)
      ensures outcome.Pass? <==> deleteStatus == Some(0)
      ensures outcome.Fail? ==> outcome.error == DeleteFailed
    {
      if !Accepted(deleteStatus) {
        return Fail(DeleteFailed);
      }
      outcome := Pass;
    }

    /** Posts one batch (the nested `send_bulk`): fails with the response
        unless its status is 0. */
    method SendBulk(batch: Batch, bulk: BulkServer) returns (outcome: Outcome<Error>)
      ensures outcome.Pass? <==> bulk(batch) == Some(0)
      ensures outcome.Fail? ==> outcome.error == BulkRejected(bulk(batch))
    {
      var status := bulk(batch);
      if !Accepted(status) {
        return Fail(BulkRejected(status));
      }
      outcome := Pass;
    }

    /** Uploads the corpus: builds one record per entry, flushes the buffer
        whenever it holds `bulkSize` records and once more at the end if it is
        not empty, and stops at the first rejected batch. `sent` records the
        batches posted, in order. */
    method Index(corpus: Corpus, bulk: BulkServer) returns (outcome: Outcome<Error>, sent: seq<Batch>)
      ensures UploadedAsSpecified(Chunks(Records(language, indexName, corpus), BatchSize(bulkSize)), bulk, outcome, sent)
    {
      var k := BatchSize(bulkSize);
      ghost var records := Records(language, indexName, corpus);
      ghost var chunks := Chunks(records, k);
      var docs: Batch := [];
      sent := [];
      var i := 0;
      assert docs + records[i..] == records;
      while i < |corpus|
        invariant 0 <= i <= |corpus|
        invariant |docs| < k
        invariant chunks == sent + Chunks(docs + records[i..], k)
        invariant AllAccepted(bulk, sent)
      {
        ghost var rest := records[i + 1..];
        var record := MakeRecord(language, indexName, corpus[i].0, corpus[i].1);
        assert chunks == sent + Chunks((docs + [record]) + rest, k) by {
          RecordsAt(language, indexName, corpus, i);
          assert records[i..][0] == record && records[i..][1..] == rest;
          PendingStep(sent, docs, records[i..], k);
        }
        docs := docs + [record];
        if |docs| >= bulkSize {
          PendingFlush(sent, docs, rest, k);
          outcome := SendBulk(docs, bulk);
          if outcome.Fail? {
            UploadFailed(chunks, bulk, sent, docs, Chunks(rest, k));
            sent := sent + [docs];
            return;
          }
          AllAcceptedAppend(bulk, sent, docs);
          sent := sent + [docs];
          docs := [];
          assert docs + rest == rest;
        }
        i := i + 1;
      }
      assert chunks == sent + (if docs == [] then [] else [docs]) by {
        assert docs + records[i..] == docs;
        ChunksShort(docs, k);
      }
      if |docs| > 0 {
        outcome := SendBulk(docs, bulk);
        if outcome.Fail? {
          UploadFailed(chunks, bulk, sent, docs, []);
          sent := sent + [docs];
          return;
        }
        AllAcceptedAppend(bulk, sent, docs);
        sent := sent + [docs];
      }
      UploadPassed(chunks, bulk, sent);
      outcome := Pass;
    }

    /** Asks the search endpoint for `size` hits of `query` (`_get_docs`): no
        hits unless the HTTP status is 200, otherwise one entry per element of
        `data`, in order, with the url's last segment as id and the score
        defaulting to 0.0. */
    method GetDocs(query: string, size: int, server: SearchServer) returns (docs: seq<ScoredDoc>)
      ensures docs == ExtractDocs(server(query, size))
      ensures server(query, size).statusCode != 200 ==> docs == []
      ensures server(query, size).statusCode == 200 ==>
        var data := server(query, size).data.GetOr([]);
        |docs| == |data| &&
        forall j :: 0 <= j < |data| ==>
          docs[j] == ScoredDoc(LastSegment(data[j].url), data[j].score.GetOr(0.0))
    {
      docs := [];
      var response := server(query, size);
      if response.statusCode == 200 {
        var data := response.data.GetOr([]);
        var j := 0;
        while j < |data|
          invariant 0 <= j <= |data|
          invariant |docs| == j
          invariant forall i :: 0 <= i < j ==>
            docs[i] == ScoredDoc(LastSegment(data[i].url), data[i].score.GetOr(0.0))
        {
          docs := docs + [ScoredDoc(LastSegment(data[j].url), data[j].score.GetOr(0.0))];
          j := j + 1;
        }
        assert docs == ExtractDocs(response);
      }
    }

    /** Builds the score map of one query from its hits and stores it under
        the query's id. The store happens once per hit, inside the loop, so
        with no hits the entry keeps its previous value or stays absent;
        nothing else in `results` changes. */
    method StoreScores(queryId: string, docs: seq<ScoredDoc>)
      requires Valid()
      modifies this
      ensures Valid()
      ensures results == RecordQuery(old(results), queryId, docs)
    {
      var scores: ScoreMap := map[];
      var j := 0;
      while j < |docs|
        invariant 0 <= j <= |docs|
        invariant scores == ScoreMapOf(docs[..j], queryId)
        invariant results == RecordQuery(old(results), queryId, docs[..j])
      {
        var corpusId, score := docs[j].corpusId, docs[j].score;
        assert docs[..j + 1][..j] == docs[..j];
        if corpusId != queryId {
          scores := scores[corpusId := score];
        }
        results := results[queryId := scores];
        j := j + 1;
      }
      assert docs[..j] == docs;
      RecordQueryNoSelfScores(old(results), queryId, docs);
    }

    /** Runs the queries (id, text) in order. When `initialize` is set the
        corpus is uploaded first, and a rejected batch makes the call fail
        before any query is asked. Each query asks for `topK + 1` hits; its
        entry in `results` is reassigned inside the loop over its hits, so a
        query with no hits leaves its entry as it was. Returns the whole
        accumulated map. */
    method Search(corpus: Corpus, queries: seq<(string, string)>, topK: int, bulk: BulkServer, server: SearchServer)
      returns (r: Result<Results, Error>, sent: seq<Batch>, asked: seq<(string, int)>)
      requires Valid()
      modifies this
      ensures Valid()
      ensures initialize ==>
        UploadedAsSpecified(Chunks(Records(language, indexName, corpus), BatchSize(bulkSize)), bulk,
                            if r.Failure? then Fail(r.error) else Pass, sent)
      ensures !initialize ==> sent == [] && r.Success?
      ensures r.Failure? ==> results == old(results) && asked == []
      ensures r.Success? ==> r.value == results && results == Accumulate(old(results), queries, server, topK)
      ensures r.Success? ==>
        |asked| == |queries| && forall j :: 0 <= j < |queries| ==> asked[j] == (queries[j].1, topK + 1)
    {
      sent := [];
      asked := [];
      if initialize {
        var outcome;
        outcome, sent := Index(corpus, bulk);
        if outcome.Fail? {
          return Failure(outcome.error), sent, asked;
        }
      }
      var i := 0;
      while i < |queries|
        invariant 0 <= i <= |queries|
        invariant Valid()
        invariant results == Accumulate(old(results), queries[..i], server, topK)
        invariant |asked| == i
        invariant forall j :: 0 <= j < i ==> asked[j] == (queries[j].1, topK + 1)
      {
        var queryId, query := queries[i].0, queries[i].1;
        var size := topK + 1;
        var docs := GetDocs(query, size, server);
        asked := asked + [(query, size)];
        StoreScores(queryId, docs);
        assert queries[..i + 1][..i] == queries[..i];
        i := i + 1;
      }
      assert queries[..i] == queries;
      r := Success(results);
    }
  }

  /** A one-document, one-query run: the hit for "d1" with score 3.5 comes
      back as the only result of "q1". */
  lemma SingleQueryExample(indexName: string)
    ensures var server := (q: string, n: int) =>
              QueryResponse(200, Some([Hit(Url(indexName, "d1"), Some(3.5))]));
      Accumulate(map[], [("q1", "x")], server, 1) == map["q1" := map["d1" := 3.5]]
  {
    UrlIdRoundTrip(indexName, "d1");
    var server := (q: string, n: int) =>
      QueryResponse(200, Some([Hit(Url(indexName, "d1"), Some(3.5))]));
    var docs := QueryDocs(server, "x", 1);
    assert docs == [ScoredDoc("d1", 3.5)];
    assert docs[..0] == [];
    assert [("q1", "x")][..0] == [];
  }
}
