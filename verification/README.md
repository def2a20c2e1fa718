# FessSearch adapter model

A Dafny model of `FessSearch`, the adapter that lets a BEIR-style retrieval
benchmark use a Fess full-text search server as its lexical backend. The
adapter does three things:

- it clears the server's index on construction, when `initialize` is set
  (`initialise`);
- it bulk-uploads a corpus in fixed-size batches at the start of each
  search, when `initialize` is set (`index` and its nested `send_bulk`);
- it asks the server for the `top_k + 1` best hits of each query and
  accumulates the scores into a `results` map held on the object (`search`
  and `_get_docs`).

The HTTP server is an oracle. The bulk endpoint is a function from a batch
of wire records to the `.response.status` field of its JSON answer
(`Status = Option<int>`, `None` when the field is missing). The search
endpoint is a function from (query text, number of hits) to a
`QueryResponse`: the HTTP status code and the optional `data` array of
(url, optional score) hits. The delete-all request is represented only by
its status.

Files:

- `wrappers.dfy`: `Option`, `Result` and `Outcome`. `Outcome` stands for
  an operation that returns normally or raises.
- `wire.dfy` (module `Wire`): the wire record built for each corpus entry,
  the synthetic url/site/filename, the decimal `content_length`, and the
  inverse `url.split('/')[-1]` (`LastSegment`). These are pure functions
  and lemmas.
- `batching.dfy` (module `Batching`): `Chunks`, the reference definition of
  the batching the upload loop performs, with its coverage, size and count
  lemmas.
- `scoring.dfy` (module `Scoring`): the hit list of one response
  (`ExtractDocs`), the score map of one query (`ScoreMapOf`), the effect of
  one query on `results` (`RecordQuery`), the effect of a run of queries
  (`Accumulate`), and their lemmas.
- `fess_search.dfy` (module `Fess`): the class `FessSearch` with its
  configuration and the mutable `results` field. Its methods `Index`,
  `GetDocs`, `StoreScores` and `Search` keep the source's loops and are
  proved against the functions above. `UploadedAsSpecified` states what an
  upload run promises.

Two behaviours of the code are worth stating up front:

- A query with no hits leaves its entry in `results` unchanged instead of
  storing an empty score map. No hits means a non-200 status, or 200 with
  an empty or missing `data`. The store `self.results[query_id] = scores`
  sits inside the per-hit loop (`fess_search.py:60-65`), so the entry
  stays absent or keeps what an earlier call stored. `RecordQuery`,
  `AccumulateEntry` and `StoreScores` state this.
- A `bulk_size` below 1 flushes every record on its own, because the
  buffer is flushed once `len(docs) >= bulk_size` (`fess_search.py:128`).
  `BatchSize` makes this explicit. For `bulk_size >= 1` batches have
  exactly `bulk_size` records, the last one possibly fewer.

## Model

| member | source | states |
|---|---|---|
| `Wire.DecimalString` | beir_fess/retrieval/search/lexical/fess_search.py:113 | the rendering of `len(content)` is a non-empty string of decimal digits with no leading zero |
| `Wire.DecimalRoundTrip` | beir_fess/retrieval/search/lexical/fess_search.py:113 | reading the rendered `content_length` back as a decimal number gives the length itself |
| `Wire.LastSegment` | beir_fess/retrieval/search/lexical/fess_search.py:84 | the id taken from a url never contains `/` |
| `Wire.LastSegmentIsSuffix` | beir_fess/retrieval/search/lexical/fess_search.py:84 | the id taken from a url is a suffix of the url that is either the whole url or directly preceded by `/`, i.e. the last `/`-separated segment |
| `Wire.LastSegmentAfterSlash` | beir_fess/retrieval/search/lexical/fess_search.py:84 | for any prefix, the last segment of `prefix + "/" + id` is `id` when `id` has no `/` |
| `Wire.UrlIdRoundTrip` | beir_fess/retrieval/search/lexical/fess_search.py:84 | reading the id back from the generated url `http://beir.codelibs.org/<index_name>/<id>` gives `id` exactly when `id` contains no `/` (for any index name) |
| `Wire.UrlInjective` | beir_fess/retrieval/search/lexical/fess_search.py:114 | within one index, two ids with the same generated url are the same id |
| `Wire.Url` | beir_fess/retrieval/search/lexical/fess_search.py:114 | the url of a corpus entry, `http://beir.codelibs.org/<index_name>/<id>`; `UrlIdRoundTrip` and `UrlInjective` state its properties |
| `Wire.Site` | beir_fess/retrieval/search/lexical/fess_search.py:116 | the site of a corpus entry, `beir.codelibs.org/<index_name>/<id>`; `RecordUrl` relates it to the url |
| `Wire.MakeRecord` | beir_fess/retrieval/search/lexical/fess_search.py:105-127 | the wire record built for one corpus entry; `RecordFields` and `RecordUrl` state its fields |
| `Wire.RecordFields` | beir_fess/retrieval/search/lexical/fess_search.py:105-126 | the title is "-" when missing or empty and verbatim otherwise (never empty); the content is the entry's text or ""; `content_length` is all digits and denotes the content's length; filename is `<id>.html`; lang, host, mimetype and the three epoch dates are the fixed values |
| `Wire.RecordUrl` | beir_fess/retrieval/search/lexical/fess_search.py:114-116 | a record's url is its site behind `http://`, and the id read back from the url is the record's id exactly when the id has no `/` |
| `Wire.Records` | beir_fess/retrieval/search/lexical/fess_search.py:104-127 | one record per corpus entry |
| `Wire.RecordsAt` | beir_fess/retrieval/search/lexical/fess_search.py:104-127 | record `j` is built from corpus entry `j`: corpus iteration order is kept |
| `Wire.RecordsDistinctUrls` | beir_fess/retrieval/search/lexical/fess_search.py:104-116 | a corpus with distinct ids (a dict) yields records with pairwise distinct urls: no document is uploaded twice |
| `Batching.BatchSize` | beir_fess/retrieval/search/lexical/fess_search.py:128 | the effective batch size is at least 1; it is `bulk_size` when that is at least 1 and 1 otherwise |
| `Batching.Chunks` | beir_fess/retrieval/search/lexical/fess_search.py:128-132 | there are no batches exactly when there are no records |
| `Batching.ChunksSizes` | beir_fess/retrieval/search/lexical/fess_search.py:128-132 | every batch but the last has exactly the batch size and the last has between 1 and the batch size records |
| `Batching.ChunksFlatten` | beir_fess/retrieval/search/lexical/fess_search.py:103-132 | the batches concatenate back to the record sequence: nothing lost, duplicated or reordered |
| `Batching.ChunksCount` | beir_fess/retrieval/search/lexical/fess_search.py:128-132 | the number of batches is ceil(records / batch size) |
| `Batching.ChunksCons` | beir_fess/retrieval/search/lexical/fess_search.py:128-130 | a full buffer at the front of the records is flushed as the first batch |
| `Batching.ChunksShort` | beir_fess/retrieval/search/lexical/fess_search.py:131-132 | a remainder shorter than the batch size forms one last batch, or none when empty |
| `Scoring.ExtractDocs` | beir_fess/retrieval/search/lexical/fess_search.py:81-87 | a response whose status is not 200 yields no hits |
| `Scoring.ExtractDocsIds` | beir_fess/retrieval/search/lexical/fess_search.py:81-86 | hits whose urls were generated for `/`-free ids come back as those ids, one per hit, in order |
| `Scoring.ScoreMapOf` | beir_fess/retrieval/search/lexical/fess_search.py:59-64 | a query's score map never has the query's own id as a key, and every key is an id some hit returned |
| `Scoring.ScoreMapKeys` | beir_fess/retrieval/search/lexical/fess_search.py:60-64 | every returned id other than the query's own id is a key of the score map |
| `Scoring.ScoreMapLastWins` | beir_fess/retrieval/search/lexical/fess_search.py:60-64 | when an id is returned several times, its score is that of its last occurrence |
| `Scoring.RecordQuery` | beir_fess/retrieval/search/lexical/fess_search.py:59-65 | one query changes `results` only when it has at least one hit, then setting its own entry to its score map; every other entry is unchanged |
| `Scoring.RecordQueryNoSelfScores` | beir_fess/retrieval/search/lexical/fess_search.py:59-65 | if no query was a result for itself before one query is recorded, none is after it |
| `Scoring.QueryDocs` | beir_fess/retrieval/search/lexical/fess_search.py:58 | the hits of one query are those of a request for `top_k + 1` hits; `ExtractDocs` and `ExtractDocsIds` state their form |
| `Scoring.Accumulate` | beir_fess/retrieval/search/lexical/fess_search.py:56-65 | the reference for the query loop: queries applied in order, each by `RecordQuery`; `AccumulateEntry`, `AccumulateUntouched` and `AccumulateNoSelfScores` state its properties |
| `Scoring.AccumulateNoSelfScores` | beir_fess/retrieval/search/lexical/fess_search.py:56-65 | if no query was a result for itself before a run of queries, none is after it |
| `Scoring.AccumulateUntouched` | beir_fess/retrieval/search/lexical/fess_search.py:56-65 | entries for ids that are not among the queries are neither added, removed nor changed |
| `Scoring.AccumulateEntry` | beir_fess/retrieval/search/lexical/fess_search.py:56-65 | after a run, a query's entry is its score map if its `top_k + 1` request returned a hit, and otherwise its previous entry (or its absence) |
| `Fess.UploadedAsSpecified` | beir_fess/retrieval/search/lexical/fess_search.py:100-132 | the upload promise: the batches sent are a prefix of the groups, all but the last were acknowledged, a pass sent every group, and a failure is the first rejected batch carrying its status; `UploadDeterministic` and `UploadCoversCorpus` state its consequences |
| `Fess.UploadDeterministic` | beir_fess/retrieval/search/lexical/fess_search.py:100-101 | the upload promise fixes the outcome and the batches sent uniquely, given the batches and the server's answers |
| `Fess.UploadCoversCorpus` | beir_fess/retrieval/search/lexical/fess_search.py:103-132 | a successful upload sends every corpus record exactly once, in corpus order, in ceil(n / size) batches of the batch size with a last batch of 1..size; an empty corpus sends nothing |
| `Fess.FessSearch.constructor` | beir_fess/retrieval/search/lexical/fess_search.py:15-24 | stores the configuration and starts with an empty results map |
| `Fess.FessSearch.Open` | beir_fess/retrieval/search/lexical/fess_search.py:15-26 | construction raises exactly when `initialize` is set and the delete-all request is not acknowledged; otherwise it yields a fresh adapter with no results |
| `Fess.FessSearch.Initialise` | beir_fess/retrieval/search/lexical/fess_search.py:30-40 | clearing the index succeeds exactly when the delete response's status is 0, and fails with "Failed to delete all documents" otherwise |
| `Fess.FessSearch.SendBulk` | beir_fess/retrieval/search/lexical/fess_search.py:91-101 | posting one batch succeeds exactly when its status is 0 and otherwise raises carrying the response's status |
| `Fess.FessSearch.Index` | beir_fess/retrieval/search/lexical/fess_search.py:89-133 | the batches posted are the first groups of `Chunks(records, size)`, in order; all but the last were acknowledged; the call passes when every group was sent and acknowledged, and otherwise fails at the first rejected batch without sending any later one |
| `Fess.FessSearch.GetDocs` | beir_fess/retrieval/search/lexical/fess_search.py:70-87 | no hits unless the HTTP status is 200; otherwise one (last url segment, score or 0.0) entry per element of `data`, in order |
| `Fess.FessSearch.StoreScores` | beir_fess/retrieval/search/lexical/fess_search.py:59-65 | keeps the no-self-result invariant; the per-hit loop leaves `results` as `RecordQuery` says: the query's score map stored under its id if it had hits, otherwise unchanged |
| `Fess.FessSearch.Search` | beir_fess/retrieval/search/lexical/fess_search.py:42-68 | keeps the no-self-result invariant; uploads first only when `initialize` is set, and a failed upload raises before any query is asked; asks `top_k + 1` hits per query, in order; the new results are `Accumulate` of the old ones and are returned whole |
| `Fess.SingleQueryExample` | beir_fess/retrieval/search/lexical/fess_search.py:56-86 | with one query "q1" whose single hit is the url of "d1" with score 3.5, the results are `{"q1": {"d1": 3.5}}` |

## Left out

- HTTP and JSON: the request urls, headers, bearer token, query parameters
  and the decoding of response bodies are not modelled. Each endpoint is an
  oracle returning a status or a hit list. A body that fails to decode would
  raise in the source, and the model does not represent that.
- Progress reporting through `tqdm` (`fess_search.py:55,66-67,90,102,133`)
  is left out. It is an observability side channel with no effect on
  results.
- `sleep` (`fess_search.py:9-11,49`) is left out. It is only a timing side
  effect. `Search` performs the upload only when `initialize` is set, which
  is the only condition the sleep sits under.
- Floating point is not modelled. Scores are `real` values that are only
  copied, and `boost` is the constant 1.0.
- `translation_table` (`fess_search.py:27-28`) is left out because it is
  built but never used.
- The `BaseSearch` superclass from the `beir` package is not part of this
  model.
- Corpus and queries are Python dicts, modelled as sequences of
  (id, value) pairs in iteration order. Lemmas that rely on unique keys
  state that as a requirement.
- Hits without a url, which would crash `url.split`, are not modelled:
  every hit has a url.
- `None` values inside a corpus entry are not modelled. `Document` fields
  are either absent or strings. A title present with the value `None`
  would make `len(title)` raise (`fess_search.py:106`). A text present
  with the value `None` would make `len(content)` raise
  (`fess_search.py:113`), so the upload would raise. The model treats
  every present field as a string and cannot express either raise.
- A `data` that is JSON `null` makes `_get_docs` raise, because
  `for doc in None` fails (`fess_search.py:82`), and so `search` raises too.
  In the model `data == None` means the key is absent and yields no hits.
- A hit whose `score` is JSON `null` is not modelled. `doc.get("score",
  0.0)` (`fess_search.py:85`) passes such a score through as `None`.
  `Hit.score` is either absent, and then defaults to 0.0, or a number.
- Python object aliasing is not modelled: the `scores` dict is shared with
  `self.results` while the per-hit loop runs, and the model uses value
  semantics. The final state is the same because the store is repeated
  after every hit.
  `search` also returns `self.results` itself (`fess_search.py:68`), so a
  dict a caller got from one call keeps changing on later calls. The
  model's `Search` returns a copy of the value instead.
- Dict insertion order is dropped. `ScoreMap` and `Results` are Dafny maps,
  while the Python `scores` and `self.results` dicts keep insertion order
  and `search` returns the dict. Nothing in the adapter relies on that
  order.
- The constructor's default arguments (`fess_search.py:15-16`) are not
  modelled. They are `hostname="http://localhost:8080"`,
  `access_token=None`, `language="en"`, `initialize=True`,
  `bulk_size=100` and `sleep_for=2`. `Open` and the constructor take every
  argument explicitly.
