/** The wire record that `FessSearch.index` uploads for each corpus entry,
    and the mapping from a search hit's url back to a corpus id. */
module Wire {
  import opened Wrappers

  /** A relevance score as returned by the server: copied, never computed on. */
  type Score = real

  const Host: string := "beir.codelibs.org"
  const Epoch: string := "1970-01-01T00:00:00.000Z"

  /** One corpus entry: both fields may be missing from the source dict. */
  datatype Document = Document(title: Option<string>, text: Option<string>)

  /** A corpus in its dict's iteration order: (document id, entry) pairs. */
  type Corpus = seq<(string, Document)>

  /** The JSON object sent for one document in a bulk upload. */
  datatype RemoteDocument = RemoteDocument(
    lang: string,
    title: string,
    content: string,
    contentLength: string,
    url: string,
    host: string,
    site: string,
    filename: string,
    mimetype: string,
    filetype: string,
    clickCount: int,
    favoriteCount: int,
    boost: real,
    lastModified: string,
    timestamp: string,
    created: string,
    role: seq<string>)

  // ---------------------------------------------------------------------------
  // Decimal rendering of `len(content)` (the f-string `f"{n}"`)

  predicate IsDigit(c: char) { '0' <= c <= '9' }

  function DigitChar(d: nat): (c: char)
    requires d < 10
    ensures IsDigit(c) && DigitValue(c) == d
  {
    (d + '0' as int) as char
  }

  /** The decimal numeral of `n`, most significant digit first. */
  function DecimalString(n: nat): (s: string)
    ensures |s| >= 1
    ensures forall i :: 0 <= i < |s| ==> IsDigit(s[i])
    ensures |s| > 1 ==> s[0] != '0'
    decreases n
  {
    if n < 10 then [DigitChar(n)] else DecimalString(n / 10) + [DigitChar(n % 10)]
  }

  function DigitValue(c: char): (d: nat)
    requires IsDigit(c)
  {
    c as int - '0' as int
  }

  /** The number a string of decimal digits denotes. */
  function DecimalValue(s: string): (n: nat)
    requires forall i :: 0 <= i < |s| ==> IsDigit(s[i])
  {
    if s == [] then 0
    else DecimalValue(s[..|s| - 1]) * 10 + DigitValue(s[|s| - 1])
  }

  /** Reading back the rendered length gives the length. */
  lemma {:induction false} DecimalRoundTrip(n: nat)
    ensures DecimalValue(DecimalString(n)) == n
    decreases n
  {
    var s := DecimalString(n);
    if n >= 10 {
      DecimalRoundTrip(n / 10);
      assert s[..|s| - 1] == DecimalString(n / 10);
    }
  }

  // ---------------------------------------------------------------------------
  // Synthetic url, site and filename, and the inverse `url.split('/')[-1]`

  function Url(indexName: string, id: string): (url: string) {
    "http://beir.codelibs.org/" + indexName + "/" + id
  }

  function Site(indexName: string, id: string): (site: string) {
    "beir.codelibs.org/" + indexName + "/" + id
  }

  /** The last `/`-separated segment of `s`: the whole of `s` when it has no
      `/`, and empty when `s` ends with `/`. */
  function LastSegment(s: string): (r: string)
    ensures '/' !in r
  {
    if s == [] then ""
    else if s[|s| - 1] == '/' then ""
    else LastSegment(s[..|s| - 1]) + [s[|s| - 1]]
  }

  /** The last segment is the longest `/`-free suffix: a suffix of `s` that is
      either all of `s` or preceded by a `/`. */
  lemma {:induction false} LastSegmentIsSuffix(s: string)
    ensures var r := LastSegment(s);
      && |r| <= |s| && r == s[|s| - |r|..]
      && (|r| < |s| ==> s[|s| - |r| - 1] == '/')
  {
    if s != [] && s[|s| - 1] != '/' {
      var n := |s|;
      var init := s[..n - 1];
      LastSegmentIsSuffix(init);
      var r0 := LastSegment(init);
      var m := |r0|;
      assert LastSegment(s) == r0 + [s[n - 1]];
      assert r0 == init[n - 1 - m..];
      assert s[n - 1 - m..] == init[n - 1 - m..] + [s[n - 1]];
      if m < n - 1 {
        assert init[n - 1 - m - 1] == s[n - m - 2];
      }
    }
  }

  /** The segment after a final `/` is recovered when it has no `/` itself. */
  lemma {:induction false} LastSegmentAfterSlash(prefix: string, id: string)
    requires '/' !in id
    ensures LastSegment(prefix + "/" + id) == id
    decreases |id|
  {
    var s := prefix + "/" + id;
    if id != [] {
      var init := id[..|id| - 1];
      assert s[..|s| - 1] == prefix + "/" + init;
      assert s[|s| - 1] == id[|id| - 1];
      LastSegmentAfterSlash(prefix, init);
      assert init + [id[|id| - 1]] == id;
    }
  }

  /** Search results map back to corpus ids: the round trip through the
      generated url succeeds exactly for ids without `/`, whatever the index
      name. */
  lemma UrlIdRoundTrip(indexName: string, id: string)
    ensures LastSegment(Url(indexName, id)) == id <==> '/' !in id
  {
    if '/' !in id {
      assert Url(indexName, id) == ("http://beir.codelibs.org/" + indexName) + "/" + id;
      LastSegmentAfterSlash("http://beir.codelibs.org/" + indexName, id);
    }
  }

  lemma UrlIsHttpSite(indexName: string, id: string)
    ensures Url(indexName, id) == "http://" + Site(indexName, id)
  {
    assert "http://beir.codelibs.org/" == "http://" + "beir.codelibs.org/";
  }

  /** Within one index, distinct ids give distinct urls. */
  lemma UrlInjective(indexName: string, a: string, b: string)
    requires Url(indexName, a) == Url(indexName, b)
    ensures a == b
  {
    var n := |"http://beir.codelibs.org/" + indexName + "/"|;
    assert a == Url(indexName, a)[n..];
    assert b == Url(indexName, b)[n..];
  }

  // ---------------------------------------------------------------------------
  // One wire record

  /** The record uploaded for corpus entry `id`. */
  function MakeRecord(language: string, indexName: string, id: string, doc: Document): (r: RemoteDocument)
  {
    var title := doc.title.GetOr("");
    var title := if |title| == 0 then "-" else title;
    var content := doc.text.GetOr("");
    RemoteDocument(
      lang := language,
      title := title,
      content := content,
      contentLength := DecimalString(|content|),
      url := Url(indexName, id),
      host := Host,
      site := Site(indexName, id),
      filename := id + ".html",
      mimetype := "text/plain",
      filetype := "text",
      clickCount := 0,
      favoriteCount := 0,
      boost := 1.0,
      lastModified := Epoch,
      timestamp := Epoch,
      created := Epoch,
      role := ["Rguest"])
  }

  /** The title falls back to "-" when missing or empty and is otherwise
      kept; the content falls back to ""; content_length is the content's
      length written in decimal digits; the filename is the id with `.html`. */
  lemma RecordFields(language: string, indexName: string, id: string, doc: Document)
    ensures var r := MakeRecord(language, indexName, id, doc);
      && r.title != ""
      && ((doc.title == None || doc.title == Some("")) ==> r.title == "-")
      && (doc.title.Some? && doc.title.value != "" ==> r.title == doc.title.value)
      && r.content == doc.text.GetOr("")
      && (forall i :: 0 <= i < |r.contentLength| ==> IsDigit(r.contentLength[i]))
      && DecimalValue(r.contentLength) == |r.content|
      && r.filename == id + ".html"
      && r.lang == language && r.host == Host && r.mimetype == "text/plain"
      && r.lastModified == r.timestamp == r.created == Epoch
  {
    DecimalRoundTrip(|doc.text.GetOr("")|);
  }

  /** A record's url is its site behind `http://`, and the corpus id read back
      from the url is the record's own id exactly when that id has no `/`. */
  lemma RecordUrl(language: string, indexName: string, id: string, doc: Document)
    ensures var r := MakeRecord(language, indexName, id, doc);
      && r.url == "http://" + r.site
      && (LastSegment(r.url) == id <==> '/' !in id)
  {
    UrlIsHttpSite(indexName, id);
    UrlIdRoundTrip(indexName, id);
  }

  /** The records of a whole corpus, one per entry, in iteration order. */
  function Records(language: string, indexName: string, corpus: Corpus): (rs: seq<RemoteDocument>)
    ensures |rs| == |corpus|
  {
    if corpus == [] then []
    else [MakeRecord(language, indexName, corpus[0].0, corpus[0].1)] + Records(language, indexName, corpus[1..])
  }

  /** Record `j` is built from corpus entry `j`. */
  lemma {:induction false} RecordsAt(language: string, indexName: string, corpus: Corpus, j: nat)
    requires j < |corpus|
    ensures Records(language, indexName, corpus)[j] == MakeRecord(language, indexName, corpus[j].0, corpus[j].1)
    decreases j
  {
    if j > 0 {
      RecordsAt(language, indexName, corpus[1..], j - 1);
    }
  }

  predicate DistinctIds(corpus: Corpus) {
    forall i, j :: 0 <= i < j < |corpus| ==> corpus[i].0 != corpus[j].0
  }

  /** A corpus (a dict, so with distinct ids) yields records with distinct
      urls: no document is uploaded twice under one url. */
  lemma RecordsDistinctUrls(language: string, indexName: string, corpus: Corpus)
    requires DistinctIds(corpus)
    ensures var rs := Records(language, indexName, corpus);
      forall i, j :: 0 <= i < j < |rs| ==> rs[i].url != rs[j].url
  {
    var rs := Records(language, indexName, corpus);
    forall i, j | 0 <= i < j < |rs|
      ensures rs[i].url != rs[j].url
    {
      RecordsAt(language, indexName, corpus, i);
      RecordsAt(language, indexName, corpus, j);
      if rs[i].url == rs[j].url {
        UrlInjective(indexName, corpus[i].0, corpus[j].0);
      }
    }
  }
}
