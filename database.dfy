/** database.py: the three SQLite tables, held in memory.
    `documents` is a log of stored chunks keyed by an integer primary key; `pubmed_results` and
    `arxiv_results` map a UNIQUE query to its results, written with INSERT OR REPLACE.
    A chunk is held as its JSON text and a result list as the list it decodes to. */
module Database {
  import opened Wrappers
  import opened Strings

  /** A row of `documents`. */
  datatype DocumentRow = DocumentRow(id: int, content: string)

  /** A row of `pubmed_results` or `arxiv_results`. */
  datatype ResultRow = ResultRow(query: string, results: seq<string>)

  /** Row ids are positive and increase in insertion order, as SQLite assigns them for an
      INTEGER PRIMARY KEY when rows are only appended (one more than the largest id, 1 in an empty table). */
  predicate IdsIncreasing(rows: seq<DocumentRow>) {
    (forall i :: 0 <= i < |rows| ==> rows[i].id >= 1)
    && (forall i, j :: 0 <= i < j < |rows| ==> rows[i].id < rows[j].id)
  }

  /** The UNIQUE constraint on `query`. */
  predicate UniqueQueries(rows: seq<ResultRow>) {
    forall i, j :: 0 <= i < j < |rows| ==> rows[i].query != rows[j].query
  }

  /** The rows for a chunk list, with consecutive ids from `start`. */
  function NewRows(start: int, chunks: seq<string>): (rows: seq<DocumentRow>)
    ensures |rows| == |chunks|
    ensures forall k :: 0 <= k < |rows| ==> rows[k] == DocumentRow(start + k, chunks[k])
  {
    seq(|chunks|, k requires 0 <= k < |chunks| => DocumentRow(start + k, chunks[k]))
  }

  /** The results stored for `query`, if any. */
  function Lookup(rows: seq<ResultRow>, query: string): (r: Option<seq<string>>)
    ensures r.None? <==> forall i :: 0 <= i < |rows| ==> rows[i].query != query
    ensures r.Some? ==> exists i :: 0 <= i < |rows| && rows[i] == ResultRow(query, r.value)
  {
    if |rows| == 0 then None
    else if rows[0].query == query then Some(rows[0].results)
    else
      var r := Lookup(rows[1..], query);
      assert forall i :: 1 <= i < |rows| ==> rows[i] == rows[1..][i - 1];
      r
  }

  /** The rows other than the one for `query`. */
  function Without(rows: seq<ResultRow>, query: string): (r: seq<ResultRow>)
    ensures forall x :: x in r <==> x in rows && x.query != query
  {
    if |rows| == 0 then []
    else if rows[0].query == query then Without(rows[1..], query)
    else [rows[0]] + Without(rows[1..], query)
  }

  /** Deleting keeps the order of the remaining rows: it works row by row. */
  lemma {:induction false} WithoutAppend(a: seq<ResultRow>, b: seq<ResultRow>, query: string)
    ensures Without(a + b, query) == Without(a, query) + Without(b, query)
  {
    if |a| == 0 {
      assert a + b == b;
    } else {
      var ab := a + b;
      assert ab[0] == a[0];
      assert ab[1..] == a[1..] + b;
      WithoutAppend(a[1..], b, query);
    }
  }

  /** No later row repeats the first row's query. */
  lemma HeadQueryNotRepeated(rows: seq<ResultRow>)
    requires |rows| > 0 && UniqueQueries(rows)
    ensures UniqueQueries(rows[1..])
    ensures forall y :: y in rows[1..] ==> y.query != rows[0].query
  {
    forall y | y in rows[1..]
      ensures y.query != rows[0].query
    {
      var i :| 0 <= i < |rows[1..]| && rows[1..][i] == y;
      assert rows[i + 1] == y;
    }
  }

  /** A row whose query is new may go in front of rows with unique queries. */
  lemma ConsUnique(x: ResultRow, rest: seq<ResultRow>)
    requires UniqueQueries(rest)
    requires forall y :: y in rest ==> y.query != x.query
    ensures UniqueQueries([x] + rest)
  {
    var r := [x] + rest;
    forall i, j | 0 <= i < j < |r|
      ensures r[i].query != r[j].query
    {
      if i == 0 {
        assert r[j] in rest;
      } else {
        assert r[i] == rest[i - 1] && r[j] == rest[j - 1];
      }
    }
  }

  /** Dropping rows keeps the queries unique. */
  lemma {:induction false} WithoutUnique(rows: seq<ResultRow>, query: string)
    requires UniqueQueries(rows)
    ensures UniqueQueries(Without(rows, query))
  {
    if |rows| > 0 {
      HeadQueryNotRepeated(rows);
      WithoutUnique(rows[1..], query);
      if rows[0].query != query {
        ConsUnique(rows[0], Without(rows[1..], query));
      }
    }
  }

  /** INSERT OR REPLACE: any row for `query` is deleted and a new row is inserted after the others. */
  function Upsert(rows: seq<ResultRow>, query: string, results: seq<string>): seq<ResultRow> {
    Without(rows, query) + [ResultRow(query, results)]
  }

  /** With unique queries, the row stored for `query` is the one looked up. */
  lemma LookupUnique(rows: seq<ResultRow>, query: string)
    requires UniqueQueries(rows)
    ensures forall x :: x in rows && x.query == query ==> Lookup(rows, query) == Some(x.results)
  {
    forall x | x in rows && x.query == query
      ensures Lookup(rows, query) == Some(x.results)
    {
      var k :| 0 <= k < |rows| && rows[k] == x;
      var r := Lookup(rows, query);
      var i :| 0 <= i < |rows| && rows[i] == ResultRow(query, r.value);
      assert i == k;
    }
  }

  /** The last write for a query wins. */
  lemma UpsertSame(rows: seq<ResultRow>, query: string, results: seq<string>)
    requires UniqueQueries(rows)
    ensures Lookup(Upsert(rows, query, results), query) == Some(results)
  {
    UpsertUnique(rows, query, results);
    var u := Upsert(rows, query, results);
    assert u[|u| - 1] == ResultRow(query, results);
    LookupUnique(u, query);
  }

  /** Writing one query leaves every other query's results as they were. */
  lemma UpsertOther(rows: seq<ResultRow>, query: string, results: seq<string>, other: string)
    requires UniqueQueries(rows)
    requires other != query
    ensures Lookup(Upsert(rows, query, results), other) == Lookup(rows, other)
  {
    UpsertUnique(rows, query, results);
    var u := Upsert(rows, query, results);
    var before := Lookup(rows, other);
    if before.None? {
      forall i | 0 <= i < |u|
        ensures u[i].query != other
      {
        if i < |u| - 1 {
          assert u[i] in Without(rows, query);
        }
      }
    } else {
      var i :| 0 <= i < |rows| && rows[i] == ResultRow(other, before.value);
      assert rows[i] in Without(rows, query);
      assert rows[i] in u;
      LookupUnique(u, other);
    }
  }

  /** INSERT OR REPLACE keeps the UNIQUE constraint. */
  lemma UpsertUnique(rows: seq<ResultRow>, query: string, results: seq<string>)
    requires UniqueQueries(rows)
    ensures UniqueQueries(Upsert(rows, query, results))
  {
    WithoutUnique(rows, query);
    var w := Without(rows, query);
    var u := w + [ResultRow(query, results)];
    forall i, j | 0 <= i < j < |u|
      ensures u[i].query != u[j].query
    {
      if j == |u| - 1 {
        assert u[i] in w;
      } else {
        assert u[i] == w[i] && u[j] == w[j];
      }
    }
  }

  /** The queries of the rows, in row order. */
  function Queries(rows: seq<ResultRow>): (qs: seq<string>)
    ensures |qs| == |rows|
    ensures forall q :: q in qs <==> Lookup(rows, q).Some?
  {
    var qs := seq(|rows|, i requires 0 <= i < |rows| => rows[i].query);
    forall q | q in qs
      ensures Lookup(rows, q).Some?
    {
      var i :| 0 <= i < |qs| && qs[i] == q;
      assert rows[i].query == q;
    }
    forall q | Lookup(rows, q).Some?
      ensures q in qs
    {
      var i :| 0 <= i < |rows| && rows[i].query == q;
      assert qs[i] == q;
    }
    qs
  }

  /** SQL LIKE as SQLite evaluates it without an ESCAPE clause: '%' matches any run of characters,
      '_' any one character, and letters match regardless of ASCII case. */
  function Like(s: string, pattern: string): bool
    decreases |s| + |pattern|
  {
    if |pattern| == 0 then |s| == 0
    else if pattern[0] == '%' then Like(s, pattern[1..]) || (|s| > 0 && Like(s[1..], pattern))
    else |s| > 0 && (pattern[0] == '_' || LowerChar(s[0]) == LowerChar(pattern[0])) && Like(s[1..], pattern[1..])
  }

  /** A lone '%' matches everything. */
  lemma {:induction false} LikeAnything(s: string)
    ensures Like(s, "%")
  {
    if |s| > 0 {
      LikeAnything(s[1..]);
    }
    assert "%"[1..] == [];
  }

  /** A pattern without wildcards followed by '%' matches any text that starts with it. */
  lemma {:induction false} LikeLiteralPrefix(q: string, t: string)
    requires '%' !in q && '_' !in q
    ensures Like(q + t, q + "%")
  {
    if |q| == 0 {
      assert q + t == t && q + "%" == "%";
      LikeAnything(t);
    } else {
      assert (q + t)[1..] == q[1..] + t;
      assert (q + "%")[1..] == q[1..] + "%";
      LikeLiteralPrefix(q[1..], t);
    }
  }

  /** A leading '%' may skip any prefix of the text. */
  lemma {:induction false} LikeSkip(s: string, j: nat, pattern: string)
    requires j <= |s| && Like(s[j..], pattern)
    ensures Like(s, "%" + pattern)
  {
    assert ("%" + pattern)[1..] == pattern;
    if j > 0 {
      assert s[1..][j - 1..] == s[j..];
      LikeSkip(s[1..], j - 1, pattern);
    }
  }

  /** Text that contains the query literally matches LIKE '%query%', when the query has no wildcard. */
  lemma LikeFindsOccurrence(s: string, query: string)
    requires '%' !in query && '_' !in query
    requires Contains(s, query)
    ensures Like(s, "%" + query + "%")
  {
    var j := FindFirst(s, query).value;
    var t := s[j + |query|..];
    assert s[j..] == query + t by {
      assert s[j..][..|query|] == query;
    }
    LikeLiteralPrefix(query, t);
    LikeSkip(s, j, query + "%");
    assert "%" + query + "%" == "%" + (query + "%");
  }

  /** The contents of the rows that match LIKE '%query%', in row order. */
  function Matching(rows: seq<DocumentRow>, query: string): (r: seq<string>)
    ensures |r| <= |rows|
  {
    if |rows| == 0 then []
    else
      var rest := Matching(rows[1..], query);
      if Like(rows[0].content, "%" + query + "%") then [rows[0].content] + rest else rest
  }

  /** A chunk is returned exactly when some row holds it and it matches LIKE '%query%'. */
  lemma {:induction false} MatchingExactly(rows: seq<DocumentRow>, query: string)
    ensures forall c :: c in Matching(rows, query) ==>
      Like(c, "%" + query + "%") && exists i :: 0 <= i < |rows| && rows[i].content == c
    ensures forall i :: 0 <= i < |rows| && Like(rows[i].content, "%" + query + "%") ==>
      rows[i].content in Matching(rows, query)
  {
    if |rows| > 0 {
      MatchingExactly(rows[1..], query);
      MatchingStep(rows, query);
      assert forall i :: 1 <= i < |rows| ==> rows[i] == rows[1..][i - 1];
    }
  }

  /** The query goes through the rows in order: the matches of a concatenation are the matches of
      the first part followed by those of the second. */
  lemma {:induction false} MatchingAppend(a: seq<DocumentRow>, b: seq<DocumentRow>, query: string)
    ensures Matching(a + b, query) == Matching(a, query) + Matching(b, query)
  {
    if |a| == 0 {
      assert a + b == b;
    } else {
      var ab := a + b;
      assert ab[0] == a[0];
      assert ab[1..] == a[1..] + b;
      MatchingAppend(a[1..], b, query);
      MatchingStep(a, query);
      MatchingStep(ab, query);
      var head := if Like(a[0].content, "%" + query + "%") then [a[0].content] else [];
      assert Matching(ab, query) == head + (Matching(a[1..], query) + Matching(b, query));
    }
  }

  lemma MatchingStep(rows: seq<DocumentRow>, query: string)
    requires |rows| > 0
    ensures Matching(rows, query) ==
      (if Like(rows[0].content, "%" + query + "%") then [rows[0].content] else []) + Matching(rows[1..], query)
  {
  }

  /** Splitting the rows anywhere: the matches before the split come first. */
  lemma MatchingInOrder(rows: seq<DocumentRow>, query: string)
    ensures forall k :: 0 <= k <= |rows| ==> Matching(rows, query) == Matching(rows[..k], query) + Matching(rows[k..], query)
  {
    forall k | 0 <= k <= |rows|
      ensures Matching(rows, query) == Matching(rows[..k], query) + Matching(rows[k..], query)
    {
      var front, back := rows[..k], rows[k..];
      assert front + back == rows;
      MatchingAppend(front, back, query);
    }
  }

  /** The three tables. */
  class Tables {
    var documents: seq<DocumentRow>
    var pubmedResults: seq<ResultRow>
    var arxivResults: seq<ResultRow>

    ghost predicate Valid()
      reads this
    {
      IdsIncreasing(documents) && UniqueQueries(pubmedResults) && UniqueQueries(arxivResults)
    }

    /** init_db on a fresh database: three empty tables. */
    constructor ()
      ensures Valid()
      ensures documents == [] && pubmedResults == [] && arxivResults == []
    {
      documents, pubmedResults, arxivResults := [], [], [];
    }

    /** The id SQLite gives the next inserted document. */
    function NextId(): (id: int)
      reads this
      requires Valid()
      ensures id >= 1
      ensures forall i :: 0 <= i < |documents| ==> documents[i].id < id
    {
      if |documents| == 0 then 1 else documents[|documents| - 1].id + 1
    }

    /** store_document: one row per chunk, in order, with consecutive new ids; returns the number of chunks. */
    method StoreDocument(chunks: seq<string>) returns (count: nat)
      requires Valid()
      modifies this
      ensures Valid()
      ensures count == |chunks|
      ensures documents == old(documents) + NewRows(old(NextId()), chunks)
      ensures pubmedResults == old(pubmedResults) && arxivResults == old(arxivResults)
    {
      ghost var start := NextId();
      for k := 0 to |chunks|
        invariant Valid()
        invariant documents == old(documents) + NewRows(start, chunks[..k])
        invariant NextId() == start + k
        invariant pubmedResults == old(pubmedResults) && arxivResults == old(arxivResults)
      {
        var row := DocumentRow(NextId(), chunks[k]);
        assert NewRows(start, chunks[..k + 1]) == NewRows(start, chunks[..k]) + [row];
        documents := documents + [row];
      }
      assert chunks[..|chunks|] == chunks;
      count := |chunks|;
    }

    /** get_relevant_documents: the stored chunks whose text matches LIKE '%query%', in row order. */
    function RelevantDocuments(query: string): (r: seq<string>)
      reads this
      ensures forall c :: c in r ==> Like(c, "%" + query + "%")
      ensures forall c :: c in r ==> exists i :: 0 <= i < |documents| && documents[i].content == c
      ensures forall i :: 0 <= i < |documents| && Like(documents[i].content, "%" + query + "%") ==> documents[i].content in r
      ensures forall k :: 0 <= k <= |documents| ==> r == Matching(documents[..k], query) + Matching(documents[k..], query)
    {
      MatchingExactly(documents, query);
      MatchingInOrder(documents, query);
      Matching(documents, query)
    }

    /** store_pubmed_results: INSERT OR REPLACE on `pubmed_results`. */
    method StorePubmedResults(query: string, results: seq<string>)
      requires Valid()
      modifies this
      ensures Valid()
      ensures pubmedResults == Upsert(old(pubmedResults), query, results)
      ensures documents == old(documents) && arxivResults == old(arxivResults)
    {
      UpsertUnique(pubmedResults, query, results);
      pubmedResults := Upsert(pubmedResults, query, results);
    }

    /** get_pubmed_results: the stored list for the query, or [] when there is none. */
    function PubmedResults(query: string): (r: seq<string>)
      reads this
      ensures (forall i :: 0 <= i < |pubmedResults| ==> pubmedResults[i].query != query) ==> r == []
      ensures (exists i :: 0 <= i < |pubmedResults| && pubmedResults[i].query == query) ==>
        exists i :: 0 <= i < |pubmedResults| && pubmedResults[i] == ResultRow(query, r)
    {
      Lookup(pubmedResults, query).GetOr([])
    }

    /** store_arxiv_results: INSERT OR REPLACE on `arxiv_results`. */
    method StoreArxivResults(query: string, results: seq<string>)
      requires Valid()
      modifies this
      ensures Valid()
      ensures arxivResults == Upsert(old(arxivResults), query, results)
      ensures documents == old(documents) && pubmedResults == old(pubmedResults)
    {
      UpsertUnique(arxivResults, query, results);
      arxivResults := Upsert(arxivResults, query, results);
    }

    /** get_arxiv_results: the stored list for the query, or [] when there is none. */
    function ArxivResults(query: string): (r: seq<string>)
      reads this
      ensures (forall i :: 0 <= i < |arxivResults| ==> arxivResults[i].query != query) ==> r == []
      ensures (exists i :: 0 <= i < |arxivResults| && arxivResults[i].query == query) ==>
        exists i :: 0 <= i < |arxivResults| && arxivResults[i] == ResultRow(query, r)
    {
      Lookup(arxivResults, query).GetOr([])
    }

    /** clear_all_data: all three tables emptied. */
    method ClearAllData()
      modifies this
      ensures Valid()
      ensures documents == [] && pubmedResults == [] && arxivResults == []
    {
      documents, pubmedResults, arxivResults := [], [], [];
    }

    /** get_all_documents: every row with its id, in id order. */
    function AllDocuments(): (r: seq<DocumentRow>)
      reads this
      requires Valid()
      ensures r == documents
      ensures forall i, j :: 0 <= i < j < |r| ==> r[i].id < r[j].id
    {
      documents
    }

    /** get_all_pubmed_queries: each stored query exactly once. */
    function AllPubmedQueries(): (qs: seq<string>)
      reads this
      requires Valid()
      ensures forall q :: q in qs <==> Lookup(pubmedResults, q).Some?
      ensures forall i, j :: 0 <= i < j < |qs| ==> qs[i] != qs[j]
    {
      Queries(pubmedResults)
    }

    /** get_all_arxiv_queries: each stored query exactly once. */
    function AllArxivQueries(): (qs: seq<string>)
      reads this
      requires Valid()
      ensures forall q :: q in qs <==> Lookup(arxivResults, q).Some?
      ensures forall i, j :: 0 <= i < j < |qs| ==> qs[i] != qs[j]
    {
      Queries(arxivResults)
    }
  }
}
