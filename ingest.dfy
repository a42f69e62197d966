/** src/agent/ingest.py: the three vector stores the agent retrieves from.
    Each store sits in a slot that starts empty. The Wiki and ArXiv stores are built on first use and
    reused afterwards, and the Custom store is rebuilt on every upload. Web loading, PDF download and
    text extraction, the text splitters and the embedding model are foreign: they are function parameters,
    and a store is modelled as its collection name and the chunks it was built from. */
module Ingest {
  import opened Wrappers
  import opened Strings

  /** A LangChain Document: its text and the `source` entry of its metadata, when there is one. */
  datatype Document = Document(pageContent: string, source: Option<string>)

  /** One uploaded document: a dict with "title" and "text". */
  datatype Upload = Upload(title: string, text: string)

  /** A Chroma collection: its name and the chunks embedded into it. */
  datatype Store = Store(collection: string, documents: seq<Document>)

  /** The three slots get_retriever can answer from. */
  datatype Slot = WikiSlot | ArxivSlot | CustomSlot

  const WikiUrls: seq<string> := [
    "https://en.wikipedia.org/wiki/Carbon_monoxide",
    "https://en.wikipedia.org/wiki/Nylon_66",
    "https://en.wikipedia.org/wiki/Oxygen",
    "https://en.wikipedia.org/wiki/Nitrogen"
  ]

  const ArxivUrls: seq<string> := [
    "https://arxiv.org/pdf/2306.07377v1.pdf",
    "https://arxiv.org/pdf/2306.10577v1.pdf"
  ]

  /** The folder the ArXiv PDFs are downloaded into. */
  const PdfDir: string := "data"

  const CustomMissing: string := "Custom vectorstore is not initialized. Please upload documents to create a custom vectorstore."
  const InvalidChoice: string := "Invalid vector database choice"

  /** The decimal digits of `n`, as an f-string prints it. */
  function Decimal(n: nat): (s: string)
    ensures |s| > 0
    ensures n < 10 <==> |s| == 1
  {
    if n < 10 then [('0' as int + n) as char]
    else Decimal(n / 10) + [('0' as int + n % 10) as char]
  }

  /** Different numbers print differently. */
  lemma {:induction false} DecimalInjective(a: nat, b: nat)
    requires Decimal(a) == Decimal(b)
    ensures a == b
  {
    if a >= 10 && b >= 10 {
      var da, db := Decimal(a), Decimal(b);
      assert da[..|da| - 1] == Decimal(a / 10);
      assert db[..|db| - 1] == Decimal(b / 10);
      DecimalInjective(a / 10, b / 10);
      assert da[|da| - 1] == db[|db| - 1];
    }
  }

  /** The title the i-th ArXiv paper is given (counting from 0). */
  function ArxivTitle(i: nat): string {
    "ArXiv Paper " + Decimal(i + 1)
  }

  /** Where the i-th ArXiv PDF is downloaded to. */
  function ArxivPdfPath(i: nat): string {
    PathJoin(PdfDir, "arxiv_paper_" + Decimal(i + 1) + ".pdf")
  }

  /** Papers with different positions carry different titles, so every chunk's source names one paper. */
  lemma ArxivTitlesDistinct(i: nat, j: nat)
    requires i != j
    ensures ArxivTitle(i) != ArxivTitle(j)
  {
    if ArxivTitle(i) == ArxivTitle(j) {
      var p := "ArXiv Paper ";
      assert ArxivTitle(i)[|p|..] == Decimal(i + 1);
      assert ArxivTitle(j)[|p|..] == Decimal(j + 1);
      DecimalInjective(i + 1, j + 1);
    }
  }

  /** The Documents create_custom_vectorstore builds from the uploads, before splitting. */
  function ToDocuments(uploads: seq<Upload>): (docs: seq<Document>)
    ensures |docs| == |uploads|
  {
    if |uploads| == 0 then []
    else [Document(uploads[0].text, Some(uploads[0].title))] + ToDocuments(uploads[1..])
  }

  /** Each upload becomes one Document, in order, holding its text and naming its title as source. */
  lemma {:induction false} ToDocumentsPointwise(uploads: seq<Upload>)
    ensures forall i :: 0 <= i < |uploads| ==>
      ToDocuments(uploads)[i].pageContent == uploads[i].text && ToDocuments(uploads)[i].source == Some(uploads[i].title)
  {
    if |uploads| > 0 {
      ToDocumentsPointwise(uploads[1..]);
    }
  }

  /** One Document per chunk of a paper, each naming the paper as its source. */
  function ChunkDocuments(title: string, chunks: seq<string>): (docs: seq<Document>)
    ensures |docs| == |chunks|
    ensures forall k :: 0 <= k < |docs| ==> docs[k] == Document(chunks[k], Some(title))
  {
    seq(|chunks|, k requires 0 <= k < |chunks| => Document(chunks[k], Some(title)))
  }

  /** The ArXiv papers, numbered from 1, with the text extracted from each downloaded PDF. */
  function ArxivPapers(count: nat, extract: string -> string): (papers: seq<Upload>)
    ensures |papers| == count
    ensures forall i :: 0 <= i < count ==> papers[i] == Upload(ArxivTitle(i), extract(ArxivPdfPath(i)))
  {
    if count == 0 then []
    else ArxivPapers(count - 1, extract) + [Upload(ArxivTitle(count - 1), extract(ArxivPdfPath(count - 1)))]
  }

  /** The chunks of every paper in turn. */
  function ArxivChunks(papers: seq<Upload>, splitText: string -> seq<string>): seq<Document> {
    if |papers| == 0 then []
    else
      var last := papers[|papers| - 1];
      ArxivChunks(papers[..|papers| - 1], splitText) + ChunkDocuments(last.title, splitText(last.text))
  }

  /** Every chunk comes from the text of one paper and names that paper as its source. */
  lemma {:induction false} ArxivChunksFromPapers(papers: seq<Upload>, splitText: string -> seq<string>)
    ensures forall d :: d in ArxivChunks(papers, splitText) ==>
      exists p :: p in papers && d.source == Some(p.title) && d.pageContent in splitText(p.text)
  {
    if |papers| > 0 {
      var init := papers[..|papers| - 1];
      var last := papers[|papers| - 1];
      ArxivChunksFromPapers(init, splitText);
      forall d | d in ArxivChunks(papers, splitText)
        ensures exists p :: p in papers && d.source == Some(p.title) && d.pageContent in splitText(p.text)
      {
        if d in ArxivChunks(init, splitText) {
          var p :| p in init && d.source == Some(p.title) && d.pageContent in splitText(p.text);
          assert p in papers;
        } else {
          var chunks := ChunkDocuments(last.title, splitText(last.text));
          assert d in chunks;
          var k :| 0 <= k < |chunks| && chunks[k] == d;
          assert d.pageContent == splitText(last.text)[k];
        }
      }
    }
  }

  /** The documents the web loader returns for each URL, in URL order. */
  function WikiLoaded(urls: seq<string>, load: string -> seq<Document>): seq<Document> {
    if |urls| == 0 then [] else WikiLoaded(urls[..|urls| - 1], load) + load(urls[|urls| - 1])
  }

  /** The store create_wiki_vectorstore builds. */
  function WikiStore(load: string -> seq<Document>, splitDocuments: seq<Document> -> seq<Document>): Store {
    Store("wiki-chroma", splitDocuments(WikiLoaded(WikiUrls, load)))
  }

  /** The store create_arxiv_vectorstore builds. */
  function ArxivStore(extract: string -> string, splitText: string -> seq<string>): Store {
    Store("arxiv-chroma", ArxivChunks(ArxivPapers(|ArxivUrls|, extract), splitText))
  }

  /** The store create_custom_vectorstore builds. */
  function CustomStore(docsList: seq<Upload>, splitDocuments: seq<Document> -> seq<Document>): Store {
    Store("custom-chroma", splitDocuments(ToDocuments(docsList)))
  }

  /** get_retriever's dispatch on the choice: which slot answers, or the ValueError raised. */
  function RetrieverChoice(choice: string, customBuilt: bool): (r: Result<Slot>)
    ensures r.Ok? <==> choice == "Wiki" || choice == "ArXiv" || (choice == "Custom" && customBuilt)
    ensures r == Ok(WikiSlot) <==> choice == "Wiki"
    ensures r == Ok(ArxivSlot) <==> choice == "ArXiv"
    ensures r == Ok(CustomSlot) <==> choice == "Custom" && customBuilt
    ensures r.Err? ==> r.error == (if choice == "Custom" then CustomMissing else InvalidChoice)
  {
    if choice == "Wiki" then Ok(WikiSlot)
    else if choice == "ArXiv" then Ok(ArxivSlot)
    else if choice == "Custom" then (if customBuilt then Ok(CustomSlot) else Err(CustomMissing))
    else Err(InvalidChoice)
  }

  /** The module's three global store slots. */
  class VectorStores {
    var wiki: Option<Store>
    var arxiv: Option<Store>
    var custom: Option<Store>

    /** At import all three slots are None. */
    constructor ()
      ensures wiki.None? && arxiv.None? && custom.None?
    {
      wiki, arxiv, custom := None, None, None;
    }

    /** create_custom_vectorstore: always builds a new store from the uploads and puts it in the
        Custom slot, replacing any earlier one; the other slots are untouched. */
    method CreateCustomVectorstore(docsList: seq<Upload>, splitDocuments: seq<Document> -> seq<Document>)
      returns (store: Store)
      modifies this
      ensures store == CustomStore(docsList, splitDocuments)
      ensures custom == Some(store)
      ensures wiki == old(wiki) && arxiv == old(arxiv)
    {
      var documents := [];
      for i := 0 to |docsList|
        invariant documents == ToDocuments(docsList[..i])
        invariant wiki == old(wiki) && arxiv == old(arxiv)
      {
        AppendDocument(docsList, i);
        documents := documents + [Document(docsList[i].text, Some(docsList[i].title))];
      }
      assert docsList[..|docsList|] == docsList;
      store := Store("custom-chroma", splitDocuments(documents));
      custom := Some(store);
    }

    /** create_arxiv_vectorstore: a filled slot is returned as it is, with nothing downloaded; an empty
        one gets the store built from both PDFs, after downloading them to their paths in order.
        `raised` is the exception one of the external calls (a download, a PDF extraction, the
        embedding) raises, if any: it propagates, after at most the planned downloads, and the slot stays empty. */
    method CreateArxivVectorstore(extract: string -> string, splitText: string -> seq<string>, raised: Option<string>)
      returns (r: Result<Store>, downloads: seq<(string, string)>)
      modifies this
      ensures old(arxiv).Some? ==> r == Ok(old(arxiv).value) && downloads == [] && arxiv == old(arxiv)
      ensures old(arxiv).None? && raised.None? ==>
        r == Ok(ArxivStore(extract, splitText)) && arxiv == Some(r.value) && |downloads| == |ArxivUrls|
      ensures old(arxiv).None? && raised.Some? ==> r == Err(raised.value) && arxiv.None?
      ensures |downloads| <= |ArxivUrls|
      ensures forall i :: 0 <= i < |downloads| ==> downloads[i] == (ArxivUrls[i], ArxivPdfPath(i))
      ensures wiki == old(wiki) && custom == old(custom)
    {
      if arxiv.Some? {
        return Ok(arxiv.value), [];
      }
      var docs := [];
      downloads := [];
      for i := 0 to |ArxivUrls|
        invariant docs == ArxivPapers(i, extract)
        invariant arxiv.None? && wiki == old(wiki) && custom == old(custom)
        invariant |downloads| == i
        invariant forall k :: 0 <= k < i ==> downloads[k] == (ArxivUrls[k], ArxivPdfPath(k))
      {
        var pdfFilename := ArxivPdfPath(i);
        downloads := downloads + [(ArxivUrls[i], pdfFilename)];
        docs := docs + [Upload(ArxivTitle(i), extract(pdfFilename))];
      }
      if raised.Some? {
        return Err(raised.value), downloads;
      }
      var documents := SplitPapers(docs, splitText);
      var store := Store("arxiv-chroma", documents);
      arxiv := Some(store);
      r := Ok(store);
    }

    /** The splitting loop of create_arxiv_vectorstore: every paper's chunks in turn, each chunk a
        Document naming its paper as the source. */
    static method SplitPapers(docs: seq<Upload>, splitText: string -> seq<string>) returns (documents: seq<Document>)
      ensures documents == ArxivChunks(docs, splitText)
    {
      documents := [];
      for d := 0 to |docs|
        invariant documents == ArxivChunks(docs[..d], splitText)
      {
        var splits := splitText(docs[d].text);
        ghost var before := documents;
        for k := 0 to |splits|
          invariant documents == before + ChunkDocuments(docs[d].title, splits[..k])
        {
          ChunkDocumentsStep(docs[d].title, splits, k);
          documents := documents + [Document(splits[k], Some(docs[d].title))];
        }
        assert splits[..|splits|] == splits;
        ArxivChunksStep(docs, d, splitText);
      }
      assert docs[..|docs|] == docs;
    }

    /** create_wiki_vectorstore: a filled slot is returned as it is; an empty one gets the store built
        from the pages of the four URLs, loaded in order. `raised` is the exception a page load or the
        embedding raises, if any: it propagates and the slot stays empty. */
    method CreateWikiVectorstore(load: string -> seq<Document>, splitDocuments: seq<Document> -> seq<Document>,
                                 raised: Option<string>)
      returns (r: Result<Store>)
      modifies this
      ensures old(wiki).Some? ==> r == Ok(old(wiki).value) && wiki == old(wiki)
      ensures old(wiki).None? && raised.None? ==> r == Ok(WikiStore(load, splitDocuments)) && wiki == Some(r.value)
      ensures old(wiki).None? && raised.Some? ==> r == Err(raised.value) && wiki.None?
      ensures arxiv == old(arxiv) && custom == old(custom)
    {
      if wiki.Some? {
        return Ok(wiki.value);
      }
      var docs := [];
      for u := 0 to |WikiUrls|
        invariant docs == WikiLoaded(WikiUrls[..u], load)
        invariant wiki.None? && arxiv == old(arxiv) && custom == old(custom)
      {
        var loadedDocs := load(WikiUrls[u]);
        ghost var before := docs;
        for k := 0 to |loadedDocs|
          invariant docs == before + loadedDocs[..k]
          invariant wiki.None? && arxiv == old(arxiv) && custom == old(custom)
        {
          docs := docs + [loadedDocs[k]];
        }
        assert loadedDocs[..|loadedDocs|] == loadedDocs;
        assert WikiUrls[..u + 1][..u] == WikiUrls[..u];
      }
      if raised.Some? {
        return Err(raised.value);
      }
      assert WikiUrls[..|WikiUrls|] == WikiUrls;
      var store := Store("wiki-chroma", splitDocuments(docs));
      wiki := Some(store);
      r := Ok(store);
    }

    /** get_retriever: the store behind the chosen retriever, building the Wiki or ArXiv store on first
        use, or the ValueError for an unbuilt Custom store or an unknown choice, with no slot changed.
        An exception raised while building (`raised`) propagates and leaves every slot as it was. */
    method GetRetriever(choice: string, load: string -> seq<Document>, extract: string -> string,
                        splitText: string -> seq<string>, splitDocuments: seq<Document> -> seq<Document>,
                        raised: Option<string>)
      returns (r: Result<Store>)
      modifies this
      ensures RetrieverChoice(choice, old(custom).Some?).Err? ==> (r == Err(RetrieverChoice(choice, old(custom).Some?).error)
        && wiki == old(wiki) && arxiv == old(arxiv) && custom == old(custom))
      ensures choice == "Wiki" && old(wiki).Some? ==> (r == Ok(old(wiki).value)
        && wiki == old(wiki) && arxiv == old(arxiv) && custom == old(custom))
      ensures choice == "Wiki" && old(wiki).None? && raised.None? ==> (r == Ok(WikiStore(load, splitDocuments))
        && wiki == Some(r.value) && arxiv == old(arxiv) && custom == old(custom))
      ensures choice == "ArXiv" && old(arxiv).Some? ==> (r == Ok(old(arxiv).value)
        && wiki == old(wiki) && arxiv == old(arxiv) && custom == old(custom))
      ensures choice == "ArXiv" && old(arxiv).None? && raised.None? ==> (r == Ok(ArxivStore(extract, splitText))
        && arxiv == Some(r.value) && wiki == old(wiki) && custom == old(custom))
      ensures ((choice == "Wiki" && old(wiki).None?) || (choice == "ArXiv" && old(arxiv).None?)) && raised.Some? ==>
        (r == Err(raised.value) && wiki == old(wiki) && arxiv == old(arxiv) && custom == old(custom))
      ensures choice == "Custom" && old(custom).Some? ==> (r == Ok(old(custom).value)
        && wiki == old(wiki) && arxiv == old(arxiv) && custom == old(custom))
    {
      match RetrieverChoice(choice, custom.Some?)
      case Err(e) =>
        return Err(e);
      case Ok(WikiSlot) =>
        r := CreateWikiVectorstore(load, splitDocuments, raised);
      case Ok(ArxivSlot) =>
        var downloads;
        r, downloads := CreateArxivVectorstore(extract, splitText, raised);
      case Ok(CustomSlot) =>
        return Ok(custom.value);
    }

    /** create_all_vectorstores: get_retriever for Wiki, ArXiv and Custom in turn, stopping at the first
        exception, which is returned. As written, the Custom call is made even when no upload has built
        that store, so it raises; corrected (`asWritten` false), it is made only when the store exists. */
    method CreateAllVectorstores(load: string -> seq<Document>, extract: string -> string,
                                 splitText: string -> seq<string>, splitDocuments: seq<Document> -> seq<Document>,
                                 raised: Option<string>, asWritten: bool)
      returns (failure: Option<string>)
      modifies this
      ensures custom == old(custom)
      ensures raised.None? ==>
        wiki == (if old(wiki).Some? then old(wiki) else Some(WikiStore(load, splitDocuments)))
        && arxiv == (if old(arxiv).Some? then old(arxiv) else Some(ArxivStore(extract, splitText)))
      ensures raised.None? ==> (failure.Some? <==> asWritten && old(custom).None?)
      ensures raised.None? && failure.Some? ==> failure == Some(CustomMissing)
      ensures old(wiki).None? && raised.Some? ==> failure == raised && wiki.None? && arxiv == old(arxiv)
    {
      var r := GetRetriever("Wiki", load, extract, splitText, splitDocuments, raised);
      if r.Err? {
        return Some(r.error);
      }
      r := GetRetriever("ArXiv", load, extract, splitText, splitDocuments, raised);
      if r.Err? {
        return Some(r.error);
      }
      if asWritten || custom.Some? {
        r := GetRetriever("Custom", load, extract, splitText, splitDocuments, raised);
        if r.Err? {
          return Some(r.error);
        }
      }
      return None;
    }

    /** The call made when the workflow module is imported, on the fresh slots: as written it raises
        the Custom ValueError, even when both stores build. */
    static method StartupRaisesAsWritten(load: string -> seq<Document>, extract: string -> string,
                                         splitText: string -> seq<string>, splitDocuments: seq<Document> -> seq<Document>)
      returns (failure: Option<string>)
      ensures failure == Some(CustomMissing)
    {
      var stores := new VectorStores();
      failure := stores.CreateAllVectorstores(load, extract, splitText, splitDocuments, None, true);
    }

    /** Corrected, the same startup succeeds and leaves the Wiki and ArXiv stores built and Custom empty. */
    static method StartupSucceedsCorrected(load: string -> seq<Document>, extract: string -> string,
                                           splitText: string -> seq<string>, splitDocuments: seq<Document> -> seq<Document>)
      returns (failure: Option<string>, stores: VectorStores)
      ensures failure.None?
      ensures stores.wiki == Some(WikiStore(load, splitDocuments))
      ensures stores.arxiv == Some(ArxivStore(extract, splitText))
      ensures stores.custom.None?
    {
      stores := new VectorStores();
      failure := stores.CreateAllVectorstores(load, extract, splitText, splitDocuments, None, false);
    }
  }

  /** The chunk Documents of a prefix of the chunks, extended by one. */
  lemma ChunkDocumentsStep(title: string, chunks: seq<string>, k: nat)
    requires k < |chunks|
    ensures ChunkDocuments(title, chunks[..k + 1]) == ChunkDocuments(title, chunks[..k]) + [Document(chunks[k], Some(title))]
  {
  }

  /** The chunks of a prefix of the papers, extended by one paper. */
  lemma ArxivChunksStep(papers: seq<Upload>, d: nat, splitText: string -> seq<string>)
    requires d < |papers|
    ensures ArxivChunks(papers[..d + 1], splitText)
      == ArxivChunks(papers[..d], splitText) + ChunkDocuments(papers[d].title, splitText(papers[d].text))
  {
    assert papers[..d + 1][..d] == papers[..d];
  }

  /** The Documents of a prefix of the uploads, extended by one. */
  lemma AppendDocument(uploads: seq<Upload>, i: nat)
    requires i < |uploads|
    ensures ToDocuments(uploads[..i + 1]) == ToDocuments(uploads[..i]) + [Document(uploads[i].text, Some(uploads[i].title))]
  {
    ToDocumentsAppend(uploads[..i], [uploads[i]]);
    assert uploads[..i + 1] == uploads[..i] + [uploads[i]];
  }

  /** Converting uploads works upload by upload. */
  lemma {:induction false} ToDocumentsAppend(a: seq<Upload>, b: seq<Upload>)
    ensures ToDocuments(a + b) == ToDocuments(a) + ToDocuments(b)
  {
    if |a| == 0 {
      assert a + b == b;
    } else {
      assert (a + b)[1..] == a[1..] + b;
      ToDocumentsAppend(a[1..], b);
    }
  }
}
