/** web_scrapers/search_tool.py: saving PubMed abstracts as text files.
    The Entrez search and fetch are network calls: what the fetch would be asked for is
    returned as a value, and the parsed articles are an input. */
module SearchTool {
  import opened Wrappers
  import opened Strings
  import opened SearchToolArxiv

  /** The efetch request fetch_pubmed_details would send: none for an empty id list. */
  datatype Fetch = NoRequest | Request(ids: string)

  /** fetch_pubmed_details: the ids are sent comma-separated, and an empty list sends nothing. */
  function FetchPubmedDetails(idList: seq<string>): (r: Fetch)
    ensures r.NoRequest? <==> |idList| == 0
  {
    if |idList| == 0 then NoRequest else Request(Join(idList, ","))
  }

  /** PubMed ids hold no comma, so the server can split the request back into the list. */
  lemma FetchIdsRoundTrip(idList: seq<string>)
    requires |idList| > 0
    requires forall id :: id in idList ==> ',' !in id
    ensures Split(FetchPubmedDetails(idList).ids, ',') == idList
  {
    SplitJoin(idList, ',');
  }

  /** The text save_abstract writes. */
  function AbstractFileText(title: string, summary: string): string {
    "Title: " + title + "\n\nAbstract:\n" + summary
  }

  /** save_abstract: an empty summary writes nothing; otherwise the file is named after the sanitized title. */
  function SaveAbstract(title: string, summary: string, saveFolder: string): (r: Option<FileWrite<string>>)
    ensures r.Some? <==> summary != ""
    ensures r.Some? ==> r.value.path == PathJoin(saveFolder, Sanitized(title) + ".txt")
    ensures r.Some? ==> r.value.content == AbstractFileText(title, summary)
  {
    if summary == "" then None
    else Some(FileWrite(PathJoin(saveFolder, Sanitized(title) + ".txt"), AbstractFileText(title, summary)))
  }

  /** Reading a saved summary file back: the title line, then everything after the "Abstract:" line. */
  function ParseAbstractFile(content: string): Option<(string, string)> {
    if "Title: " <= content then Partition(content[|"Title: "|..], "\n\nAbstract:\n") else None
  }

  /** A saved file gives back its title and summary whenever the title is a single line. */
  lemma AbstractFileRoundTrip(title: string, summary: string)
    requires '\n' !in title
    ensures ParseAbstractFile(AbstractFileText(title, summary)) == Some((title, summary))
  {
    var sep := "\n\nAbstract:\n";
    var content := AbstractFileText(title, summary);
    var body := title + sep + summary;
    assert content == "Title: " + body;
    assert content[|"Title: "|..] == body;
    assert body[|title|..] == sep + summary;
    forall j | 0 <= j < |title|
      ensures !(sep <= body[j..])
    {
      assert body[j] == title[j];
    }
    FindFirstAt(body, sep, |title|);
    assert body[..|title|] == title;
  }

  /** One parsed article: its title and, when the 'Abstract' key is present, its AbstractText list. */
  datatype Article = Article(title: string, abstractTexts: Option<seq<string>>)

  /** The summary process_pubmed_results takes from an article: '' for a missing key (the KeyError
      it catches), None for an empty AbstractText list (an IndexError it does not catch). */
  function AbstractOf(a: Article): (r: Option<string>)
    ensures r.None? <==> a.abstractTexts == Some([])
  {
    match a.abstractTexts
    case None => Some("")
    case Some(texts) => if |texts| == 0 then None else Some(texts[0])
  }

  /** Whether process_pubmed_results raises on an article. */
  predicate Raises(a: Article) {
    AbstractOf(a).None?
  }

  /** The files process_pubmed_results writes, in order, up to the first article that raises. */
  function Saved(papers: seq<Article>, saveFolder: string): (ws: seq<FileWrite<string>>)
    ensures |ws| <= |papers|
    ensures forall w :: w in ws ==> "Title: " <= w.content
  {
    if |papers| == 0 then []
    else match AbstractOf(papers[0])
      case None => []
      case Some(summary) =>
        match SaveAbstract(papers[0].title, summary, saveFolder)
        case None => Saved(papers[1..], saveFolder)
        case Some(w) => [w] + Saved(papers[1..], saveFolder)
  }

  /** process_pubmed_results: saves each article's summary in turn; `raised` reports the uncaught IndexError. */
  method ProcessPubmedResults(papers: seq<Article>, saveFolder: string) returns (writes: seq<FileWrite<string>>, raised: bool)
    ensures writes == Saved(papers, saveFolder)
    ensures raised <==> exists i :: 0 <= i < |papers| && Raises(papers[i])
  {
    writes := [];
    var i := 0;
    while i < |papers|
      invariant 0 <= i <= |papers|
      invariant Saved(papers, saveFolder) == writes + Saved(papers[i..], saveFolder)
      invariant forall k :: 0 <= k < i ==> !Raises(papers[k])
    {
      var summary := AbstractOf(papers[i]);
      if summary.None? {
        SavedRaises(papers, i, saveFolder);
        return writes, true;
      }
      var step := FileOf(papers[i].title, summary.value, saveFolder);
      SavedFrom(papers, i, saveFolder);
      assert (writes + step) + Saved(papers[i + 1..], saveFolder) == writes + (step + Saved(papers[i + 1..], saveFolder));
      writes := writes + step;
      i := i + 1;
    }
    assert writes + [] == writes;
    raised := false;
  }

  /** The file save_abstract writes for one article, as a list of zero or one writes. */
  function FileOf(title: string, summary: string, saveFolder: string): (ws: seq<FileWrite<string>>)
    ensures |ws| <= 1
  {
    match SaveAbstract(title, summary, saveFolder)
    case None => []
    case Some(w) => [w]
  }

  /** An article that raises ends the writes. */
  lemma SavedRaises(papers: seq<Article>, i: nat, saveFolder: string)
    requires i < |papers| && Raises(papers[i])
    ensures Saved(papers[i..], saveFolder) == []
  {
  }

  /** The files written from an article that does not raise: its own file, if any, then the rest. */
  lemma SavedFrom(papers: seq<Article>, i: nat, saveFolder: string)
    requires i < |papers|
    requires !Raises(papers[i])
    ensures Saved(papers[i..], saveFolder)
      == FileOf(papers[i].title, AbstractOf(papers[i]).value, saveFolder) + Saved(papers[i + 1..], saveFolder)
  {
    assert papers[i..][1..] == papers[i + 1..];
  }

  /** An article without an 'Abstract' key writes no file and does not stop the others. */
  lemma MissingAbstractSkipped(p: Article, rest: seq<Article>, saveFolder: string)
    requires p.abstractTexts.None?
    ensures Saved([p] + rest, saveFolder) == Saved(rest, saveFolder)
  {
    assert ([p] + rest)[1..] == rest;
  }

  /** The (title, abstract) pairs of the articles whose abstract is non-empty, in order. */
  function TitledAbstracts(papers: seq<Article>): (r: seq<(string, string)>)
    ensures |r| <= |papers|
    ensures forall e :: e in r ==> e.1 != ""
  {
    if |papers| == 0 then []
    else
      var summary := AbstractOf(papers[0]);
      if summary.Some? && summary.value != "" then [(papers[0].title, summary.value)] + TitledAbstracts(papers[1..])
      else TitledAbstracts(papers[1..])
  }

  /** One file per (title, abstract) pair, named after the title and holding both. */
  function FilesFor(entries: seq<(string, string)>, saveFolder: string): (ws: seq<FileWrite<string>>)
    ensures |ws| == |entries|
  {
    if |entries| == 0 then []
    else
      var (title, summary) := entries[0];
      [FileWrite(PathJoin(saveFolder, Sanitized(title) + ".txt"), AbstractFileText(title, summary))]
        + FilesFor(entries[1..], saveFolder)
  }

  /** Without an empty AbstractText list, each article with a non-empty abstract gets its own
      file, in order, holding its title and first abstract text; no other file is written. */
  lemma {:induction false} SavedAreTheAbstracts(papers: seq<Article>, saveFolder: string)
    requires forall i :: 0 <= i < |papers| ==> !Raises(papers[i])
    ensures Saved(papers, saveFolder) == FilesFor(TitledAbstracts(papers), saveFolder)
  {
    if |papers| > 0 {
      assert !Raises(papers[0]);
      SavedAreTheAbstracts(papers[1..], saveFolder);
      var entries := TitledAbstracts(papers);
      if AbstractOf(papers[0]) != Some("") {
        assert entries[1..] == TitledAbstracts(papers[1..]);
      }
    }
  }
}
