/** src/agent/graph.py: the step functions of the question-answering workflow.
    The graph state is a dict; every key is an Option here, None when the key is absent.
    The LLM graders, the generator and the three search tools are foreign: what each call returns
    (or that it raised) is an input. How LangGraph wires the nodes together is not part of this model. */
module Graph {
  import opened Wrappers
  import opened Strings
  import opened Ingest

  /** A JSON value as the JSON output parser returns it; arrays and objects are lumped together. */
  datatype Json = JString(s: string) | JNumber(n: real) | JBool(b: bool) | JNull | JComposite

  /** One call of a JSON grader: the exception it raised, or the "score" entry of its reply (None when absent). */
  datatype GraderReply = GraderRaised(reason: string) | Scored(score: Option<Json>)

  /** The graph state dict. */
  datatype State = State(
    question: Option<string>,
    generation: Option<string>,
    documents: Option<seq<Document>>,
    needUserInput: Option<bool>,
    options: Option<seq<string>>,
    selectedTool: Option<string>,
    message: Option<string>,
    search: Option<string>,
    vectorDbChoice: Option<string>,
    error: Option<string>)

  /** A dict holding no key. */
  const EmptyState: State := State(None, None, None, None, None, None, None, None, None, None)

  /** `grade in ["yes", 1, "1"]`: Python's == makes True and 1.0 equal to 1 as well. */
  predicate AcceptedGrade(g: Json) {
    g == JString("yes") || g == JString("1") || g == JNumber(1.0) || g == JBool(true)
  }

  /** The relevance grader kept the document: it answered, and its score (0 when missing) is accepted. */
  predicate Relevant(reply: GraderReply) {
    reply.Scored? && AcceptedGrade(reply.score.GetOr(JNumber(0.0)))
  }

  /** The documents the relevance grader keeps, in their order; `grades[i]` is the reply graded for `docs[i]`
      (one grader call per document, so the same document may be graded differently at two positions). */
  function Filtered(docs: seq<Document>, grades: seq<GraderReply>): (kept: seq<Document>)
    requires |grades| == |docs|
    ensures |kept| <= |docs|
  {
    if |docs| == 0 then []
    else
      var n := |docs| - 1;
      Filtered(docs[..n], grades[..n]) + (if Relevant(grades[n]) then [docs[n]] else [])
  }

  /** A document is kept exactly when it stands at a position whose relevance grade was accepted. */
  lemma {:induction false} FilteredExactly(docs: seq<Document>, grades: seq<GraderReply>)
    requires |grades| == |docs|
    ensures forall d :: d in Filtered(docs, grades) <==>
      exists i :: 0 <= i < |docs| && docs[i] == d && Relevant(grades[i])
  {
    if |docs| > 0 {
      var n := |docs| - 1;
      FilteredExactly(docs[..n], grades[..n]);
      forall d | d in Filtered(docs, grades)
        ensures exists i :: 0 <= i < |docs| && docs[i] == d && Relevant(grades[i])
      {
        if d in Filtered(docs[..n], grades[..n]) {
          var i :| 0 <= i < n && docs[..n][i] == d && Relevant(grades[..n][i]);
          assert docs[i] == d && Relevant(grades[i]);
        } else {
          assert docs[n] == d && Relevant(grades[n]);
        }
      }
      forall d | exists i :: 0 <= i < |docs| && docs[i] == d && Relevant(grades[i])
        ensures d in Filtered(docs, grades)
      {
        var i :| 0 <= i < |docs| && docs[i] == d && Relevant(grades[i]);
        if i < n {
          assert docs[..n][i] == d && Relevant(grades[..n][i]);
        }
      }
    }
  }

  /** One document: kept exactly when its grade was accepted. */
  lemma FilteredSingle(d: Document, g: GraderReply)
    ensures Filtered([d], [g]) == if Relevant(g) then [d] else []
  {
    assert [d][..0] == [];
  }

  /** Grading works document by document, in order: filtering distributes over concatenation. */
  lemma {:induction false} FilteredAppend(a: seq<Document>, ga: seq<GraderReply>, b: seq<Document>, gb: seq<GraderReply>)
    requires |ga| == |a| && |gb| == |b|
    ensures Filtered(a + b, ga + gb) == Filtered(a, ga) + Filtered(b, gb)
  {
    if |b| == 0 {
      assert a + b == a && ga + gb == ga;
    } else {
      var n := |b| - 1;
      var ab, gab := a + b, ga + gb;
      assert ab[..|ab| - 1] == a + b[..n];
      assert gab[..|gab| - 1] == ga + gb[..n];
      assert ab[|ab| - 1] == b[n] && gab[|gab| - 1] == gb[n];
      FilteredAppend(a, ga, b[..n], gb[..n]);
      FilteredStep(ab, gab);
      FilteredStep(b, gb);
    }
  }

  lemma FilteredStep(docs: seq<Document>, grades: seq<GraderReply>)
    requires |grades| == |docs| > 0
    ensures Filtered(docs, grades) == Filtered(docs[..|docs| - 1], grades[..|docs| - 1])
      + (if Relevant(grades[|docs| - 1]) then [docs[|docs| - 1]] else [])
  {
  }

  /** A grader exception drops that one document, and the documents after it are graded as usual. */
  lemma GraderErrorDropsOnlyThatDocument(a: seq<Document>, ga: seq<GraderReply>, d: Document, g: GraderReply,
                                         b: seq<Document>, gb: seq<GraderReply>)
    requires |ga| == |a| && |gb| == |b|
    requires g.GraderRaised?
    ensures Filtered(a + [d] + b, ga + [g] + gb) == Filtered(a, ga) + Filtered(b, gb)
  {
    var ad, gad := a + [d], ga + [g];
    FilteredAppend(ad, gad, b, gb);
    FilteredAppend(a, ga, [d], [g]);
    FilteredSingle(d, g);
    assert Filtered(ad, gad) == Filtered(a, ga);
  }

  /** The state grade_documents leaves: the kept documents, and "Yes" for a search when none was kept. */
  function GradedState(state: State, grades: seq<GraderReply>): State
    requires |grades| == |state.documents.GetOr([])|
  {
    var kept := Filtered(state.documents.GetOr([]), grades);
    state.(documents := Some(kept), search := Some(if |kept| == 0 then "Yes" else "No"))
  }

  /** grade_documents: one grader call per document, in order, keeping the accepted ones;
      `grades` are the relevance replies in call order. */
  method GradeDocuments(state: State, grades: seq<GraderReply>) returns (r: State)
    requires |grades| == |state.documents.GetOr([])|
    ensures r == GradedState(state, grades)
  {
    var documents := state.documents.GetOr([]);
    var filteredDocs := [];
    var search := "No";
    if |documents| == 0 {
      search := "Yes";
    } else {
      for i := 0 to |documents|
        invariant filteredDocs == Filtered(documents[..i], grades[..i])
      {
        assert documents[..i + 1][..i] == documents[..i];
        assert grades[..i + 1][..i] == grades[..i];
        var reply := grades[i];
        if Relevant(reply) {
          filteredDocs := filteredDocs + [documents[i]];
        }
      }
      assert documents[..|documents|] == documents;
      assert grades[..|grades|] == grades;
      if |filteredDocs| == 0 {
        search := "Yes";
      }
    }
    r := state.(documents := Some(filteredDocs), search := Some(search));
  }

  /** decide_to_generate: web search when the grading asked for it, generation otherwise (the default is "No"). */
  function DecideToGenerate(state: State): (route: string)
    ensures route == "websearch" || route == "generate"
    ensures route == "websearch" <==> state.search == Some("Yes")
  {
    if state.search.GetOr("No") == "Yes" then "websearch" else "generate"
  }

  /** After grading, the workflow searches the web exactly when no document received an accepted relevance grade,
      which includes the case of no retrieved documents at all. */
  lemma RouteAfterGrading(state: State, grades: seq<GraderReply>)
    requires |grades| == |state.documents.GetOr([])|
    ensures DecideToGenerate(GradedState(state, grades)) == "websearch"
      <==> forall i :: 0 <= i < |grades| ==> !Relevant(grades[i])
  {
    var docs := state.documents.GetOr([]);
    FilteredExactly(docs, grades);
    var kept := Filtered(docs, grades);
    if |kept| > 0 {
      assert kept[0] in kept;
    } else {
      forall i | 0 <= i < |grades| ensures !Relevant(grades[i]) {
        assert docs[i] !in kept;
      }
    }
  }


  /** What the Tavily client returned: an exception, something other than a list, or a list of
      results with their "content" entry (None when the entry is missing). */
  datatype TavilyResponse = TavilyRaised | TavilyNotAList | TavilyResults(contents: seq<Option<string>>)

  /** A result's content, or the placeholder for a missing one. */
  function ContentOf(content: Option<string>): string {
    content.GetOr("No content available")
  }

  /** The contents of the results, in order. */
  function Contents(results: seq<Option<string>>): (cs: seq<string>)
    ensures |cs| == |results|
    ensures forall i :: 0 <= i < |results| ==> cs[i] == ContentOf(results[i])
  {
    seq(|results|, i requires 0 <= i < |results| => ContentOf(results[i]))
  }

  /** A join of two or more parts is never empty: it holds a separator. */
  lemma JoinOfSeveral(parts: seq<string>, sep: string)
    requires |parts| >= 2 && |sep| > 0
    ensures |Join(parts, sep)| >= |sep|
  {
  }

  /** search_tavily: the contents of a non-empty result list joined by newlines, or None when the call
      raised, the reply is not a non-empty list, or the joined text is empty. */
  function SearchTavily(response: TavilyResponse): (r: Option<string>)
    ensures r.Some? ==> r.value != ""
    ensures r.Some? <==> (response.TavilyResults? &&
      (|response.contents| >= 2 || (|response.contents| == 1 && ContentOf(response.contents[0]) != "")))
  {
    match response
    case TavilyResults(results) =>
      if |results| == 0 then None
      else
        var combined := Join(Contents(results), "\n");
        if |results| >= 2 then JoinOfSeveral(Contents(results), "\n"); Some(combined)
        else if combined != "" then Some(combined)
        else None
    case _ => None
  }

  /** The combined Tavily text splits back into the result contents when none of them holds a newline. */
  lemma TavilyRoundTrip(results: seq<Option<string>>)
    requires |results| >= 2
    requires forall i :: 0 <= i < |results| ==> '\n' !in ContentOf(results[i])
    ensures Split(SearchTavily(TavilyResults(results)).value, '\n') == Contents(results)
  {
    SplitJoin(Contents(results), '\n');
  }

  /** The text of one ArXiv result, from its title and summary. */
  function ArxivEntry(result: (string, string)): string {
    "Title: " + result.0 + "\nSummary: " + result.1
  }

  /** The ArXiv results joined into one document text, each result as a title line and a summary. */
  function ArxivText(results: seq<(string, string)>): (text: string)
    ensures |results| == 1 ==> text == ArxivEntry(results[0])
  {
    Join(ArxivEntries(results), "\n")
  }

  function ArxivEntries(results: seq<(string, string)>): (entries: seq<string>)
    ensures |entries| == |results|
  {
    seq(|results|, i requires 0 <= i < |results| => ArxivEntry(results[i]))
  }

  /** The text of several results is the texts of its parts, one line break apart. */
  lemma ArxivTextAppend(a: seq<(string, string)>, b: seq<(string, string)>)
    requires |a| > 0 && |b| > 0
    ensures ArxivText(a + b) == ArxivText(a) + "\n" + ArxivText(b)
  {
    assert ArxivEntries(a + b) == ArxivEntries(a) + ArxivEntries(b);
    JoinAppend(ArxivEntries(a), ArxivEntries(b), "\n");
  }

  /** The message web_search leaves when the chosen tool found nothing. */
  function NoResultMessage(tool: string): string {
    tool + " did not yield any useful results."
  }

  /** The tools the user may choose between when the search pauses. */
  const ToolOptions: seq<string> := ["Tavily", "Arxiv", "Wikipedia"]

  /** web_search: without a chosen tool it pauses and offers the options, calling no tool. With one it
      calls only that tool; a result is appended to the documents as one new Document without source,
      and no result leaves the documents as they were (the later write-back of the local list undoes
      the reset to []) and sets a message. An unknown tool sets the error. `called` lists the tools called. */
  method WebSearch(state: State, tavily: TavilyResponse, arxiv: Option<seq<(string, string)>>, wikipedia: Option<string>)
    returns (r: State, called: seq<string>)
    ensures state.selectedTool.GetOr("") == "" ==>
      r == state.(needUserInput := Some(true), options := Some(ToolOptions)) && called == []
    ensures state.selectedTool.GetOr("") != "" ==> (
      var tool, prior := state.selectedTool.value, state.documents.GetOr([]);
      var found :=
        if tool == "Tavily" then (match SearchTavily(tavily) case Some(t) => Some(t) case None => None)
        else if tool == "Arxiv" then (if arxiv.Some? && arxiv.value != [] then Some(ArxivText(arxiv.value)) else None)
        else if tool == "Wikipedia" then (if wikipedia.Some? && wikipedia.value != "" then wikipedia else None)
        else None;
      var known := tool == "Tavily" || tool == "Arxiv" || tool == "Wikipedia";
      && called == (if known then [tool] else [])
      && r.needUserInput == Some(false)
      && r.documents == Some(if found.Some? then prior + [Document(found.value, None)] else prior)
      && r.message == (if known && found.None? then Some(NoResultMessage(tool)) else state.message)
      && r.error == (if known then state.error else Some("Invalid selected tool: " + tool))
      && r.(needUserInput := state.needUserInput, documents := state.documents, message := state.message, error := state.error) == state)
  {
    var documents := state.documents.GetOr([]);
    r := state;
    if state.selectedTool.GetOr("") == "" {
      r := r.(needUserInput := Some(true), options := Some(ToolOptions));
      return r, [];
    }
    var selectedTool := state.selectedTool.value;
    r := r.(needUserInput := Some(false));
    called := [];
    if selectedTool == "Tavily" {
      called := [selectedTool];
      var tavilyResponse := SearchTavily(tavily);
      if tavilyResponse.Some? {
        documents := documents + [Document(tavilyResponse.value, None)];
      } else {
        r := r.(documents := Some([]), message := Some(NoResultMessage(selectedTool)));
      }
    } else if selectedTool == "Arxiv" {
      called := [selectedTool];
      if arxiv.Some? && arxiv.value != [] {
        documents := documents + [Document(ArxivText(arxiv.value), None)];
      } else {
        r := r.(documents := Some([]), message := Some(NoResultMessage(selectedTool)));
      }
    } else if selectedTool == "Wikipedia" {
      called := [selectedTool];
      if wikipedia.Some? && wikipedia.value != "" {
        documents := documents + [Document(wikipedia.value, None)];
      } else {
        r := r.(documents := Some([]), message := Some(NoResultMessage(selectedTool)));
      }
    } else {
      r := r.(error := Some("Invalid selected tool: " + selectedTool));
    }
    r := r.(documents := Some(documents));
  }

  /** What the generator LLM returned: an exception, a message object with `content`, a plain string,
      or anything else. */
  datatype LlmOutput = LlmRaised(reason: string) | WithContent(content: string) | PlainText(text: string) | Unexpected

  const EmptyContent: string := "LLM returned empty content."

  /** The error generate records for an exception with the given message. */
  function GenerationError(e: string): string {
    "Error during generation: " + e
  }

  /** The generated text, or the message of the exception generate raises or catches. */
  function GeneratedText(out: LlmOutput): (r: Result<string>)
    ensures r.Ok? ==> r.value != ""
    ensures r.Ok? <==> (out.WithContent? && out.content != "") || (out.PlainText? && out.text != "")
  {
    match out
    case LlmRaised(reason) => Err(reason)
    case WithContent(c) => if c == "" then Err(EmptyContent) else Ok(c)
    case PlainText(t) => if t == "" then Err(EmptyContent) else Ok(t)
    case Unexpected => Err("LLM returned content in an unexpected format.")
  }

  /** The context generate gives the LLM: the documents' texts joined by single spaces, in order. */
  function Context(documents: seq<Document>): (context: string)
    ensures |documents| == 0 ==> context == ""
    ensures |documents| == 1 ==> context == documents[0].pageContent
  {
    if |documents| == 0 then ""
    else Join(seq(|documents|, i requires 0 <= i < |documents| => documents[i].pageContent), " ")
  }

  /** The context holds every document's text, in order: it splits back into them when none holds a space. */
  lemma ContextRoundTrip(documents: seq<Document>)
    requires |documents| >= 1
    requires forall i :: 0 <= i < |documents| ==> ' ' !in documents[i].pageContent
    ensures Split(Context(documents), ' ') == seq(|documents|, i requires 0 <= i < |documents| => documents[i].pageContent)
  {
    SplitJoin(seq(|documents|, i requires 0 <= i < |documents| => documents[i].pageContent), ' ');
  }

  /** generate, with its returned dict merged into the state: the generation on success, and otherwise
      the state with the error set and no new generation. The LLM sees the context and the question. */
  function Generate(state: State, llm: (string, string) -> LlmOutput): (r: State)
    requires state.question.Some?
    ensures r.generation != state.generation ==> r.generation.Some? && r.generation.value != ""
    ensures var g := GeneratedText(llm(Context(state.documents.GetOr([])), state.question.value));
      g.Ok? ==> r == state.(generation := Some(g.value))
    ensures var g := GeneratedText(llm(Context(state.documents.GetOr([])), state.question.value));
      g.Err? ==> r == state.(error := Some(GenerationError(g.error)))
  {
    var out := llm(Context(state.documents.GetOr([])), state.question.value);
    match GeneratedText(out)
    case Ok(text) => state.(generation := Some(text))
    case Err(e) => state.(error := Some(GenerationError(e)))
  }

  /** An empty answer from the LLM is an error, and no generation is produced. */
  lemma EmptyAnswerIsError(state: State, llm: (string, string) -> LlmOutput)
    requires state.question.Some?
    requires llm(Context(state.documents.GetOr([])), state.question.value) == WithContent("")
    ensures Generate(state, llm) == state.(error := Some(GenerationError(EmptyContent)))
  {
  }

  /** grade_generation: "useful" only for a score that is exactly the string "yes"; an exception gives
      "not useful" and sets the error. */
  function GradeGeneration(state: State, reply: GraderReply): (r: (string, State))
    ensures r.0 == "useful" <==> reply == Scored(Some(JString("yes")))
    ensures r.0 == "useful" || r.0 == "not useful"
    ensures reply.Scored? ==> r.1 == state
    ensures reply.GraderRaised? ==> r.1 == state.(error := Some("Error during generation grading: " + reply.reason))
  {
    match reply
    case GraderRaised(reason) => ("not useful", state.(error := Some("Error during generation grading: " + reason)))
    case Scored(score) => (if score.GetOr(JNumber(0.0)) == JString("yes") then "useful" else "not useful", state)
  }

  /** A score of 1 keeps a document but does not make an answer useful: the two graders read scores differently. */
  lemma ScoreOneDiffers(state: State)
    ensures Relevant(Scored(Some(JNumber(1.0))))
    ensures GradeGeneration(state, Scored(Some(JNumber(1.0)))).0 == "not useful"
  {
  }
}
