/** src/agent/app.py: the Flask service around the workflow.
    `graph_states` keeps the state of every paused session, `/upload` turns uploaded files into the
    Custom vector store, and `/ask` runs the workflow and maps its outcome to an HTTP reply.
    The compiled graph is foreign: one run is the sequence of state snapshots it streams, followed by the
    exception the stream raised, if any. File storage, PDF page extraction and secure_filename are inputs. */
module App {
  import opened Wrappers
  import opened Strings
  import opened Ingest
  import opened Graph

  /** ALLOWED_EXTENSIONS. */
  const AllowedExtensions: set<string> := {"txt", "csv", "pdf"}

  /** allowed_file: the name holds a '.', and the text after the last '.', lower-cased, is an allowed extension. */
  function AllowedFile(filename: string): (ok: bool)
    ensures ok ==> '.' in filename
  {
    match LastIndexOf(filename, '.')
    case None => false
    case Some(k) => Lower(filename[k + 1..]) in AllowedExtensions
  }

  /** A name is allowed exactly when some '.' in it is the last one and the text after it is allowed. */
  lemma AllowedFileMeaning(filename: string)
    ensures AllowedFile(filename) <==> exists k :: (0 <= k < |filename| && filename[k] == '.' && '.' !in filename[k + 1..]
      && Lower(filename[k + 1..]) in AllowedExtensions)
  {
    var last := LastIndexOf(filename, '.');
    if last.Some? {
      NoDotAfter(filename, last.value);
      forall k | 0 <= k < |filename| && filename[k] == '.' && '.' !in filename[k + 1..]
        ensures k == last.value
      {
        NoDotAfter(filename, k);
      }
    }
  }

  /** No character after the last '.' is a '.'. */
  lemma NoDotAfter(s: string, k: nat)
    requires k < |s| && '.' !in s[k + 1..]
    ensures forall j :: k < j < |s| ==> s[j] != '.'
  {
    forall j | k < j < |s|
      ensures s[j] != '.'
    {
      assert s[j] == s[k + 1..][j - k - 1];
    }
  }

  /** A name is judged by its last extension alone, in any letter case. */
  lemma AllowedByLastExtension(stem: string, ext: string)
    requires '.' !in ext
    ensures AllowedFile(stem + "." + ext) <==> Lower(ext) in AllowedExtensions
  {
    var name := stem + "." + ext;
    var k := |stem|;
    assert name[k] == '.';
    assert name[k + 1..] == ext;
    NoDotAfter(name, k);
    var last := LastIndexOf(name, '.');
    NoDotAfter(name, last.value);
    assert last.value == k;
  }

  /** An HTTP reply body. */
  datatype Body =
    | ErrorBody(error: string)
    | StatusBody(status: string)
    | AnswerBody(answer: string)
    | PauseBody(options: seq<string>, sessionId: string)

  /** One part of the multipart upload: its file name, and what reading it as PDF pages or as text gives. */
  datatype UploadedFile = UploadedFile(filename: string, pdfPages: Result<seq<string>>, text: Result<string>)

  /** The outcome of the upload loop: the collected documents, or the reply it returned early with. */
  datatype Collection = Collected(docs: seq<Upload>) | Rejected(status: int, error: string)

  /** The documents one allowed file contributes, titled with its secured name: one per PDF page,
      or its whole text. */
  function FileDocuments(file: UploadedFile, secureFilename: string -> string): (r: Result<seq<Upload>>)
    ensures r.Ok? && !EndsWith(Lower(secureFilename(file.filename)), ".pdf") ==> |r.value| == 1
  {
    var filename := secureFilename(file.filename);
    if EndsWith(Lower(filename), ".pdf") then
      match file.pdfPages
      case Err(e) => Err("Error reading file " + filename + ": " + e)
      case Ok(pages) => Ok(seq(|pages|, i requires 0 <= i < |pages| => Upload(filename, pages[i])))
    else
      match file.text
      case Err(e) => Err("Error reading file " + filename + ": " + e)
      case Ok(content) => Ok([Upload(filename, content)])
  }

  /** The upload loop: files in order, stopping with 400 at the first disallowed name and with 500 at
      the first file that cannot be read. */
  function Collect(files: seq<UploadedFile>, secureFilename: string -> string): (c: Collection)
    ensures c.Rejected? ==> c.status == 400 || c.status == 500
  {
    if |files| == 0 then Collected([])
    else if !AllowedFile(files[0].filename) then Rejected(400, "Invalid file type: " + files[0].filename)
    else match FileDocuments(files[0], secureFilename)
      case Err(e) => Rejected(500, e)
      case Ok(docs) =>
        match Collect(files[1..], secureFilename)
        case Collected(rest) => Collected(docs + rest)
        case Rejected(s, e) => Rejected(s, e)
  }

  /** The files before `k` are allowed and readable, so the upload reaches file `k`. */
  predicate Readable(files: seq<UploadedFile>, k: nat, secureFilename: string -> string)
    requires k <= |files|
  {
    forall j :: 0 <= j < k ==> AllowedFile(files[j].filename) && FileDocuments(files[j], secureFilename).Ok?
  }

  /** The first disallowed file ends the upload with 400, whatever the files after it are. */
  lemma {:induction false} FirstDisallowedStops(files: seq<UploadedFile>, k: nat, secureFilename: string -> string)
    requires k < |files|
    requires Readable(files, k, secureFilename)
    requires !AllowedFile(files[k].filename)
    ensures Collect(files, secureFilename) == Rejected(400, "Invalid file type: " + files[k].filename)
  {
    if k > 0 {
      assert AllowedFile(files[0].filename) && FileDocuments(files[0], secureFilename).Ok?;
      assert files[1..][k - 1] == files[k];
      assert forall j :: 0 <= j < k - 1 ==> files[1..][j] == files[j + 1];
      FirstDisallowedStops(files[1..], k - 1, secureFilename);
    }
  }

  /** When every file is allowed and readable, the documents are those of each file in turn. */
  lemma {:induction false} AllReadableCollected(files: seq<UploadedFile>, secureFilename: string -> string)
    requires Readable(files, |files|, secureFilename)
    ensures Collect(files, secureFilename).Collected?
    ensures |files| > 0 ==> (Collect(files, secureFilename).docs
      == FileDocuments(files[0], secureFilename).value + Collect(files[1..], secureFilename).docs)
  {
    if |files| > 0 {
      assert AllowedFile(files[0].filename) && FileDocuments(files[0], secureFilename).Ok?;
      assert forall j :: 0 <= j < |files| - 1 ==> files[1..][j] == files[j + 1];
      AllReadableCollected(files[1..], secureFilename);
    }
  }

  /** upload_file: the checks in their order (no file part, no first name, the loop, nothing collected),
      then the Custom store built from the documents, unless building it raised (`buildFails`). */
  method UploadFile(stores: VectorStores, hasFilePart: bool, files: seq<UploadedFile>,
                    secureFilename: string -> string, splitDocuments: seq<Document> -> seq<Document>,
                    buildFails: Option<string>)
    returns (status: int, body: Body)
    modifies stores
    ensures !hasFilePart ==> status == 400 && body == ErrorBody("No file part in the request")
    ensures hasFilePart && (|files| == 0 || files[0].filename == "") ==>
      status == 400 && body == ErrorBody("No selected file")
    ensures hasFilePart && |files| > 0 && files[0].filename != "" ==> (
      match Collect(files, secureFilename)
      case Rejected(s, e) => status == s && body == ErrorBody(e)
      case Collected(docs) =>
        if |docs| == 0 then status == 400 && body == ErrorBody("No valid documents were uploaded")
        else if buildFails.Some? then status == 500 && body == ErrorBody("Failed to create vector database: " + buildFails.value)
        else (status == 200 && body == StatusBody("Files uploaded and custom vector database created")
          && stores.custom == Some(CustomStore(docs, splitDocuments))))
    ensures status != 200 ==> stores.custom == old(stores.custom)
    ensures stores.wiki == old(stores.wiki) && stores.arxiv == old(stores.arxiv)
  {
    if !hasFilePart {
      return 400, ErrorBody("No file part in the request");
    }
    if |files| == 0 || files[0].filename == "" {
      return 400, ErrorBody("No selected file");
    }
    var collected := CollectDocuments(files, secureFilename);
    if collected.Rejected? {
      return collected.status, ErrorBody(collected.error);
    }
    var uploadedDocs := collected.docs;
    if |uploadedDocs| == 0 {
      return 400, ErrorBody("No valid documents were uploaded");
    }
    if buildFails.Some? {
      return 500, ErrorBody("Failed to create vector database: " + buildFails.value);
    }
    var _ := stores.CreateCustomVectorstore(uploadedDocs, splitDocuments);
    return 200, StatusBody("Files uploaded and custom vector database created");
  }

  /** The loop of upload_file over the files, returning early with the reply for a disallowed or
      unreadable file. */
  method CollectDocuments(files: seq<UploadedFile>, secureFilename: string -> string) returns (c: Collection)
    ensures c == Collect(files, secureFilename)
  {
    var uploadedDocs := [];
    var i := 0;
    while i < |files|
      invariant 0 <= i <= |files|
      invariant Collect(files, secureFilename) == Prepend(uploadedDocs, Collect(files[i..], secureFilename))
    {
      assert files[i..][1..] == files[i + 1..];
      if !AllowedFile(files[i].filename) {
        return Rejected(400, "Invalid file type: " + files[i].filename);
      }
      var read := FileDocuments(files[i], secureFilename);
      if read.Err? {
        return Rejected(500, read.error);
      }
      PrependAppend(uploadedDocs, read.value, Collect(files[i + 1..], secureFilename));
      uploadedDocs := uploadedDocs + read.value;
      i := i + 1;
    }
    assert uploadedDocs + [] == uploadedDocs;
    return Collected(uploadedDocs);
  }

  /** The documents collected so far, put in front of what the rest of the loop collects. */
  function Prepend(docs: seq<Upload>, c: Collection): Collection {
    match c
    case Collected(rest) => Collected(docs + rest)
    case Rejected(s, e) => c
  }

  /** Prepending in two steps is prepending once. */
  lemma PrependAppend(a: seq<Upload>, b: seq<Upload>, c: Collection)
    ensures Prepend(a, Prepend(b, c)) == Prepend(a + b, c)
  {
    if c.Collected? {
      assert a + (b + c.docs) == (a + b) + c.docs;
    }
  }

  /** What run_graph_workflow returns. */
  datatype WorkflowResult =
    | WorkflowError(error: string)
    | WorkflowPause(options: seq<string>, sessionId: string)
    | WorkflowAnswer(answer: string)

  /** One run of the compiled graph: the state snapshots it streams, then the exception it raises, if any. */
  datatype Stream = Stream(events: seq<State>, failure: Option<string>)

  /** What the run does to the session's entry in graph_states besides the in-place updates of a
      resumed state: nothing, store the state, or delete the entry. */
  datatype SessionAction = KeepEntry | StoreEntry | DeleteEntry

  /** How a run ends: its result, the session state at that point, and the action on graph_states. */
  datatype Outcome = Outcome(result: WorkflowResult, last: State, action: SessionAction)

  const GraphNotInitialized: string := "Error: Graph not initialized."
  const NoOutput: string := "Error: No output received from the AI."
  const NoGeneration: string := "Error: No generation found in the AI response."

  /** The error reply for an exception caught while streaming. */
  function ProcessingError(e: string): string {
    "Error during AI processing: " + e
  }

  /** The message of the KeyError for a paused state without 'options'. */
  const MissingOptions: string := "'options'"

  /** The message of the AttributeError for `.content` on a str. */
  const NoContentAttribute: string := "'str' object has no attribute 'content'"

  /** dict.update: every key the event holds overrides the state's. */
  function Merge(state: State, event: State): State {
    State(
      if event.question.Some? then event.question else state.question,
      if event.generation.Some? then event.generation else state.generation,
      if event.documents.Some? then event.documents else state.documents,
      if event.needUserInput.Some? then event.needUserInput else state.needUserInput,
      if event.options.Some? then event.options else state.options,
      if event.selectedTool.Some? then event.selectedTool else state.selectedTool,
      if event.message.Some? then event.message else state.message,
      if event.search.Some? then event.search else state.search,
      if event.vectorDbChoice.Some? then event.vectorDbChoice else state.vectorDbChoice,
      if event.error.Some? then event.error else state.error)
  }

  /** The reply for a generation found in the output. As written, `generation.content` is read from the
      str the generate node produced, which raises AttributeError, caught as an AI processing error. */
  function AnswerAsWritten(generation: string): (r: WorkflowResult)
    ensures r.WorkflowError?
  {
    WorkflowError(ProcessingError(NoContentAttribute))
  }

  /** The reply evidently intended: the generated text itself. */
  function AnswerCorrected(generation: string): (r: WorkflowResult)
    ensures r.WorkflowAnswer? && r.answer == generation
  {
    WorkflowAnswer(generation)
  }

  /** The event loop of run_graph_workflow from a given state and output on: per event, the error is
      checked first, then the pause, then the generation. */
  function Run(state: State, output: State, events: seq<State>, failure: Option<string>, sessionId: string, asWritten: bool): (o: Outcome)
    decreases |events|
  {
    if |events| == 0 then
      if failure.Some? then Outcome(WorkflowError(ProcessingError(failure.value)), state, KeepEntry)
      else if output == EmptyState then Outcome(WorkflowError(NoOutput), state, KeepEntry)
      else Outcome(WorkflowError(NoGeneration), state, KeepEntry)
    else
      var s := Merge(state, events[0]);
      var out := Merge(output, events[0]);
      if s.error.Some? then Outcome(WorkflowError(s.error.value), s, KeepEntry)
      else if s.needUserInput == Some(true) then
        if s.options.Some? then Outcome(WorkflowPause(s.options.value, sessionId), s, StoreEntry)
        else Outcome(WorkflowError(ProcessingError(MissingOptions)), s, StoreEntry)
      else if out.generation.Some? then
        Outcome(if asWritten then AnswerAsWritten(out.generation.value) else AnswerCorrected(out.generation.value), s, DeleteEntry)
      else Run(s, out, events[1..], failure, sessionId, asWritten)
  }

  /** The state a run starts from: the session's stored state, or a new one holding the question and
      the store choice; a non-empty user choice becomes the selected tool and clears the pause flag. */
  function StartState(graphStates: map<string, State>, question: string, vectorDbChoice: string,
                      sessionId: string, userChoice: Option<string>): (s: State)
    ensures sessionId !in graphStates && userChoice.GetOr("") == "" ==>
      s == EmptyState.(question := Some(question), vectorDbChoice := Some(vectorDbChoice))
    ensures sessionId in graphStates && userChoice.GetOr("") == "" ==> s == graphStates[sessionId]
    ensures sessionId !in graphStates && userChoice.GetOr("") != "" ==>
      s == EmptyState.(question := Some(question), vectorDbChoice := Some(vectorDbChoice),
                       selectedTool := userChoice, needUserInput := Some(false))
    ensures sessionId in graphStates && userChoice.GetOr("") != "" ==>
      s == graphStates[sessionId].(selectedTool := userChoice, needUserInput := Some(false))
    ensures sessionId in graphStates ==> s.question == graphStates[sessionId].question
  {
    var state := if sessionId in graphStates then graphStates[sessionId]
      else EmptyState.(question := Some(question), vectorDbChoice := Some(vectorDbChoice));
    if userChoice.GetOr("") != "" then state.(selectedTool := userChoice, needUserInput := Some(false))
    else state
  }

  /** graph_states after a run. A resumed session's stored dict is the very dict the run updates, so its
      entry follows the state even when the run only returns; a new session is only added on a pause. */
  function Saved(graphStates: map<string, State>, sessionId: string, o: Outcome): (m: map<string, State>)
    ensures o.action == DeleteEntry ==> sessionId !in m
    ensures o.action == StoreEntry ==> sessionId in m && m[sessionId] == o.last
    ensures o.action == KeepEntry ==> (sessionId in m <==> sessionId in graphStates)
    ensures o.action == KeepEntry && sessionId in m ==> m[sessionId] == o.last
    ensures forall k :: k != sessionId ==> (k in m <==> k in graphStates)
    ensures forall k :: k != sessionId && k in m ==> m[k] == graphStates[k]
  {
    match o.action
    case KeepEntry => if sessionId in graphStates then graphStates[sessionId := o.last] else graphStates
    case StoreEntry => graphStates[sessionId := o.last]
    case DeleteEntry => graphStates - {sessionId}
  }

  /** A run pauses only on a state that asks for user input, offers that state's options under the
      given session id, and stores the state. */
  lemma {:induction false} PauseStoresState(state: State, output: State, events: seq<State>, failure: Option<string>, sessionId: string, asWritten: bool)
    ensures var o := Run(state, output, events, failure, sessionId, asWritten);
      o.result.WorkflowPause? ==>
        o.action == StoreEntry && o.last.needUserInput == Some(true)
        && o.last.options == Some(o.result.options) && o.result.sessionId == sessionId
    decreases |events|
  {
    if |events| > 0 {
      var s, out := Merge(state, events[0]), Merge(output, events[0]);
      PauseStoresState(s, out, events[1..], failure, sessionId, asWritten);
    }
  }

  /** A run answers only after a generation appeared, and then deletes the session. */
  lemma {:induction false} AnswerDeletesSession(state: State, output: State, events: seq<State>, failure: Option<string>, sessionId: string, asWritten: bool)
    ensures var o := Run(state, output, events, failure, sessionId, asWritten);
      o.result.WorkflowAnswer? ==> o.action == DeleteEntry && !asWritten
    decreases |events|
  {
    if |events| > 0 {
      var s, out := Merge(state, events[0]), Merge(output, events[0]);
      PauseStoresState(s, out, events[1..], failure, sessionId, asWritten);
      AnswerDeletesSession(s, out, events[1..], failure, sessionId, asWritten);
    }
  }

  /** An error leaves the sessions' keys as they were, except for the KeyError of a paused state without
      options, which is raised after the state was stored. */
  lemma {:induction false} ErrorKeepsSessions(state: State, output: State, events: seq<State>, failure: Option<string>, sessionId: string, asWritten: bool)
    ensures var o := Run(state, output, events, failure, sessionId, asWritten);
      o.result.WorkflowError? ==> o.action == KeepEntry || (o.action == StoreEntry && o.last.options.None?) || (o.action == DeleteEntry && asWritten)
    decreases |events|
  {
    if |events| > 0 {
      var s, out := Merge(state, events[0]), Merge(output, events[0]);
      ErrorKeepsSessions(s, out, events[1..], failure, sessionId, asWritten);
    }
  }

  /** As written, the service never answers: every generation ends in the AttributeError reply. */
  lemma {:induction false} AsWrittenNeverAnswers(state: State, output: State, events: seq<State>, failure: Option<string>, sessionId: string)
    ensures !Run(state, output, events, failure, sessionId, true).result.WorkflowAnswer?
    decreases |events|
  {
    if |events| > 0 {
      AsWrittenNeverAnswers(Merge(state, events[0]), Merge(output, events[0]), events[1..], failure, sessionId);
    }
  }

  /** Corrected, a run deletes the session exactly when it answers: every generation reaches the user. */
  lemma {:induction false} CorrectedAnswers(state: State, output: State, events: seq<State>, failure: Option<string>, sessionId: string)
    ensures var o := Run(state, output, events, failure, sessionId, false);
      o.action == DeleteEntry <==> o.result.WorkflowAnswer?
    decreases |events|
  {
    if |events| > 0 {
      CorrectedAnswers(Merge(state, events[0]), Merge(output, events[0]), events[1..], failure, sessionId);
    }
  }

  /** Corrected, the first snapshot holding a generation (after no error and no pause) is the answer. */
  lemma GenerationAnswers(state: State, output: State, events: seq<State>, failure: Option<string>, sessionId: string)
    requires |events| > 0
    requires Merge(state, events[0]).error.None?
    requires Merge(state, events[0]).needUserInput != Some(true)
    requires events[0].generation.Some?
    ensures Run(state, output, events, failure, sessionId, false).result == WorkflowAnswer(events[0].generation.value)
  {
  }

  /** Within one snapshot the error wins over a pause and a generation. */
  lemma ErrorFirst(state: State, output: State, events: seq<State>, failure: Option<string>, sessionId: string, asWritten: bool)
    requires |events| > 0 && events[0].error.Some?
    ensures Run(state, output, events, failure, sessionId, asWritten).result == WorkflowError(events[0].error.value)
  {
  }

  /** The event loop of run_graph_workflow: the state and the output are updated with each snapshot
      until an error, a pause or a generation ends the run. */
  method StreamEvents(start: State, stream: Stream, sessionId: string, asWritten: bool) returns (o: Outcome)
    ensures o == Run(start, EmptyState, stream.events, stream.failure, sessionId, asWritten)
  {
    var state, output := start, EmptyState;
    var events := stream.events;
    var i := 0;
    while i < |events|
      invariant 0 <= i <= |events|
      invariant Run(start, EmptyState, events, stream.failure, sessionId, asWritten)
        == Run(state, output, events[i..], stream.failure, sessionId, asWritten)
    {
      assert events[i..][1..] == events[i + 1..];
      state := Merge(state, events[i]);
      output := Merge(output, events[i]);
      if state.error.Some? {
        return Outcome(WorkflowError(state.error.value), state, KeepEntry);
      }
      if state.needUserInput == Some(true) {
        if state.options.None? {
          return Outcome(WorkflowError(ProcessingError(MissingOptions)), state, StoreEntry);
        }
        return Outcome(WorkflowPause(state.options.value, sessionId), state, StoreEntry);
      }
      if output.generation.Some? {
        var answer := if asWritten then AnswerAsWritten(output.generation.value) else AnswerCorrected(output.generation.value);
        return Outcome(answer, state, DeleteEntry);
      }
      i := i + 1;
    }
    if stream.failure.Some? {
      return Outcome(WorkflowError(ProcessingError(stream.failure.value)), state, KeepEntry);
    }
    if output == EmptyState {
      return Outcome(WorkflowError(NoOutput), state, KeepEntry);
    }
    return Outcome(WorkflowError(NoGeneration), state, KeepEntry);
  }

  /** The session store of the service. */
  class Sessions {
    var graphStates: map<string, State>

    /** At start no session is stored. */
    constructor ()
      ensures graphStates == map[]
    {
      graphStates := map[];
    }

    /** run_graph_workflow; `asWritten` chooses between the generation step as written (AnswerAsWritten)
        and the corrected one (AnswerCorrected). */
    method RunGraphWorkflow(graphReady: bool, question: string, vectorDbChoice: string, sessionId: string,
                            userChoice: Option<string>, stream: Stream, asWritten: bool)
      returns (result: WorkflowResult)
      modifies this
      ensures !graphReady ==> result == WorkflowError(GraphNotInitialized) && graphStates == old(graphStates)
      ensures graphReady ==> (
        var o := Run(StartState(old(graphStates), question, vectorDbChoice, sessionId, userChoice),
                     EmptyState, stream.events, stream.failure, sessionId, asWritten);
        result == o.result && graphStates == Saved(old(graphStates), sessionId, o))
    {
      if !graphReady {
        return WorkflowError(GraphNotInitialized);
      }
      var resumed := sessionId in graphStates;
      var state := if resumed then graphStates[sessionId]
        else EmptyState.(question := Some(question), vectorDbChoice := Some(vectorDbChoice));
      if userChoice.GetOr("") != "" {
        state := state.(selectedTool := userChoice, needUserInput := Some(false));
      }
      var o := StreamEvents(state, stream, sessionId, asWritten);
      // A resumed state is the dict stored in graph_states itself, so the entry follows every update.
      match o.action {
        case KeepEntry =>
          if resumed {
            graphStates := graphStates[sessionId := o.last];
          }
        case StoreEntry =>
          graphStates := graphStates[sessionId := o.last];
        case DeleteEntry =>
          if sessionId in graphStates {
            graphStates := graphStates - {sessionId};
          }
      }
      return o.result;
    }

    /** ask: 400 without a question; otherwise the workflow runs with 'Wiki' and 'default' as the
        defaults, and its answer or pause is a 200 reply and its error a 500 one. `data` is an error
        when reading the body or its keys raises (null, a number, or a list or string that does hold
        "question"), which is a 500 internal server error; a list or string without "question" is a
        request with no question. `asWritten` is passed on to RunGraphWorkflow. */
    method Ask(data: Result<AskRequest>, graphReady: bool, stream: Stream, asWritten: bool) returns (status: int, body: Body)
      modifies this
      ensures data.Err? ==> (status == 500 && body == ErrorBody("Internal server error: " + data.error)
        && graphStates == old(graphStates))
      ensures data.Ok? && data.value.question.None? ==>
        status == 400 && body == ErrorBody("No question provided") && graphStates == old(graphStates)
      ensures data.Ok? && data.value.question.Some? ==> (
        var req := data.value;
        var choice, sid := req.vectorDbChoice.GetOr("Wiki"), req.sessionId.GetOr("default");
        var o := Run(StartState(old(graphStates), req.question.value, choice, sid, req.userChoice),
                     EmptyState, stream.events, stream.failure, sid, asWritten);
        (status, body) == (if graphReady then Reply(o.result) else Reply(WorkflowError(GraphNotInitialized)))
        && graphStates == (if graphReady then Saved(old(graphStates), sid, o) else old(graphStates)))
    {
      if data.Err? {
        return 500, ErrorBody("Internal server error: " + data.error);
      }
      var req := data.value;
      if req.question.None? {
        return 400, ErrorBody("No question provided");
      }
      var vectorDbChoice := req.vectorDbChoice.GetOr("Wiki");
      var sessionId := req.sessionId.GetOr("default");
      var responseData := RunGraphWorkflow(graphReady, req.question.value, vectorDbChoice, sessionId, req.userChoice, stream, asWritten);
      status, body := Reply(responseData).0, Reply(responseData).1;
    }
  }

  /** The JSON body of /ask, with each key present or not. */
  datatype AskRequest = AskRequest(question: Option<string>, vectorDbChoice: Option<string>,
                                   userChoice: Option<string>, sessionId: Option<string>)

  /** ask's status mapping: an answer or a pause is 200, anything else 500 with the error. */
  function Reply(result: WorkflowResult): (r: (int, Body))
    ensures r.0 == 200 <==> result.WorkflowAnswer? || result.WorkflowPause?
    ensures r.0 == 500 <==> result.WorkflowError?
    ensures result.WorkflowPause? ==> r.1 == PauseBody(result.options, result.sessionId)
    ensures result.WorkflowAnswer? ==> r.1 == AnswerBody(result.answer)
    ensures result.WorkflowError? ==> r.1 == ErrorBody(result.error)
  {
    match result
    case WorkflowAnswer(a) => (200, AnswerBody(a))
    case WorkflowPause(options, sid) => (200, PauseBody(options, sid))
    case WorkflowError(e) => (500, ErrorBody(e))
  }
}
