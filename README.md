# Deco-3801 agent core, modelled in Dafny

Deco-3801 is a retrieval-augmented question-answering service. This project models the parts of it that are its own logic:

- **Workflow nodes** (`src/agent/graph.py`), module `Graph`:
  - grading the retrieved documents;
  - routing to web search or generation;
  - the web-search node, which pauses for a tool choice or runs one tool;
  - context assembly and generation;
  - grading the answer.
- **Flask service** (`src/agent/app.py`), module `App`:
  - the upload filename check;
  - the order of upload validation;
  - the `graph_states` session map: resume, save on pause, delete on answer;
  - the status mapping of `/ask`.
- **Vector-store slots** (`src/agent/ingest.py`), module `Ingest`: lazy creation of the Wiki and ArXiv stores, replacement of the Custom store, and retriever selection.
- **Timeline parsing** (`src/agent/visualisation.py`), module `Visualisation`.
- **SQLite tables** (`database.py`), module `Database`: a class holding the document log and the two query caches.
- **Directory loading and batching** (`pipeline/ingest.py`), module `PipelineIngest`.
- **File-name and path derivation** (`web_scrapers/search_tool_arxiv.py` and `web_scrapers/search_tool.py`), modules `SearchToolArxiv` and `SearchTool`.
- **Sentence cleaning**: the shared module `TextClean`, used by three scripts:
  - `utils/preprocess.py`, module `UtilsPreprocess`;
  - `preprocessor.py`, module `Preprocessor`;
  - `wikihow_sequence_reconstruction/scripts/preprocess.py`, module `WikihowPreprocess`.

Python's string operations are written out in `Strings`:
- `strip`;
- `split`;
- `join`;
- `partition` (for `split(s, 1)`);
- `endswith`;
- `lower`;
- `rfind`;
- `replace`;
- `in`.

Every foreign call is an input:
- an LLM or grader reply;
- a search response;
- a loader, splitter or tokenizer;
- whether a file exists or an embedding batch succeeds.

Mutable state is modelled as classes:
- `Database.Tables`: the three tables;
- `Ingest.VectorStores`: the three global store slots;
- `App.Sessions`: `graph_states`.

A workflow state dict is a value (`Graph.State`), with one `Option` field per key, so that a missing key and a present key can be told apart.

## Model

| member | source | states |
|---|---|---|
| Graph.Filtered | src/agent/graph.py:389-401 | given one grader reply per document position, at most as many documents are kept as there were |
| Graph.FilteredExactly | src/agent/graph.py:389-398 | a document is kept iff it stands at some position whose grader score is "yes", 1 or "1" (a missing score counts as 0) |
| Graph.FilteredSingle | src/agent/graph.py:389-398 | one document is kept iff its grade is accepted |
| Graph.FilteredAppend | src/agent/graph.py:389-401 | grading goes position by position, in order: the kept documents of a concatenation are those of the first part followed by those of the second |
| Graph.GraderErrorDropsOnlyThatDocument | src/agent/graph.py:399-401 | a grader exception drops only the document at that position; the documents before and after it are graded as usual |
| Graph.GradeDocuments | src/agent/graph.py:369-409 | the loop, which takes one relevance reply per grading call, in call order, leaves exactly the filtered documents, and sets search to "Yes" iff none was kept (including when there were no documents); all other keys are unchanged |
| Graph.DecideToGenerate | src/agent/graph.py:440-456 | "websearch" iff search is "Yes", "generate" otherwise, including when search is absent (the default is "No") |
| Graph.RouteAfterGrading | src/agent/graph.py:383-404 | after grading, the route is "websearch" iff no grader reply was accepted |
| Graph.Contents | src/agent/graph.py:173-175 | one content per result, in order, with the placeholder text for a result without content |
| Graph.JoinOfSeveral | src/agent/graph.py:175 | a join of two or more parts is never empty |
| Graph.SearchTavily | src/agent/graph.py:161-187 | None for an exception, a non-list or an empty list; otherwise the contents joined by newlines; a result is never the empty string |
| Graph.TavilyRoundTrip | src/agent/graph.py:175 | splitting the joined text on newlines gives back the contents when none of them holds a newline |
| Graph.ArxivText | src/agent/graph.py:340 | a single result gives its title line followed by its summary |
| Graph.ArxivTextAppend | src/agent/graph.py:340 | the text of two non-empty lists of results is the two texts joined by one newline |
| Graph.WebSearch | src/agent/graph.py:304-367 | with no tool, or an empty one: a pause with the three options and no tool called. Otherwise: no pause; only the chosen tool is called; a found text appends exactly one document at the end; no text leaves the documents as they were (the final overwrite) and sets the no-result message; an unknown tool sets the error; the other keys are unchanged |
| Graph.GeneratedText | src/agent/graph.py:285-302 | the text of a message or string reply; an empty answer or an exception is an error with its message |
| Graph.Context | src/agent/graph.py:275-280 | the documents' texts joined by single spaces, in order; "" when there are none |
| Graph.ContextRoundTrip | src/agent/graph.py:275-280 | the context splits back on spaces into the documents' texts when none of them holds a space |
| Graph.Generate | src/agent/graph.py:259-302 | the LLM sees the space-joined context and the question. On success only the generation changes, to the non-empty generated text. On failure only the error changes, to "Error during generation: " and the reason |
| Graph.EmptyAnswerIsError | src/agent/graph.py:293-302 | an empty LLM answer sets the error and produces no generation |
| Graph.GradeGeneration | src/agent/graph.py:413-438 | "useful" iff the score is exactly the string "yes"; an exception gives "not useful" and sets the error; the state is unchanged otherwise |
| Graph.ScoreOneDiffers | src/agent/graph.py:396-398 | a score of 1 keeps a document but does not make an answer useful |
| App.AllowedFile | src/agent/app.py:18-30 | an allowed name holds a '.' |
| App.AllowedFileMeaning | src/agent/app.py:28-30 | allowed iff there is a '.' with no '.' after it, and the text after it, lower-cased, is txt, csv or pdf |
| App.AllowedByLastExtension | src/agent/app.py:28-30 | `<stem>.<ext>` with no '.' in ext is judged by ext alone, whatever its letter case |
| App.FileDocuments | src/agent/app.py:62-83 | a file that is not a PDF and can be read gives exactly one upload |
| App.Collect | src/agent/app.py:55-86 | the upload loop collects documents or stops with 400 at the first disallowed name, or with 500 at the first read error |
| App.FirstDisallowedStops | src/agent/app.py:84-86 | the first disallowed file ends the upload with 400, whatever the files after it are |
| App.AllReadableCollected | src/agent/app.py:55-83 | when every file is allowed and readable, the documents are those of each file in turn |
| App.PrependAppend | src/agent/app.py:55-86 | putting documents in front of a collection in two steps is putting their concatenation in front once; a rejection stays a rejection |
| App.UploadFile | src/agent/app.py:36-99 | the checks run in order: no file part gives 400; an empty first name gives 400; then the loop; nothing collected gives 400; a failed build gives 500. Only a 200 replaces the Custom store (with the collected documents); the other slots never change |
| App.CollectDocuments | src/agent/app.py:55-86 | the loop returns what Collect specifies |
| App.AnswerAsWritten | src/agent/app.py:137-151 | as written, a generation always ends in the AttributeError reply |
| App.AnswerCorrected | src/agent/app.py:137-143 | corrected, a generation is the answer |
| App.StartState | src/agent/app.py:110-116 | a stored session is resumed as stored, so the new question is ignored; an unknown session starts from the question and store choice only; a non-empty user choice then sets selected_tool to it and need_user_input to False, and changes nothing else |
| App.Saved | src/agent/app.py:131-141 | a pause stores the state under the session id; an answer deletes the entry; an error keeps the key set, and a resumed entry holds the updated state; other sessions are untouched |
| App.PauseStoresState | src/agent/app.py:131-135 | a run pauses only on a snapshot asking for user input; it replies with that snapshot's options and the session id, and stores the state |
| App.AnswerDeletesSession | src/agent/app.py:137-141 | a run answers only after a generation appeared, and then deletes the session |
| App.ErrorKeepsSessions | src/agent/app.py:127-151 | an error return leaves the session entry alone, except in two cases: a pause without options, whose KeyError comes after the state was stored; and, as written, the AttributeError raised after the entry was deleted |
| App.AsWrittenNeverAnswers | src/agent/app.py:143-151 | as written, no run ends with an answer |
| App.CorrectedAnswers | src/agent/app.py:137-143 | corrected, a run deletes the session exactly when it answers, so no generation is lost after its session is deleted |
| App.GenerationAnswers | src/agent/app.py:122-143 | corrected, the first snapshot with a generation, and with no error and no pause, is the answer |
| App.ErrorFirst | src/agent/app.py:127-143 | within one snapshot the error is checked before the pause and the generation |
| App.StreamEvents | src/agent/app.py:122-151 | the event loop's outcome is the Run specification of the stream, as written or corrected as the flag says |
| App.Sessions.constructor | src/agent/app.py:26 | no session is stored at start |
| App.Sessions.RunGraphWorkflow | src/agent/app.py:101-154 | without a graph: an error, and nothing changes. Otherwise the result is the run from StartState (as written or corrected, as the flag says), and graph_states becomes Saved of that run |
| App.Sessions.Ask | src/agent/app.py:156-186 | a body that fails to parse gives 500; no question gives 400; Wiki and default are the defaults; then the status comes from Reply of the run, as written or corrected as the flag says |
| App.Reply | src/agent/app.py:170-182 | 200 iff the result is an answer or a pause; 500 with the error otherwise |
| Ingest.Decimal | src/agent/ingest.py:107 | the printed number is never empty, and is one digit exactly for numbers below 10 |
| Ingest.DecimalInjective | src/agent/ingest.py:107 | different numbers print differently |
| Ingest.ArxivTitlesDistinct | src/agent/ingest.py:107 | papers at different positions get different titles |
| Ingest.ToDocuments | src/agent/ingest.py:63 | one Document per upload |
| Ingest.ToDocumentsPointwise | src/agent/ingest.py:63 | upload i becomes Document i, whose text is the upload's text and whose source is its title |
| Ingest.ChunkDocuments | src/agent/ingest.py:115-119 | one Document per chunk, each naming the paper as its source |
| Ingest.ArxivPapers | src/agent/ingest.py:94-109 | paper i (counting from 0) is titled "ArXiv Paper i+1", and its text is extracted from data/arxiv_paper_{i+1}.pdf |
| Ingest.ArxivChunksFromPapers | src/agent/ingest.py:115-119 | every chunk comes from one paper's split text and names that paper as its source |
| Ingest.RetrieverChoice | src/agent/ingest.py:169-188 | Wiki, ArXiv, and Custom when it exists, select their slots; Custom before any upload raises; any other choice raises "Invalid vector database choice" |
| Ingest.VectorStores.constructor | src/agent/ingest.py:29-31 | all three slots are empty |
| Ingest.VectorStores.CreateCustomVectorstore | src/agent/ingest.py:59-79 | always replaces the custom store with one built from these uploads (last upload wins); the other slots are unchanged |
| Ingest.VectorStores.CreateArxivVectorstore | src/agent/ingest.py:81-130 | a filled slot is returned as it is, with nothing downloaded; an empty slot downloads the paper URLs to their paths in order, then builds and stores the ArXiv store; an exception from an external call propagates, leaves the slot empty and comes after at most the planned downloads |
| Ingest.VectorStores.SplitPapers | src/agent/ingest.py:115-119 | the splitting loop yields every paper's chunks in turn |
| Ingest.VectorStores.CreateWikiVectorstore | src/agent/ingest.py:132-167 | built at most once: a filled slot is returned as it is; an empty one is filled with the store of the four pages; an exception from a page load or the embedding propagates and leaves the slot empty; the other slots are unchanged |
| Ingest.VectorStores.GetRetriever | src/agent/ingest.py:169-188 | a ValueError exactly as RetrieverChoice says, changing no slot; Wiki and ArXiv fill only their own slot on first use; an exception while building propagates and changes no slot; Custom returns the current custom store |
| Ingest.VectorStores.CreateAllVectorstores | src/agent/graph.py:458-463 | Wiki and ArXiv are built as get_retriever builds them and Custom is never changed; as written, the call fails with the Custom ValueError exactly when no custom store exists; the first exception stops the sequence |
| Ingest.VectorStores.StartupRaisesAsWritten | src/agent/graph.py:462 | on the fresh slots of an import, the startup call raises "Custom vectorstore is not initialized", even when both stores build |
| Ingest.VectorStores.StartupSucceedsCorrected | src/agent/graph.py:458-463 | corrected, startup succeeds with the Wiki and ArXiv stores built and the Custom slot empty |
| Visualisation.StepLines | src/agent/visualisation.py:9-11 | every kept line contains "Step" and is stripped; there are no more of them than lines |
| Visualisation.ListSteps | src/agent/visualisation.py:5-11 | every step contains "Step" and is stripped |
| Visualisation.StepLinesAppend | src/agent/visualisation.py:9-11 | filtering works line by line |
| Visualisation.ListStepsOneLine | src/agent/visualisation.py:5-11 | a single line is kept, stripped, iff it contains the case-sensitive "Step" |
| Visualisation.ListStepsAppend | src/agent/visualisation.py:5-11 | the steps of two blocks joined by a newline are the first block's, then the second's |
| Visualisation.YearEvent | src/agent/visualisation.py:18-32 | a year and event read from a line are stripped |
| Visualisation.YearsEvents | src/agent/visualisation.py:14-36 | years and events always have equal length, at most the number of lines |
| Visualisation.ExtractStepsWithYearsEvents | src/agent/visualisation.py:14-36 | the loop builds the YearsEvents lists |
| Visualisation.YearsEventsStripped | src/agent/visualisation.py:31-32 | every year and event is stripped |
| Visualisation.FirstColon | src/agent/visualisation.py:20 | the split happens at the first ": " |
| Visualisation.FirstDash | src/agent/visualisation.py:26 | the split happens at the first " - " |
| Visualisation.YearEventRoundTrip | src/agent/visualisation.py:20-32 | `<prefix>: <year> - <event>` gives back the stripped year and event; later separators stay inside the event |
| Visualisation.NoDashSkipped | src/agent/visualisation.py:26-29 | a line whose remainder has no " - " is skipped |
| Visualisation.NoColonSkipped | src/agent/visualisation.py:20-23 | a line without ": " is skipped |
| Database.NewRows | database.py:31-38 | one row per chunk, in order, with consecutive ids |
| Database.Lookup | database.py:59-65 | None iff no row has the query |
| Database.Without | database.py:50-56 | exactly the rows of the other queries remain |
| Database.WithoutAppend | database.py:50-56 | deleting works row by row, so the remaining rows keep their order |
| Database.WithoutUnique | database.py:20-25 | removing rows keeps queries unique |
| Database.LookupUnique | database.py:59-65 | with unique queries, the lookup finds the one row stored for the query |
| Database.UpsertSame | database.py:50-56 | after INSERT OR REPLACE the query's results are the new ones (last write wins) |
| Database.UpsertOther | database.py:50-56 | INSERT OR REPLACE leaves every other query's results unchanged |
| Database.UpsertUnique | database.py:20-25 | INSERT OR REPLACE keeps the UNIQUE constraint |
| Database.Queries | database.py:105-111 | a query is listed iff a row holds it |
| Database.LikeAnything | database.py:41-47 | '%' matches any text |
| Database.LikeLiteralPrefix | database.py:41-47 | a wildcard-free pattern followed by '%' matches any text that starts with it, ignoring ASCII case |
| Database.LikeSkip | database.py:41-47 | a leading '%' skips any prefix |
| Database.LikeFindsOccurrence | database.py:41-47 | a chunk that contains a wildcard-free query matches LIKE '%query%' |
| Database.Matching | database.py:41-47 | at most one chunk per row |
| Database.MatchingExactly | database.py:41-47 | a chunk is returned iff some row holds it and it matches LIKE '%query%' |
| Database.MatchingAppend | database.py:41-47 | the rows are scanned in order: the matches of a concatenation are the first part's followed by the second's |
| Database.MatchingInOrder | database.py:41-47 | for every split of the rows, the matches before the split come first |
| Database.Tables.constructor | database.py:11-28 | three empty tables |
| Database.Tables.NextId | database.py:31-38 | the next id is positive and above every stored id |
| Database.Tables.StoreDocument | database.py:31-38 | appends one row per chunk, in order, with fresh increasing ids, and returns len(chunks); the result tables are unchanged |
| Database.Tables.RelevantDocuments | database.py:41-47 | every stored chunk that matches LIKE '%query%' is returned, only those, and in row order (the matches of each prefix of the rows come first) |
| Database.Tables.StorePubmedResults | database.py:50-56 | INSERT OR REPLACE on the pubmed table; the arxiv table and the documents are unchanged |
| Database.Tables.PubmedResults | database.py:59-65 | the stored list for the query, or [] when it is absent |
| Database.Tables.StoreArxivResults | database.py:68-74 | INSERT OR REPLACE on the arxiv table; the pubmed table and the documents are unchanged |
| Database.Tables.ArxivResults | database.py:77-83 | the stored list for the query, or [] when it is absent |
| Database.Tables.ClearAllData | database.py:86-93 | all three tables are emptied |
| Database.Tables.AllDocuments | database.py:96-102 | the rows as stored, which are in increasing id order |
| Database.Tables.AllPubmedQueries | database.py:105-111 | each stored query is listed exactly once |
| Database.Tables.AllArxivQueries | database.py:114-120 | each stored query is listed exactly once |
| PipelineIngest.Extension | pipeline/ingest.py:35 | splitext's extension is "" or starts at the last '.', with no '/' in it |
| PipelineIngest.ExtensionOfName | pipeline/ingest.py:35 | `<stem>.<ext>` has extension ".ext" when the stem has no '/' and does not start with '.' |
| PipelineIngest.LeadingDotsOnly | pipeline/ingest.py:35 | a name whose only dot leads it has no extension |
| PipelineIngest.Classify | pipeline/ingest.py:35-54 | txt iff the lower-cased extension is ".txt"; pdf iff it is ".pdf"; skipped otherwise |
| PipelineIngest.ClassifyIgnoresCase | pipeline/ingest.py:37-45 | "x.PDF" in any letter case is loaded as a PDF |
| PipelineIngest.Contribution | pipeline/ingest.py:37-54 | an unsupported file, or one whose loader raises, adds nothing |
| PipelineIngest.LoadedAppend | pipeline/ingest.py:33-54 | loading goes entry by entry |
| PipelineIngest.SkippedEntry | pipeline/ingest.py:43-54 | a skipped or failing file does not stop the loop, and adds nothing |
| PipelineIngest.LoadDocuments | pipeline/ingest.py:11-56 | [] for a missing directory; otherwise the documents of every supported file that loads, in listing order |
| PipelineIngest.BatchSizes | pipeline/ingest.py:97-98 | every batch is non-empty and holds at most size chunks |
| PipelineIngest.BatchesPartition | pipeline/ingest.py:97-98 | the batches concatenate back to the chunk list |
| PipelineIngest.BatchesCount | pipeline/ingest.py:97-98 | there are ceil(n/size) batches |
| PipelineIngest.EmbedBatches | pipeline/ingest.py:91-103 | every batch of 3 is attempted, in order; the stored chunks are those of the batches that succeed, so a failure does not stop later batches |
| PipelineIngest.IngestAll | pipeline/ingest.py:66-103 | nothing is attempted when no document was loaded; otherwise the batching loop runs |
| SearchToolArxiv.Sanitized | web_scrapers/search_tool_arxiv.py:43-48 | same length, and none of the nine invalid characters remains |
| SearchToolArxiv.ReplaceCharPointwise | web_scrapers/search_tool_arxiv.py:47 | one replace maps that character to '-' and keeps every other character in place |
| SearchToolArxiv.SanitizeFilename | web_scrapers/search_tool_arxiv.py:43-48 | the loop of replacements yields Sanitized: each invalid character becomes '-' and the others are unchanged |
| SearchToolArxiv.SanitizedKeepsValidName | web_scrapers/search_tool.py:32-37 | a name without invalid characters is unchanged |
| SearchToolArxiv.SanitizeIdempotent | web_scrapers/search_tool_arxiv.py:43-48 | sanitizing twice is sanitizing once |
| SearchToolArxiv.DownloadPdf | web_scrapers/search_tool_arxiv.py:28-40 | a file is written iff the status is 200; it holds the response body and is named by the sanitized title plus ".pdf" |
| SearchToolArxiv.DownloadStaysInFolder | web_scrapers/search_tool_arxiv.py:32-33 | the file name holds no '/', so the file is written directly in the folder |
| SearchToolArxiv.SaveText | web_scrapers/search_tool_arxiv.py:60-64 | writes the text to the PDF path with ".pdf" replaced by ".txt", a path of the same length |
| SearchToolArxiv.TextPathHasNoPdf | web_scrapers/search_tool_arxiv.py:61 | no ".pdf" is left in the text path |
| SearchToolArxiv.TextPathOfPdf | web_scrapers/search_tool_arxiv.py:61 | `x.pdf` becomes TextPath(x) + ".txt" |
| SearchTool.FetchPubmedDetails | web_scrapers/search_tool.py:19-29 | no request iff the id list is empty |
| SearchTool.FetchIdsRoundTrip | web_scrapers/search_tool.py:22 | the ids are sent joined by ',' in order; they split back when none holds ',' |
| SearchTool.SaveAbstract | web_scrapers/search_tool.py:40-49 | writes iff the abstract is non-empty, to the sanitized title plus ".txt" in the folder, with the title line and the abstract as content |
| SearchTool.AbstractFileRoundTrip | web_scrapers/search_tool.py:48 | the file content gives back the title and abstract when the title has no newline |
| SearchTool.AbstractOf | web_scrapers/search_tool.py:55-60 | a missing abstract is '' and raises no exception; only an empty AbstractText list raises |
| SearchTool.Saved | web_scrapers/search_tool.py:52-63 | at most one file per paper, and each starts with "Title: " |
| SearchTool.ProcessPubmedResults | web_scrapers/search_tool.py:52-63 | the loop writes the Saved files, and it raises iff some paper's AbstractText is an empty list |
| SearchTool.MissingAbstractSkipped | web_scrapers/search_tool.py:56-63 | an article with no abstract is skipped |
| SearchTool.TitledAbstracts | web_scrapers/search_tool.py:52-63 | the listed abstracts are non-empty |
| SearchTool.FilesFor | web_scrapers/search_tool.py:45-48 | one file per titled abstract |
| SearchTool.SavedAreTheAbstracts | web_scrapers/search_tool.py:52-63 | the files written are exactly those for the papers' non-empty abstracts, in order |
| TextClean.RemoveOthers | utils/preprocess.py:20 | only kept characters remain |
| TextClean.RemoveOthersAppend | utils/preprocess.py:20 | the substitution works character by character |
| TextClean.RemoveOthersKeepsKept | utils/preprocess.py:20 | a string of kept characters is unchanged |
| TextClean.CleanSentenceIsClean | utils/preprocess.py:20 | a cleaned sentence holds only lower-case letters, the kept digits and inner whitespace |
| TextClean.CleanSentenceFixesClean | utils/preprocess.py:20 | cleaning an already-clean sentence leaves it unchanged |
| TextClean.CleanSentenceIdempotent | preprocessor.py:9 | cleaning is idempotent |
| TextClean.CleanAll | utils/preprocess.py:17-20 | step i is sentence i cleaned, one per sentence, each clean |
| UtilsPreprocess.PreprocessText | utils/preprocess.py:8-22 | step i is sentence i cleaned, one per sentence; a missing text counts as "" |
| UtilsPreprocess.MissingTextIsEmpty | utils/preprocess.py:13-14 | NaN is processed exactly like "" |
| UtilsPreprocess.PreprocessTextStable | utils/preprocess.py:20 | cleaning a step again changes nothing |
| UtilsPreprocess.ProcessDocument | utils/preprocess.py:25-43 | None unless the name ends with .csv or .pdf; a CSV gives one record per row; a PDF gives one record titled by the file name |
| UtilsPreprocess.UpperCaseExtensionIgnored | utils/preprocess.py:30-37 | the suffix test is case-sensitive |
| Preprocessor.PreprocessText | preprocessor.py:7-10 | one clean step per sentence |
| Preprocessor.PreprocessTextPerSentence | preprocessor.py:8-9 | step i is sentence i cleaned, in order, and cleaning it again changes nothing |
| Preprocessor.ProcessDocument | preprocessor.py:12-24 | None unless the name ends with .csv or .pdf; a CSV gives one record per row; a PDF gives a record titled by the file name |
| Preprocessor.AgreesWithUtils | preprocessor.py:7-10 | agrees with the utils/preprocess.py cleaner on every present text |
| WikihowPreprocess.FillMissing | wikihow_sequence_reconstruction/scripts/preprocess.py:10 | a missing text becomes ''; the others are unchanged |
| WikihowPreprocess.ExtractSteps | wikihow_sequence_reconstruction/scripts/preprocess.py:13-18 | step i is tokenized sentence i cleaned without digits, one per sentence, with letters and whitespace only |
| WikihowPreprocess.ExtractedStepsHaveNoDigits | wikihow_sequence_reconstruction/scripts/preprocess.py:17 | no step holds a digit or an upper-case letter, and each is stripped |
| WikihowPreprocess.StepsColumn | wikihow_sequence_reconstruction/scripts/preprocess.py:10-21 | one step list per row: a present text gives its ExtractSteps, a missing text the steps of "" |
| Strings.Strip | src/agent/visualisation.py:31-32 | the stripped text has no whitespace at either end and is no longer than the input |
| Strings.Partition | src/agent/visualisation.py:20 | the split is at the first occurrence of the separator |
| Strings.SplitJoin | src/agent/graph.py:175 | splitting a join of separator-free parts on that separator gives the parts back |
| Strings.JoinAppend | src/agent/graph.py:340 | joining two non-empty lists of parts is joining each and putting one separator between |
| Strings.LastIndexOf | src/agent/app.py:30 | the last position of the character, or None when the character is absent |

## Left out

- The LangGraph wiring in `setup_workflow`, and the `retrieve` node (a vector-store query). Library control flow and foreign calls.
- Every LLM, embedding, search and HTTP client. Replies are inputs; prompts are not modelled.
- Chroma, the text splitters, the PDF, CSV and web loaders, and `sent_tokenize`. Each is an input function or value.
- Every file read and write, and `secure_filename`. Written files are returned as `FileWrite` values; `secure_filename` is an input function.
- Plotting, the Streamlit and Flask UI files, and the other context scripts.
- The Wikipedia tool's branch for a dict-shaped reply (graph.py:352). It is an input choice: the model takes the tool's text, or None.
- Database.Tables.RelevantDocuments: matching chunks are compared as plain text. The JSON serialisation that the table stores (quotes and escapes) is not modelled, and the converse of `LikeFindsOccurrence` (that a match implies a literal occurrence) is not proved.
- Strings.Lower: lower-cases ASCII letters only. Python's full Unicode case mapping is not modelled.
- Ingest.VectorStores.CreateArxivVectorstore: an exception is raised after the download loop, so the model does not say which download or extraction raised it; the contract only promises that the downloads made are a prefix of the planned ones.
- Ingest.VectorStores.CreateCustomVectorstore: an exception from the embedding call is not modelled; the upload route's failed build is an input of `App.UploadFile` instead.
- App.Sessions.RunGraphWorkflow: the stored dict is the same object that the run updates. This aliasing is written as a write-back of the final state when the entry is kept; in-flight updates seen through other references are not modelled.
- Graph.GradeDocuments, Graph.WebSearch, Graph.GradeGeneration, Graph.Generate: a state without "question" would raise KeyError in the source (graph.py:309, 380, 424, 270); Generate and EmptyAnswerIsError require the question. The model runs these nodes anyway, because the only caller, `run_graph_workflow`, always sets the question (app.py:110).
- UtilsPreprocess.ProcessDocument, Preprocessor.ProcessDocument: both return a CSV's rows as `CsvRecords`, a sequence of records. In utils/preprocess.py:36, `Series.to_dict()` gives a dict keyed by row index, while preprocessor.py:17 gives a list of records. The contents agree, but the model does not keep the two container shapes apart.
- App.Sessions.Ask: the request body is an `AskRequest` or an error. A JSON list or string body is not modelled as such: the `'question' not in data` test (app.py:160) treats it as a container, so one without "question" is a request with no question (400), and one holding it raises at app.py:163 (500). Both outcomes are inputs the contract covers.
- Graph.WebSearch: a search tool that raises is modelled as returning no result, because the source catches the error in each adapter.

## Findings

| source | as written | input that shows it | evidently intended | confidence | as-written member | corrected member |
|---|---|---|---|---|---|---|
| src/agent/graph.py:462 | `create_all_vectorstores` calls `get_retriever("Custom")`, which raises ValueError while no upload has built the custom store (ingest.py:185-186). It runs when graph.py is imported (graph.py:516), when the slot is still None (ingest.py:31), so importing graph.py, and with it app.py (app.py:9), fails | a fresh start of the service, before any upload | build the Wiki and ArXiv stores and leave Custom until an upload, so that the service starts | not executed | Ingest.VectorStores.StartupRaisesAsWritten | Ingest.VectorStores.StartupSucceedsCorrected |
| src/agent/app.py:143 | `generation.content` is read from the value `generate` stores, which is a plain string (graph.py:298). That raises AttributeError, which is caught at 149-151, so the run returns a processing error, after the session entry was already deleted at 140-141 | any run whose stream yields a snapshot with a generation and no error or pause | return the generated text as the answer, so that `/ask` replies 200 with it | not executed | App.AsWrittenNeverAnswers | App.CorrectedAnswers |
