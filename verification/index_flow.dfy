/**
 The two user actions of one script run and the on-disk index they share.
 "Process URLs" loads, splits, embeds and saves the kept URLs; a question is
 answered only when the index directory exists. The loader, splitter,
 embedding store and chat chain are external libraries: their results are
 parameters, and the model only decides what the application does with them.
 */
module IndexFlow {
  import opened Outcomes
  import opened Sources
  import opened UrlIntake
  import opened UpstreamErrors
  import opened ModelSelection

  /** The on-disk index: whether its directory exists, which is the only thing the
      application checks, and the chunks last saved into it. */
  datatype IndexState = IndexState(dirExists: bool, saved: Option<seq<Document>>)

  /** What the library calls of "Process URLs" return or raise. */
  datatype Builder = Builder(
    load: seq<string> -> Result<seq<Document>>,      // UnstructuredURLLoader(urls).load()
    split: seq<Document> -> Result<seq<Document>>,   // the recursive character splitter
    embed: seq<Document> -> Outcome,                 // FAISS.from_documents with the embedder
    makeDirs: Outcome,                               // os.makedirs(index_dir, exist_ok=True)
    save: seq<Document> -> Outcome)                  // vectorstore.save_local(index_dir)

  datatype ProcessReport =
    | NoUrls                        // "Please enter at least one valid URL"
    | NoContent                     // the loader returned no documents
    | NoTextContent                 // the splitter returned no chunks
    | ProcessError(message: string) // an exception inside the try block
    | Processed                     // the index was saved

  datatype ProcessResult = ProcessResult(state: IndexState, report: ProcessReport)

  /** The success path up to the directory creation: URLs given, documents loaded,
      chunks produced and embedded. */
  ghost predicate ChunksReady(urls: seq<string>, b: Builder) {
    && urls != []
    && b.load(urls).Ok? && b.load(urls).value != []
    && b.split(b.load(urls).value).Ok? && b.split(b.load(urls).value).value != []
    && b.embed(b.split(b.load(urls).value).value).Pass?
  }

  ghost function ReadyChunks(urls: seq<string>, b: Builder): seq<Document>
    requires ChunksReady(urls, b)
  {
    b.split(b.load(urls).value).value
  }

  /** The "Process URLs" branch, run on the kept URLs. */
  function ProcessUrls(st: IndexState, urls: seq<string>, b: Builder): (r: ProcessResult)
    ensures r.report == NoUrls <==> urls == []
    ensures r.report == NoContent <==> urls != [] && b.load(urls) == Ok([])
    ensures r.state.dirExists == (st.dirExists || (ChunksReady(urls, b) && b.makeDirs.Pass?))
    ensures r.report == Processed <==>
              ChunksReady(urls, b) && b.makeDirs.Pass? && b.save(ReadyChunks(urls, b)).Pass?
    ensures r.report == Processed ==> r.state.saved == Some(ReadyChunks(urls, b))
    ensures r.report != Processed ==> r.state.saved == st.saved
    ensures urls != [] && b.load(urls).Err? ==> r.report == ProcessError(b.load(urls).message)
    ensures urls != [] && b.load(urls).Ok? && b.load(urls).value != [] ==>
              var split := b.split(b.load(urls).value);
              && (split.Err? ==> r.report == ProcessError(split.message))
              && (split == Ok([]) ==> r.report == NoTextContent)
    ensures urls != [] && b.load(urls).Ok? && b.load(urls).value != [] ==>
              var split := b.split(b.load(urls).value);
              split.Ok? && split.value != [] && b.embed(split.value).Fail? ==>
                r.report == ProcessError(b.embed(split.value).message)
    ensures ChunksReady(urls, b) && b.makeDirs.Fail? ==> r.report == ProcessError(b.makeDirs.message)
    ensures ChunksReady(urls, b) && b.makeDirs.Pass? && b.save(ReadyChunks(urls, b)).Fail? ==>
              r.report == ProcessError(b.save(ReadyChunks(urls, b)).message)
  {
    if urls == [] then ProcessResult(st, NoUrls)
    else
      match b.load(urls)
      case Err(e) => ProcessResult(st, ProcessError(e))
      case Ok(data) =>
        if data == [] then ProcessResult(st, NoContent)
        else
          match b.split(data)
          case Err(e) => ProcessResult(st, ProcessError(e))
          case Ok(docs) =>
            if docs == [] then ProcessResult(st, NoTextContent)
            else
              match b.embed(docs)
              case Fail(e) => ProcessResult(st, ProcessError(e))
              case Pass =>
                match b.makeDirs
                case Fail(e) => ProcessResult(st, ProcessError(e))
                case Pass =>
                  var withDir := st.(dirExists := true);
                  match b.save(docs)
                  case Fail(e) => ProcessResult(withDir, ProcessError(e))
                  case Pass => ProcessResult(withDir.(saved := Some(docs)), Processed)
  }

  /** Processing nothing changes nothing: the empty list is refused before any load. */
  lemma NoUrlsIsNoOp(st: IndexState, b: Builder)
    ensures ProcessUrls(st, [], b) == ProcessResult(st, NoUrls)
  {
  }

  /** Empty loaded data or an empty chunk list leave the index as it was. */
  lemma EmptyContentIsNoOp(st: IndexState, urls: seq<string>, b: Builder)
    requires urls != []
    requires b.load(urls) == Ok([]) || (b.load(urls).Ok? && b.split(b.load(urls).value) == Ok([]))
    ensures ProcessUrls(st, urls, b).state == st
    ensures ProcessUrls(st, urls, b).report != Processed
  {
  }

  /** Once the directory is created the index counts as available, even when saving
      into it then fails. */
  lemma AvailableEvenIfSaveFails(st: IndexState, urls: seq<string>, b: Builder)
    requires ChunksReady(urls, b) && b.makeDirs.Pass?
    requires b.save(ReadyChunks(urls, b)).Fail?
    ensures ProcessUrls(st, urls, b).state.dirExists
    ensures ProcessUrls(st, urls, b).state.saved == st.saved
    ensures ProcessUrls(st, urls, b).report == ProcessError(b.save(ReadyChunks(urls, b)).message)
  {
  }

  /** Processing never makes the index unavailable. */
  lemma AvailabilityPersists(st: IndexState, urls: seq<string>, b: Builder)
    requires st.dirExists
    ensures ProcessUrls(st, urls, b).state.dirExists
  {
  }

  /** A rebuild replaces the saved index rather than merging into it: after a
      successful run the state does not depend on what was there before. */
  lemma RebuildReplaces(st1: IndexState, st2: IndexState, urls: seq<string>, b: Builder)
    requires ProcessUrls(st1, urls, b).report == Processed
    ensures ProcessUrls(st2, urls, b).report == Processed
    ensures ProcessUrls(st1, urls, b).state == ProcessUrls(st2, urls, b).state
  {
  }

  /** Processing the same URLs with the same library results twice leaves the index
      as processing them once did. */
  lemma ProcessIdempotent(st: IndexState, urls: seq<string>, b: Builder)
    ensures var once := ProcessUrls(st, urls, b).state;
            ProcessUrls(once, urls, b).state == once
  {
  }

  // ---------------------------------------------------------------------------
  // Asking a question
  // ---------------------------------------------------------------------------

  /** What the retrieval chain returns: the answer text and the retrieved documents. */
  datatype Answer = Answer(text: string, sources: seq<Document>)

  /** What the library calls of the question flow return or raise. Loading reads
      what the last successful save left in the directory (nothing, when no save has
      succeeded), and the chain answers from the chunks that were loaded. */
  datatype Retrieval = Retrieval(
    loadIndex: Option<seq<Document>> -> Result<seq<Document>>,  // FAISS.load_local and building the chain
    invoke: (seq<Document>, string, string) -> Result<Answer>)  // chain.invoke over the loaded chunks, for (model, question)

  /** One `chain.invoke` call, made with the selected model and the question. What
      the chain then sends to the hosted model is the library's affair. */
  datatype ChainCall = ChainCall(model: string, question: string)

  datatype QueryReport =
    | NoQuestion                                        // the question field is empty
    | ProcessFirst                                      // "Please process some URLs first ..."
    | Answered(text: string, sources: seq<SourceEntry>)
    | QueryFailed(diagnosis: Diagnosis)

  datatype QueryResult = QueryResult(report: QueryReport, calls: seq<ChainCall>)

  /** The question branch: `if query:` then `if os.path.exists(index_dir):`, then the
      index saved in the directory is loaded and the chain is asked over it. */
  function AskQuestion(st: IndexState, question: string, model: string, rt: Retrieval): (r: QueryResult)
    ensures r.report == NoQuestion <==> question == ""
    ensures r.report == ProcessFirst <==> question != "" && !st.dirExists
    ensures r.calls != [] <==> question != "" && st.dirExists && rt.loadIndex(st.saved).Ok?
    ensures r.calls != [] ==> r.calls == [ChainCall(model, question)]
    ensures r.report.Answered? ==>
              var loaded := rt.loadIndex(st.saved);
              loaded.Ok? && rt.invoke(loaded.value, model, question).Ok?
              && r.report.text == rt.invoke(loaded.value, model, question).value.text
              && r.report.sources == SourceEntries(rt.invoke(loaded.value, model, question).value.sources)
    ensures r.report.QueryFailed? ==>
              var loaded := rt.loadIndex(st.saved);
              || (loaded.Err? && r.report.diagnosis == Diagnose(loaded.message))
              || (loaded.Ok? && rt.invoke(loaded.value, model, question).Err?
                  && r.report.diagnosis == Diagnose(rt.invoke(loaded.value, model, question).message))
  {
    if question == "" then QueryResult(NoQuestion, [])
    else if !st.dirExists then QueryResult(ProcessFirst, [])
    else
      match rt.loadIndex(st.saved)
      case Err(e) => QueryResult(QueryFailed(Diagnose(e)), [])
      case Ok(chunks) =>
        var call := ChainCall(model, question);
        match rt.invoke(chunks, model, question)
        case Err(e) => QueryResult(QueryFailed(Diagnose(e)), [call])
        case Ok(answer) => QueryResult(Answered(answer.text, SourceEntries(answer.sources)), [call])
  }

  /** The chain is invoked at most with the given model, and only when the index exists. */
  lemma AskedCalls(st: IndexState, question: string, model: string, rt: Retrieval)
    ensures forall q | q in AskQuestion(st, question, model, rt).calls :: q.model == model && st.dirExists
  {
  }

  /** Without an index the chain is not invoked and the user is told to process URLs. */
  lemma NoIndexNoChainCall(st: IndexState, question: string, model: string, rt: Retrieval)
    requires question != "" && !st.dirExists
    ensures AskQuestion(st, question, model, rt) == QueryResult(ProcessFirst, [])
  {
  }

  /** A directory holding no saved index: when the store cannot load it, the question
      fails with the store's message and the chain is not invoked. */
  lemma NothingSavedNoChainCall(st: IndexState, question: string, model: string, rt: Retrieval)
    requires question != "" && st.dirExists && st.saved == None
    requires rt.loadIndex(None).Err?
    ensures AskQuestion(st, question, model, rt)
            == QueryResult(QueryFailed(Diagnose(rt.loadIndex(None).message)), [])
  {
  }

  /** A question of whitespace only is still a question (the field is not stripped). */
  lemma BlankQuestionIsAsked(st: IndexState, model: string, rt: Retrieval)
    requires st.dirExists && rt.loadIndex(st.saved).Ok?
    ensures AskQuestion(st, " ", model, rt).calls == [ChainCall(model, " ")]
  {
  }

  // ---------------------------------------------------------------------------
  // One run of the script
  // ---------------------------------------------------------------------------

  /** The widgets' values for one run. */
  datatype RunInputs = RunInputs(urlFields: seq<string>, processClicked: bool, question: string)

  /** Everything external one run depends on. */
  datatype Services = Services(
    embedderInit: Outcome,              // `FastEmbedEmbeddings()`, run before model selection
    construct: string -> Construction,
    lastResort: Construction,
    builder: Builder,
    retrieval: Retrieval)

  datatype RunResult =
    | EmbedderFailed(message: string)   // `FastEmbedEmbeddings()` raised; nothing below it runs
    | Halted(error: SelectionError)     // `llm = get_llm()` raised; nothing below it runs
    | Completed(state: IndexState, urls: seq<string>, model: string,
                processed: Option<ProcessReport>, query: QueryResult)

  /** One top-to-bottom run: collect the URLs, create the embedder, select the model,
      process when the button was clicked, then answer the question against the index
      as it now is. */
  function Run(st: IndexState, inputs: RunInputs, sv: Services): (r: RunResult)
    requires MIN_URLS <= |inputs.urlFields| <= MAX_URLS
    ensures r.EmbedderFailed? <==> sv.embedderInit.Fail?
    ensures r.EmbedderFailed? ==> r.message == sv.embedderInit.message
    ensures r.Halted? <==> sv.embedderInit.Pass? && GetLlm(sv.construct, sv.lastResort).NotSelected?
    ensures r.Halted? ==> r.error == GetLlm(sv.construct, sv.lastResort).error
    ensures r.Completed? ==> r.urls == KeepFilled(inputs.urlFields) && |r.urls| <= MAX_URLS
    ensures r.Completed? ==> Selected(r.model) == GetLlm(sv.construct, sv.lastResort)
    ensures r.Completed? && !inputs.processClicked ==> r.state == st && r.processed == None
    ensures r.Completed? && inputs.processClicked ==>
              r.processed == Some(ProcessUrls(st, r.urls, sv.builder).report)
              && r.state == ProcessUrls(st, r.urls, sv.builder).state
    ensures r.Completed? ==> r.query == AskQuestion(r.state, inputs.question, r.model, sv.retrieval)
  {
    var urls := KeepFilled(inputs.urlFields);
    match sv.embedderInit
    case Fail(e) => EmbedderFailed(e)
    case Pass =>
      match GetLlm(sv.construct, sv.lastResort)
      case NotSelected(e) => Halted(e)
      case Selected(model) =>
        if inputs.processClicked then
          var p := ProcessUrls(st, urls, sv.builder);
          Completed(p.state, urls, model, Some(p.report), AskQuestion(p.state, inputs.question, model, sv.retrieval))
        else
          Completed(st, urls, model, None, AskQuestion(st, inputs.question, model, sv.retrieval))
  }

  /** Every chain call of a run uses the selected model, and only once the index exists. */
  lemma CallsUseSelectedModel(st: IndexState, inputs: RunInputs, sv: Services)
    requires MIN_URLS <= |inputs.urlFields| <= MAX_URLS
    ensures var r := Run(st, inputs, sv);
            r.Completed? ==> forall q | q in r.query.calls :: q.model == r.model && r.state.dirExists
  {
    var r := Run(st, inputs, sv);
    if r.Completed? {
      AskedCalls(r.state, inputs.question, r.model, sv.retrieval);
    }
  }

  /** The chunks a run has just saved. */
  ghost predicate SavesChunks(inputs: RunInputs, sv: Services) {
    && ChunksReady(KeepFilled(inputs.urlFields), sv.builder) && sv.builder.makeDirs.Pass?
    && sv.builder.save(ReadyChunks(KeepFilled(inputs.urlFields), sv.builder)).Pass?
  }

  /** Processing and asking in the same run: once the chunks are saved, and the store
      loads what was saved, the chain is invoked with the question in that very run and is
      answered from the chunks just saved. */
  lemma ProcessThenAskSameRun(st: IndexState, inputs: RunInputs, sv: Services)
    requires MIN_URLS <= |inputs.urlFields| <= MAX_URLS
    requires sv.embedderInit.Pass? && GetLlm(sv.construct, sv.lastResort).Selected?
    requires inputs.processClicked && inputs.question != ""
    requires SavesChunks(inputs, sv)
    requires var chunks := ReadyChunks(KeepFilled(inputs.urlFields), sv.builder);
             sv.retrieval.loadIndex(Some(chunks)) == Ok(chunks)
    ensures Run(st, inputs, sv).Completed?
    ensures Run(st, inputs, sv).query.calls
            == [ChainCall(GetLlm(sv.construct, sv.lastResort).model, inputs.question)]
    ensures var chunks := ReadyChunks(KeepFilled(inputs.urlFields), sv.builder);
            var reply := sv.retrieval.invoke(chunks, GetLlm(sv.construct, sv.lastResort).model, inputs.question);
            var report := Run(st, inputs, sv).query.report;
            && (report.Answered? <==> reply.Ok?)
            && (report.Answered? ==> report.text == reply.value.text)
  {
  }

  /** A save that fails after the directory was created, in a fresh directory: the
      directory now exists but holds nothing, so a question in the same run fails at
      loading and the chain is not invoked. */
  lemma FailedSaveInFreshDirectory(st: IndexState, inputs: RunInputs, sv: Services)
    requires MIN_URLS <= |inputs.urlFields| <= MAX_URLS
    requires sv.embedderInit.Pass? && GetLlm(sv.construct, sv.lastResort).Selected?
    requires inputs.processClicked && inputs.question != ""
    requires st == IndexState(false, None)
    requires ChunksReady(KeepFilled(inputs.urlFields), sv.builder) && sv.builder.makeDirs.Pass?
    requires sv.builder.save(ReadyChunks(KeepFilled(inputs.urlFields), sv.builder)).Fail?
    requires sv.retrieval.loadIndex(None).Err?
    ensures Run(st, inputs, sv).Completed?
    ensures Run(st, inputs, sv).state == IndexState(true, None)
    ensures Run(st, inputs, sv).query
            == QueryResult(QueryFailed(Diagnose(sv.retrieval.loadIndex(None).message)), [])
  {
  }

  /** With only blank URL fields, clicking "Process URLs" reports the missing URLs
      and leaves the index untouched. */
  lemma BlankFieldsChangeNothing(st: IndexState, inputs: RunInputs, sv: Services)
    requires MIN_URLS <= |inputs.urlFields| <= MAX_URLS
    requires sv.embedderInit.Pass? && GetLlm(sv.construct, sv.lastResort).Selected?
    requires inputs.processClicked
    requires forall i | 0 <= i < |inputs.urlFields| :: !IsFilled(inputs.urlFields[i])
    ensures Run(st, inputs, sv).Completed?
    ensures Run(st, inputs, sv).state == st
    ensures Run(st, inputs, sv).processed == Some(NoUrls)
  {
    NothingKeptFromBlankFields(inputs.urlFields);
    NoUrlsIsNoOp(st, sv.builder);
  }
}
