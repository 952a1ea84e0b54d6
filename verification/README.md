# Article research tool: a verified model of its decisions

The application is a Streamlit script (`main.py`). The user types up to ten
news-article URLs and presses "Process URLs". The script loads the pages,
splits them into chunks, embeds them and saves a FAISS index under
`data/faiss_index`. The user then asks questions, which a retrieval chain
answers with a hosted Gemini chat model. Almost everything the script does is
a call into LangChain, FAISS, FastEmbed, Gemini or Streamlit. This project
models the decisions the script itself makes around those calls, as pure
Dafny functions, and proves what they guarantee:

- **URL intake** (`UrlIntake`). The `num_urls` fields (1 to 10) are filtered.
  A field is kept, as typed and in order, when its `strip()` is non-empty.
- **Model selection** (`ModelSelection`). `get_llm` tries three model ids in
  order. A rate-limit error moves on to the next id. Any other error reaches
  `return llm` with `llm` unbound. When every id is rate-limited, the first id
  is constructed once more.
- **Processing and asking** (`IndexFlow`). These are the "Process URLs"
  branch, the question branch, and one top-to-bottom run of the script. They
  act on a small abstract record of the on-disk index. The library calls are
  parameters.
- **Error handling** (`UpstreamErrors`). A failed question's exception
  message is classified as a rate limit, a missing model or anything else.
  For a rate limit, the suggested wait is read from a
  `retry_delay { seconds: N` annotation. The reader is the regular
  expression `retry_delay\s*{\s*seconds:\s*(\d+)` under `re.search`.
- **Source listing** (`Sources`). Each retrieved document gets a number from
  1, a label, and a preview of at most 200 characters followed by `...`.
- **String primitives** (`Text`). These are Python's `isspace`, `strip`,
  `lower`, `in` and `int()` of a digit run, on ASCII.

`Outcomes` holds the shared `Option`, `Result` and `Outcome` types.

When every model id is rate-limited, `main.py:98-105` constructs the first id,
`gemini-1.5-flash`, once more. `ModelSelection.GetLlm` does the same, and
`ModelSelection.AllRateLimitedFallsBackToFirst` proves that the result is the
first id and not the last.

## Model

| member | source | states |
|---|---|---|
| Text.Strip | main.py:42 | `strip()` is empty exactly when the field is all whitespace; otherwise it neither starts nor ends with whitespace |
| Text.StripIsInfix | main.py:42 | what `strip()` keeps is a contiguous piece of the field, with only whitespace cut on either side |
| Text.Lower | main.py:179 | `lower()` keeps the length; each ASCII capital becomes its small letter and every other character is kept |
| Text.LowerIdempotent | main.py:91 | lower-casing twice equals lower-casing once, and a lower-cased string holds no capital letter |
| Text.DecimalValue | main.py:199 | `int()` of a digit run has no more digits than the run, and its last digit is the run's last digit |
| Text.DecimalRoundTrip | main.py:199 | `int()` of the decimal spelling of n is n, so every wait the model reads can be read back |
| Text.DecimalLeadingZero | main.py:199 | a leading zero in the digit group does not change the value `int()` gives |
| UrlIntake.IsFilled | main.py:42 | a field counts as filled exactly when it holds a character that is not whitespace |
| UrlIntake.KeepFilled | main.py:39-43 | the filter keeps no more URLs than there are fields, and every kept URL is filled |
| UrlIntake.CollectUrls | main.py:37-43 | the intake loop over 1 to 10 fields returns the filter's result, hence at most 10 URLs |
| UrlIntake.KeepFilledMembers | main.py:40-43 | a string is kept exactly when it was typed into some field and is not blank |
| UrlIntake.KeepFilledIsSubsequence | main.py:40-43 | the kept URLs keep the order of the fields |
| UrlIntake.KeepFilledCounts | main.py:40-43 | each filled value is kept as often as it was typed, unstripped; blank values are never kept |
| UrlIntake.KeepFilledIdempotent | main.py:40-43 | filtering the kept URLs again keeps all of them |
| UrlIntake.NothingKeptFromBlankFields | main.py:39-43 | when every field is blank the list is empty, which the processing gate refuses |
| UrlIntake.IntakeExample | main.py:40-43 | a field of spaces and a tab is dropped, and a URL with surrounding spaces is kept with its spaces |
| UpstreamErrors.Classify | main.py:177-208 | rate limit iff the lower-cased message contains `quota` or `rate_limit`; else missing model iff it contains `model_not_found`; else other |
| UpstreamErrors.ClassifyIgnoresCase | main.py:179-202 | messages that agree after lower-casing are classified alike |
| UpstreamErrors.MarkerSurvives | main.py:179 | a marker written in any letter case anywhere in a message is found by the lower-cased test |
| UpstreamErrors.RateLimitWins | main.py:179-202 | a message that names both a rate limit and a missing model is classified as a rate limit |
| UpstreamErrors.QuotaInCapitals | main.py:179 | `QUOTA` in capitals anywhere makes a rate limit |
| UpstreamErrors.ModelNotFoundExample | main.py:202 | `model_not_found: gemini-x` is a missing model, not a rate limit |
| UpstreamErrors.MatchPrefix | main.py:197 | matching the pattern up to its group from k ends within the message, after at least the pattern's literals, and starts with its leading literal |
| UpstreamErrors.GroupAt | main.py:197-199 | `(\d+)` matches exactly where a digit stands |
| UpstreamErrors.FirstMatch | main.py:197 | `re.search` returns the leftmost position at which the pattern matches, and none when it matches nowhere |
| UpstreamErrors.RetryDelay | main.py:179-200 | a wait is given only for a rate limit containing `retry_delay`; it is the group of the leftmost match; and a rate limit with a match always gives one |
| UpstreamErrors.SkipSpacesExact | main.py:197 | a whitespace run followed by a non-space is exactly what greedy `\s*` consumes |
| UpstreamErrors.SkipDigitsExact | main.py:197-199 | a digit run followed by a non-digit is exactly what greedy `\d+` consumes |
| UpstreamErrors.MatchPrefixSound | main.py:197 | the converse of MatchLayout: where the pattern matches, the text is its literals with whitespace runs between them, and the match ends right after them |
| UpstreamErrors.MatchLayout | main.py:197 | the pattern's literals laid out with whitespace between them match, ending right after the last run |
| UpstreamErrors.LayoutGroup | main.py:197-199 | such a layout followed by a digit run yields that run's value |
| UpstreamErrors.AnnotationLayout | main.py:197 | the annotation with whitespace runs w1, w2, w3 has the shape of the pattern, and its runs are whitespace iff w1, w2, w3 are |
| UpstreamErrors.AnnotationSpelling | main.py:197 | the annotation reads `retry_delay`, w1, `{`, w2, `seconds:`, w3, the text the pattern is written for |
| UpstreamErrors.DelayAtAnnotation | main.py:197-199 | where an annotation stands, the pattern matches and reads the whole digit run |
| UpstreamErrors.NoEarlierMatch | main.py:197 | no match can start before the first `retry_delay` |
| UpstreamErrors.FirstMatchSkips | main.py:197 | the leftmost match is the first position after a stretch of non-matches |
| UpstreamErrors.RateLimitExtends | main.py:179 | appending text to a rate-limit message keeps it a rate limit |
| UpstreamErrors.FirstMatchAtAnnotation | main.py:196-199 | in a message whose first `retry_delay` is the annotation of n, `re.search` finds the match there and its group reads n |
| UpstreamErrors.RetryDelayReadsAnnotation | main.py:179-200 | round trip: a rate-limit message whose first `retry_delay` is the annotation of n yields the wait n, wherever the rate-limit marker stands in it |
| UpstreamErrors.NoMatchNoDelay | main.py:196-198 | when the pattern matches nowhere no wait is suggested, even if the message passes the `retry_delay` guard |
| UpstreamErrors.MalformedAnnotationExample | main.py:179-198 | `quota: retry_delay seconds: 5` is a rate limit containing `retry_delay`, but lacks the `{`, so no wait is suggested |
| UpstreamErrors.NoDelayOutsideRateLimit | main.py:179-200 | a message that is not a rate limit never yields a wait |
| UpstreamErrors.Diagnose | main.py:177-208 | a wait is reported only together with the rate-limit class; the class and the wait are those the message determines |
| UpstreamErrors.RetryDelayExample | main.py:196-200 | `429 rate_limit exceeded, retry_delay { seconds: 37 }` is diagnosed as a rate limit with a 37-second wait |
| Sources.Preview | main.py:175 | the preview is the first min(200, length) characters followed by `...`, so at most 203 characters |
| Sources.PreviewShowsShortContent | main.py:175 | content of at most 200 characters is shown whole and can be read back from its preview |
| Sources.PreviewStartsWithHead | main.py:175 | the content's first 200 characters begin the preview |
| Sources.PreviewDependsOnlyOnHead | main.py:175 | documents agreeing on their first 200 characters have equal previews |
| Sources.SourceLabel | main.py:172 | the label is the document's `source` metadata when it has one, and `Unknown source` otherwise |
| Sources.SourceEntries | main.py:168-175 | one entry per retrieved document, in retrieval order, the i-th numbered i + 1 with its label and preview |
| Sources.EntriesAppend | main.py:171-173 | the entries of a longer retrieval extend those of a shorter one, numbering on after it |
| ModelSelection.WalkFrom | main.py:80-96 | the loop stops at the first id that builds or fails without a rate limit, all ids before it being rate-limited, and runs out iff every id is rate-limited |
| ModelSelection.GetLlm | main.py:72-105 | the first id that builds after rate-limited ones is used; a non-rate-limit error selects nothing; if all are rate-limited, the last-resort construction decides |
| ModelSelection.AllRateLimitedFallsBackToFirst | main.py:98-105 | when every id is rate-limited and the retry builds, the first id is used, not the last |
| ModelSelection.FirstModelUsedWhenAvailable | main.py:80-89 | a first id that builds is used |
| ModelSelection.OtherErrorSelectsNothing | main.py:90-96 | a non-rate-limit error on the first id selects no model |
| ModelSelection.WalkDependsOnPrefix | main.py:80-96 | the selection depends only on the outcomes up to the id where the loop stops |
| IndexFlow.ProcessUrls | main.py:109-144 | each branch has its report: no URLs, no loaded data, no chunks, success, and `str(e)` of the first loader, splitter, embedder, `makedirs` or `save_local` exception; the directory exists afterwards iff it did or the success path reached `makedirs`; the saved chunks change only on full success |
| IndexFlow.NoUrlsIsNoOp | main.py:110-111 | processing an empty URL list reports it and changes nothing |
| IndexFlow.EmptyContentIsNoOp | main.py:119-133 | no loaded data, or no chunks, leave the index as it was |
| IndexFlow.AvailableEvenIfSaveFails | main.py:140-144 | once `makedirs` has run the index counts as available, even when `save_local` then fails |
| IndexFlow.AvailabilityPersists | main.py:140 | processing never makes an available index unavailable |
| IndexFlow.RebuildReplaces | main.py:135-141 | a successful rebuild replaces the index; the result does not depend on the earlier index |
| IndexFlow.ProcessIdempotent | main.py:109-144 | processing the same URLs again with the same library results leaves the index as the first time did |
| IndexFlow.AskQuestion | main.py:150-210 | an empty question does nothing; without the index directory the user is told to process URLs; otherwise what was last saved is loaded, a load failure is diagnosed without invoking the chain, and when it loads the chain is invoked exactly once with the model and question and its answer over the loaded chunks, or its diagnosis, is reported |
| IndexFlow.AskedCalls | main.py:150-161 | every chain call uses the given model, and happens only when the index exists |
| IndexFlow.NothingSavedNoChainCall | main.py:152-154 | a directory holding no saved index fails at loading, when the store refuses to load nothing, and the chain is not invoked |
| IndexFlow.NoIndexNoChainCall | main.py:150-210 | a question without an index invokes no chain and yields the "process URLs first" warning |
| IndexFlow.BlankQuestionIsAsked | main.py:150 | a question of whitespace only still invokes the chain, since the field is not stripped |
| IndexFlow.Run | main.py:39-210 | a run stops iff creating the embedder raises, or it succeeds and model selection raises; otherwise it keeps the filled URLs, processes only when clicked, and asks against the index as processing left it |
| IndexFlow.CallsUseSelectedModel | main.py:107-161 | every chain call of a run uses the selected model, and only once the index exists |
| IndexFlow.ProcessThenAskSameRun | main.py:109-161 | when processing saves its chunks and the store loads what was saved, a question in the same run invokes the chain once with the selected model and is answered from the chunks just saved |
| IndexFlow.FailedSaveInFreshDirectory | main.py:140-158 | when `makedirs` succeeds and `save_local` fails in a fresh directory, the directory exists but a question in the same run fails at loading and the chain is not invoked |
| IndexFlow.BlankFieldsChangeNothing | main.py:40-111 | with only blank fields, "Process URLs" reports the missing URLs and leaves the index untouched |

## Left out

- The Streamlit interface is not modelled: titles, sidebar messages, spinners, expanders and all displayed text. Only which message branch is taken is modelled, as a report value.
- `load_dotenv` and its encoding fallback are not modelled (main.py:14-18). They are configuration I/O.
- The API-key lookup and its check (main.py:23-34) are not modelled. This is configuration, and the key itself is deliberately not reproduced.
- The loader, the text splitter, the embedder, FAISS building, saving and loading, the retrieval chain and the Gemini client constructor are external libraries. Their results are parameters (`IndexFlow.Builder`, `IndexFlow.Retrieval`, `IndexFlow.Services`, the `construct` function of `ModelSelection`). Whether `FastEmbedEmbeddings()` raises is the `embedderInit` outcome. Loading is a function of what the last successful save left, and answering is a function of the loaded chunks. No property of chunk sizes, overlap, embeddings or answer quality is stated.
- IndexFlow.AskQuestion: the model does not fix how `FAISS.load_local` treats a directory holding no saved index, or whether it loads back exactly what was saved. `IndexFlow.NothingSavedNoChainCall`, `IndexFlow.FailedSaveInFreshDirectory` and `IndexFlow.ProcessThenAskSameRun` take that behaviour of the store as a precondition.
- IndexFlow.AskQuestion: what `chain.invoke` sends to the hosted model is not modelled. The model records one chain call per question that reaches `chain.invoke` (main.py:161); the chain may fail in its retriever before contacting the model, or contact it more than once.
- The constructor arguments (temperature 0.7, 300 tokens, the key) are not modelled. Only the model id is.
- `time.sleep(1)` is not modelled (main.py:137).
- The file system is not modelled beyond whether the index directory exists and which chunks the last successful save left in it (`IndexFlow.IndexState`). What `save_local` leaves behind when it fails part-way is not modelled.
- Pickle deserialization (`allow_dangerous_deserialization`) is not modelled. It has no decision of the application in it.
- `utils/rate_limit_helper.py` is not part of this model. It only prints static advice and the time.
- `run.py` is not part of this model. It only launches the script in a subprocess.
- Text.DecimalValue: Python limits `int()` of a decimal string to 4300 digits by default (CPython 3.11 and later, and the 3.7.14, 3.8.14, 3.9.14 and 3.10.7 security releases). Beyond it `int(delay_match.group(1))` at main.py:199 raises `ValueError` inside the exception handler, which ends the run. The model reads a digit run of any length, since the limit depends on the interpreter version and its `sys.set_int_max_str_digits` setting.
- Text.Strip: whitespace is ASCII only (codes 9-13 and 28-32). Python's `str.strip()` and regex `\s` also treat other Unicode spaces as whitespace.
- Text.Lower: `lower()` is modelled on ASCII letters only. Python also lower-cases other alphabets.
- UpstreamErrors.GroupAt: `\d` is ASCII 0-9 only. Python's `\d` also matches other Unicode decimal digits.
- UpstreamErrors.MatchPrefix: this is not a general regular-expression engine. Each `\s*` takes its longest run, without backtracking. For this pattern that is exact, because every `\s*` is followed by `{`, `s` or a digit, none of which is whitespace.
- Streamlit's re-run model is not modelled. `IndexFlow.Run` is one run; successive runs compose through the index state.
