# Nepali legal RAG chat — a Dafny model of its core

This project models the core of a Django chat service that answers questions about
Nepali law by retrieval-augmented generation. The model covers three source files.

- **chat/nepali_legal_chunker.py.** This file turns the pages of a legal PDF into
  retrieval chunks, in four steps:
  - it repairs the glyph damage left by legacy-font conversion (`clean_text`);
  - it drops noise lines (`is_garbage_line`);
  - it walks the lines with a state machine that follows chapter (परिच्छेद), dafa (दफा),
    numbered-section and upa-dafa (उपदफा / `(१)`) boundaries (`process_pdf_for_rag`);
  - it emits one chunk per unit, or several "split" parts when a unit exceeds the
    token budget (`_save_chunk_for_rag`, `_split_large_chunk`).
- **chat/rag_service.py.** This file covers the rest of the document pipeline:
  - the Markdown chunker, with its 650/65 token window and sentence-level overlap
    (`semantic_chunk_markdown`, `_get_overlap`);
  - the `passage: ` / `query: ` embedding prefixes;
  - the records written to the vector store (`store_in_chromadb`);
  - the conversion of a vector-store answer into ranked chunks (`retrieve_context`);
  - the prompt template (`format_rag_prompt`);
  - the naming and result of `process_document`.
- **chat/views.py.** This file holds the HTTP views. The model covers:
  - the choice of search source;
  - which collections a question searches;
  - the merge, stable sort and top-5 cut of the retrieved chunks;
  - the source tally;
  - the reply that is stored;
  - message editing;
  - the upload validation;
  - the document status lifecycle `pending → processing → completed | failed`.

Modules:

| module | file | models |
|---|---|---|
| `Outcomes` | outcomes.dfy | `Option` / `Result` |
| `Text` | text.dfy | the Python string operations the core uses: `strip`, `split`, `join`, `replace`, `str(int)`, ASCII `lower` |
| `LegalClean` | legal_clean.dfy | `clean_text`, `is_garbage_line` |
| `LegalPatterns` | legal_patterns.dfy | the four boundary regular expressions |
| `LegalChunker` | legal_chunker.dfy | the segmentation state machine, chunk saving and splitting |
| `RagService` | rag_service.dfy | `NepaliRAGService` |
| `ChatViews` | views.dfy | the view logic, with `Message` and `Document` as classes whose fields the views update |

Some operations work by updating variables in a loop: the line walk, the sentence
packer, the Markdown chunker, the overlap builder, result formatting, the retrieval
loop and the tally. Each of these is a `method` with loop invariants. Its `ensures`
ties it to a specification function, and the properties are proved as lemmas about
that function.

External services are parameters of the model:

- the tokenizer is `count: string -> nat`;
- the embedder, the vector store's `upsert` and `query`, and the Groq completion are
  functions that return a `Result`, where `Err` stands for the exception they raise;
- the PDF text of each page is an `Option<string>`, where `None` is a page whose
  extraction raised.

## Model

| member | source | states |
|---|---|---|
| Text.Strip | chat/nepali_legal_chunker.py:69 | the result of `str.strip` is no longer than its input, and it neither starts nor ends with whitespace |
| Text.BlankIffStripEmpty | chat/views.py:239 | `not s.strip()` holds exactly when every character of `s` is whitespace |
| Text.StripPadded | chat/nepali_legal_chunker.py:186 | stripping blank padding from either side of a trimmed text gives that text back |
| Text.SplitJoin | chat/nepali_legal_chunker.py:183 | joining the pieces of `s.split(sep)` with `sep` gives `s` back |
| Text.ReplaceRemovesChar | chat/nepali_legal_chunker.py:104-105 | after `replace(c, rep)` with `c` not in `rep`, `c` no longer occurs |
| Text.ReplaceAddsOnlyReplacement | chat/nepali_legal_chunker.py:104-105 | `replace` introduces no character that is in neither the text nor the replacement |
| Text.DecimalRoundTrip | chat/rag_service.py:414 | reading back the decimal digits of a natural number gives that number |
| Text.IntToStringInjective | chat/rag_service.py:414 | distinct integers have distinct `str()` renderings |
| Text.SignOfString | chat/rag_service.py:414 | `str(n)` starts with `-` exactly for negative `n`, followed by the digits of `-n` |
| Text.IntToStringHasNoUnderscore | chat/rag_service.py:414 | `str(n)` never contains `_` |
| Text.LowerAscii | chat/nepali_legal_chunker.py:65 | the ASCII model of `lower()`: each capital ASCII letter becomes its small letter (code point + 32), no capital is left, every other character stays in its place, and the length is unchanged |
| LegalClean.StandardTable | chat/nepali_legal_chunker.py:80-102 | the replacement table has 21 rows and no empty search string |
| LegalClean.RowRemovesChar | chat/nepali_legal_chunker.py:104-105 | a row that replaces a glyph `c` removes it for good, provided no later row reintroduces `c` |
| LegalClean.KeepOrDrop | chat/nepali_legal_chunker.py:116-124 | a halanta word loses exactly its last character, and only when it is not a listed Sanskrit word and has at least 3 characters |
| LegalClean.LastHalantaEnd | chat/nepali_legal_chunker.py:126 | a found match ends in a halanta that is followed by whitespace, a comma or a danda (the lookahead) |
| LegalClean.RunLength | chat/nepali_legal_chunker.py:126 | the run length is that of the longest prefix of Devanagari-block characters |
| LegalClean.StripAddsNothing | chat/nepali_legal_chunker.py:126 | the halanta substitution only deletes characters |
| LegalClean.HalantaWordInContext | chat/nepali_legal_chunker.py:116-126 | after any non-Devanagari prefix, a halanta-final word followed by a separator is rewritten by the keep-or-drop rule and the rest is processed independently |
| LegalClean.StripComposes | chat/nepali_legal_chunker.py:126 | the substitution distributes over a split after a non-Devanagari character |
| LegalClean.CleanText | chat/nepali_legal_chunker.py:74-141 | the loop over the table, the halanta pass and the fixups compute `Cleaned(table, text)` |
| LegalClean.TableRemovesArtifact | chat/nepali_legal_chunker.py:80-105 | every legacy-font artifact glyph the table targets is absent after the table pass |
| LegalClean.CleanedHasNoArtifacts | chat/nepali_legal_chunker.py:74-141 | cleaned text contains none of the artifact glyphs ¥ ः ª Ë § æ Æ, nor ZWJ or ZWNJ, provided the two quote replacements hold none of them |
| LegalClean.NgaFixupIsDead | chat/nepali_legal_chunker.py:95-139 | the `(ª)` fixup at the end never fires, because row 95 has already removed every ª |
| LegalClean.OnlyClassMatches | chat/nepali_legal_chunker.py:56-62 | a line whose stripped form is a non-empty run of the class is matched by `^\s*[C]+\s*$` |
| LegalClean.MatchIsOnlyClass | chat/nepali_legal_chunker.py:56-62 | for a class without whitespace, a line matched by `^\s*[C]+\s*$` strips to a non-empty run of the class |
| LegalClean.OnlyClassIffPaddedRun | chat/nepali_legal_chunker.py:56-62 | for a character class without whitespace, "the stripped line is a non-empty run of the class" holds exactly when `^\s*[C]+\s*$` matches the line, in both directions |
| LegalClean.GarbageLineRules | chat/nepali_legal_chunker.py:48-72 | a line is garbage exactly when it holds the URL artifact, fully matches the page-number or the header-debris regular expression, contains `lawcommission` or `www` once lower-cased, or strips to fewer than 3 characters |
| LegalPatterns.PrefixRun | chat/nepali_legal_chunker.py:35-46 | a character-class run is the longest prefix inside the class |
| LegalPatterns.LeadingNumeral | chat/nepali_legal_chunker.py:35-46 | a leading `[०-९]+` group is a non-empty numeral, and it is maximal |
| LegalPatterns.ChapterNumber | chat/nepali_legal_chunker.py:35 | a captured chapter number is a Devanagari numeral |
| LegalPatterns.DafaNumber | chat/nepali_legal_chunker.py:43 | a captured dafa number is a Devanagari numeral |
| LegalPatterns.SectionNumber | chat/nepali_legal_chunker.py:39 | a captured section number is a Devanagari numeral |
| LegalPatterns.UpaDafaNumber | chat/nepali_legal_chunker.py:46 | a captured upa-dafa number is a Devanagari numeral |
| LegalPatterns.Classify | chat/nepali_legal_chunker.py:190-259 | the marker kind matches exactly the pattern that matches the line |
| LegalPatterns.BoundaryPatternsExclusive | chat/nepali_legal_chunker.py:35-46 | no line matches two of the four boundary patterns, so the order of the `elif` chain never matters |
| LegalPatterns.ChapterStart | chat/nepali_legal_chunker.py:35 | a chapter line starts with प after leading whitespace |
| LegalPatterns.DafaStart | chat/nepali_legal_chunker.py:43 | a dafa line starts with द after leading whitespace |
| LegalPatterns.SectionStart | chat/nepali_legal_chunker.py:39 | a section line starts with a Devanagari digit after leading whitespace |
| LegalPatterns.UpaDafaStart | chat/nepali_legal_chunker.py:46 | an upa-dafa line starts with उ or `(` after leading whitespace |
| LegalPatterns.ChapterLabel | chat/nepali_legal_chunker.py:201 | the chapter label starts with परिच्छेद |
| LegalPatterns.ChapterLabelRoundTrip | chat/nepali_legal_chunker.py:201 | matching the chapter pattern against a generated chapter label recovers its number |
| LegalPatterns.DafaHeadingRead | chat/nepali_legal_chunker.py:43 | `दफा <num>` followed by a non-digit is read as dafa `<num>` |
| LegalPatterns.SectionHeadingRead | chat/nepali_legal_chunker.py:39 | `<num>.` is read as section `<num>` |
| LegalPatterns.UpaDafaHeadingRead | chat/nepali_legal_chunker.py:46 | `(<num>)` is read as upa-dafa `<num>` |
| LegalChunker.BasenameIsLastComponent | chat/nepali_legal_chunker.py:315 | the source name is the suffix of the path after its last `/`, and contains no `/` |
| LegalChunker.TitleShape | chat/nepali_legal_chunker.py:297-302 | the title is the chapter, then ` > dafa` unless the dafa is a placeholder, then ` > upa-dafa` when one is set |
| LegalChunker.SplitAtTerminators | chat/nepali_legal_chunker.py:343 | splitting at । and ॥ leaves at least one piece, and no piece contains a terminator |
| LegalChunker.SplitWithoutTerminator | chat/nepali_legal_chunker.py:343 | text without a terminator is one piece, the text itself |
| LegalChunker.SplitAtFirstTerminator | chat/nepali_legal_chunker.py:343 | for text `a`, terminator, whitespace, `b` with `a` terminator-free, the pieces are `a` and then the pieces of `b`: the terminator and the whitespace after it are all that is dropped |
| LegalChunker.PieceSentence | chat/nepali_legal_chunker.py:349-354 | a non-blank piece becomes a stripped sentence ending in one danda |
| LegalChunker.Sentences | chat/nepali_legal_chunker.py:348-354 | every kept sentence is trimmed, non-empty and ends in exactly one danda |
| LegalChunker.PackKeepsSentences | chat/nepali_legal_chunker.py:348-380 | packing loses, reorders and duplicates no sentence, and no group is empty |
| LegalChunker.PackFits | chat/nepali_legal_chunker.py:356-380 | every group stays within the token budget, unless it is a single sentence that exceeds the budget alone |
| LegalChunker.PackClosesOnlyWhenFull | chat/nepali_legal_chunker.py:356-380 | the packing is greedy: a group is closed only when the next group's first sentence would have pushed it over the budget |
| LegalChunker.GroupText | chat/nepali_legal_chunker.py:372-380 | a group's text ends in a danda and never contains ॥ |
| LegalChunker.SplitChunksShape | chat/nepali_legal_chunker.py:327-397 | split part `i` has kind `split_section` with part number `i`, the title suffix ` (भाग i)`, a text ending in a danda, and an estimate of `len // 4` |
| LegalChunker.SplitChunksJoin | chat/nepali_legal_chunker.py:327-397 | the parts' texts, joined with spaces, are exactly the unit's sentences joined with spaces, so no content is lost |
| LegalChunker.SplitLargeChunk | chat/nepali_legal_chunker.py:327-397 | the loop appends exactly `SplitChunks(text)` to the chunk list |
| LegalChunker.SaveChunk | chat/nepali_legal_chunker.py:271-325 | saving appends exactly `Flush(cursor)` to the chunk list |
| LegalChunker.BlankUnitGivesNothing | chat/nepali_legal_chunker.py:286-291 | a unit whose text is blank adds no chunk |
| LegalChunker.FlushKinds | chat/nepali_legal_chunker.py:294-325 | one `complete_section` chunk with the stripped text, title and `len // 4` tokens appears exactly when the text is non-blank and fits the budget; otherwise split parts numbered from 1 |
| LegalChunker.StepEffects | chat/nepali_legal_chunker.py:185-259 | what each kind of line does to chapter, dafa, upa-dafa, page and lines, and when it closes the open unit |
| LegalChunker.SkippedLineIsIgnored | chat/nepali_legal_chunker.py:186-188 | an empty or garbage line leaves the state unchanged |
| LegalChunker.StepChapter | chat/nepali_legal_chunker.py:190-206 | a chapter line closes the unit, sets the chapter label, resets dafa to `Header`, clears the upa-dafa and records the page |
| LegalChunker.StepDafa | chat/nepali_legal_chunker.py:208-223 | a dafa line closes the unit, sets the dafa label, clears the upa-dafa and records the page |
| LegalChunker.StepSection | chat/nepali_legal_chunker.py:225-240 | a numbered-section line acts like a dafa line |
| LegalChunker.StepUpaDafa | chat/nepali_legal_chunker.py:242-256 | an upa-dafa line closes the unit only if an upa-dafa was open, and then sets the new one |
| LegalChunker.StepBody | chat/nepali_legal_chunker.py:259 | any other line is appended to the open unit |
| LegalChunker.NoContentLoss | chat/nepali_legal_chunker.py:172-266 | the units hold, in order, exactly the stripped non-garbage lines of the readable pages |
| LegalChunker.NoLinesNoChunks | chat/nepali_legal_chunker.py:261-266 | units without lines produce no chunk |
| LegalChunker.LastUnitFlushed | chat/nepali_legal_chunker.py:261-266 | the chunks are those of the closed units, followed by those of the unit open at the end |
| LegalChunker.HandleLine | chat/nepali_legal_chunker.py:185-259 | one line of the page loop: a blank or garbage line is skipped; a chapter, dafa or section line, or an upa-dafa line while an upa-dafa is open, saves the open unit and opens the next one; any other line joins the open unit, exactly as the scan's step does, with the saved chunks those of the closed units |
| LegalChunker.ProcessPdf | chat/nepali_legal_chunker.py:143-269 | a missing file is the error `PDF file not found: <path>`; otherwise the page loop yields `ChunkDocument(pages)` |
| RagService.FirstWordLength | chat/rag_service.py:132 | `len(section.split()[0])` is the length of the leading non-whitespace run |
| RagService.CapturedHeaderLevel | chat/rag_service.py:119-132 | a header captured as 1-3 `#` then whitespace has the level given by its number of `#` |
| RagService.HeaderEffects | chat/rag_service.py:130-142 | a header adds no chunk, is appended to the current chunk, and sets the section (level 1) or the subsection (level 2) |
| RagService.ParagraphEffects | chat/rag_service.py:147-170 | a chunk closes exactly when the paragraph is not blank, the trial text exceeds 650 tokens and the current text is non-empty; the next chunk starts with the overlap |
| RagService.SemanticChunkMarkdown | chat/rag_service.py:104-182 | the nested loops compute `SemanticChunks(pieces)` |
| RagService.ChunksAreTrimmed | chat/rag_service.py:158-178 | every emitted chunk text is non-empty and stripped |
| RagService.SplitKeepConcat | chat/rag_service.py:190 | splitting with a captured terminator group loses nothing: the pieces concatenate to the text |
| RagService.OverlapStartFits | chat/rag_service.py:193-198 | the backward walk keeps a suffix within 65 tokens, and stops at the first piece that would exceed that |
| RagService.GetOverlap | chat/rag_service.py:184-200 | the loop computes `Overlap(text)` |
| RagService.OverlapIsWholePieces | chat/rag_service.py:184-200 | the raw overlap is a suffix of the text made of whole pieces, within 65 tokens, and maximal |
| RagService.EmbeddingInputs | chat/rag_service.py:217 | each chunk is embedded as `passage: ` + its text, in order |
| RagService.PrefixesKeepRolesApart | chat/rag_service.py:318 | a passage input never equals a query input, and each prefix is injective |
| RagService.StoreInChromaDB | chat/rag_service.py:231-289 | storing succeeds exactly when the upsert does, and then returns the collection name |
| RagService.StoreBatchAligned | chat/rag_service.py:262-273 | ids, documents and metadatas align with the chunks; document metadata overrides chunk keys |
| RagService.ChunkIdsDistinct | chat/rag_service.py:263 | the ids of one collection are pairwise distinct |
| RagService.RetrieveContext | chat/rag_service.py:291-349 | an error or empty result gives `[]`; otherwise result `i` carries text, metadata, score `1 - distance` and rank `i + 1`, cut at the shortest list |
| RagService.SourceBlocks | chat/rag_service.py:363-366 | one block per chunk, in order |
| RagService.BlocksFollowRanks | chat/rag_service.py:363-366 | block `i` is `[स्रोत i+1]`, a newline, then the chunk text |
| RagService.ContextBeforeQuery | chat/rag_service.py:368-382 | the prompt contains the context right after the introduction, and then the question |
| RagService.ProcessDocumentOutcome | chat/rag_service.py:386-439 | any failing stage yields `success: False` with its error; otherwise the result has the collection name, page count, chunk count and token total |
| RagService.CollectionNameInjective | chat/rag_service.py:414 | distinct (user, document) pairs get distinct collection names |
| ChatViews.ChooseSearchSource | chat/views.py:224-235 | an explicit source wins; otherwise `user` exactly when a completed document exists, else `permanent` |
| ChatViews.EditChoosesLikeNewMessage | chat/views.py:476-477 | regeneration picks the source as a new message without an explicit source does |
| ChatViews.UserRequestsShape | chat/views.py:317-338 | every user-document search asks for 3 results from a set collection of the searched documents |
| ChatViews.UserRequestsCover | chat/views.py:317-338 | every document with a collection is searched |
| ChatViews.RetrievalPlanShape | chat/views.py:317-349 | the permanent collection is searched (top 5, last) exactly for `permanent`/`all`; user collections only for `user`/`all`; nothing for any other source |
| ChatViews.GatherErrSticks | chat/views.py:330-348 | a failed retrieval call aborts the request: later calls do not change the error |
| ChatViews.GatherConcatenates | chat/views.py:317-349 | when every call succeeds, the merged list is the concatenation of the results in call order |
| ChatViews.RetrieveFromDocuments | chat/views.py:326-338 | the loop over documents computes `Gather(UserRequests(docs))` |
| ChatViews.SortDescending | chat/views.py:352 | after the sort every chunk scores at least as much as every chunk after it |
| ChatViews.SortPermutes | chat/views.py:352 | the sort keeps every gathered chunk, as often as it was gathered, and adds none |
| ChatViews.SortKeepsTies | chat/views.py:352 | chunks of equal score stay in the order they were gathered |
| ChatViews.SortByScoreIsStableSort | chat/views.py:352 | `sort(key=score, reverse=True)` yields a descending permutation that keeps the order of equal scores |
| ChatViews.TopFiveSelects | chat/views.py:351-353 | the top five are `min(5, n)` chunks, descending, each scoring at least every dropped chunk, with ties kept in encounter order |
| ChatViews.TallyCounts | chat/views.py:363-366 | the tally's counts sum to the number of chunks, and each key counts its occurrences |
| ChatViews.TallyIsAllUnknown | chat/views.py:363-366 | retrieved chunks carry no `source` key, so the tally is `{"unknown": n}` or empty |
| ChatViews.CountSources | chat/views.py:363-366 | the loop computes the tally |
| ChatViews.RagResponseOutcome | chat/views.py:288-405 | the fallback text is returned exactly when retrieval finds nothing; a reply cites 1 to 5 chunks; a retrieval error propagates |
| ChatViews.UnknownSourceFallsBack | chat/views.py:317-360 | a source other than `user`, `permanent` or `all` always gets the fallback |
| ChatViews.GenerateRagResponse | chat/views.py:288-405 | the method computes `RagResponse` |
| ChatViews.FallbackHiddenAsWritten | chat/views.py:255-267 | as written, the fallback reply is stored as the generic apology |
| ChatViews.AssistantAnswers | chat/views.py:253-268 | an error stores the apology with no sources; the fallback stores its text; a reply stores its response and sources |
| ChatViews.AddMessageOutcome | chat/views.py:213-284 | for either way of answering: blank content is rejected with `Content cannot be empty`; otherwise the user text is kept as sent, with retrieval the answer is the one for the chosen source, and without it the reply function's text or, when that raises, the apology (as written that function is missing; see `NoPlainReplyAsWritten`) |
| ChatViews.SimpleReplyAsWritten | chat/views.py:263 | `self.generate_simple_response(content)` always raises: the viewset (views.py:187-405) defines no such method |
| ChatViews.NoPlainReplyAsWritten | chat/views.py:262-268 | as written, every non-blank message sent with `use_rag` false is stored and answered with the apology and no sources |
| ChatViews.PlainReplyAnswers | chat/views.py:262-264 | with a reply function that exists, a non-blank message without retrieval is answered with that function's text and no sources |
| ChatViews.AddMessageFallback | chat/views.py:252-268 | a non-blank question that retrieval finds nothing for is answered with the apology as written, and with the fallback text once corrected |
| ChatViews.ValidateEdit | chat/views.py:437-448 | an accepted edit is non-empty and stripped |
| ChatViews.EditAccepted | chat/views.py:437-448 | an edit is accepted exactly for a user message with non-blank content; the two errors are as in the source |
| ChatViews.Message.Edit | chat/views.py:437-454 | the stored content becomes the stripped text when accepted and is unchanged otherwise; the role is unchanged |
| ChatViews.EditFallbackFailsAsWritten | chat/views.py:479-503 | as written, regenerating into the fallback fails |
| ChatViews.EditReplyAnswers | chat/views.py:479-503 | regeneration succeeds exactly when generation does; the fallback stores its text; errors carry the `Failed to generate response: ` prefix |
| ChatViews.ValidateUpload | chat/views.py:105-116 | an upload is accepted exactly when a file is given and its name ends in `.pdf`; a missing file is `No file provided` |
| ChatViews.Settle | chat/views.py:163-185 | the document completes exactly when processing succeeded |
| ChatViews.SettleReports | chat/views.py:163-185 | success records collection, pages and chunks; a failure records the processing error or the exception text |
| ChatViews.NothingCompletesAsWritten | chat/views.py:163-185 | as written, every outcome ends `failed`, and a success ends with error `'parsing_method'` |
| ChatViews.Document.constructor | chat/views.py:119-125 | a new document is `pending`, without a collection or counts |
| ChatViews.Document.Conclude | chat/views.py:163-185 | completion sets status, collection, pages, chunks and `processed`; failure sets status and message and keeps the rest |
| ChatViews.Document.ProcessInBackground | chat/views.py:137-185 | the status ends `completed` exactly when processing succeeded, with its collection and counts, marked processed, the error message kept; otherwise `failed` with the message, collection, counts and processed flag kept; file name and conversation kept either way |
| ChatViews.Document.ProcessInBackgroundAsWritten | chat/views.py:137-185 | as written, the status always ends `failed` with the as-written message; collection, counts, processed flag, file name and conversation are kept |
| ChatViews.Upload | chat/views.py:98-135 | a rejected upload returns the validation error; an accepted one creates a fresh `pending` document with a normalized conversation id |

## Left out

- Reading the PDF, the Preeti-to-Unicode conversion and LlamaParse are external libraries. Each page's converted text is an input, and `None` stands for a page whose extraction raised (nepali_legal_chunker.py:172-181). The parser's Markdown output and its page count are inputs of `process_document`.
- The header split in `semantic_chunk_markdown` (the regular expression at rag_service.py:119) is not modelled. The chunker receives the resulting pieces as a sequence. `RagService.CapturedHeaderLevel` covers the level of the headers that split captures.
- Tokenizer, embedding model, ChromaDB and the Groq completion are function parameters. Their exceptions are `Err` values. The database and DRF serializers are not modelled.
- The `uuid4` chunk ids (nepali_legal_chunker.py:307, 362, 385) are random and are left out. The `source` field is modelled as the file's base name.
- Background threads, logging and `print` are not modelled.
- `processed_at = timezone.now()` is a boolean `processed`.
- The `processing` status (views.py:147) is set before the pipeline runs and always overwritten by its conclusion. Because the model has no concurrency, no reader can observe it in between.
- In `_process_document_async`, the paths where the document row has vanished (views.py:146, 179-185) are not modelled.
- The two quote rows of the replacement table (nepali_legal_chunker.py:98-99) are parameters of `LegalClean.StandardTable`. Their replacement characters are curly quotes whose exact code points are not pinned down, so the model only requires that they contain no artifact glyph.
- `Path(pdf_path).name` is the `fileName` input.
- The deletion of the following assistant message in `update` (views.py:456-468) is not modelled. Only the validation, the stored content and the regenerated reply are.
- Both view calls pass keyword arguments the service signatures do not accept: `use_permanent_kb` in views.py:330-348 and `add_to_permanent_kb` in views.py:156-161. Python rejects such a call with a `TypeError`. Retrieval and processing are therefore abstract parameters of the views model, and their `Err` covers that exception.
- `use_rag` truthiness is a boolean.
- Relevance scores are `real`, not floating point. Equal scores are compared exactly.
- ChatViews.SortByScore: modelled on values. The in-place `list.sort` and its aliasing are not modelled.
- Text.LowerAscii: lower-cases ASCII letters only, which is weaker than Python's Unicode `str.lower`. This only affects which non-ASCII lines contain `lawcommission` or `www`.
- The `TypeError` message raised by indexing a string is modelled as one fixed string, whatever the Python version's wording.
- `generate_simple_response` (views.py:263) is defined nowhere in the viewset, so the reply without retrieval always ends in the apology. `ChatViews.AddMessage` takes that reply as a parameter; `SimpleReplyAsWritten` is the as-written one.
- Three behaviours of the code worth noting, which the model keeps:
  - the relevance score is `1 - distance` (rag_service.py:339);
  - merged results are not deduplicated (views.py:351-353);
  - a unit without any sentence emits no split part (nepali_legal_chunker.py:382-397).

## Findings

| source | as written | input that shows it | evidently intended | confidence | as-written member | corrected member |
|---|---|---|---|---|---|---|
| chat/views.py:170 | after a successful `process_document`, the log line reads `result['parsing_method']`, which the result dict (rag_service.py:426-432) never contains; the `KeyError` skips `save()`, and the handler marks the document `failed` with message `'parsing_method'` | a PDF that processes successfully. As written the defect is latent: the call at views.py:156-161 already raises `TypeError`, so line 170 is reached only once that call is repaired | the document is saved as `completed` with its collection id, page count and chunk count | not executed | ChatViews.SettleAsWritten, ChatViews.NothingCompletesAsWritten, ChatViews.Document.ProcessInBackgroundAsWritten | ChatViews.Settle, ChatViews.SettleReports, ChatViews.Document.ProcessInBackground |
| chat/views.py:260 | when retrieval finds nothing, `generate_rag_response` returns the fallback as a bare string (views.py:355-360); indexing it with `'response'` raises `TypeError`, so `add_message` stores the generic apology, and `update` (views.py:484) answers HTTP 500 | a request that makes no retrieval call: a source other than `user`/`permanent`/`all`, or `user` when no completed document has a collection id. As written every retrieval call raises `TypeError` (views.py:330-348), so only these reach the fallback | the fallback text itself is stored as the assistant's reply | not executed | ChatViews.AssistantOfAsWritten, ChatViews.FallbackHiddenAsWritten, ChatViews.EditReplyAsWritten, ChatViews.EditFallbackFailsAsWritten | ChatViews.AssistantOf, ChatViews.AssistantAnswers, ChatViews.EditReply, ChatViews.EditReplyAnswers |
| chat/views.py:263 | `add_message` answers a message sent with `use_rag` false by calling `self.generate_simple_response(content)`, which `ConversationViewSet` (views.py:187-405) never defines; the `AttributeError` is caught at views.py:265-268, so the apology is stored with no sources | any non-blank message posted with `use_rag` false | the message is answered with a plain (non-retrieval) reply | not executed | ChatViews.SimpleReplyAsWritten, ChatViews.NoPlainReplyAsWritten | ChatViews.PlainReplyAnswers, ChatViews.AddMessageOutcome |
