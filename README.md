# HR-policy RAG backend: verified model of the retrieval core

This project models the retrieval core of a FastAPI backend in Dafny: a
retrieval-augmented question-answering service over uploaded HR policy
documents. The model has three parts.

- **The vector store** (`VectorStores.VectorStore`) keeps three parallel
  structures: the FAISS index, the chunk list `documents` and the
  `metadata` list. They stay aligned by position.
  - `Valid()` states the class invariant: the metadata records are copies of
    the chunks, and the index holds exactly the chunks' embeddings in order.
    There is no index while the store is empty.
  - `AddDocuments`, `RemoveDocument`, `Clear` and `Load` update the fields in
    place and preserve the invariant.
  - `Search` walks the index's answer slot by slot, as the source does. It is
    proved equal to `SearchResults`, whose meaning is proved separately:
    nearest first, no chunk left out nearer than one returned, and each chunk
    paired with its own record.
- **The FAISS index and the embedder** (`FlatIndex`) are abstract.
  - The embedder is a deterministic function from text to an integer vector
    of fixed dimension.
  - `IndexFlatL2` is an append-only list of vectors, and its search is an
    exact k-nearest selection under the squared Euclidean distance.
  - A search always answers `k` slots and pads with `-1` when the index holds
    fewer vectors, as FAISS does.
- **The question service** (`Rag.RagService`) answers one question.
  `conversation_store` becomes its field `conversations`. The answer is built
  in these steps:
  1. Expand the query: when the lower-cased question contains one of the
     indicator words as a substring, the session's last question is put in
     front.
  2. Search the store.
  3. When nothing is found, give the fixed "no results" reply.
  4. Otherwise, join the result texts into the context, and group the
     matches by filename in first-seen order, three per file.
  5. Build the history text from the last two turns.
  6. Call the language model, or fall back to the context excerpt when the
     call fails.
  7. Remember the turn, keeping the last five per session.

  `GetDocumentCount` counts the distinct non-empty filenames.
- **The document processor** (`TextClean`, `DocProcessor`):
  - `clean_extracted_text` is written out step by step. Each regular
    expression becomes a left-to-right scan that makes the same choices as
    `re.sub`.
  - The cleaned text has no run of three dots, dashes or underscores, and no
    whitespace except single spaces. Cleaning is idempotent.
  - `extract_text` dispatches on the file type. Each reader cleans its text
    before returning it, so the extracted text is clean too. `process_document`
    numbers the chunks.
- **The saved files** (`Persistence`): `save_index`, and the reload that
  `search` and `__init__` perform when the store has no index. This part
  carries the one defect listed under "## Findings".

`Common` holds `Option`, `Result`, `Min`, `Take`, `LastN` and `Distinct`.

The model keeps these behaviours of the code:
- Every metadata record of one `add_documents` batch carries the same
  `doc_id`: the chunk count after the append, minus one.
- Removal copies the records unchanged and does not renumber them.
- Query expansion tests for substrings, not whole words, so "with" triggers
  it through "it" (`Rag.SubstringTrigger`).
- A chunk without a filename is grouped under `"Unknown"`, but is not counted
  as a document.

Details of the code that the model keeps as written:
- **`doc_id`**: one `add_documents` batch shares a single `doc_id`, not one per
  record (vector_store.py:96).
- **No renumbering on removal**: `remove_document` copies the surviving
  records unchanged (vector_store.py:226).
- **`load_index`**: it does not compare the index size with the chunk count
  after loading. It resets the store only when a read raises
  (vector_store.py:185-198).
- **Snippets**: `"..."` is always appended after the first 200 characters,
  even when the text is shorter (rag_service.py:105).
- **Form feed at line 50 of pdf_processor.py**: the pattern looks empty on
  screen, but the file holds a form feed character between the quotes. It is
  modelled as a second removal of U+000C. After step 5 both removals change
  nothing either way.

## Model

| member | source | states |
|---|---|---|
| TextClean.Run | app/services/pdf_processor.py:40-47 | a greedy repetition: the longest prefix drawn from the class, so the next character is outside it |
| TextClean.LastNewline | app/services/pdf_processor.py:37 | the last newline in a window: -1 exactly when the window has none, and otherwise no newline lies after the one found |
| TextClean.RemoveAll | app/services/pdf_processor.py:50-51 | no occurrence of the removed character is left |
| TextClean.RemoveAllKeepsOthers | app/services/pdf_processor.py:50-51 | every other character is kept as often as it occurs: the result's multiset is the input's with the removed character's count set to zero |
| TextClean.RemoveAllAppend | app/services/pdf_processor.py:50-51 | the removal distributes over concatenation, so the kept characters stay in their order |
| TextClean.TrimStart | app/services/pdf_processor.py:56 | a suffix of the input that does not start with whitespace, and everything cut off before it is whitespace |
| TextClean.TrimEnd | app/services/pdf_processor.py:56 | a prefix of the input that does not end with whitespace, and everything cut off after it is whitespace |
| TextClean.StripSlice | app/services/pdf_processor.py:56 | `strip()` gives a slice of its input with no whitespace at either end, and the parts cut off at both ends are whitespace |
| TextClean.DotLeaderAt | app/services/pdf_processor.py:34 | the contract is only that `n` is at most the length of `s`; the match it computes (whitespace, four or more dots, whitespace, before an alphanumeric character) is described in its doc comment, and no lemma compares it with `re.sub` |
| TextClean.JoinDotLeaders | app/services/pdf_processor.py:34 | step 1: after an alphanumeric character, a dot leader of four or more dots with the whitespace around it, followed by an alphanumeric character, becomes one space; its properties are in JoinDotLeadersIdentity and CleanOutput |
| TextClean.PageLeaderAt | app/services/pdf_processor.py:37 | the contract is only that `n` is at most the length of `s`; the match it computes (four or more dots, whitespace, digits, whitespace up to a line end, giving whitespace back to the last newline) is described in its doc comment, and no lemma compares it with `re.sub` |
| TextClean.StripPageLeaders | app/services/pdf_processor.py:37 | step 2: four or more dots, whitespace and a page number at the end of a line become one space, with `$` matching before a newline or at the end; its properties are in StripPageLeadersIdentity and CleanOutput |
| TextClean.ReplaceRuns | app/services/pdf_processor.py:40-47 | steps 3 to 5: each run of at least `min` characters of the class becomes one space; its properties are in ReplaceRunsBreaksRuns, ReplaceRunsKeepsNoLongRun and SquashSpaces |
| TextClean.BreakRunAt | app/services/pdf_processor.py:54 | the contract is only that `n` is at most the length of `s`; the match it computes (a newline, whitespace, and up to the last newline of that whitespace) is described in its doc comment, and no lemma compares it with `re.sub` |
| TextClean.NormalizeBreaks | app/services/pdf_processor.py:54 | step 7: a newline, whitespace and a newline become a blank line; its properties are in NormalizeBreaksIdentity |
| TextClean.Strip | app/services/pdf_processor.py:56 | `str.strip()`: TrimEnd after TrimStart; its properties are in StripSlice |
| TextClean.Clean | app/services/pdf_processor.py:26-56 | `clean_extracted_text`: empty input is returned as it is, otherwise the seven steps in order and then `strip()`; its properties are in CleanOutput, CleanFixesCleaned and CleanIdempotent |
| TextClean.ReplaceRunsBreaksRuns | app/services/pdf_processor.py:40-44 | after `c{3,}` becomes a space, no run of three `c` is left |
| TextClean.ReplaceRunsKeepsNoLongRun | app/services/pdf_processor.py:40-47 | a later substitution never creates a run of three of another character |
| TextClean.SquashSpaces | app/services/pdf_processor.py:47 | after `\s+` becomes a space, the only whitespace is single plain spaces |
| TextClean.JoinDotLeadersIdentity | app/services/pdf_processor.py:34 | step 1 changes nothing in a text without three dots in a row |
| TextClean.StripPageLeadersIdentity | app/services/pdf_processor.py:37 | step 2 changes nothing in a text without three dots in a row |
| TextClean.NormalizeBreaksIdentity | app/services/pdf_processor.py:54 | step 7 changes nothing in a text without newlines |
| TextClean.CleanOutput | app/services/pdf_processor.py:26-56 | empty input comes back unchanged; the output has no run of three `.`, `-` or `_`, no whitespace except single plain spaces (so no newline or form feed), and no leading or trailing whitespace |
| TextClean.BlanksExcludeBreaks | app/services/pdf_processor.py:47-54 | text whose only whitespace is the plain space has no form feed and no newline |
| TextClean.CleanFixesCleaned | app/services/pdf_processor.py:26-56 | every step leaves a cleaned text as it is |
| TextClean.CleanIdempotent | app/services/pdf_processor.py:26-56 | cleaning twice equals cleaning once, so the re-cleaning of extracted text is harmless |
| DocProcessor.Read | app/services/pdf_processor.py:92-127 | one reader: its text passed through `clean_extracted_text` (lines 92, 118, 127), or its error wrapped; no contract of its own, its property is in ExtractedIsClean |
| DocProcessor.ExtractText | app/services/pdf_processor.py:132-140 | `pdf`, `docx` and `txt` go to their own reader; exactly the other types fail with the unsupported-type error |
| DocProcessor.ExtractedIsClean | app/services/pdf_processor.py:92-127 | each reader cleans its text before returning it (lines 92, 118, 127), so extracted text is clean and `total_characters` counts cleaned text |
| DocProcessor.CleanEach | app/services/pdf_processor.py:145 | one entry per window; that entry `i` is window `i` cleaned is in CleanEachAt |
| DocProcessor.ChunkText | app/services/pdf_processor.py:142-146 | one cleaned chunk per window of the splitter |
| DocProcessor.CleanEachAt | app/services/pdf_processor.py:145 | chunk `i` is window `i` cleaned |
| DocProcessor.ChunksAreClean | app/services/pdf_processor.py:142-146 | every chunk handed on is clean text |
| DocProcessor.Number | app/services/pdf_processor.py:153-159 | one record per chunk, in order; record `i` of `n` has `chunk_id == i` and `total_chunks == n` |
| DocProcessor.ProcessDocument | app/services/pdf_processor.py:148-169 | fails exactly when extraction fails, wrapping its error; otherwise chunk `i` of `n` has `chunk_id == i` and `total_chunks == n`, and the totals are `n` and the length of the text |
| FlatIndex.EmbedAll | app/services/vector_store.py:75-79 | one embedding per text, in order |
| FlatIndex.EmbedDim | app/services/vector_store.py:83-85 | embeddings all have the model's dimension, the one the new index is created with |
| FlatIndex.Add | app/services/vector_store.py:91 | the index keeps its dimension and its vectors, and the new ones follow in order |
| FlatIndex.ArgMin | app/services/vector_store.py:125 | a candidate at least as near as every other |
| FlatIndex.Select | app/services/vector_store.py:125 | `min(k, n)` positions, all in range, drawn from the candidates |
| FlatIndex.SelectSorted | app/services/vector_store.py:125 | the selection is ordered nearest first |
| FlatIndex.SelectExact | app/services/vector_store.py:125 | no candidate left out is nearer than one selected |
| FlatIndex.SelectDistinct | app/services/vector_store.py:125 | no position is selected twice |
| FlatIndex.KNearest | app/services/vector_store.py:125 | `min(k, ntotal)` positions, all in range |
| FlatIndex.KNearestNearest | app/services/vector_store.py:125 | the k-nearest answer is distinct, nearest first and exact over every stored vector |
| FlatIndex.Search | app/services/vector_store.py:125 | always `k` slots |
| FlatIndex.SearchSlots | app/services/vector_store.py:125-131 | slot `i` holds the `i`-th nearest position with its distance, and holds `-1` exactly when `i` reaches the number of vectors |
| VectorStores.Texts | app/services/vector_store.py:75 | the texts of the chunks, in order |
| VectorStores.Records | app/services/vector_store.py:96 | one record per chunk of the batch, each carrying the chunk and the same `doc_id` |
| VectorStores.Keeps | app/services/vector_store.py:214 | `doc.get("filename") != filename`: a chunk without a filename is always kept; no contract of its own |
| VectorStores.KeptPositions | app/services/vector_store.py:211-215 | increasing positions, in range, of chunks not belonging to the file |
| VectorStores.KeptComplete | app/services/vector_store.py:211-215 | every chunk not belonging to the file has its position kept |
| VectorStores.KeptAll | app/services/vector_store.py:211-219 | every position is kept exactly when no chunk belongs to the file |
| VectorStores.Pick | app/services/vector_store.py:225-226 | the elements at the kept positions, in order |
| VectorStores.FilterOut | app/services/vector_store.py:211-226 | the chunks not belonging to the file, in their order, with no more of them than before; its properties are in FilterOutMembers, PickKept, FilterOutAbsent and FilterOutRemovesAll |
| VectorStores.FilterOutMembers | app/services/vector_store.py:211-226 | a chunk survives a removal exactly when it was stored and does not belong to the file |
| VectorStores.PickKept | app/services/vector_store.py:211-226 | picking the kept positions is the order-preserving filter of the chunks |
| VectorStores.FilterOutAbsent | app/services/vector_store.py:217-219 | removing a file with no chunks changes nothing |
| VectorStores.FilterOutRemovesAll | app/services/vector_store.py:211-226 | after a removal no chunk of the file is left |
| VectorStores.KeepIndices | app/services/vector_store.py:211-215 | the loop builds exactly the kept positions |
| VectorStores.Chunks | app/services/vector_store.py:96 | the chunk each record was copied from |
| VectorStores.EmbedAppend | app/services/vector_store.py:91-95 | embedding the extended chunk list is embedding the old list followed by the batch |
| VectorStores.ChunksAppend | app/services/vector_store.py:95-96 | the records of the extended list are copies of the extended chunks |
| VectorStores.AlignedAppend | app/services/vector_store.py:83-96 | appending a batch to the index, the chunks and the records keeps them aligned |
| VectorStores.ChunksPick | app/services/vector_store.py:225-226 | picking records and picking chunks agree |
| VectorStores.AlignedPick | app/services/vector_store.py:225-242 | the kept chunks and records with a rebuilt index, or none, are aligned |
| VectorStores.VectorStore.Valid | app/services/vector_store.py:66-101 | the class invariant: one record per chunk, copied from it, and an index holding exactly the chunks' embeddings in order, or no index when there are no chunks; every method that changes the store keeps it |
| VectorStores.VectorStore.AddDocuments | app/services/vector_store.py:66-101 | an empty batch changes nothing; otherwise the chunks and records are appended with the batch's `doc_id`, earlier vectors are kept, and alignment holds |
| VectorStores.VectorStore.Score | app/services/vector_store.py:135 | the distance between the query's embedding and chunk `p`'s, the `score` of a result; no contract of its own, its ordering is in SearchResultsRanked |
| VectorStores.VectorStore.Ranked | app/services/vector_store.py:121-125 | `min(k, len(documents))` positions, all in range |
| VectorStores.VectorStore.RankedNearest | app/services/vector_store.py:121-125 | the ranked chunks are distinct, nearest to the query first, and no chunk left out is nearer |
| VectorStores.VectorStore.SearchResults | app/services/vector_store.py:103-143 | no results for an empty store, otherwise `min(k, len(documents))` of them |
| VectorStores.VectorStore.SearchResultsRanked | app/services/vector_store.py:128-141 | result `i` pairs the `i`-th ranked chunk with its own record, its distance and rank `i + 1`; scores never decrease |
| VectorStores.VectorStore.SlotResult | app/services/vector_store.py:130-137 | the guard `0 <= idx < len(documents)` passes exactly for the slots that become results |
| VectorStores.VectorStore.Search | app/services/vector_store.py:103-143 | the slot-by-slot loop returns exactly the specified results |
| VectorStores.VectorStore.RemoveDocument | app/services/vector_store.py:203-251 | returns whether some chunk belongs to the file; if none does, nothing changes; otherwise the chunks and records become the kept ones, copied unchanged and in order, with the index rebuilt or dropped and alignment kept |
| VectorStores.VectorStore.Clear | app/services/vector_store.py:253-258 | no index and no chunks or records |
| VectorStores.VectorStore.Load | app/services/vector_store.py:177-200 | a failed read resets all three structures; no saved artifacts leaves the store as it was |
| VectorStores.RemoveTwice | app/services/vector_store.py:203-251 | a second removal of the same file answers false, and the store holds the filtered chunks |
| VectorStores.ClearTwice | app/services/vector_store.py:253-258 | clearing twice leaves the state of clearing once |
| Persistence.SaveAsWritten | app/services/vector_store.py:145-175 | `save_index` as written: with no index nothing is written and the old files stay |
| Persistence.Reload | app/services/vector_store.py:107-112 | a store with no index loads the saved files when they exist (lines 185-192); otherwise it is left as it is |
| Persistence.OnlyFileHasFile | app/services/vector_store.py:211-219 | when removing a file leaves no chunk of a non-empty list, that file had chunks |
| Persistence.StaleReload | app/services/vector_store.py:145-175 | as written, removing the last file saves nothing, so the next reload brings back the saved state with the removed file's chunks |
| Persistence.Save | app/services/vector_store.py:145-175 | `save_index` as intended: with no index the files are deleted, as `clear` does |
| Persistence.ReloadAfterSave | app/services/vector_store.py:107-112 | with the intended save, reloading an aligned store gives exactly the saved state, from the store itself and from a fresh start |
| Persistence.RemovedStaysRemoved | app/services/vector_store.py:203-251 | with the intended save, a removed file stays removed after a reload |
| Rag.ToLower | app/services/rag_service.py:69 | the same length, with ASCII letters lower-cased |
| Rag.ContainsIff | app/services/rag_service.py:69 | `sub in s` holds exactly when `sub` occurs at some offset |
| Rag.ContainsAt | app/services/rag_service.py:69 | an occurrence at an offset makes `sub in s` true |
| Rag.IsVague | app/services/rag_service.py:68-69 | some indicator word occurs as a substring of the lower-cased question; its behaviour is in FollowUpIsVague and SubstringTrigger |
| Rag.SearchQuery | app/services/rag_service.py:65-76 | the query ends with the question; it differs from the question exactly when the question is vague and the session has a turn, and then it is the last question, a space and the question |
| Rag.FollowUpIsVague | app/services/rag_service.py:68-69 | a question saying "those" is vague |
| Rag.FollowUpExpands | app/services/rag_service.py:65-76 | a follow-up saying "those" is searched together with the previous question |
| Rag.SubstringTrigger | app/services/rag_service.py:68-69 | the test is on substrings: "with" makes a question vague |
| Rag.NoHistoryNoExpansion | app/services/rag_service.py:69-72 | with no remembered turn the question is searched as asked |
| Rag.Join | app/services/rag_service.py:120 | `sep.join(parts)`; its property is in JoinContains |
| Rag.Context | app/services/rag_service.py:94-120 | the result texts joined by the separator; its property is in ContextHasEveryResult |
| Rag.JoinContains | app/services/rag_service.py:120 | every part occurs in the joined string |
| Rag.ContextHasEveryResult | app/services/rag_service.py:94-120 | the text of every result reaches the context |
| Rag.FileOf | app/services/rag_service.py:97 | `get("filename", "Unknown")`; no contract of its own |
| Rag.Files | app/services/rag_service.py:97 | each result's filename, `"Unknown"` when it has none |
| Rag.Snippet | app/services/rag_service.py:105 | the first 200 characters of the text, then `"..."` |
| Rag.FirstSeen | app/services/rag_service.py:97-101 | the distinct filenames in order of first appearance, no more of them than results; its properties are in FirstSeenOrder |
| Rag.FirstSeenOrder | app/services/rag_service.py:94-111 | the group order lists each filename once, exactly the filenames of the results, ordered by their first appearance |
| Rag.MatchesFor | app/services/rag_service.py:104-107 | a file's matches in result order, no more of them than results; its property is in MatchesForIff |
| Rag.MatchesForIff | app/services/rag_service.py:97-107 | a file's matches are exactly the matches of the results from that file |
| Rag.GroupsOf | app/services/rag_service.py:94-107 | `sources_by_file` after the loop; no contract of its own, its property is in GroupsOfMatches |
| Rag.GroupsOfMatches | app/services/rag_service.py:94-107 | the groups hold exactly the files of the results, each with all of its matches in result order |
| Rag.GroupStep | app/services/rag_service.py:94-107 | one loop step: a file is new exactly when it has no group, and then it joins the order |
| Rag.TextsStep | app/services/rag_service.py:95 | one loop step appends the result's text to the context parts |
| Rag.SourcesShape | app/services/rag_service.py:109-118 | no file appears twice, every file of the results appears, and each group holds one to three matches |
| Rag.SourceMatchesBelong | app/services/rag_service.py:104-118 | every match shown under a file comes from a result of that file |
| Rag.Sources | app/services/rag_service.py:109-118 | one group per file in first-seen order, each with at most three matches; its properties are in SourcesShape and SourceMatchesBelong |
| Rag.FormatTurn | app/services/rag_service.py:127 | one turn as the f-string shows it, the answer cut to 150 characters; no contract of its own |
| Rag.FormatTurns | app/services/rag_service.py:126-127 | one formatted entry per turn, in order |
| Rag.HistoryText | app/services/rag_service.py:122-127 | the formatted last two turns of the session, or `""`; its property is in HistoryLastTwo |
| Rag.HistoryLastTwo | app/services/rag_service.py:122-127 | no session or no turns gives `""`; one turn gives that turn; otherwise the last two turns, oldest first |
| Rag.Remember | app/services/rag_service.py:142-144 | the turn appended, then the last five kept; its properties are in RememberShape, RememberThenLastFive and ReplayKeepsLastFive |
| Rag.RememberShape | app/services/rag_service.py:133-144 | the new turn comes last, after the newest earlier turns, and at most five are kept |
| Rag.RememberThenLastFive | app/services/rag_service.py:142-144 | trimming to five loses nothing that a later last-five would keep |
| Rag.ReplayKeepsLastFive | app/services/rag_service.py:133-144 | after any series of questions the session holds the last five turns in order |
| Rag.SessionMemory | app/services/rag_service.py:133-144 | from an empty session, `n` questions leave exactly the last `min(n, 5)` turns |
| Rag.Fallback | app/services/rag_service.py:213-215 | the fixed prefix followed by the first 1000 characters of the context |
| Rag.GenerateAnswer | app/services/rag_service.py:203-215 | the model's response, or the fallback when the call fails; its property is in AnswerOrFallback |
| Rag.AnswerOrFallback | app/services/rag_service.py:203-215 | a model response is passed on; on failure the answer is the fixed prefix followed by the first 1000 characters of the context |
| Rag.DocumentNames | app/services/rag_service.py:223-229 | the set of non-empty filenames of the chunks; its properties are in DocumentNamesIff and NamesAtMostChunks |
| Rag.DocumentNamesIff | app/services/rag_service.py:222-227 | a name is counted exactly when some chunk carries it as a non-empty filename |
| Rag.NamesAtMostChunks | app/services/rag_service.py:222-229 | there are never more documents than chunks |
| Rag.NamesStep | app/services/rag_service.py:224-227 | one loop step adds the chunk's filename when it is non-empty |
| Rag.RemoveDropsName | app/services/rag_service.py:217-229 | removing a file takes exactly its name out of the document count |
| Rag.RagService.GroupByFile | app/services/rag_service.py:90-107 | the loop builds the context parts, the first-seen file order and the groups |
| Rag.RagService.Assemble | app/services/rag_service.py:90-120 | the context and the sources the loops build are the specified ones |
| Rag.RagService.AskQuestion | app/services/rag_service.py:61-152 | the search uses the expanded query; with no results the reply is the fixed one and memory is untouched; otherwise the reply carries the answer, the sources and the result count, and the session remembers the turn, keeping five |
| Rag.RagService.Respond | app/services/rag_service.py:81-152 | after the search: no results give the fixed reply with memory untouched; otherwise the answer comes from the context and the last two turns, and the new turn is remembered |
| Rag.RagService.GetDocumentCount | app/services/rag_service.py:217-229 | the number of distinct non-empty filenames, 0 for an empty store and never more than the chunk count |

## Findings

| source | as written | input that shows it | evidently intended | confidence | as-written member | corrected member |
|---|---|---|---|---|---|---|
| app/services/vector_store.py:145-175 | `save_index` writes nothing when the index is None, and `remove_document` sets it to None after removing the last file (line 242), so the old files stay on disk | upload one file `a.pdf`, remove it, then search: `search` finds no index, calls `load_index` (lines 107-112) and answers with the chunks of `a.pdf` | with no index, the saved files are deleted, as `clear` does, so a reload gives back the emptied store | not executed | Persistence.StaleReload (Persistence.SaveAsWritten) | Persistence.ReloadAfterSave (Persistence.Save) |

The class `VectorStores.VectorStore` follows the corrected behaviour: its `Search` answers `[]` for a store without an index.

## Left out

- The sentence-transformer model, its random-vector fallback and float arithmetic are not modelled. The embedder is a deterministic function to integer vectors of one fixed dimension. Distance is the squared Euclidean distance, which orders vectors as L2 does.
- FlatIndex.ArgMin: FAISS does not document its order for equally distant vectors. The model takes the lower position first. The ensures of VectorStores.VectorStore.Search and Rag.RagService.AskQuestion are tied to that choice, so where FAISS orders equal distances differently, those results come in a different order.
- FlatIndex.Add: FAISS rejects vectors of the wrong dimension with an exception. Here that case is a precondition, which the fixed-dimension embedder always meets.
- VectorStores.VectorStore.AddDocuments: the new index's dimension is taken from the embedder rather than from `embeddings.shape[1]`. The two are equal for a fixed-dimension embedder.
- VectorStores.VectorStore.Search: when the index is None, the source reloads the saved files. The class has no disk and answers `[]` for a store without an index. That is the source's behaviour with the corrected save (Persistence.ReloadAfterSave). As written, a store emptied by `remove_document` reloads the stale files, so the source answers with the removed file's chunks (Persistence.StaleReload; see "## Findings").
- VectorStores.VectorStore.Search and Rag.RagService.AskQuestion require `k > 0`, because FAISS rejects `k == 0`. The API always passes 10.
- VectorStores.VectorStore.Load: the class does not model the successful read of saved files. `save_index` and the reload are modelled on values in `Persistence`, apart from the class. The deletion of files in `clear` is modelled only as the corrected Persistence.Save.
- The singleton `__new__`/`_initialized` machinery and the debug prints are not modelled.
- Rag.GenerateAnswer: the prompt text, `date.today()` and the Ollama call are not modelled. The model is a parameter from question, context and history to a response, or to None when it fails.
- Rag.RagService.AskQuestion: the outer `except` that turns any exception into an error reply is not modelled. In the model no step raises.
- TextClean.IsSpace: whitespace is the six ASCII characters space, tab, newline, carriage return, form feed and vertical tab. Python's `\s` and `str.strip()` also match U+001C to U+001F, U+0085, U+00A0, U+2028, U+3000 and other Unicode spaces. Likewise TextClean.Digit is `0` to `9` only, where Python's `\d` takes any Unicode decimal digit. So `"a\u00a0\u00a0b"` becomes `"a b"` in the source but is left unchanged by the model. TextClean.CleanOutput's guarantee holds for this six-character set only.
- Rag.ToLower lower-cases ASCII letters only. Python's `str.lower()` also folds other letters, but none of the indicator words contains one.
- Rag.FileOf: `.get("filename", "Unknown")` on a chunk whose `filename` key holds None would give None. The model has a single absent case, and it gives "Unknown".
- Rag.RagService: `conversation_store` is a module global in the source; it is a field of the service here.
- The PDF, DOCX, OCR and TXT readers and the langchain splitter are library wrappers. They are parameters here. Each reader's final `clean_extracted_text` call is modelled, in DocProcessor.Read.
- `upload_document`, `delete_document` and `clear_documents` of the service are not modelled: they write and delete files around the store calls, which are modelled.
- HTTP routers, authentication, settings and the unused database models are outside the core.
- Concurrency is not modelled. Every operation runs alone, as the code has no locking.
