# A retrieval-augmented question-answering pipeline: model of its text core

This project models the sequential text logic of three Python programs of a
retrieval-augmented product question-answering service (two ingesters
feeding a Chroma vector collection, and the answer path) and proves
properties of that model.

- `app/ingest_chroma.py`, the chunking ingester:
  - It reads JSON-lines records and skips records with no id, no text or
    an id already stored.
  - It cleans the text: navigation spam is removed, duplicate lines are
    dropped case-insensitively and whitespace is collapsed.
  - It cuts the text into overlapping windows of 1800 characters with an
    overlap of 200.
  - It gives every chunk the identifier `<id>::chunkNNN` and provenance
    metadata.
  - It writes the chunks with `add` in batches of 32.
- `app/ingest_seed.py`, the seed ingester:
  - It loads the JSON-lines seeds and fails on the first line that does
    not parse.
  - It normalises each record to a stripped text, an identifier (falling
    back to the first 16 hex digits of the SHA-1 of the text's first 256
    characters) and scalar metadata.
  - It skips records that do not normalise and writes the survivors in
    one `upsert`.
- `app/qa.py`, the question-answering path:
  - It unwraps the raw query result to its single query.
  - It numbers the retrieved chunks `[1]..[N]` into a context block with
    an aligned source list, resolving titles and URLs through fallback key
    chains.
  - It asks the chat model with a fixed system prompt and a user message
    built from the question and the context.
  - With nothing retrieved it returns a fixed answer instead.

Files:

| file | content |
|---|---|
| `wrappers.dfy` | `Option`, `Result`, `Min`, `Max` |
| `json.dfy` | JSON values, Python truthiness, `dict.get` and `x or y` chains |
| `text.dfy` | the ASCII character model, `strip`, `lower`, `re.split(r"[\r\n]+")`, `re.sub(r"\s+", " ")`, `join`, decimal digits and `:03d` padding |
| `store.dfy` | the collection: a map from identifier to stored entry plus the log of `add`/`upsert` calls it received, as a class |
| `cleaner.dfy` | `clean_text` |
| `chunker.dfy` | `chunkify` |
| `ingest_chroma.dfy` | `read_jsonl_files`, the record, chunk and batch loop of `main` |
| `ingest_seed.dfy` | `sha16`, `load_jsonl_files`, `normalize_item`, the loop of `main` |
| `qa.dfy` | the unwrap in `retrieve`, `_format_context`, `answer_question` |

The programs change state step by step, so the loops are modelled as
imperative methods:
- `chunkify`;
- the dedup loop of `clean_text`;
- the pending lists of the ingester;
- the `safe_meta`, `records` and `texts`/`ids`/`metas` loops of the seed
  ingester;
- the `_format_context` loop.

Each method is proved against a function that specifies it. The
properties are then proved about those functions.

The code the programs call but do not define is given as function-typed
parameters:
- `json.loads`, `json.dumps`, `str(v)`, SHA-1;
- the navigation-pattern substitutions;
- the embedders, `retrieve` and `chat`.

The model relies on the collection's documented behaviour: `add` leaves an
identifier that is already stored as it is, and `upsert` overwrites it. It
also takes every call as accepted (see "## Left out").

## Model

| member | source | states |
|---|---|---|
| Text.TrimStart | app/ingest_chroma.py:69 | the result is a suffix of the input that does not start with whitespace |
| Text.TrimStartDropsSpace | app/ingest_chroma.py:69 | every character `lstrip` drops is whitespace |
| Text.TrimEnd | app/ingest_chroma.py:69 | the result is a prefix of the input that does not end with whitespace |
| Text.TrimEndDropsSpace | app/ingest_chroma.py:69 | every character `rstrip` drops is whitespace |
| Text.Strip | app/ingest_chroma.py:69 | the stripped text neither starts nor ends with whitespace |
| Text.StripIsSlice | app/ingest_chroma.py:69 | `strip()` returns one contiguous slice of the input, and everything it removes before and after is whitespace |
| Text.StripIdentity | app/ingest_chroma.py:69 | stripping a text without edge whitespace changes nothing |
| Text.StripKeepsSingleSpaced | app/ingest_chroma.py:65 | stripping after the whitespace collapse keeps the text single-spaced |
| Text.Head | app/ingest_seed.py:46 | `s[:n]` is the prefix of length `min(n, len(s))` |
| Text.StripEach | app/ingest_chroma.py:53 | `[l.strip() for l in lines]` keeps one entry per line |
| Text.Lower | app/ingest_chroma.py:59 | `lower()` keeps the length |
| Text.Collapse | app/ingest_chroma.py:65 | `re.sub(r"\s+", " ", t)` leaves only plain single spaces, is empty exactly on the empty text, and starts with whitespace exactly when the input does |
| Text.CollapseKeepsText | app/ingest_chroma.py:65 | the collapse keeps every character that is not whitespace, in order |
| Text.CollapseFixpoint | app/ingest_chroma.py:65 | the collapse changes nothing on a single-spaced text |
| Text.FirstBreak | app/ingest_chroma.py:53 | the position of the first CR or LF, with no line break before it |
| Text.DropBreaks | app/ingest_chroma.py:53 | dropping a leading run of line breaks leaves a suffix that does not start with one |
| Text.DropBreaksDropsBreaks | app/ingest_chroma.py:53 | every character dropped before that suffix is a line break |
| Text.SplitLineRuns | app/ingest_chroma.py:53 | `re.split(r"[\r\n]+", t)` yields at least one piece, and no piece holds a line break |
| Text.SplitWithoutBreaks | app/ingest_chroma.py:53 | a text without line breaks splits into itself alone |
| Text.SingleSpacedHasNoBreak | app/ingest_chroma.py:65 | a single-spaced text holds no line break |
| Text.Digits | app/qa.py:46 | the decimal form of `i` is a non-empty string of digits |
| Text.DigitsRoundTrip | app/qa.py:46 | reading the decimal form back gives the number |
| Text.DigitsInjective | app/qa.py:46 | distinct numbers have distinct decimal forms |
| Text.DigitsShort | app/ingest_chroma.py:124 | numbers below 1000 have at most three digits |
| Text.LeadingZeros | app/ingest_chroma.py:124 | zero padding keeps the digits and the value |
| Text.Pad3RoundTrip | app/ingest_chroma.py:124 | `{i:03d}` is a digit string with value `i`, exactly three long below 1000 |
| Json.FirstTruthy | app/qa.py:42-43 | an `a or b or c` chain of `get`s is truthy exactly when some key holds a truthy value, is then one of those values, and is `None` otherwise |
| Json.FirstTruthyPicksEarliest | app/qa.py:42-43 | the chain yields the value of the earliest key whose value is truthy |
| VectorStore.InsertAbsent | app/ingest_chroma.py:142 | `add` stores every new identifier and leaves every stored entry as it was |
| VectorStore.Overwrite | app/ingest_seed.py:89 | `upsert` stores every identifier it is given, each with the last item written under it, and leaves other entries as they were |
| VectorStore.IdSetConcat | app/ingest_chroma.py:142 | the identifiers of two lists of entries are the union of each list's identifiers |
| VectorStore.ApplyCalls | app/ingest_chroma.py:142 | defines the contents after a log of calls, applied in order; `ApplyCallsConcat` and `AddsOnlyGrow` state its properties |
| VectorStore.ApplyCallsConcat | app/ingest_chroma.py:142 | applying two runs of calls one after the other is applying their concatenation |
| VectorStore.AddsOnlyGrow | app/ingest_chroma.py:142 | a collection that received only `add` calls holds every identifier it was given, and no stored entry changed |
| VectorStore.Collection.constructor | app/ingest_chroma.py:25 | a collection opened on some contents has received no calls |
| VectorStore.Collection.AddBatch | app/ingest_chroma.py:142 | the call is logged and the contents become `add` applied to the old contents |
| VectorStore.Collection.UpsertBatch | app/ingest_seed.py:89 | the call is logged and the contents become `upsert` applied to the old contents |
| Cleaner.FirstOccurrences | app/ingest_chroma.py:54-62 | defines the lines the dedup loop keeps; `DedupLines` computes it and `FirstOccurrencesInOrder`, `DedupKeys` state its meaning |
| Cleaner.Cleaned | app/ingest_chroma.py:45-66 | defines `clean_text`'s result; `CleanText` computes it and `CleanedIsNormalised`, `CleanedIdempotent` state its meaning |
| Cleaner.FirstOccurrencesInOrder | app/ingest_chroma.py:54-62 | the kept lines are exactly the lines that are the first non-empty occurrence of their lowercase form, each kept once, in their original order |
| Cleaner.EarliestWithKey | app/ingest_chroma.py:56-62 | every non-empty line has, at or before it, a first occurrence with the same lowercase form |
| Cleaner.DedupKeys | app/ingest_chroma.py:54-62 | kept lines are non-empty, no two kept lines share a lowercase form, and every non-empty line's lowercase form is kept |
| Cleaner.DedupLines | app/ingest_chroma.py:54-62 | the `seen`/`uniq_lines` loop computes the lines kept by first occurrence |
| Cleaner.CleanText | app/ingest_chroma.py:45-66 | `clean_text` computes: the navigation substitutions, the split into stripped lines, the dedup, the join with spaces, the collapse, the strip |
| Cleaner.CleanedIsNormalised | app/ingest_chroma.py:46-47 | an empty input gives `""`; every result has no edge whitespace and no whitespace run |
| Cleaner.KeptLinesAreStrippedFirsts | app/ingest_chroma.py:53-62 | every kept line is non-empty, stripped and the strip of some line of the input |
| Cleaner.NormalisedIsCleaned | app/ingest_chroma.py:45-66 | a non-empty, stripped, single-spaced text that the navigation patterns leave alone is its own cleaning |
| Cleaner.CleanedIdempotent | app/ingest_chroma.py:45-66 | cleaning a cleaned text again changes nothing, as long as the navigation patterns leave it alone |
| Chunker.WindowsFrom | app/ingest_chroma.py:73-81 | defines the windows the loop emits from a start position; its meaning is stated by `WindowAt`, `WindowsAreWindowing` and `WindowsReassemble` |
| Chunker.Chunks | app/ingest_chroma.py:68-81 | defines `chunkify`'s result; `Chunkify` computes it, and `ChunksAreWindows`, `ShortTextIsOneChunk` and `ChunksReassemble` state its meaning |
| Chunker.Chunkify | app/ingest_chroma.py:68-81 | the `while start < n` loop computes the windows of the stripped text; it requires `overlap < max_chars` or a stripped text of at most `max_chars` characters, the inputs on which the source terminates |
| Chunker.WindowAt | app/ingest_chroma.py:75-80 | window `k` is the slice that starts `k * (max_chars - overlap)` characters in and is cut at `max_chars` or at the end; every window but the last stops before the end |
| Chunker.LastWindow | app/ingest_chroma.py:75-79 | the last window reaches the end of the text |
| Chunker.WindowsAreWindowing | app/ingest_chroma.py:73-81 | the windows of a non-empty text cut it into slices at steps of `max_chars - overlap`, the last ending at `n` |
| Chunker.WindowingSizes | app/ingest_chroma.py:76-77 | every chunk has at most `max_chars` characters, all but the last exactly `max_chars`; the first starts at 0 and the last ends at `n` |
| Chunker.ChunksAreWindows | app/ingest_chroma.py:73-81 | a stripped text longer than `max_chars` gives at least two chunks cut as windows, the first being its first `max_chars` characters |
| Chunker.ShortTextIsOneChunk | app/ingest_chroma.py:69-72 | a stripped text of at most `max_chars` characters gives `[text]`, or `[]` when empty, whatever the overlap |
| Chunker.WindowsOverlap | app/ingest_chroma.py:76-80 | consecutive windows share exactly `overlap` characters: the tail of one is the head of the next |
| Chunker.ConsecutiveChunksOverlap | app/ingest_chroma.py:76-80 | consecutive chunks share exactly `overlap` characters |
| Chunker.TailsFrom | app/ingest_chroma.py:75-80 | the windows that follow one ending at `e`, each minus its first `overlap` characters, cover the text from `e` on |
| Chunker.WindowsReassemble | app/ingest_chroma.py:73-81 | the first window followed by every later one minus its overlap is the whole text |
| Chunker.ChunksReassemble | app/ingest_chroma.py:68-81 | `chunks[0]` followed by every later chunk minus its first `overlap` characters is the stripped text |
| Chunker.TwoChunks | app/ingest_chroma.py:68-81 | a stripped text longer than one window but no longer than two steps splits into exactly two chunks |
| Chunker.TwoThousandCharacters | app/ingest_chroma.py:68 | with the defaults, a 2000-character text gives characters 0-1800 and 1600-2000 |
| IngestChroma.ReadRecords | app/ingest_chroma.py:27-38 | defines the records `read_jsonl_files` yields, file after file in the given order; `ReadLinesAt` and `ReadLinesFromParsedLines` state what each file contributes |
| IngestChroma.DocId | app/ingest_chroma.py:105 | defines `str(obj.get("id") or "")`, with `str` of a non-string value left to the `show` parameter |
| IngestChroma.ChunkId | app/ingest_chroma.py:124 | defines `f"{doc_id}::chunk{i:03d}"`; `ChunkIdsDistinct` states that a record's chunk ids are distinct |
| IngestChroma.Basename | app/ingest_chroma.py:132 | defines `os.path.basename`; `BasenameIsLastComponent` states its meaning |
| IngestChroma.KnownFields | app/ingest_chroma.py:135-137 | defines the known-field copy for every kind of metadata value; `KnownFieldsSemantics` states its meaning |
| IngestChroma.ChunkMeta | app/ingest_chroma.py:128-137 | defines a chunk's metadata; `ChunkMetaFields` states its fields |
| IngestChroma.RecordItems | app/ingest_chroma.py:103-138 | defines the entries one record contributes, or the exception it raises, in the source's branch order; `SkippedRecords`, `RecordEntries` and `ChunkEntries` state its meaning |
| IngestChroma.PlanRun | app/ingest_chroma.py:103-144 | defines what the whole run writes, record after record, up to the first exception; `IngestRecords` and `RerunAddsNothing` are stated against it |
| IngestChroma.ReadLinesFromParsedLines | app/ingest_chroma.py:27-38 | every record read comes from a non-blank stripped line of its file that parses to it; blank and unparsable lines are silently skipped |
| IngestChroma.ReadLinesConcat | app/ingest_chroma.py:30-38 | the lines of a first part of a file yield their records before those of the rest |
| IngestChroma.ReadLinesSplit | app/ingest_chroma.py:30-38 | the records of a file are those of the lines before line `n`, then line `n`'s record if any, then those of the lines after it |
| IngestChroma.ReadLinesAt | app/ingest_chroma.py:30-38 | every non-blank line that parses yields its record, after the records of the earlier lines and before those of the later ones; any other line yields nothing |
| IngestChroma.AfterLastSlash | app/ingest_chroma.py:132 | the position just after the last `/`, with no `/` after it |
| IngestChroma.BasenameIsLastComponent | app/ingest_chroma.py:132 | `os.path.basename` is the suffix after the last `/`, and holds no `/` |
| IngestChroma.ChunkIdsDistinct | app/ingest_chroma.py:124 | the chunk identifiers of one record are distinct and none is the record id itself |
| IngestChroma.ChunkItemsFromAt | app/ingest_chroma.py:123-138 | entry `k` of the chunk loop is chunk `k` under its identifier and metadata |
| IngestChroma.ChunkItemsAt | app/ingest_chroma.py:123-138 | the chunk loop yields one entry per chunk, entry `k` built from chunk `k` |
| IngestChroma.KnownFieldsSemantics | app/ingest_chroma.py:135-137 | on an object metadata exactly the known keys present are copied unchanged; a list, string, number or boolean metadata raises exactly when `k in meta` or `meta[k]` would |
| IngestChroma.ChunkMetaFields | app/ingest_chroma.py:128-137 | chunk metadata holds `source_id`, `chunk_index`, `num_chunks`, `ingest_file` and only the known keys copied |
| IngestChroma.SkippedRecords | app/ingest_chroma.py:105-121 | a record with an empty id, a falsy text, an id already present or no chunks contributes nothing |
| IngestChroma.ChunksFit | app/ingest_chroma.py:118-119 | every chunk of a record holds at most 1800 characters |
| IngestChroma.ChunkEntries | app/ingest_chroma.py:123-138 | entry `k` has identifier `<id>::chunkNNN`, chunk `k` as document and the metadata fields carrying the record id, `k`, the chunk count, the file's base name and the known fields |
| IngestChroma.RecordEntries | app/ingest_chroma.py:103-138 | a record contributing entries has a non-empty id not yet present and a text string; its entries are those of its chunks, each of at most 1800 characters |
| IngestChroma.GroupsPartition | app/ingest_chroma.py:140-153 | the batches partition the entries in order; each batch is non-empty with at most 32 entries, and all but the last have exactly 32 |
| IngestChroma.AddCallsAreGroups | app/ingest_chroma.py:140-153 | the `add` calls are one per batch, carrying the batch and the embeddings of its documents |
| IngestChroma.AddCallsAppend | app/ingest_chroma.py:140-144 | after whole batches the calls for the rest follow on their own |
| IngestChroma.AddCallsOneBatch | app/ingest_chroma.py:150-153 | after whole batches, a final flush of at most 32 entries adds exactly one call carrying them |
| IngestChroma.Push | app/ingest_chroma.py:125-144 | appending an entry sends the pending list as one `add` and empties it exactly when it reaches 32 |
| IngestChroma.AppendItems | app/ingest_chroma.py:123-144 | after a record's chunks, whole batches of the pending list plus the new entries were sent in order and fewer than 32 remain pending |
| IngestChroma.IngestRecord | app/ingest_chroma.py:103-144 | one record either raises with nothing sent, or sends whole batches of the pending list extended by its entries |
| IngestChroma.RecordLoop | app/ingest_chroma.py:103-144 | the record loop stops at the first record that raises; of the entries before it, the first `added` (a multiple of 32) were sent in batches and the fewer than 32 others are pending |
| IngestChroma.IngestRecords | app/ingest_chroma.py:97-153 | no record: nothing is sent; all records handled: every entry is sent in batches and `added` counts them all; a raise: only whole batches of the entries before it were sent |
| IngestChroma.Ingest | app/ingest_chroma.py:92-155 | `main` with the identifiers read once: the outcomes above, and afterwards the collection holds every sent identifier with no stored entry changed |
| IngestChroma.StoreAfterAdds | app/ingest_chroma.py:142 | the batches add exactly the identifiers of the entries and keep every stored entry |
| IngestChroma.AddCallsStore | app/ingest_chroma.py:142 | the batched `add` calls store the entries' identifiers and change nothing stored |
| IngestChroma.AsWrittenResendsStoredRecord | app/ingest_chroma.py:115 | with the skip test as written, a record whose chunks are stored is chunked and sent again |
| IngestChroma.CorrectedSkipsStoredRecord | app/ingest_chroma.py:114-116 | with the corrected skip test, a record whose first chunk is stored contributes nothing |
| IngestChroma.RecordRerun | app/ingest_chroma.py:114-116 | with the corrected test, a record whose entries are all stored contributes nothing on a rerun |
| IngestChroma.RerunFrom | app/ingest_chroma.py:103-116 | a rerun over records whose entries are all stored contributes nothing from any position on |
| IngestChroma.RerunAddsNothing | app/ingest_chroma.py:114-116 | with the corrected test, rerunning after a complete run adds nothing (the idempotency the comment promises) |
| IngestSeed.Loaded | app/ingest_seed.py:21-39 | defines `load_jsonl_files`'s outcome; `LoadJsonlFiles` computes it and `LoadedIsReference` states its meaning |
| IngestSeed.IdOf | app/ingest_seed.py:46 | defines a record's identifier from its stripped text; `FallbackId` and `FallbackIdFromPrefix` state its meaning |
| IngestSeed.Normalized | app/ingest_seed.py:41-55 | defines `normalize_item`'s result or exception; `NormalizeItem` computes it and `NormalizedFields`, `NormalizedRejects` state its meaning |
| IngestSeed.LoadFileLines | app/ingest_seed.py:26-36 | a file's loop yields the values of its non-blank stripped lines, or the error of its first line that does not parse |
| IngestSeed.LoadJsonlFiles | app/ingest_seed.py:21-39 | `load_jsonl_files` computes the loading specification |
| IngestSeed.ParseAllMeaning | app/ingest_seed.py:28-36 | loading succeeds exactly when every non-blank line parses, giving their values in order; otherwise the error names the path, the 1-based line number and the first 200 characters of the earliest line that does not parse |
| IngestSeed.ParseAllConcat | app/ingest_seed.py:26-36 | reading two runs of lines one after the other is the first run's values followed by the second's, or the first error met |
| IngestSeed.LoadLinesIsParseAll | app/ingest_seed.py:28-36 | a file's loop is the reference reading of its non-blank lines |
| IngestSeed.LoadFilesIsParseAll | app/ingest_seed.py:26-36 | the loop over the files is the reference reading of all their non-blank lines, file after file |
| IngestSeed.LinesFromAreLines | app/ingest_seed.py:28-31 | the non-blank lines keep their 1-based line numbers, in increasing order, blank lines counted |
| IngestSeed.LinesFromComplete | app/ingest_seed.py:28-31 | every non-blank line is listed, with its path, 1-based number and text |
| IngestSeed.LoadedIsReference | app/ingest_seed.py:21-39 | no file: `FileNotFoundError`; every line parses but none is non-blank: the no-records error; every line parses: the values in order; otherwise the error of the earliest unparsable line |
| IngestSeed.Sha16 | app/ingest_seed.py:18-19 | a prefix of the hex digest, 16 characters long when the digest has at least 16 |
| IngestSeed.SafeValue | app/ingest_seed.py:50-54 | a list or object becomes the string `json.dumps` gives for it; every other value is kept |
| IngestSeed.SafeMetaOf | app/ingest_seed.py:49-54 | the safe metadata has the same keys, each value made safe |
| IngestSeed.SafeMeta | app/ingest_seed.py:49-54 | the `safe_meta` loop, one key at a time, computes the safe metadata |
| IngestSeed.NormalizeItem | app/ingest_seed.py:41-55 | `normalize_item` computes the normalisation specification |
| IngestSeed.NormalizedFields | app/ingest_seed.py:41-55 | the text is the stripped non-empty text; the id is the stripped given id if non-empty, else a prefix of the digest of the text's first 256 characters, 16 characters long when the digest has its 40 hex digits; the metadata is the safe metadata: the same keys, lists and objects replaced by their `json.dumps` string, every other value unchanged |
| IngestSeed.NormalizedRejects | app/ingest_seed.py:41-47 | normalisation raises exactly on a non-object, a non-string or blank text, a non-string id, or a non-object metadata |
| IngestSeed.FallbackId | app/ingest_seed.py:46 | with no given id, the id is `sha16(text[:256])` |
| IngestSeed.NormalizedParts | app/ingest_seed.py:43-46 | the normalised text is the stripped text and the id is computed from it |
| IngestSeed.FallbackIdFromPrefix | app/ingest_seed.py:46 | two records without ids whose texts agree on the first 256 characters get the same id |
| IngestSeed.Results | app/ingest_seed.py:63-65 | one result per record: record `k`'s normalisation or its exception, in input order |
| IngestSeed.KeptConcat | app/ingest_seed.py:63-70 | the survivors of two runs of results are the survivors of each, in order |
| IngestSeed.NothingKept | app/ingest_seed.py:63-73 | nothing survives exactly when every normalisation raises |
| IngestSeed.KeptInOrder | app/ingest_seed.py:63-70 | the survivors are exactly the successful results, each once, in input order |
| IngestSeed.NoSurvivors | app/ingest_seed.py:72-73 | no valid items exactly when every record fails to normalise |
| IngestSeed.SurvivorsInOrder | app/ingest_seed.py:63-70 | the survivors are exactly the records that normalise, in input order |
| IngestSeed.NormalizeAll | app/ingest_seed.py:62-70 | `texts`, `ids` and `metas` have one entry per survivor and entry `k` of each is that of survivor `k` |
| IngestSeed.SeedItems | app/ingest_seed.py:89 | the upsert's parallel lists, aligned as one entry per survivor |
| IngestSeed.SeedIngest | app/ingest_seed.py:57-91 | a load error or no survivor writes nothing; otherwise one `upsert` of the survivors with their embeddings |
| IngestSeed.UpsertKeepsLast | app/ingest_seed.py:89 | after the upsert every survivor id is stored with the last survivor under it, and other stored entries are unchanged |
| Qa.TitleOf | app/qa.py:42 | defines a source's title; `TitleChain` and `TitleDefault` state its meaning |
| Qa.UrlOf | app/qa.py:43 | defines a source's url; `UrlChain` and `UrlDefault` state its meaning |
| Qa.Block | app/qa.py:46 | defines the context block `f"[{i}] {title}\n{snippet}\n"` |
| Qa.UserMessage | app/qa.py:60-71 | defines `USER_TEMPLATE.format(question=..., context=...)` |
| Qa.Messages | app/qa.py:84-88 | defines the system and user messages sent to the chat model |
| Qa.AnswerQuestion | app/qa.py:73-96 | defines `answer_question`'s response; `NoDocumentsFallback` and `WithDocuments` state its meaning |
| Qa.Unwrap | app/qa.py:32 | only list-valued keys are kept, each mapped to its first element; an empty list raises |
| Qa.Ref | app/qa.py:46-47 | `f"[{i}]"` is the decimal form of `i` in brackets |
| Qa.RefsDistinct | app/qa.py:47 | distinct positions have distinct refs |
| Qa.TitleChain | app/qa.py:42 | the title is the stripped value of the earliest truthy of `product_name`, `source_title`, `type`; a non-string there raises |
| Qa.TitleDefault | app/qa.py:42 | with none of them truthy the title is `Source` |
| Qa.UrlChain | app/qa.py:43 | the url is the stripped value of the earliest truthy of `url`, `source_url`; a non-string there raises |
| Qa.UrlDefault | app/qa.py:43 | with neither truthy the url is `""` |
| Qa.PairEntries | app/qa.py:41 | `enumerate(zip(docs, metas), start=1)` gives `min(len(docs), len(metas))` entries, entry `k` built from pair `k` as number `k + 1` |
| Qa.ErrorPersists | app/qa.py:41-47 | once a pair raises, the loop's outcome is that error |
| Qa.CollectStops | app/qa.py:41-47 | the first pair that raises decides the outcome |
| Qa.CollectShape | app/qa.py:41-47 | the loop completes exactly when no pair raises, and then holds one block and one source per pair, in order |
| Qa.PairEntriesShape | app/qa.py:41-47 | a pair succeeds exactly when its title and url resolve, giving its block and its source with the same ref and title |
| Qa.FormatContext | app/qa.py:34-48 | the loop appending to `context_blocks` and `sources` computes the formatting specification |
| Qa.FormattedShape | app/qa.py:34-48 | `_format_context` succeeds exactly when every title and url resolves; it returns one source per pair, ref `[k+1]`, in order, and the context is the blocks `[i] title\nsnippet\n` joined by `\n` |
| Qa.NoDocumentsFallback | app/qa.py:79-81 | with no documents the answer is the fixed fallback with no sources and no distances, whatever the chat model would say |
| Qa.WithDocuments | app/qa.py:83-96 | with documents the sources are those of `_format_context`, distances pass through, and the answer is the chat model's reply to `[system, user]` built from the question and the context |

## Left out

- File globbing, opening and reading: a run is given its files as a list
  of (path, lines) pairs in the sorted order `glob` would give.
- Printing, `tqdm`, environment configuration, client construction and
  `collection.count()`.
- `get_existing_ids` is the identifier set of the collection's contents
  when the run starts; the `limit=1_000_000` cap is not modelled.
- The navigation patterns: the two `re.sub` calls are one uninterpreted
  function.
- `json.loads`, `json.dumps`, `str(v)` and SHA-1 are uninterpreted
  functions. `json.loads` returns no value where it raises.
- The text of the exception in an invalid-JSON error is not modelled.
  The error keeps the path, the line number and the quoted line.
- The embedders, the chat model and `retrieve` are uninterpreted
  functions. The vector store's search, HNSW and distances are not
  modelled; distances are passed through as an opaque value.
- `answer_question` takes `retrieve`'s unwrapped result as typed lists
  (documents as strings, metadata as maps). `Unwrap` models the
  comprehension on its own, over raw values.
- Characters: whitespace, `strip` and `lower` use ASCII. `\s` and
  `str.isspace` are taken as the ASCII whitespace characters, which leaves
  out non-ASCII whitespace and non-ASCII case mapping.
- The collection is taken to accept every call. The store accepts only
  scalar metadata values, and Chroma also refuses a call that repeats an
  identifier. `app/ingest_chroma.py:135-137` copies known fields
  unchanged, so a record whose `category` is a list makes the real `add`
  raise and end `main`. The model instead reports the run `Completed` with
  the entries stored. Likewise, `UpsertKeepsLast` describes two seed
  records sharing an identifier, a call Chroma may refuse.
- Numbers: `json.loads` integers and floats are kept apart (`Int`, `Float`).
  `str` and `json.dumps` of a number are uninterpreted, so the model does
  not state what text `1` or `1.0` prints as.
- Dictionary iteration order: metadata is a map, so the key order of the
  stored dictionaries is not modelled.
- Chunker.Chunkify: it requires `overlap < max_chars` or a stripped text
  of at most `max_chars` characters. On a longer text with `overlap >=
  max_chars` the source loops forever. The ingester calls it only with 1800
  and 200.
- IngestChroma.Ingest: the three parallel pending lists are kept as one
  list of entries. They are appended and emptied together, so their
  alignment is structural.
- IngestChroma.Ingest: the body of the record loop is split into
  helper methods (`IngestRecord`, `AppendItems`, `Push`). A record's
  entries are computed by the function `RecordItems`, which follows the
  source's branch order.
- IngestChroma.Ingest: a raised exception ends `main`. The model returns
  `Aborted` with the batches sent so far and drops the pending lists, as
  the process would.

## Findings

| source | as written | input that shows it | evidently intended | confidence | as-written member | corrected member |
|---|---|---|---|---|---|---|
| app/ingest_chroma.py:115 | `if doc_id in existing` compares the record id with stored identifiers, which are all chunk identifiers `<id>::chunkNNN`, so the test never holds for records this ingester wrote | a second run over the same file: the record `{"id": "p1", "text": "Oak"}` was stored as `p1::chunk000`; `existing` is `{"p1::chunk000"}`, `"p1" in existing` is false, and the record is chunked and sent again | skip a record whose chunks are already stored, as the comment "idempotency for re-runs" says | not executed | IngestChroma.AsWrittenResendsStoredRecord | IngestChroma.RerunAddsNothing |

The model keeps both skip tests as `SkipRule`:
- `AsWritten` is the code's test.
- `Corrected` also looks for the record's first chunk identifier.

`CorrectedSkipsStoredRecord` and `RerunAddsNothing` prove the re-run
property for the corrected test.
