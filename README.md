# paper-engine core, modelled in Dafny

paper-engine is a small PDF search server. It indexes the words of submitted
PDF files into an in-memory TF-IDF store, ranks the documents for a query,
and saves the store between runs as a binary snapshot. This project models
the sequential logic underneath the HTTP and PDF plumbing, and proves
properties of it. It has three parts.

- **The string pool** (`intern.dfy`, module `Intern`).
  - `StringPool` is a class with the two tables `flatPool` (id to text) and
    `mapPool` (text to id), plus an `initialised` flag for the `Once`.
  - `Valid()` states that the two tables are inverses.
  - `Intern` keeps that invariant. It returns the existing id or the old pool
    length, and it never changes the text of an id already issued.
  - `GetStr` returns the two panics of `get_str` as errors.
- **The snapshot codec** (`file_format.dfy` and `round_trip.dfy`).
  - The stream is a sequence of tagged records:
    - `0x01` global term: u16 length, u64 count, text;
    - `0x02` document title: u16 length, text;
    - `0x03` document path: u16 length, text;
    - `0x04` document term: u16 length, 8-byte frequency, text.
  - `Deserialize` is the index-advancing loop with one open document. It is
    proved equal to the function `Decode`. Its loop body is `ReadRecord`, which
    is proved equal to `Step`.
  - `Serialize` appends the records to a byte sequence. It is proved equal to
    `Encode`.
  - The three HashMap iterations the encoder performs are an input (`Order`):
    over the global counts, over the documents, and over each document's
    term map.
    `Listed(store, order)` says that the input is a real iteration of the
    store: every entry exactly once.
  - The round-trip lemmas show that decoding the encoding returns the global
    counts exactly, and every document except the last one written.
- **Ranking and ingest** (`ranking.dfy` and `submit.dfy`, from `src/main.rs`).
  - `Ranking.SortDocuments` is `sort_documents`, with its counting loop, its
    accumulation loop, its collection loop and its sort.
    - The floating-point score of one term in one document is a function
      parameter: `contribution(number of documents, document frequency,
      frequency bits)`.
    - The result is proved sorted and free of duplicates. It is proved to
      contain exactly the matching titles, each with its stored path and its
      score. Any two lists with those properties are proved equal.
  - `Submit.DocShared.SubmitDocument` is the store update of
    `submit_document`. It covers the duplicate-title policy, the word loop
    that interns and counts, and the term-frequency loop.
    - The (already stemmed) word list is an input.
    - The f64 division `n / distinct` is a function parameter.
    - The method is proved equal to the function `Submit`. The lemmas about
      `Submit` state the policy's effects.
- `bytes.dfy` (module `Bytes`) holds the little-endian byte encoding and the
  `as u16` / `as u64` casts. `index.dfy` (module `Index`) holds the `TfIdf`
  and `Document` records.

Where the source comments and the code disagree, the model follows the code.

- The comment at `src/file_format.rs:19-22` gives the 0x01 count and the 0x04
  frequency as 4 bytes. The code reads and writes 8 bytes, so the model uses 8.
- The encoder writes each length as `len() as u16`, which keeps only the low
  16 bits. A string of 65 536 bytes or more is therefore re-read short.
  `RoundTrip.LengthFieldTruncates` shows this. The round-trip lemmas require
  every string to be shorter than that (`Fits`).

Terms are keyed by their text throughout. The source keys them by `PoolId`,
but a valid pool makes ids and texts interchangeable (`Intern.DistinctIds`).
The snapshot also carries text, not ids.

## Model

| member | source | states |
|---|---|---|
| Intern.StringPool.constructor | src/intern.rs:33-38 | the pool before its first use is valid and empty, and is not initialised |
| Intern.StringPool.Intern | src/intern.rs:32-52 | keeps both tables inverse. A string already present gets its old id and leaves both tables unchanged. A new string gets the old pool length as its id, is appended to the flat pool and entered in the map. `get_str` of the result is the string. Every id issued earlier keeps its text |
| Intern.StringPool.GetStr | src/intern.rs:54-58 | succeeds exactly when the pool is initialised and the id is below the pool length, and then yields that entry. Before any `intern` it fails as uninitialised |
| Intern.DistinctIds | src/intern.rs:12-15 | in a valid pool, distinct strings have distinct ids |
| Intern.NoDuplicates | src/intern.rs:46-50 | a valid flat pool holds no string twice |
| Bytes.Le | src/file_format.rs:101-102 | `to_le_bytes` yields exactly k bytes |
| Bytes.FromLeBound | src/file_format.rs:25-26 | a k-byte little-endian number is below 256^k |
| Bytes.FromLeLe | src/file_format.rs:25-26 | `from_le_bytes` inverts `to_le_bytes` for every value that fits |
| Bytes.U16Cast | src/file_format.rs:101 | `as u16` is below 65 536 and is the identity on values that fit |
| Bytes.U64Cast | src/file_format.rs:102 | `as u64` is the identity on values below 2^64 |
| FileFormat.LenAt | src/file_format.rs:25 | the u16 length field at offset i+1 is below 65 536 |
| FileFormat.Step | src/file_format.rs:23-92 | a decoded record is at least 3 bytes long and lies inside the input. A 0x01 or 0x04 record takes 11 + len bytes, and a 0x02 or 0x03 record takes 3 + len bytes |
| FileFormat.RunStep | src/file_format.rs:16-94 | the decode loop stops at the first failing record with its error; otherwise it goes on at `i + offset` from the updated state |
| FileFormat.ReadRecord | src/file_format.rs:17-92 | the loop body, with its early returns for out-of-order, unknown-tag and truncated records, computes `Step` |
| FileFormat.Deserialize | src/file_format.rs:12-96 | the while loop computes `Decode`, and empty input decodes to the empty store |
| FileFormat.GlobalTermRecord | src/file_format.rs:99-104 | a 0x01 record is 11 bytes plus the term |
| FileFormat.TitleRecord | src/file_format.rs:106-108 | a 0x02 record is 3 bytes plus the title |
| FileFormat.PathRecord | src/file_format.rs:109-111 | a 0x03 record is 3 bytes plus the path |
| FileFormat.DocTermRecord | src/file_format.rs:112-117 | a 0x04 record is 11 bytes plus the term |
| FileFormat.GlobalTermsPrefix | src/file_format.rs:99-104 | each pass of the first loop appends exactly one 0x01 record to what the earlier passes wrote |
| FileFormat.DocTermsPrefix | src/file_format.rs:112-117 | each pass of the term loop appends exactly one 0x04 record |
| FileFormat.DocumentsPrefix | src/file_format.rs:105-118 | each pass of the document loop appends exactly one document's records |
| FileFormat.WriteGlobalTerm | src/file_format.rs:99-104 | appends the 0x01 record of one global term: tag, u16 length, u64 count, text |
| FileFormat.WriteDocument | src/file_format.rs:105-118 | appends one 0x02, one 0x03, then one 0x04 per entry of the document's term map, in iteration order |
| FileFormat.Serialize | src/file_format.rs:98-120 | writes all global-term records, then all document records, in the given iteration orders |
| RoundTrip.ReadBack | src/file_format.rs:25-26 | the u16 and u64 fields written are read back unchanged when the value fits |
| RoundTrip.StepGlobalTerm | src/file_format.rs:24-33 | a 0x01 record written by the encoder sets that term's global count (the last one wins) and takes 11 + len bytes |
| RoundTrip.StepTitle | src/file_format.rs:35-48 | a 0x02 record stores the open document under its own title, over any earlier entry. It then opens a fresh document with an empty path and an empty term map |
| RoundTrip.StepPath | src/file_format.rs:50-64 | a 0x03 record with a document open sets its path |
| RoundTrip.StepDocTerm | src/file_format.rs:66-84 | a 0x04 record with a document open sets that term's frequency (the last one wins) |
| RoundTrip.RunGlobalTerm | src/file_format.rs:24-33 | the decode loop passes over one encoded 0x01 record and stores its count |
| RoundTrip.RunTitle | src/file_format.rs:35-48 | the decode loop passes over one encoded 0x02 record |
| RoundTrip.RunPath | src/file_format.rs:50-64 | the decode loop passes over one encoded 0x03 record |
| RoundTrip.RunDocTerm | src/file_format.rs:66-84 | the decode loop passes over one encoded 0x04 record |
| RoundTrip.LengthFieldTruncates | src/file_format.rs:107 | for a title of 65 536 bytes or more, the written length is the true length mod 65 536. The decoder then takes a shorter record than was written |
| RoundTrip.PutAll | src/file_format.rs:31 | inserting a sequence of entries keeps the old keys and adds every entry's key |
| RoundTrip.RunGlobalTerms | src/file_format.rs:99-104 | decoding all the 0x01 records inserts every written count, in order |
| RoundTrip.RunDocTerms | src/file_format.rs:112-117 | decoding a document's 0x04 records inserts every written frequency into the open document |
| RoundTrip.RunDocument | src/file_format.rs:105-118 | decoding one document's records stores the previous open document and leaves this one open, rebuilt from its records |
| RoundTrip.AfterDocuments | src/file_format.rs:36-47 | after at least one document's records, a document is open |
| RoundTrip.RunDocuments | src/file_format.rs:105-118 | decoding all documents' records stores each document in turn and leaves the last one open |
| RoundTrip.DecodeEncoding | src/file_format.rs:12-120 | the encoding of any iteration whose strings fit decodes without error, to the state `RunGlobalTerms` and `RunDocuments` describe |
| RoundTrip.PutAllLists | src/file_format.rs:31 | inserting every entry of one iteration of a map rebuilds that map |
| RoundTrip.ClosedDocuments | src/file_format.rs:36-38 | decoding the documents leaves the global counts alone and ends with exactly the written titles, each with its document |
| RoundTrip.ListedAgrees | src/file_format.rs:98-120 | an iteration of a store that fits has every string within the u16 field, and its entries agree with the store |
| RoundTrip.DecodedStores | src/file_format.rs:12-120 | `Decode` of an encoded store is the decoder's final store, and the corrected decoder's result is that store plus the open document |
| RoundTrip.AllButLast | src/file_format.rs:95 | the final store holds the written global counts and every document except the last one written |
| RoundTrip.AllClosed | src/file_format.rs:36-38 | once the open document is also stored, all documents are back |
| RoundTrip.RoundTrip | src/file_format.rs:12-120 | decoding an encoded store gives back the global counts exactly, and every document except the last one written. With no documents it gives back the store itself |
| RoundTrip.RoundTripFinalized | src/file_format.rs:12-120 | with the open document stored at the end of input, decoding inverts encoding exactly |
| RoundTrip.DecodeLosesLastDocument | src/file_format.rs:95 | for any store with a document, the decoded store lacks the last document written, and so differs from the store |
| RoundTrip.RunPrefix | src/file_format.rs:16-94 | decoding an input that continues one that decodes is the same as decoding the continuation from the state reached |
| RoundTrip.StepExtends | src/file_format.rs:23-92 | a record that decodes decodes alike whatever follows it |
| RoundTrip.UnknownTagAborts | src/file_format.rs:85-91 | a tag byte other than 0x01 to 0x04 makes decoding fail with that byte and its offset |
| RoundTrip.OutOfOrderAborts | src/file_format.rs:50-74 | a 0x03 or 0x04 record while no document is open makes decoding fail as out of order |
| RoundTrip.GlobalTermsLeaveNoneOpen | src/file_format.rs:24-34 | the 0x01 records the encoder writes first open no document |
| RoundTrip.RunWellKeyed | src/file_format.rs:36-38 | the decode loop keeps every document filed under its own title |
| RoundTrip.CloseWellKeyed | src/file_format.rs:36-38 | storing the open document under its title keeps every document filed under its own title |
| RoundTrip.DecodeWellKeyed | src/file_format.rs:12-96 | every decoded store files each document under its own title |
| Ranking.TextLessIrreflexive | src/main.rs:100 | byte-wise string order is irreflexive |
| Ranking.TextLessTransitive | src/main.rs:100 | byte-wise string order is transitive |
| Ranking.TextLessTotal | src/main.rs:100 | byte-wise string order is total |
| Ranking.RowLessStrict | src/main.rs:100 | the `(score, path, title)` tuple order is a strict total order |
| Ranking.Insert | src/main.rs:100 | inserting a row adds exactly that row to the list's multiset |
| Ranking.InsertDescending | src/main.rs:100 | inserting into a non-increasing list keeps it non-increasing |
| Ranking.SortDescending | src/main.rs:100 | sorting permutes the list |
| Ranking.SortDescendingSorted | src/main.rs:100 | the sorted list is non-increasing under the tuple order |
| Ranking.DocFreqCounts | src/main.rs:72-75 | counting over distinct keys counts the documents whose term map contains the term |
| Ranking.DocFreqEnumerated | src/main.rs:72-75 | counting over one iteration of the documents gives the document frequency |
| Ranking.CountHolding | src/main.rs:72-75 | the counting loop yields the number of documents containing the term |
| Ranking.AccumulateTerm | src/main.rs:80-92 | the accumulation loop adds one term's contribution to every document containing it. It inserts the titles seen for the first time and leaves the rest alone |
| Ranking.AddedTerm | src/main.rs:80-92 | one term's pass extends one title's score from the terms before it to the terms including it |
| Ranking.AddedAll | src/main.rs:71-93 | one term's pass extends the whole accumulator |
| Ranking.AccumulateAll | src/main.rs:71-93 | after the terms loop, a title is present exactly when its document contains some query term. Its value is the sum of the contributions over every query-term occurrence, duplicates included |
| Ranking.EntriesScored | src/main.rs:96-98 | every collected row has that title's stored path and its summed score divided by the number of terms |
| Ranking.EntriesTitles | src/main.rs:96-98 | the collected titles are exactly the accumulated titles |
| Ranking.EntriesDistinct | src/main.rs:96-98 | no title is collected twice |
| Ranking.EntriesRanked | src/main.rs:95-99 | the collected rows are scored, have distinct titles, and have exactly the matching titles |
| Ranking.Collect | src/main.rs:95-99 | the collection loop builds one row per accumulated title |
| Ranking.Sorted | src/main.rs:100 | sorting gives a non-increasing permutation, with the same distinct titles |
| Ranking.DistinctTitlesKept | src/main.rs:100 | a permutation keeps titles distinct and keeps the set of titles |
| Ranking.SortDocuments | src/main.rs:69-102 | the result is non-increasing under `(score, path, title)`, has no title twice, and has exactly the titles of documents containing a query term. Each row carries the stored path and the summed score divided by the number of terms. An empty query gives an empty result |
| Ranking.DescendingUnique | src/main.rs:100 | two non-increasing lists without repeats and with the same elements are equal |
| Ranking.ResultDetermined | src/main.rs:69-102 | the postcondition of `SortDocuments` has a single solution, whatever the HashMap iteration order |
| Submit.ParsePolicy | src/main.rs:143-167 | a `dupe` parameter other than `replace`, `rename` or `ignore` (or none at all) refuses the duplicate |
| Submit.ChooseTitle | src/main.rs:134-137 | the title is the PDF's title when present and non-empty, else the path |
| Submit.Count | src/main.rs:182-185 | a word occurs a positive number of times exactly when it is in the list |
| Submit.AddWordsCounts | src/main.rs:182-189 | counting a word list into a map keeps the old keys, adds the words, and raises each word's entry by its number of occurrences |
| Submit.AddWordsStep | src/main.rs:182-189 | counting one more word enters it at 1 or raises its count by one, and changes nothing else |
| Submit.Distinct | src/main.rs:198-202 | the distinct words, each once |
| Submit.DuplicateLeavesStore | src/main.rs:142-167 | for a title already stored, `ignore` succeeds and a missing or unknown `dupe` fails. In both cases the store is unchanged and nothing is indexed |
| Submit.StoresDocument | src/main.rs:142-214 | an indexed submission succeeds. It stores the new document under its title, or under `title-1` with `rename`, over what was there, and changes no other document |
| Submit.GlobalCounts | src/main.rs:186-189 | indexing raises each word's global count by its number of occurrences and leaves every other count alone |
| Submit.NeverDecrements | src/main.rs:146-150 | no submission, not even `replace`, lowers or drops a global count |
| Submit.WordFrequencies | src/main.rs:171-202 | the term map's keys are the distinct words. Each value is that word's count divided by the number of distinct words |
| Submit.StoredFrequencies | src/main.rs:171-214 | the stored document's term map is that of its words |
| Submit.KeepsWellKeyed | src/main.rs:204-214 | every submission keeps each document filed under its own title |
| Submit.RenameOverwrites | src/main.rs:151-153 | with `rename`, a document already under `title-1` is overwritten. The old `title` entry and the key set stay as they were |
| Submit.CountWords | src/main.rs:176-194 | the word loop builds the document's counts and raises the global counts as `AddWords` says. It keeps the pool valid and only appends to it. The pool's strings become the old ones plus exactly the words, and every issued id keeps its text |
| Submit.TermFrequencies | src/main.rs:197-202 | the frequency loop over one iteration of the counts builds the term map `Frequencies` describes, never inserting a key twice |
| Submit.DocShared.constructor | src/main.rs:63 | the shared store starts as the given store |
| Submit.DocShared.SubmitDocument | src/main.rs:142-215 | the result and the new store are those of `Submit`. The pool stays valid and every issued id keeps its text. An indexed submission adds exactly its words to the pool. An ignored or refused one leaves the pool untouched, because it returns before any word is interned |

## Left out

- The HTTP layer (axum routing, query-parameter extraction, `search_document`, `document_info`'s `todo!()`, `root`) is transport. `dupe` is a parameter of `SubmitDocument`.
- The early returns of `submit_document` before the store is locked (a missing `path`, a path that is not a file, a PDF that does not open; `src/main.rs:123-133`) depend on the file system and the PDF library. The document title is a parameter; `ChooseTitle` states how it is picked.
- PDF loading (`poppler`, `get_text`) and the `drop_pdf`/`drop_page` calls (`src/main.rs:105-117`) are foreign calls. The page text is the `words` input.
- Lower-casing and Snowball stemming (`src/main.rs:179-180`) are a library. The words arrive already normalised.
- The `RwLock`s, the `Once`, the `MaybeUninit` static and the three separate lock acquisitions in `submit_document` are concurrency. The model is sequential, so the check-then-insert race in `intern` (`src/intern.rs:42-51`) and a lock poisoned by a panic are not represented.
- Floating point is a parameter. `contribution` stands for `(100000.0 * log10((N + 1) / (df + 1)) * freq) as u64` (`src/main.rs:77-86`), and `divide` for `n as f64 / len as f64` (`src/main.rs:200`). An f64 is its 8-byte bit pattern (`F64`), and the codec stores those bits unchanged.
- Ranking.SortDocuments: the score sums are unbounded naturals. A `u64` overflow in `*v += score` (a panic in debug builds, wrap-around in release builds) is not modelled.
- Submit.CountWords: the `usize` counts are unbounded naturals, so an overflow of `*v += 1` is not modelled.
- UTF-8 validation (`.expect` at `src/file_format.rs:29, 42, 62, 79`) is left out. Strings are byte sequences.
- A record that runs past the end of the input makes the source panic on a slice or on `try_into().unwrap()`. The model returns `Truncated` instead.
- The writer's I/O errors (`?` in `serialize`) are left out. The writer is a byte sequence that is appended to.
- The cache-file read and write in `main` and `shutdown`, and the tokio signal handling, are I/O.
- HashMap iteration order is an input. The encoder takes an `Order`, and `sort_documents` and the frequency loop take a key enumeration. `Listed` and `Enumerates` say that the input is one iteration.
- The `BTreeMap` in `sort_documents` is only iterated before the sort. The model collects its rows in store order instead of ascending title order, and `ResultDetermined` shows that the sorted result does not depend on that order.
- `Vec::sort_by` is a library call. It is modelled by an insertion sort with the same comparator, `b.cmp(a)` on `(u64, String, String)`.
- Terms are keyed by text, not by `PoolId`. `deserialize`'s calls to `intern` are therefore not modelled. In `submit_document` the words are interned (`CountWords`), but the store keeps their text.
- `dbg!`, `eprintln!` and `log` are diagnostics.

## Findings

| source | as written | input that shows it | evidently intended | confidence | as-written member | corrected member |
|---|---|---|---|---|---|---|
| src/file_format.rs:95 | `deserialize` returns the store without moving in the document still open at the end of the input | the snapshot of any store with one document, for example the bytes `02 01 00 61 03 00 00` (title `a`, empty path), decodes to a store with no documents | store the open document at the end of the input too, as a 0x02 record does (`src/file_format.rs:36-38`), so that a saved store is read back whole | high, not executed | RoundTrip.DecodeLosesLastDocument | RoundTrip.RoundTripFinalized |
