# PromptExtractor — a Dafny model

This project models `PromptExtractor`. That class matches locally stored video files to the
text prompts of a dataset, using an identifier embedded in each file name. It has three parts:

- **Video listing** (`list_video_files`) keeps the folder entries whose names end in `.mp4`,
  `.avi`, `.mov` or `.mkv`. The test is case-sensitive.
- **Prompt lookup** (`prompt_from_id`) searches the table's `uuid` column for an identifier,
  by exact equality. It answers with the prompt and position of the first matching row, or with
  `None`.
- **Correlation** (`process_video_files`) handles each file name in turn:
  - It tries the known prefixes (`file_beginnings`) in order. The first prefix the name starts
    with wins.
  - The identifier (uuid) is the part of the name after that prefix, up to the first `.`.
  - It emits a record (uuid, prefix, prompt). The prompt is the looked-up one, or none when the
    lookup fails.
  - A name that starts with no prefix yields no record.

The model is purely functional:

- The DataFrame is a `seq<Row>`, with `Row = (uuid, prompt: Option<string>)`.
- The result is a `seq<Record>`, with `Record = (uuid, prefix, prompt: Option<string>)`.
- The class's two fields, the table and the prefix list, become explicit parameters.

Modules:

- `Wrappers`: `Option`, for Python's `None`.
- `Sequences`: "first element satisfying a predicate" and an order-preserving filter. This module
  also holds the subsequence relation and lemmas about the filter.
- `Strings`: `startswith`, `endswith`, and `str.split` with a one-character separator. Both
  directions of the split/join round trip are proved.
- `PromptTable`: rows, and `prompt_from_id`.
- `Correlator`: the per-file matching, `process_video_files`, and the source's two nested loops
  as methods. The methods are proved equal to the functional definition.
- `Discovery`: `list_video_files`.
- `Scenarios`: worked examples as lemmas. One is the clip/scene example with three files. The
  other is a listing that has upper-case and double extensions.

Each record is specified by `Correlator.Describes`. The predicate has three parts:

- The record's prefix is the first listed prefix that the file starts with.
- Its uuid is the longest `.`-free beginning of the rest of the name.
- Its prompt is that of the first table row carrying the uuid, or none if no row carries it.

`ProcessFile` satisfies `Describes`. `DescribesDeterminesRecord` proves the converse, so
`Describes` is a complete specification.

`ProcessVideoFiles` produces one record per file that starts with a known prefix, in file order.
The list of those files, `MatchedFiles`, is characterised in two ways:

- it is a subsequence of the input;
- it has the same multiset as the input, restricted to names with a known prefix.

## Behaviours of the code worth noting

- **Prefix choice.** The first listed prefix that the name starts with wins. This holds even
  when a later, longer prefix would also match.
- **Empty prompts.** `if prompt_info:` tests a pair `(prompt, index)`, and a pair is always
  truthy in Python. So when the matching row's prompt cell is empty, the record keeps that empty
  prompt and no warning is printed.
  - A record's prompt is therefore missing exactly when no row matches only if every row carries
    a prompt. `Correlator.PromptMissingIffNoRow` states it under that hypothesis.
- **No extension required.** A file name needs no extension. Without a `.` after the prefix,
  the uuid is the whole rest of the name.

## Model

| member | source | states |
|---|---|---|
| `Strings.StartsWith` | prompt_extractor.py:41 | `file.startswith(prefix)`: `prefix` is no longer than `s` and equals the first `|prefix|` characters of `s`, compared exactly; true for the empty prefix, as in Python |
| `Strings.StartsWithDecomposition` | prompt_extractor.py:41 | a string starts with `prefix` exactly when it is `prefix` followed by some rest; every string starts with the empty string |
| `Strings.EndsWith` | prompt_extractor.py:77 | `name.endswith(suffix)`: `suffix` is no longer than `s` and equals the last `|suffix|` characters of `s`, compared exactly |
| `Strings.EndsWithDecomposition` | prompt_extractor.py:77 | a string ends with `suffix` exactly when it is some front followed by `suffix`; every string ends with the empty string |
| `Strings.IndexOf` | prompt_extractor.py:42 | the result is the position of the first separator, or the length when there is none: nothing before it is the separator, and it points at one when in range |
| `Strings.IndexOfAt` | prompt_extractor.py:42 | when `a` has no separator, the first separator of `a + [c] + b` is at position `|a|` |
| `Strings.Split` | prompt_extractor.py:42 | `str.split` returns at least one field, no field contains the separator, and joining the fields with the separator gives back the input |
| `Strings.SplitJoin` | prompt_extractor.py:42 | the inverse round trip: splitting the join of separator-free fields returns exactly those fields |
| `Strings.SplitHead` | prompt_extractor.py:42 | the first field of a split (`split('.')[0]`) is a prefix of the string, has no separator, and is followed by the separator or by the end of the string |
| `Sequences.FirstIndex` | prompt_extractor.py:40-41 | the search answers `None` exactly when no element satisfies the test; otherwise it gives an in-range index whose element satisfies the test and before which none does |
| `Sequences.FirstIndexUnique` | prompt_extractor.py:40-41 | any satisfying index with no satisfying element before it is the one the search returns |
| `Sequences.FirstIndexAppend` | prompt_extractor.py:60 | once an element of the front part satisfies the test, elements appended after it do not change the answer (the loop stops at the first hit) |
| `Sequences.Filter` | prompt_extractor.py:77 | the comprehension keeps only elements that pass the test, keeps each passing element as often as it occurs, drops every other element, and yields an order-preserving subsequence |
| `Sequences.FilterStep` | prompt_extractor.py:77 | one more element at the end of the list is kept, at the end, exactly when it passes the test |
| `Sequences.FilterAppend` | prompt_extractor.py:77 | filtering a concatenation is the concatenation of the filtered parts |
| `PromptTable.PromptFromId` | prompt_extractor.py:15-23 | `None` exactly when no row has the identifier; otherwise the index of the first row with that identifier, together with that row's prompt |
| `PromptTable.UniqueIdLookup` | prompt_extractor.py:19-21 | an identifier that occurs in exactly one row is answered with that row's prompt and position |
| `Correlator.FirstMatch` | prompt_extractor.py:40-41 | no answer exactly when the file starts with no prefix; otherwise the position of a prefix the file starts with, such that the file starts with no prefix listed before it |
| `Correlator.ExtractUuid` | prompt_extractor.py:42 | the uuid is a `.`-free beginning of the name after the prefix, ending at the end of the name or just before the first `.` |
| `Correlator.FileDecomposition` | prompt_extractor.py:41-42 | a matched name is `prefix + uuid + rest`, where the uuid has no `.` and `rest` is empty or starts with `.` |
| `Correlator.UuidUnique` | prompt_extractor.py:42 | the characterisation of the uuid admits only one string for a given name remainder |
| `Correlator.RecordPrompt` | prompt_extractor.py:44-57 | the record's prompt is that of the first row carrying the uuid when there is one, and none otherwise |
| `Correlator.PromptForUnique` | prompt_extractor.py:19-23 | the table determines the prompt that belongs to an identifier |
| `Correlator.ProcessFile` | prompt_extractor.py:40-60 | a file yields no record exactly when it starts with no prefix; otherwise its record has the first matching prefix, the uuid after it, and the uuid's prompt |
| `Correlator.DescribesDeterminesRecord` | prompt_extractor.py:40-60 | conversely, any record that meets that description is exactly the record produced for the file |
| `Correlator.LaterPrefixesIgnored` | prompt_extractor.py:40-60 | for a file that already matches one of the prefixes, appending more prefixes to the list leaves its record unchanged |
| `Correlator.HasKnownPrefix` | prompt_extractor.py:40-41 | the prefix loop hits some prefix: the file starts with at least one listed prefix |
| `Correlator.HasKnownPrefixIffMatch` | prompt_extractor.py:40-41 | a file has a known prefix exactly when the first-match search finds a prefix |
| `Correlator.MatchedFiles` | prompt_extractor.py:39-41 | the files that produce records form an order-preserving subsequence of the input: exactly the files with a known prefix, with their multiplicities |
| `Correlator.ProcessVideoFiles` | prompt_extractor.py:37-60 | there are as many records as files with a known prefix, and the i-th record describes the i-th such file (prefix, uuid and prompt as above) |
| `Correlator.RecordCountBound` | prompt_extractor.py:39-60 | there are never more records than input files |
| `Correlator.ProcessSingleFile` | prompt_extractor.py:37-60 | a one-file list yields that file's record when it has one, and nothing otherwise |
| `Correlator.ProcessVideoFilesAppend` | prompt_extractor.py:37-60 | files are processed independently: the records of `a + b` are those of `a` followed by those of `b` |
| `Correlator.UnmatchedFileDropped` | prompt_extractor.py:39-60 | inserting a file with no known prefix anywhere in the list leaves the records unchanged |
| `Correlator.PromptMissingIffNoRow` | prompt_extractor.py:44-57 | if every row has a prompt, then a record has no prompt exactly when no row carries its uuid |
| `Correlator.MatchFileLoop` | prompt_extractor.py:40-60 | the prefix loop, which returns at the first match, computes the record that `ProcessFile` specifies |
| `Correlator.ProcessVideoFilesLoop` | prompt_extractor.py:37-60 | the loop over the files, which appends each file's record, builds exactly the `ProcessVideoFiles` sequence |
| `Discovery.IsVideoFile` | prompt_extractor.py:77 | `name.endswith(('.mp4', '.avi', '.mov', '.mkv'))`: the name ends with one of the four extensions, compared case-sensitively |
| `Discovery.IsVideoFileBySuffix` | prompt_extractor.py:77 | a name is a video name exactly when its last four characters are `.mp4`, `.avi`, `.mov` or `.mkv` |
| `Discovery.ListVideoFiles` | prompt_extractor.py:72-78 | a missing folder yields nothing; otherwise the result is an order-preserving subsequence of the listing that holds each video name as often as it is listed, and nothing else |
| `Scenarios.ClipSceneScenario` | prompt_extractor.py:37-60 | with prefixes `clip_` and `scene_`, where only `abc123` has a prompt: `clip_abc123.mp4` gets that prompt, `scene_xyz999.mov` gets a record with no prompt, and `random_file.mp4` gets no record |
| `Scenarios.ListingScenario` | prompt_extractor.py:72-78 | in the listing, `.MP4` and `.mp4.txt` names are dropped while the others stay in order, and a missing folder lists nothing |

## Left out

- The DataFrame construction and the `to_csv` write to `processed_video_data.csv`
  (prompt_extractor.py:63-64) are library plumbing and file output. The model returns the record
  sequence that would be written.
- `os.path.exists` and `os.listdir` (prompt_extractor.py:72-76) are file-system access. Both
  become parameters of `Discovery.ListVideoFiles`: a flag for whether the folder exists, and the
  listing. The order of the listing is whatever the caller passes.
- The `print` warnings (prompt_extractor.py:58 and 73) are console output. They do not affect
  the returned data.
- The constructor (prompt_extractor.py:5-13) only stores the table and the prefix list. The
  model passes both explicitly to every operation.
- Pandas index labels are not modelled. The row index returned by `prompt_from_id` is the row's
  position, which assumes the default range index. Empty (NaN) prompt cells are `None`.
- A non-string value in the `uuid` column is not modelled. Pandas' element-wise `==` would
  compare it with the identifier, but the model's identifiers are strings only.
- `process_video_files` reports no progress and always writes `processed_video_data.csv`. The
  model has no output-path parameter because the class has none.
- `ListVideoFiles(true, listing)` always returns. The exception `os.listdir` raises when the path
  exists but is not a readable directory is not modelled.
- Names are Dafny strings, i.e. sequences of Unicode scalar values. Names holding lone surrogates,
  which `os.listdir` can return under the surrogateescape error handler, cannot be written down.
