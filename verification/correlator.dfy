/**
 `PromptExtractor.process_video_files`: each video file name is matched against
 the ordered list of known prefixes (`file_beginnings`); the first prefix the
 name starts with is chosen, the identifier is what follows that prefix up to
 the first `.`, and a record (uuid, prefix, prompt) is emitted with the prompt
 looked up in the table (or no prompt when the lookup fails). A name that starts
 with none of the prefixes yields no record.

 The returned sequence is the list prompt_extractor.py:63-64 turns into a DataFrame and writes
 to CSV; the write itself is not modelled.
 */
module Correlator {
  import opened Wrappers
  import opened Strings
  import opened PromptTable
  import Sequences

  datatype Record = Record(uuid: string, prefix: string, prompt: Option<string>)

  /** Ordered prefix list: `p` is the prefix the inner loop of prompt_extractor.py:40-60 stops at
      for `file`, i.e. it sits at some position `k` of `prefixes`, `file` starts
      with it, and `file` starts with no prefix listed before position `k`. */
  ghost predicate IsFirstPrefix(file: string, prefixes: seq<string>, p: string) {
    exists k :: 0 <= k < |prefixes| && prefixes[k] == p && StartsWith(file, p)
      && forall j :: 0 <= j < k ==> !StartsWith(file, prefixes[j])
  }

  /** `uuid` is the identifier embedded in `rest` (a file name with its prefix
      removed): a separator-free beginning of `rest` that reaches either the
      end of `rest` or its first `.`. */
  ghost predicate IsUuidOf(uuid: string, rest: string) {
    && StartsWith(rest, uuid)
    && '.' !in uuid
    && (|uuid| == |rest| || rest[|uuid|] == '.')
  }

  /** `rec` is the record prompt_extractor.py:40-60 produces for `file`. */
  ghost predicate Describes(rec: Record, file: string, prefixes: seq<string>, table: seq<Row>) {
    && IsFirstPrefix(file, prefixes, rec.prefix)
    && IsUuidOf(rec.uuid, file[|rec.prefix|..])
    && PromptFor(table, rec.uuid, rec.prompt)
  }

  /** `file.startswith(p)` as a function value, for the prefix search. */
  function Begins(file: string): string -> bool {
    p => StartsWith(file, p)
  }

  /** Position in `prefixes` of the first prefix that `file` starts with. */
  function FirstMatch(file: string, prefixes: seq<string>): (r: Option<nat>)
    ensures r.None? <==> forall j :: 0 <= j < |prefixes| ==> !StartsWith(file, prefixes[j])
    ensures r.Some? ==> r.value < |prefixes| && StartsWith(file, prefixes[r.value])
    ensures r.Some? ==> forall j :: 0 <= j < r.value ==> !StartsWith(file, prefixes[j])
  {
    Sequences.FirstIndex(prefixes, Begins(file))
  }

  /** `file[len(prefix):].split('.')[0]`: the identifier after `prefix`. */
  function ExtractUuid(file: string, prefix: string): (uuid: string)
    requires StartsWith(file, prefix)
    ensures IsUuidOf(uuid, file[|prefix|..])
  {
    SplitHead(file[|prefix|..], '.');
    Split(file[|prefix|..], '.')[0]
  }

  /** A matched file name decomposes as prefix, identifier, and a remainder that
      is empty or starts with the first `.` after the prefix. */
  lemma FileDecomposition(file: string, prefix: string)
    requires StartsWith(file, prefix)
    ensures var uuid := ExtractUuid(file, prefix);
      && |prefix| + |uuid| <= |file|
      && file == prefix + uuid + file[|prefix| + |uuid|..]
      && '.' !in uuid
      && (|prefix| + |uuid| == |file| || file[|prefix| + |uuid|] == '.')
  {
  }

  /** The identifier is determined by the remainder: there is only one. */
  lemma UuidUnique(u: string, v: string, rest: string)
    requires IsUuidOf(u, rest) && IsUuidOf(v, rest)
    ensures u == v
  {
  }

  /** The prompt of the record: the found row's prompt cell (prompt_extractor.py:45-51; a
      found row is always taken, since a Python pair is truthy), or `None`
      when the lookup fails (prompt_extractor.py:52-57). */
  function RecordPrompt(table: seq<Row>, uuid: string): (prompt: Option<string>)
    ensures PromptFor(table, uuid, prompt)
  {
    match PromptFromId(table, uuid)
    case Some(hit) => hit.prompt
    case None => None
  }

  /** The prompt belonging to an identifier is determined by the table. */
  lemma PromptForUnique(table: seq<Row>, id: string, p: Option<string>, q: Option<string>)
    requires PromptFor(table, id, p) && PromptFor(table, id, q)
    ensures p == q
  {
  }

  /** One iteration of the outer loop (prompt_extractor.py:40-60): the record for `file`, or
      `None` when no prefix matches. */
  function ProcessFile(file: string, prefixes: seq<string>, table: seq<Row>): (r: Option<Record>)
    ensures r.None? <==> forall j :: 0 <= j < |prefixes| ==> !StartsWith(file, prefixes[j])
    ensures r.Some? ==> Describes(r.value, file, prefixes, table)
  {
    match FirstMatch(file, prefixes)
    case None => None
    case Some(k) =>
      var prefix := prefixes[k];
      var uuid := ExtractUuid(file, prefix);
      Some(Record(uuid, prefix, RecordPrompt(table, uuid)))
  }

  /** The converse of `ProcessFile`'s contract: a record that satisfies the
      description is exactly the one produced, so the description is a
      complete specification of a file's record. */
  lemma DescribesDeterminesRecord(rec: Record, file: string, prefixes: seq<string>, table: seq<Row>)
    requires Describes(rec, file, prefixes, table)
    ensures ProcessFile(file, prefixes, table) == Some(rec)
  {
  }

  /** Prefixes listed after one that already matches are never consulted. */
  lemma LaterPrefixesIgnored(file: string, prefixes: seq<string>, more: seq<string>, table: seq<Row>)
    requires HasKnownPrefix(file, prefixes)
    ensures ProcessFile(file, prefixes + more, table) == ProcessFile(file, prefixes, table)
  {
    Sequences.FirstIndexAppend(prefixes, more, Begins(file));
    var k := FirstMatch(file, prefixes).value;
    assert (prefixes + more)[k] == prefixes[k];
  }

  /** `file` starts with at least one of the known prefixes. */
  predicate HasKnownPrefix(file: string, prefixes: seq<string>) {
    exists j :: 0 <= j < |prefixes| && StartsWith(file, prefixes[j])
  }

  /** A file has a known prefix exactly when the prefix search finds one. */
  lemma HasKnownPrefixIffMatch(file: string, prefixes: seq<string>)
    ensures HasKnownPrefix(file, prefixes) <==> FirstMatch(file, prefixes).Some?
  {
  }

  /** `HasKnownPrefix` as a function value, for the filter. */
  function Known(prefixes: seq<string>): string -> bool {
    f => HasKnownPrefix(f, prefixes)
  }

  /** The input files that start with at least one known prefix, in input order. */
  function MatchedFiles(files: seq<string>, prefixes: seq<string>): (r: seq<string>)
    ensures Sequences.IsSubsequence(r, files)
    ensures forall f :: multiset(r)[f] == if HasKnownPrefix(f, prefixes) then multiset(files)[f] else 0
  {
    Sequences.Filter(files, Known(prefixes))
  }

  /** There are never more records than input files. */
  lemma RecordCountBound(files: seq<string>, prefixes: seq<string>, table: seq<Row>)
    ensures |ProcessVideoFiles(files, prefixes, table)| <= |files|
  {
  }

  /** `process_video_files(video_files)`: one record per file that matches a
      prefix, in file order; the i-th record describes the i-th matching file. */
  function ProcessVideoFiles(files: seq<string>, prefixes: seq<string>, table: seq<Row>): (r: seq<Record>)
    ensures |r| == |MatchedFiles(files, prefixes)|
    ensures forall i :: 0 <= i < |r| ==> Describes(r[i], MatchedFiles(files, prefixes)[i], prefixes, table)
    decreases |files|
  {
    if |files| == 0 then []
    else
      var init := files[..|files| - 1];
      var last := files[|files| - 1];
      assert files == init + [last];
      var front := ProcessVideoFiles(init, prefixes, table);
      assert MatchedFiles(files, prefixes)
        == MatchedFiles(init, prefixes) + if HasKnownPrefix(last, prefixes) then [last] else [];
      match ProcessFile(last, prefixes, table)
      case None => front
      case Some(rec) => front + [rec]
  }

  /** Files are processed independently: the records of a concatenation of two
      file lists are the records of the first followed by those of the second. */
  lemma {:induction false} ProcessVideoFilesAppend(a: seq<string>, b: seq<string>, prefixes: seq<string>, table: seq<Row>)
    ensures ProcessVideoFiles(a + b, prefixes, table)
      == ProcessVideoFiles(a, prefixes, table) + ProcessVideoFiles(b, prefixes, table)
    decreases |b|
  {
    if |b| == 0 {
      assert a + b == a;
    } else {
      var init := b[..|b| - 1];
      var last := b[|b| - 1];
      assert (a + b)[..|a + b| - 1] == a + init;
      assert (a + b)[|a + b| - 1] == last;
      ProcessVideoFilesAppend(a, init, prefixes, table);
    }
  }

  /** A one-file list yields that file's record, if it has one. */
  lemma ProcessSingleFile(file: string, prefixes: seq<string>, table: seq<Row>)
    ensures ProcessVideoFiles([file], prefixes, table)
      == match ProcessFile(file, prefixes, table) case None => [] case Some(rec) => [rec]
  {
  }

  /** A file that starts with no known prefix leaves no trace, wherever it
      appears in the list. */
  lemma UnmatchedFileDropped(before: seq<string>, file: string, after: seq<string>, prefixes: seq<string>, table: seq<Row>)
    requires !HasKnownPrefix(file, prefixes)
    ensures ProcessVideoFiles(before + [file] + after, prefixes, table)
      == ProcessVideoFiles(before + after, prefixes, table)
  {
    ProcessVideoFilesAppend(before + [file], after, prefixes, table);
    ProcessVideoFilesAppend(before, [file], prefixes, table);
    ProcessVideoFilesAppend(before, after, prefixes, table);
    assert [file][..0] == [];
  }

  /** When every row of the table carries a prompt, a record's prompt is
      missing exactly when no row carries the record's identifier. */
  lemma PromptMissingIffNoRow(files: seq<string>, prefixes: seq<string>, table: seq<Row>)
    requires forall i :: 0 <= i < |table| ==> table[i].prompt.Some?
    ensures var r := ProcessVideoFiles(files, prefixes, table);
      forall i :: 0 <= i < |r| ==> (r[i].prompt.None? <==> !HasId(table, r[i].uuid))
  {
  }

  /** The inner loop (prompt_extractor.py:40-60): try the prefixes in order
      and stop at the first one `file` starts with. */
  method MatchFileLoop(file: string, prefixes: seq<string>, table: seq<Row>)
    returns (rec: Option<Record>)
    ensures rec == ProcessFile(file, prefixes, table)
  {
    for j := 0 to |prefixes|
      invariant forall m :: 0 <= m < j ==> !StartsWith(file, prefixes[m])
    {
      var prefix := prefixes[j];
      if StartsWith(file, prefix) {
        Sequences.FirstIndexUnique(prefixes, Begins(file), j);
        var uuid := ExtractUuid(file, prefix);
        var promptInfo := PromptFromId(table, uuid);
        if promptInfo.Some? {
          return Some(Record(uuid, prefix, promptInfo.value.prompt));
        } else {
          return Some(Record(uuid, prefix, None));
        }
      }
    }
    return None;
  }

  /** The outer loop (prompt_extractor.py:37-60): one pass over the files,
      appending each file's record; it builds exactly `ProcessVideoFiles`. */
  method ProcessVideoFilesLoop(files: seq<string>, prefixes: seq<string>, table: seq<Row>)
    returns (data: seq<Record>)
    ensures data == ProcessVideoFiles(files, prefixes, table)
  {
    data := [];
    for n := 0 to |files|
      invariant data == ProcessVideoFiles(files[..n], prefixes, table)
    {
      var file := files[n];
      assert files[..n + 1][..n] == files[..n];
      var rec := MatchFileLoop(file, prefixes, table);
      if rec.Some? {
        data := data + [rec.value];
      }
    }
    assert files[..|files|] == files;
  }
}
