/**
 The prompt table and `PromptExtractor.prompt_from_id`: a lookup of a video
 identifier among the table's `uuid` column by exact equality, answering with
 the first matching row's prompt and position.

 The pandas DataFrame is a sequence of rows; its index is taken to be the
 default range index, so a row's index label is its position. A prompt cell may
 be empty (`None`/NaN), hence `Option<string>`.
 */
module PromptTable {
  import opened Wrappers
  import Sequences

  datatype Row = Row(uuid: string, prompt: Option<string>)

  /** What `prompt_from_id` returns when it finds a row: the row's prompt cell
      and the row's position in the table. */
  datatype Hit = Hit(prompt: Option<string>, index: nat)

  /** The table has a row whose `uuid` is `id`. */
  ghost predicate HasId(table: seq<Row>, id: string) {
    exists i :: 0 <= i < |table| && table[i].uuid == id
  }

  /** `k` is the position of the first row whose `uuid` is `id`. */
  ghost predicate IsFirstRowFor(table: seq<Row>, id: string, k: nat) {
    && k < |table|
    && table[k].uuid == id
    && forall j :: 0 <= j < k ==> table[j].uuid != id
  }

  /** `prompt` is the prompt that belongs to `id`: that of the first row with
      that identifier, or `None` if the table has no such row. */
  ghost predicate PromptFor(table: seq<Row>, id: string, prompt: Option<string>) {
    if HasId(table, id) then
      exists k: nat :: IsFirstRowFor(table, id, k) && prompt == table[k].prompt
    else
      prompt.None?
  }

  function IdIs(id: string): Row -> bool {
    (row: Row) => row.uuid == id
  }

  /** `prompt_from_id(video_id)`: `None` exactly when no row carries
      `videoId`; otherwise the first such row's prompt and position. */
  function PromptFromId(table: seq<Row>, videoId: string): (r: Option<Hit>)
    ensures r.None? <==> !HasId(table, videoId)
    ensures r.Some? ==> IsFirstRowFor(table, videoId, r.value.index)
    ensures r.Some? ==> r.value.prompt == table[r.value.index].prompt
  {
    match Sequences.FirstIndex(table, IdIs(videoId))
    case None => None
    case Some(k) => Some(Hit(table[k].prompt, k))
  }

  /** An identifier that occurs exactly once is answered with that row. */
  lemma UniqueIdLookup(table: seq<Row>, id: string, k: nat)
    requires k < |table| && table[k].uuid == id
    requires forall j :: 0 <= j < |table| && j != k ==> table[j].uuid != id
    ensures PromptFromId(table, id) == Some(Hit(table[k].prompt, k))
  {
  }
}
