/**
 * The persisted result store of src/store/ikigaiStore.ts: one nullable
 * `result` record, overwritten by `setResult` and nulled by `clearResult`.
 */
module Ikigai {
  import opened Wrappers

  /** The structured answer of the summarisation endpoint, as the pages read it. */
  datatype IkigaiResult = IkigaiResult(
    summary: string,
    sentiment: string,
    suggestions: seq<string>,
    themes: seq<string>,
    paths: seq<string>)

  class IkigaiStore {
    var result: Option<IkigaiResult>

    constructor ()
      ensures result == None
    {
      result := None;
    }

    /** Whatever was stored before, `result` is now `r`: the last write wins. */
    method SetResult(r: IkigaiResult)
      modifies this
      ensures result == Some(r)
    {
      result := Some(r);
    }

    /** `result` is null afterwards whatever it was, so clearing twice is clearing once. */
    method ClearResult()
      modifies this
      ensures result == None
    {
      result := None;
    }
  }
}
