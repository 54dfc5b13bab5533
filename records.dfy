/**
 * The record schema shared by the three stages. The line parser builds a
 * `Record` with every field; the later stages read records back from JSON,
 * where any key may be missing, so they see a `JsonRecord` whose fields are
 * optional.
 */
module Records {
  import opened Wrappers

  /** One request as `parse_line` builds it. */
  datatype Record = Record(
    number: string,
    catItem: string,
    requestedFor: string,
    openedAt: string,
    sysUpdatedOn: string,
    desiredCompletionDate: string,
    requestDetails: string,
    files: seq<string>)

  /** One request as a JSON object: `None` is a missing key. */
  datatype JsonRecord = JsonRecord(
    number: Option<string>,
    catItem: Option<string>,
    requestedFor: Option<string>,
    openedAt: Option<string>,
    sysUpdatedOn: Option<string>,
    desiredCompletionDate: Option<string>,
    requestDetails: Option<string>,
    files: Option<seq<string>>)

  /** The JSON object `json.dump` writes for a parsed record: every key present. */
  function Store(r: Record): JsonRecord
  {
    JsonRecord(Some(r.number), Some(r.catItem), Some(r.requestedFor), Some(r.openedAt),
               Some(r.sysUpdatedOn), Some(r.desiredCompletionDate), Some(r.requestDetails), Some(r.files))
  }
}
