/** Shared records of the application (src/lib/types.ts) and the small
    wrappers used to describe absent values and settled asynchronous calls. */
module Types {

  /** A value that may be absent (`undefined` / `null` in the source). */
  datatype Option<+T> = None | Some(value: T)

  /** JavaScript truthiness of an optional string: `null`, `undefined` and
      the empty string are falsy, every other string is truthy. */
  predicate Truthy(s: Option<string>)
  {
    s.Some? && s.value != ""
  }

  /** How an awaited call ended: it returned a value, it threw an `Error`
      (which carries a message), or it threw something that is not an `Error`. */
  datatype Reply<+T> = Returned(value: T) | ThrewError(message: string) | ThrewOther

  /** The outcome of one promise in `Promise.allSettled`. */
  datatype Settled<+T> = Fulfilled(value: T) | Rejected

  /** `ExplanationMode` of the translation page. */
  datatype ExplanationMode = Beginner | Advanced

  /** `AIResults`: every field is optional. */
  datatype AIResults = AIResults(
    englishSentence: Option<string>,
    englishTerm: Option<string>,
    definition: Option<string>,
    explanation: Option<string>)

  /** `HistoryEntry`: one recorded translation request and its results. */
  datatype HistoryEntry = HistoryEntry(
    id: string,
    timestamp: int,
    turkishInput: string,
    mode: ExplanationMode,
    results: AIResults)
}
