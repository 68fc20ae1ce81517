/** The result envelope built by `handleResult` / `handleError`. */
module Envelope {
  import opened Types

  /** The keys of the JSON object (and of the bridged map) for an envelope. */
  function Keys(r: PhonebookResult): set<string> {
    {"success"}
    + (if r.contacts.Some? then {"contacts"} else {})
    + (if r.error.Some? then {"error"} else {})
  }

  /** `handleResult(success, contacts, error)`: `success` is always put,
      `contacts` only for a non-null array, `error` only for a non-null string. */
  function HandleResult(success: bool, contacts: Option<seq<Contact>>, error: Option<string>): (r: PhonebookResult)
    ensures "success" in Keys(r) && r.success == success
    ensures "contacts" in Keys(r) <==> contacts.Some?
    ensures "error" in Keys(r) <==> error.Some?
    ensures contacts.Some? ==> r.contacts.value == contacts.value
    ensures error.Some? ==> r.error.value == error.value
  {
    PhonebookResult(success, contacts, error)
  }

  /** `handleError(error)`: a failure envelope with no contacts key. */
  function HandleError(error: string): (r: PhonebookResult)
    ensures Keys(r) == {"success", "error"}
    ensures !r.success && r.error == Some(error)
  {
    HandleResult(false, None, Some(error))
  }

  /** Two envelopes that differ at most in the records they carry: the same
      success flag, the same error, and a contacts key in both or neither. */
  predicate AgreeUpToRecord(a: PhonebookResult, b: PhonebookResult) {
    && a.success == b.success
    && a.error == b.error
    && (a.contacts.Some? <==> b.contacts.Some?)
  }

  /** The shapes the module actually emits: a success carrying exactly one
      contact and no error, or a failure carrying an error and no contacts. */
  predicate WellFormed(r: PhonebookResult) {
    if r.success then
      Keys(r) == {"success", "contacts"} && |r.contacts.value| == 1
    else
      Keys(r) == {"success", "error"}
  }
}
