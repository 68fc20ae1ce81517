/** The JavaScript entry points (src/index.tsx): how each forwards to the
    native module, and how `pickContact` projects an envelope onto a single
    contact. A native call is recorded with its arguments in positional order. */
module Bridge {
  import opened Types
  import opened Envelope
  import opened Dispatch

  datatype NativeCall =
    | NativeOpenPhonebook(options: PhonebookOptions)
    | NativeOpenPhonebookWithCallback(options: PhonebookOptions, callback: nat)

  /** The options a call actually passes on: the caller's, or `{}` when the
      argument is omitted (or `undefined`). */
  function OptionsOrDefault(options: Option<PhonebookOptions>): PhonebookOptions {
    options.GetOr(EmptyOptions)
  }

  /** `openPhonebook(options = {})`. */
  function OpenPhonebook(options: Option<PhonebookOptions>): (call: NativeCall)
    ensures call.NativeOpenPhonebook?
    ensures options.Some? ==> call.options == options.value
    ensures options.None? ==> call.options == EmptyOptions
  {
    NativeOpenPhonebook(OptionsOrDefault(options))
  }

  /** `openPhonebookWithCallback(callback, options = {})`: the native method
      takes the options first and the callback second, and receives the same
      options `openPhonebook` would forward. */
  function OpenPhonebookWithCallback(callback: nat, options: Option<PhonebookOptions>): (call: NativeCall)
    ensures call.NativeOpenPhonebookWithCallback?
    ensures call.callback == callback
    ensures call.options == OpenPhonebook(options).options
  {
    NativeOpenPhonebookWithCallback(OptionsOrDefault(options), callback)
  }

  /** The native call `pickContact` makes: exactly what `openPhonebook()`
      with no argument, or with `{}`, would make. */
  function PickContactCall(): (call: NativeCall)
    ensures call == OpenPhonebook(None)
    ensures call == OpenPhonebook(Some(EmptyOptions))
  {
    NativeOpenPhonebook(EmptyOptions)
  }

  /** The `.then` of `pickContact`: the first contact of a successful,
      non-empty result, otherwise null. */
  function PickContact(result: PhonebookResult): (c: Option<Contact>)
    ensures c.Some? <==> result.success && result.contacts.Some? && |result.contacts.value| > 0
    ensures c.Some? ==> c.value == result.contacts.value[0]
  {
    if result.success && result.contacts.Some? && |result.contacts.value| > 0 then
      Some(result.contacts.value[0])
    else
      None
  }

  /** End to end: `pickContact` yields a contact exactly when the picker
      returned OK with a contact URI whose details could be read, and then
      yields those details; every refusal of the launch guard yields null. */
  lemma PickedContactReachesCaller(resultCode: int, data: Option<Intent>, details: Uri -> Option<Contact>)
    ensures HandleActivityResult(CONTACT_PICKER_REQUEST_CODE, resultCode, data, details).Some?
    ensures PickContact(HandleActivityResult(CONTACT_PICKER_REQUEST_CODE, resultCode, data, details).value)
              == (if resultCode == RESULT_OK && data.Some? && data.value.data.Some?
                  then details(data.value.data.value) else None)
    ensures forall hasActivity: bool, granted: bool, attempt: LaunchAttempt ::
              OpenContactPicker(hasActivity, granted, attempt).Refused? ==>
                PickContact(HandleError(OpenContactPicker(hasActivity, granted, attempt).error)) == None
  {
  }
}
