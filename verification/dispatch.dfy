/** The native module's pure decisions: the launch guard of
    `openContactPicker`, the `handleActivityResult` dispatch, and the two
    permission/availability queries. The current activity, the permission
    check and the platform's launch are inputs. Both native variants share
    these decisions and their messages. */
module Dispatch {
  import opened Types
  import opened Envelope

  const CONTACTS_PERMISSION_REQUEST_CODE: int := 1001
  const CONTACT_PICKER_REQUEST_CODE: int := 1002

  /** `android.app.Activity.RESULT_OK` and `RESULT_CANCELED`. */
  const RESULT_OK: int := -1
  const RESULT_CANCELED: int := 0

  const NoActivity := "No current activity available"
  const PermissionNotGranted := "Contacts permission not granted"
  const LaunchFailedPrefix := "Failed to open contact picker: "
  const UserCancelled := "User cancelled contact selection"
  const NoContactSelected := "No contact selected"
  const DetailsUnavailable := "Failed to retrieve contact details"
  const SelectionFailed := "Failed to select contact"

  /** What `startActivityForResult` did: returned, or threw an exception
      whose message may be null. */
  datatype LaunchAttempt = Started | Threw(message: Option<string>)

  datatype LaunchOutcome = Launched | Refused(error: string)

  /** String concatenation and string templates render a null message as "null". */
  function MessageText(m: Option<string>): string {
    m.GetOr("null")
  }

  /** `openContactPicker`: the activity is checked first, then the permission
      (which is never requested here), and only then is the picker launched. */
  function OpenContactPicker(hasActivity: bool, granted: bool, attempt: LaunchAttempt): (o: LaunchOutcome)
    ensures o.Launched? <==> hasActivity && granted && attempt.Started?
    ensures !hasActivity ==> o == Refused(NoActivity)
    ensures hasActivity && !granted ==> o == Refused(PermissionNotGranted)
    ensures hasActivity && granted && attempt.Threw? ==>
              o == Refused(LaunchFailedPrefix + MessageText(attempt.message))
  {
    if !hasActivity then Refused(NoActivity)
    else if !granted then Refused(PermissionNotGranted)
    else match attempt
      case Started => Launched
      case Threw(m) => Refused(LaunchFailedPrefix + MessageText(m))
  }

  /** A refusal's message tells which guard fired: no launch-failure message,
      whatever the exception said, reads like one of the two guard messages. */
  lemma RefusalNamesItsCause(hasActivity: bool, granted: bool, attempt: LaunchAttempt)
    ensures OpenContactPicker(hasActivity, granted, attempt) == Refused(NoActivity) <==> !hasActivity
    ensures (OpenContactPicker(hasActivity, granted, attempt) == Refused(PermissionNotGranted))
              <==> hasActivity && !granted
  {
    if hasActivity && granted && attempt.Threw? {
      var msg := LaunchFailedPrefix + MessageText(attempt.message);
      assert msg[0] == 'F';
      assert NoActivity[0] == 'N' && PermissionNotGranted[0] == 'C';
    }
  }

  datatype Uri = Uri(path: string)

  /** The returned `Intent`; `data` is its nullable contact URI. */
  datatype Intent = Intent(data: Option<Uri>)

  /** `handleActivityResult(requestCode, resultCode, data)`. `None` means no
      envelope is produced at all; `details` is `getContactDetails`, consulted
      only when an OK result carries a URI. */
  function HandleActivityResult(requestCode: int, resultCode: int, data: Option<Intent>,
                                details: Uri -> Option<Contact>): (d: Option<PhonebookResult>)
    ensures d.None? <==> requestCode != CONTACT_PICKER_REQUEST_CODE
    ensures d.Some? ==> WellFormed(d.value)
    ensures d.Some? && d.value.success <==>
              && requestCode == CONTACT_PICKER_REQUEST_CODE
              && resultCode == RESULT_OK
              && data.Some? && data.value.data.Some?
              && details(data.value.data.value).Some?
    ensures d.Some? && d.value.success ==>
              d.value.contacts == Some([details(data.value.data.value).value])
    ensures requestCode == CONTACT_PICKER_REQUEST_CODE && resultCode == RESULT_CANCELED ==>
              d == Some(HandleError(UserCancelled))
    ensures requestCode == CONTACT_PICKER_REQUEST_CODE && resultCode == RESULT_OK
              && data.Some? && data.value.data.None? ==>
              d == Some(HandleError(NoContactSelected))
    ensures requestCode == CONTACT_PICKER_REQUEST_CODE && resultCode == RESULT_OK
              && data.Some? && data.value.data.Some? && details(data.value.data.value).None? ==>
              d == Some(HandleError(DetailsUnavailable))
    ensures requestCode == CONTACT_PICKER_REQUEST_CODE && resultCode != RESULT_CANCELED
              && (resultCode != RESULT_OK || data.None?) ==>
              d == Some(HandleError(SelectionFailed))
  {
    if requestCode != CONTACT_PICKER_REQUEST_CODE then None
    else if resultCode == RESULT_CANCELED then Some(HandleError(UserCancelled))
    else if resultCode == RESULT_OK && data.Some? then
      match data.value.data
      case Some(uri) =>
        (match details(uri)
         case Some(contact) => Some(HandleResult(true, Some([contact]), None))
         case None => Some(HandleError(DetailsUnavailable)))
      case None => Some(HandleError(NoContactSelected))
    else Some(HandleError(SelectionFailed))
  }

  /** `isPhonebookAvailable`: resolves true whatever the device state. */
  function IsPhonebookAvailable(hasActivity: bool, granted: bool): (r: bool)
    ensures r
  {
    true
  }

  /** What `requestContactsPermission` resolves with, and the request code of
      the permission request it issued, if it issued one. */
  datatype PermissionAnswer = PermissionAnswer(resolved: bool, request: Option<int>)

  /** `requestContactsPermission`. `grantedAfter` is the permission state read
      right after the (asynchronous) request call returns, before the user has
      necessarily answered the dialog. */
  function RequestContactsPermission(hasActivity: bool, grantedBefore: bool, grantedAfter: bool): (a: PermissionAnswer)
    ensures a.request.Some? <==> hasActivity && !grantedBefore
    ensures a.request.Some? ==> a.request.value == CONTACTS_PERMISSION_REQUEST_CODE
    ensures a.resolved <==> hasActivity && (grantedBefore || grantedAfter)
    ensures a.request.Some? ==> a.resolved == grantedAfter
  {
    if !hasActivity then PermissionAnswer(false, None)
    else if grantedBefore then PermissionAnswer(true, None)
    else PermissionAnswer(grantedAfter, Some(CONTACTS_PERMISSION_REQUEST_CODE))
  }
}
