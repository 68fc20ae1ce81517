# react-native-phonebook: a Dafny model of the native picker module

The library lets a React Native application open the Android contact picker
and get back one normalised contact record. Most of it is a bridge adapter.
The native `PhonebookModule` (written twice, once in Java and once in
Kotlin) also makes its own decisions. This project models those decisions
and proves properties of them:

- the completion slot. It holds at most one pending sink, a promise or a
  callback. `openPhonebook` / `openPhonebookWithCallback` set it, and
  `handleResult` consumes it (`Sinks`, `Phonebook`);
- the launch guard of `openContactPicker` and the `handleActivityResult`
  dispatch, with their exact error strings and constants (`Dispatch`);
- `getContactDetails` as a function of abstract content-provider rows.
  The Java variant reads organisation and title; the Kotlin variant reads
  postal addresses and sets birthday (`Provider`, `JavaDetails`,
  `KotlinDetails`);
- the result envelope and its key set (`Envelope`);
- the JavaScript layer: option defaulting, argument order, and the
  `pickContact` projection (`Bridge`).

The data types mirror `src/types.ts` (`Types`). The module is a state
machine over serialised events (`Phonebook.Step`): the two open calls and a
call of `handleActivityResult`. A run is a sequence of steps
(`Phonebook.Run`). The two native variants are one machine with a
`Variant` parameter. Only the Java class is wired to receive picker results
from the host (see `Phonebook.Step` under "## Left out").

Inputs that stand for the platform:
- whether a current activity exists;
- whether `READ_CONTACTS` is granted, before and right after a request;
- what `startActivityForResult` did;
- the rows each provider query yields, or that it threw, or that it
  returned a null cursor;
- the localised `getTypeLabel` lookups, as functions.

Two behaviours of the code are easy to misread:
- The cancel message is "User cancelled contact selection"
  (PhonebookModule.java:135).
- `getContactDetails` has a single `try` around every query
  (PhonebookModule.java:164-278). So an exception in any sub-query, not
  only the core lookup, makes the whole record null. No partial record is
  ever returned.

## Model

| member | source | states |
|---|---|---|
| Envelope.HandleResult | android/src/main/java/com/reactnativephonebook/PhonebookModule.java:283-298 | `success` is always a key; `contacts` is a key exactly when a contact array is passed; `error` is a key exactly when the error is non-null; the values are the ones passed |
| Envelope.HandleError | android/src/main/java/com/reactnativephonebook/PhonebookModule.java:367-369 | an error envelope has exactly the keys `success` and `error`, with success false and the given message |
| Sinks.OpenWithPromise | android/src/main/java/com/reactnativephonebook/PhonebookModule.java:42-48 | after `openPhonebook` the new promise is the only pending sink, so any earlier promise or callback is dropped |
| Sinks.OpenWithCallback | android/src/main/java/com/reactnativephonebook/PhonebookModule.java:51-57 | after `openPhonebookWithCallback` the new callback is the only pending sink |
| Sinks.JavaDeliver | android/src/main/java/com/reactnativephonebook/PhonebookModule.java:352-361 | every pending sink receives the envelope exactly once, nothing else receives it, and the slot ends empty |
| Sinks.KotlinDeliver | android/src/main/java/com/reactnativephonebook/PhonebookModule.kt:288-293 | the Kotlin delivery hands the envelope to every pending sink exactly once and to nothing else, and ends with both fields null |
| Sinks.DeliverVariantsAgree | android/src/main/java/com/reactnativephonebook/PhonebookModule.kt:286-294 | the Kotlin delivery (null both unconditionally) and the Java delivery (null the one that fired) produce the same deliveries and the same slot |
| Dispatch.OpenContactPicker | android/src/main/java/com/reactnativephonebook/PhonebookModule.java:98-117 | the picker launches exactly when there is an activity, the permission is granted and the launch does not throw; otherwise the error is "No current activity available", then "Contacts permission not granted", then "Failed to open contact picker: " + the exception message ("null" when absent), checked in that order |
| Dispatch.RefusalNamesItsCause | android/src/main/java/com/reactnativephonebook/PhonebookModule.kt:91-110 | the refusal message tells the cause: it is the no-activity message exactly when there is no activity, and the permission message exactly when there is an activity and no permission, whatever a launch exception says |
| Dispatch.HandleActivityResult | android/src/main/java/com/reactnativephonebook/PhonebookModule.java:130-159 | there is no envelope exactly when the request code is not 1002; every envelope is well formed; success with exactly that one contact holds exactly for RESULT_OK with an Intent whose URI has details; CANCELED gives "User cancelled contact selection"; a null URI gives "No contact selected"; no details give "Failed to retrieve contact details"; every other code, and RESULT_OK without an Intent, gives "Failed to select contact" |
| Dispatch.IsPhonebookAvailable | android/src/main/java/com/reactnativephonebook/PhonebookModule.kt:50-53 | availability is true whatever the activity or permission state |
| Dispatch.RequestContactsPermission | android/src/main/java/com/reactnativephonebook/PhonebookModule.kt:55-77 | a request with code 1001 is issued exactly when there is an activity and no permission yet; it resolves true exactly when there is an activity and the permission was granted before, or is seen granted right after the request; after a request the answer is that post-request snapshot |
| Provider.Collect | android/src/main/java/com/reactnativephonebook/PhonebookModule.java:201-218 | one entry per cursor row, entry i built from row i, so row order is kept |
| Provider.ReadCursor | android/src/main/java/com/reactnativephonebook/PhonebookModule.java:232-249 | the `moveToNext` loop builds the same list as the row-by-row reference |
| Provider.ReadAll | android/src/main/java/com/reactnativephonebook/PhonebookModule.kt:204-219 | a list query fails exactly when it throws; a null cursor gives no entries; otherwise there is one entry per row, in order |
| JavaDetails.GetContactDetails | android/src/main/java/com/reactnativephonebook/PhonebookModule.java:161-281 | null exactly when there is no core row or an issued query (phones only when `hasPhoneNumber > 0`, emails, organisation) threw; otherwise: id from the core row; name with null mapped to ""; firstName/lastName/note ""; no addresses or birthday; phones empty unless queried, else one per row in order; emails one per row in order; organisation and title each non-empty exactly when the first org row's column is non-null and non-empty, and then equal to it |
| JavaDetails.JaneDoeExample | android/src/main/java/com/reactnativephonebook/PhonebookModule.java:177-274 | a contact with id 42, name "Jane Doe", one phone (type mobile, labelled "Mobile"), one email (type work, labelled "Work") and organisation row Acme/Engineer becomes exactly that record with empty firstName, lastName and note, even when a postal query would have thrown |
| KotlinDetails.GetContactDetails | android/src/main/java/com/reactnativephonebook/PhonebookModule.kt:134-268 | null exactly when there is no core row or an issued query (phones when flagged, emails, postal) threw; otherwise: the same id, name, phone and email rules as Java; organisation, title, firstName, lastName and note are ""; birthday is ""; addresses are one per postal row in order, each null column mapped to "" |
| KotlinDetails.VariantsAgreeOnSharedFields | android/src/main/java/com/reactnativephonebook/PhonebookModule.kt:156-260 | unless the organisation or postal query throws, both variants succeed or fail together; when both succeed, the Kotlin record is the Java record with organisation and title emptied, addresses added and birthday "" |
| Phonebook.Deliver | android/src/main/java/com/reactnativephonebook/PhonebookModule.kt:270-294 | for either variant, `handleResult` completes every pending sink with the envelope and empties the slot |
| Phonebook.AfterLaunch | android/src/main/java/com/reactnativephonebook/PhonebookModule.java:98-116 | after its sink is installed, an open call leaves at most one sink pending and delivers at most one envelope, only ever to its own sink; it delivers nothing if the picker launched; otherwise it completes that sink, and only that one, with the guard's error, and empties the slot |
| Phonebook.OnResult | android/src/main/java/com/reactnativephonebook/PhonebookModule.java:130-159 | a result whose request code is not 1002 leaves the slot and delivers nothing; one with code 1002 hands the dispatch envelope to every pending sink (for the variant's own contact details) and to nothing else, and empties the slot |
| Phonebook.Step | android/src/main/java/com/reactnativephonebook/PhonebookModule.java:41-159 | each event keeps at most one sink pending and delivers at most one envelope; a delivery only goes to a sink that was pending or was just installed; an open call leaves only its own sink pending, or completes it at once with the guard's error; a result whose code is not 1002 changes nothing; a result with code 1002 hands the dispatch envelope to every pending sink and to nothing else, and empties the slot |
| Phonebook.Run | android/src/main/java/com/reactnativephonebook/PhonebookModule.java:27-57 | over any run of events, the slot never holds a promise and a callback at once |
| Phonebook.ResultsCompleteAtMostPending | android/src/main/java/com/reactnativephonebook/PhonebookModule.java:352-361 | with no new open call, any sequence of picker results delivers at most as many envelopes as there are pending sinks (at most one from a reachable slot), so a second result after a delivery delivers nothing |
| Phonebook.DroppedSinkNeverCompleted | android/src/main/java/com/reactnativephonebook/PhonebookModule.java:42-57 | a sink that is not pending, and that no later open call installs again, never receives an envelope |
| Phonebook.FirstOfTwoOpensIsDropped | android/src/main/java/com/reactnativephonebook/PhonebookModule.java:42-48 | when a second open call follows one whose picker launched, the first caller never receives a completion, whatever events follow, unless its promise is installed again |
| Phonebook.VariantsAgreeOffTheDetailsPath | android/src/main/java/com/reactnativephonebook/PhonebookModule.kt:91-131 | given the same event, the Kotlin and Java modules take identical steps (same slot, same deliveries, same envelopes) on every event except an OK result carrying a URI, which this lemma does not cover (`Phonebook.VariantsAgreeUpToTheRecord` does); for Kotlin a result event is a direct `handleActivityResult` call |
| Sinks.DeliveryTargetsIgnoreEnvelope | android/src/main/java/com/reactnativephonebook/PhonebookModule.kt:286-294 | which sinks a delivery completes, and in what order, depends on the slot alone: any other envelope reaches the same sinks and leaves the same slot |
| Phonebook.EnvelopesAgreeUpToTheRecord | android/src/main/java/com/reactnativephonebook/PhonebookModule.kt:112-131 | for one picker result the two variants both produce an envelope or neither does; unless the picked contact's organisation or postal query threw, the envelopes have the same success flag, the same error and the same contacts key |
| Phonebook.ResultsAgreeUpToTheRecord | android/src/main/java/com/reactnativephonebook/PhonebookModule.java:130-159 | for one picker result both variants leave the same slot and complete the same sinks in the same order; unless the organisation or postal query threw, each pair of delivered envelopes agrees up to the record |
| Phonebook.VariantsAgreeUpToTheRecord | android/src/main/java/com/reactnativephonebook/PhonebookModule.kt:91-131 | on every event, an OK result with a URI included, both variants end in the same slot and complete the same sinks in the same order; unless a query only one of them issues (organisation for Java, postal for Kotlin) threw, their envelopes differ at most in the record carried |
| Phonebook.OrgFailureSplitsTheVariants | android/src/main/java/com/reactnativephonebook/PhonebookModule.java:254-276 | the exception above is real: a contact whose organisation query throws makes the Java module answer "Failed to retrieve contact details" while the Kotlin module, which never issues that query, hands the same caller a success |
| Phonebook.OpenDropsOtherSinks | android/src/main/java/com/reactnativephonebook/PhonebookModule.java:42-57 | an open call neither completes nor leaves pending any sink other than its own |
| Bridge.OpenPhonebook | src/index.tsx:31-35 | the call goes to the native `openPhonebook`, with the caller's options unchanged, or `{}` when they are omitted |
| Bridge.OpenPhonebookWithCallback | src/index.tsx:55-60 | the native call takes the options first and the callback second; the callback is the caller's, and the options are the ones `openPhonebook` would forward |
| Bridge.PickContactCall | src/index.tsx:41-42 | `pickContact` makes the same native call as `openPhonebook()` or `openPhonebook({})` |
| Bridge.PickContact | src/index.tsx:42-47 | the result is a contact exactly when success is true and contacts is present and non-empty, and then it is the first contact; otherwise it is null |
| Bridge.PickedContactReachesCaller | src/index.tsx:41-48 | for a picker result, `pickContact` yields exactly the details of the picked URI when the result is RESULT_OK with a URI, and null otherwise; every launch-guard refusal yields null |

## Left out

- Content-resolver queries, cursor iteration, cursor closing, `Uri` and `Intent` construction. These are abstract row sequences and query outcomes. Leaked cursors on exception paths are resource handling, and the model has no resources.
- `Phone`/`Email`/`StructuredPostal.getTypeLabel`. They are localised platform lookups, so they are uninterpreted functions (`Provider.Labels`).
- The JSONObject to WritableMap conversion in `handleResult`, and the Kotlin `Arguments.fromBundle(Arguments.toBundle(..))`. Both are treated as the identity on the record.
- A null `_ID` column. It is the contact's primary key, so the core row's id is a plain string. Had it been null, `JSONObject.put` would drop the key and the Java conversion would then skip the contact.
- `promiseReject`. It is written (always to null) but never read.
- `hasContactsPermission`. It is the boolean permission input itself.
- The permission dialog and its asynchronous result. The permission state read right after the request call is an input.
- Logging (`System.out.println`, `printStackTrace`) and the Java class's activity-listener registration (PhonebookModule.java:33, :119-123), which forwards every host result to `handleActivityResult`.
- Phonebook.Step: for the Kotlin variant, an `ActivityResult` event stands for a direct call of `handleActivityResult` (PhonebookModule.kt:112). The Kotlin class implements no `ActivityEventListener` and never registers one, and nothing in the source calls that method, so in the Kotlin build as written no picker result reaches the dispatch and every open whose picker launched keeps its sink pending for good. The model does not state this; the Kotlin-variant lemmas describe what happens when the method is called.
- The linking-error `Proxy` in `src/index.tsx`, `isPhonebookAvailable`/`requestContactsPermission`/`hasContactsPermission` on the JavaScript side (plain forwarding), the example app, the package registration and the Jest configuration.
- The `options` map. Native code accepts and ignores it, so the model carries it through events without reading it.
- The Java variant's `requestContactsPermission`. It is the same code as the Kotlin one that `Dispatch.RequestContactsPermission` cites.
- Dispatch.OpenContactPicker: the absence of a permission request on the refused path is only implied: the guard's result type has no way to request one.
