/** `getContactDetails` of PhonebookModule.kt: core row, phones (only when the
    contact claims one), emails, then postal addresses; there is no
    organisation query, and birthday is always the empty string. Any exception
    anywhere yields null. */
module KotlinDetails {
  import opened Types
  import opened Provider
  import JavaDetails

  function GetContactDetails(rows: ContactRows, labels: Labels): (r: Option<Contact>)
    // null exactly when there is no core row or an issued query threw
    ensures r.None? <==>
              || FirstRow(rows.core).None?
              || (PhonesQueried(rows) && rows.phones.Threw?)
              || rows.emails.Threw?
              || rows.postal.Threw?
    // identity and the fixed empty fields
    ensures r.Some? ==>
              && r.value.id == FirstRow(rows.core).value.id
              && r.value.name == OrEmpty(FirstRow(rows.core).value.displayName)
              && r.value.firstName == "" && r.value.lastName == "" && r.value.note == ""
              && r.value.organization == "" && r.value.jobTitle == ""
              && r.value.birthday == Some("")
    // phones: none unless queried, else one per row in order
    ensures r.Some? && !PhonesQueried(rows) ==> r.value.phoneNumbers == []
    ensures r.Some? && PhonesQueried(rows) ==>
              && |r.value.phoneNumbers| == |RowsOf(rows.phones)|
              && forall i :: 0 <= i < |RowsOf(rows.phones)| ==>
                   r.value.phoneNumbers[i] == PhoneEntry(labels, RowsOf(rows.phones)[i])
    // emails: always queried, one per row in order
    ensures r.Some? ==>
              && |r.value.emails| == |RowsOf(rows.emails)|
              && forall i :: 0 <= i < |RowsOf(rows.emails)| ==>
                   r.value.emails[i] == EmailEntry(labels, RowsOf(rows.emails)[i])
    // addresses: always present, one per postal row in order
    ensures r.Some? ==>
              && r.value.addresses.Some?
              && |r.value.addresses.value| == |RowsOf(rows.postal)|
              && forall i :: 0 <= i < |RowsOf(rows.postal)| ==>
                   r.value.addresses.value[i] == AddressEntry(labels, RowsOf(rows.postal)[i])
  {
    match FirstRow(rows.core)
    case None => None
    case Some(c) =>
      var phones :=
        if c.hasPhoneNumber > 0 then ReadAll(rows.phones, (p: PhoneRow) => PhoneEntry(labels, p))
        else Some([]);
      var emails := ReadAll(rows.emails, (e: EmailRow) => EmailEntry(labels, e));
      var addresses := ReadAll(rows.postal, (a: PostalRow) => AddressEntry(labels, a));
      if phones.None? || emails.None? || addresses.None? then None
      else
        Some(Contact(
          id := c.id,
          name := OrEmpty(c.displayName),
          firstName := "",
          lastName := "",
          phoneNumbers := phones.value,
          emails := emails.value,
          organization := "",
          jobTitle := "",
          addresses := addresses,
          birthday := Some(""),
          note := ""))
  }

  /** The two variants build the same record apart from the field groups only
      one of them reads: they fail together unless the organisation or postal
      query is the one that threw, and when both succeed they agree on every
      field except organisation, title, addresses and birthday. */
  lemma VariantsAgreeOnSharedFields(rows: ContactRows, labels: Labels)
    ensures !rows.orgs.Threw? && !rows.postal.Threw? ==>
              (JavaDetails.GetContactDetails(rows, labels).Some? <==> GetContactDetails(rows, labels).Some?)
    ensures JavaDetails.GetContactDetails(rows, labels).Some? && GetContactDetails(rows, labels).Some? ==>
              var j := JavaDetails.GetContactDetails(rows, labels).value;
              var k := GetContactDetails(rows, labels).value;
              && k == j.(organization := "", jobTitle := "", addresses := k.addresses, birthday := Some(""))
  {
  }
}
