/** `getContactDetails` of PhonebookModule.java: core row, phones (only when
    the contact claims one), emails, then the first organisation row. The
    whole lookup sits in one try block, so any exception yields null. */
module JavaDetails {
  import opened Types
  import opened Provider

  /** `if (v != null && !v.isEmpty()) contact.put(key, v)`: a column replaces
      the current value only when it is non-null and non-empty. */
  function Overwrite(current: string, column: Option<string>): string {
    if Filled(column) then column.value else current
  }

  /** A column that would replace the default: non-null and non-empty. */
  predicate Filled(column: Option<string>) {
    column.Some? && column.value != ""
  }

  function GetContactDetails(rows: ContactRows, labels: Labels): (r: Option<Contact>)
    // null exactly when there is no core row or an issued query threw
    ensures r.None? <==>
              || FirstRow(rows.core).None?
              || (PhonesQueried(rows) && rows.phones.Threw?)
              || rows.emails.Threw?
              || rows.orgs.Threw?
    // identity and the fixed defaults
    ensures r.Some? ==>
              && r.value.id == FirstRow(rows.core).value.id
              && r.value.name == OrEmpty(FirstRow(rows.core).value.displayName)
              && r.value.firstName == "" && r.value.lastName == "" && r.value.note == ""
              && r.value.addresses.None? && r.value.birthday.None?
    // phones: none unless queried, else one per row in order
    ensures r.Some? && !PhonesQueried(rows) ==> r.value.phoneNumbers == []
    ensures r.Some? && PhonesQueried(rows) ==>
              && |r.value.phoneNumbers| == |RowsOf(rows.phones)|
              && forall i :: 0 <= i < |RowsOf(rows.phones)| ==>
                   r.value.phoneNumbers[i] == PhoneEntry(labels, RowsOf(rows.phones)[i])
    // emails: always queried, one per row in order
    ensures r.Some? ==>
              && |r.value.emails| == |RowsOf(rows.emails)|
              && forall i :: 0 <= i < |RowsOf(rows.emails)| ==>
                   r.value.emails[i] == EmailEntry(labels, RowsOf(rows.emails)[i])
    // organisation and title: each taken from the first org row only when filled
    ensures r.Some? ==>
              (r.value.organization != "" <==>
                 FirstRow(rows.orgs).Some? && Filled(FirstRow(rows.orgs).value.company))
    ensures r.Some? && r.value.organization != "" ==>
              Some(r.value.organization) == FirstRow(rows.orgs).value.company
    ensures r.Some? ==>
              (r.value.jobTitle != "" <==>
                 FirstRow(rows.orgs).Some? && Filled(FirstRow(rows.orgs).value.title))
    ensures r.Some? && r.value.jobTitle != "" ==>
              Some(r.value.jobTitle) == FirstRow(rows.orgs).value.title
  {
    match FirstRow(rows.core)
    case None => None
    case Some(c) =>
      var phones :=
        if c.hasPhoneNumber > 0 then ReadAll(rows.phones, (p: PhoneRow) => PhoneEntry(labels, p))
        else Some([]);
      var emails := ReadAll(rows.emails, (e: EmailRow) => EmailEntry(labels, e));
      if phones.None? || emails.None? || rows.orgs.Threw? then None
      else
        var org := FirstRow(rows.orgs);
        var organization := if org.Some? then Overwrite("", org.value.company) else "";
        var jobTitle := if org.Some? then Overwrite("", org.value.title) else "";
        Some(Contact(
          id := c.id,
          name := OrEmpty(c.displayName),
          firstName := "",
          lastName := "",
          phoneNumbers := phones.value,
          emails := emails.value,
          organization := organization,
          jobTitle := jobTitle,
          addresses := None,
          birthday := None,
          note := ""))
  }

  /** A contact "Jane Doe" (id 42) with one mobile number, one work email and
      an Acme/Engineer organisation row becomes exactly this record; the
      postal query is never issued, so its failure does not matter. */
  lemma JaneDoeExample(labels: Labels)
    requires labels.phone(2, None) == Some("Mobile")
    requires labels.email(2, None) == Some("Work")
    ensures GetContactDetails(
              ContactRows(
                Rows([CoreRow("42", Some("Jane Doe"), 1)]),
                Rows([PhoneRow(Some("555-1234"), 2, None)]),
                Rows([EmailRow(Some("jane@x.com"), 2, None)]),
                Rows([OrgRow(Some("Acme"), Some("Engineer"))]),
                Threw),
              labels)
            == Some(Contact("42", "Jane Doe", "", "",
                            [PhoneNumber("Mobile", "555-1234")], [Email("Work", "jane@x.com")],
                            "Acme", "Engineer", None, None, ""))
  {
    var rows := ContactRows(
      Rows([CoreRow("42", Some("Jane Doe"), 1)]),
      Rows([PhoneRow(Some("555-1234"), 2, None)]),
      Rows([EmailRow(Some("jane@x.com"), 2, None)]),
      Rows([OrgRow(Some("Acme"), Some("Engineer"))]),
      Threw);
    var r := GetContactDetails(rows, labels);
    assert PhonesQueried(rows);
    assert r.value.phoneNumbers[0] == PhoneNumber("Mobile", "555-1234");
    assert r.value.phoneNumbers == [PhoneNumber("Mobile", "555-1234")];
    assert r.value.emails[0] == Email("Work", "jane@x.com");
    assert r.value.emails == [Email("Work", "jane@x.com")];
  }
}
