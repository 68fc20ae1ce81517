/** The contacts content provider as seen by `getContactDetails`: one query
    per field group, each yielding rows in cursor order. The localised
    `getTypeLabel` lookups are parameters. */
module Provider {
  import opened Types

  /** The `_ID`, `DISPLAY_NAME`, `HAS_PHONE_NUMBER` projection of the picked contact. */
  datatype CoreRow = CoreRow(id: string, displayName: Option<string>, hasPhoneNumber: int)

  /** `Phone.NUMBER`, `Phone.TYPE`, `Phone.LABEL`. */
  datatype PhoneRow = PhoneRow(number: Option<string>, kind: int, customLabel: Option<string>)

  /** `Email.ADDRESS`, `Email.TYPE`, `Email.LABEL`. */
  datatype EmailRow = EmailRow(address: Option<string>, kind: int, customLabel: Option<string>)

  /** `Organization.COMPANY`, `Organization.TITLE`. */
  datatype OrgRow = OrgRow(company: Option<string>, title: Option<string>)

  /** `StructuredPostal.STREET`, `CITY`, `REGION`, `POSTCODE`, `COUNTRY`, `TYPE`, `LABEL`. */
  datatype PostalRow = PostalRow(
    street: Option<string>,
    city: Option<string>,
    region: Option<string>,
    postcode: Option<string>,
    country: Option<string>,
    kind: int,
    customLabel: Option<string>)

  /** One content-resolver query: it throws (while querying or while reading
      any row), returns a null cursor, or yields its rows in cursor order. */
  datatype Query<R> = Threw | NullCursor | Rows(rows: seq<R>)

  /** The queries `getContactDetails` may issue for one picked contact. */
  datatype ContactRows = ContactRows(
    core: Query<CoreRow>,
    phones: Query<PhoneRow>,
    emails: Query<EmailRow>,
    orgs: Query<OrgRow>,
    postal: Query<PostalRow>)

  /** `getTypeLabel(resources, type, label)`: a localised, possibly null label. */
  type TypeLabel = (int, Option<string>) -> Option<string>

  datatype Labels = Labels(phone: TypeLabel, email: TypeLabel, postal: TypeLabel)

  /** The rows a query yields; none for a failed query or a null cursor. */
  function RowsOf<R>(q: Query<R>): seq<R> {
    if q.Rows? then q.rows else []
  }

  /** The row `moveToFirst` lands on, if any. */
  function FirstRow<R>(q: Query<R>): Option<R> {
    if q.Rows? && |q.rows| > 0 then Some(q.rows[0]) else None
  }

  /** The picked contact has a core row and claims a phone number, so its
      phone rows are queried. */
  predicate PhonesQueried(c: ContactRows) {
    FirstRow(c.core).Some? && FirstRow(c.core).value.hasPhoneNumber > 0
  }

  function PhoneEntry(labels: Labels, row: PhoneRow): PhoneNumber {
    PhoneNumber(OrEmpty(labels.phone(row.kind, row.customLabel)), OrEmpty(row.number))
  }

  function EmailEntry(labels: Labels, row: EmailRow): Email {
    Email(OrEmpty(labels.email(row.kind, row.customLabel)), OrEmpty(row.address))
  }

  function AddressEntry(labels: Labels, row: PostalRow): Address {
    Address(OrEmpty(labels.postal(row.kind, row.customLabel)),
            OrEmpty(row.street), OrEmpty(row.city), OrEmpty(row.region),
            OrEmpty(row.postcode), OrEmpty(row.country))
  }

  /** One entry per row, in row order. */
  function Collect<R, E>(rows: seq<R>, entry: R -> E): (out: seq<E>)
    ensures |out| == |rows|
    ensures forall i :: 0 <= i < |rows| ==> out[i] == entry(rows[i])
  {
    if rows == [] then [] else [entry(rows[0])] + Collect(rows[1..], entry)
  }

  /** The `while (cursor.moveToNext())` loop that appends one entry per row,
      written as the source writes it and shown to build exactly `Collect`'s
      list; the details functions use `Collect` (through `ReadAll`) directly. */
  method ReadCursor<R, E>(rows: seq<R>, entry: R -> E) returns (out: seq<E>)
    ensures out == Collect(rows, entry)
  {
    out := [];
    var i := 0;
    while i < |rows|
      invariant 0 <= i <= |rows|
      invariant |out| == i
      invariant forall k :: 0 <= k < i ==> out[k] == entry(rows[k])
    {
      out := out + [entry(rows[i])];
      i := i + 1;
    }
  }

  /** A whole list query: an exception fails it, a null cursor gives no
      entries, rows give one entry each in order. */
  function ReadAll<R, E>(q: Query<R>, entry: R -> E): (r: Option<seq<E>>)
    ensures r.None? <==> q.Threw?
    ensures r.Some? ==> |r.value| == |RowsOf(q)|
    ensures r.Some? ==> forall i :: 0 <= i < |RowsOf(q)| ==> r.value[i] == entry(RowsOf(q)[i])
  {
    if q.Threw? then None else Some(Collect(RowsOf(q), entry))
  }
}
