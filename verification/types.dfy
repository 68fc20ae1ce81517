/** Value shapes exchanged between the native module and the JavaScript layer
    (src/types.ts), plus the Option wrapper that stands for a nullable
    Java/Kotlin reference. */
module Types {

  /** A nullable reference: `None` is `null`. */
  datatype Option<+T> = None | Some(value: T) {

    /** `x != null ? x : d`, or Kotlin's `x ?: d` */
    function GetOr(default: T): T {
      match this
      case Some(v) => v
      case None => default
    }
  }

  /** The null-to-empty default applied to every column the module reads. */
  function OrEmpty(s: Option<string>): string {
    s.GetOr("")
  }

  datatype PhoneNumber = PhoneNumber(labelText: string, number: string)

  datatype Email = Email(labelText: string, email: string)

  datatype Address = Address(
    labelText: string,
    street: string,
    city: string,
    state: string,
    postalCode: string,
    country: string)

  /** `Contact` (the `label` key of phone, email and address entries is
      `labelText` here, `label` being a Dafny keyword). Fields that the
      interface marks optional but that both native variants always fill are plain strings; `addresses` (declared required)
      and `birthday` are optional because the Java variant never produces them. */
  datatype Contact = Contact(
    id: string,
    name: string,
    firstName: string,
    lastName: string,
    phoneNumbers: seq<PhoneNumber>,
    emails: seq<Email>,
    organization: string,
    jobTitle: string,
    addresses: Option<seq<Address>>,
    birthday: Option<string>,
    note: string)

  /** `PhonebookOptions`: accepted and forwarded, never interpreted. */
  datatype PhonebookOptions = PhonebookOptions(
    title: Option<string>,
    message: Option<string>,
    allowMultipleSelection: Option<bool>)

  /** The object literal `{}`. */
  const EmptyOptions := PhonebookOptions(None, None, None)

  /** `PhonebookResult`, the envelope every completion carries. */
  datatype PhonebookResult = PhonebookResult(
    success: bool,
    contacts: Option<seq<Contact>>,
    error: Option<string>)
}
