/** The customer picker: a search over every text field of a customer, and a
    form that creates a customer, prepends it to the list and selects it. */
module CustomerSelection {
  import opened Wrappers
  import opened JsText
  import opened JsArray

  /** A row of the `customers` table (`prev_orders` is not used here). */
  datatype Customer = Customer(
    id: string,
    name: string,
    surname: string,
    phoneNumbers: Option<seq<string>>,
    industry: Option<string>,
    city: string,
    town: string,
    addressName: Option<string>,
    address: string,
    email: Option<string>,
    notes: Option<string>)

  /** What the search box matches: the lowercased query occurs in the
      lowercased name, surname, city or town; or in the industry, email or
      address when that is truthy; or in some phone number. */
  predicate MatchesQuery(c: Customer, searchQuery: string) {
    var query := Lower(searchQuery);
    Includes(Lower(c.name), query)
    || Includes(Lower(c.surname), query)
    || Includes(Lower(c.city), query)
    || Includes(Lower(c.town), query)
    || (Truthy(c.industry) && Includes(Lower(c.industry.value), query))
    || (Truthy(c.email) && Includes(Lower(c.email.value), query))
    || (c.address != "" && Includes(Lower(c.address), query))
    || (c.phoneNumbers.Some? && Any(c.phoneNumbers.value, (phone: string) => Includes(Lower(phone), query)))
  }

  /** `filteredCustomers`: the customers the list shows, in list order. */
  function FilteredCustomers(customers: seq<Customer>, searchQuery: string): (r: seq<Customer>)
    ensures IsSubsequence(r, customers)
    ensures forall i :: 0 <= i < |r| ==> r[i] in customers && MatchesQuery(r[i], searchQuery)
    ensures forall i :: 0 <= i < |customers| && MatchesQuery(customers[i], searchQuery) ==> customers[i] in r
    ensures forall c :: c in multiset(customers) ==>
      multiset(r)[c] == if MatchesQuery(c, searchQuery) then multiset(customers)[c] else 0
  {
    FilterCounts(customers, c => MatchesQuery(c, searchQuery));
    Filter(customers, c => MatchesQuery(c, searchQuery))
  }

  /** With an empty search box every customer is listed, in order. */
  lemma EmptyQueryKeepsAll(customers: seq<Customer>)
    ensures FilteredCustomers(customers, "") == customers
  {
    forall i | 0 <= i < |customers| ensures MatchesQuery(customers[i], "") {
      IncludesEmpty(Lower(customers[i].name));
    }
    FilterKeepsAll(customers, c => MatchesQuery(c, ""));
  }

  /** Typing more never brings a customer back: when the new query (lowercased)
      contains the old one, every customer listed for the new query was
      listed for the old one. */
  lemma NarrowingQueryListsFewer(customers: seq<Customer>, oldQuery: string, newQuery: string)
    requires Includes(Lower(newQuery), Lower(oldQuery))
    ensures forall i :: 0 <= i < |FilteredCustomers(customers, newQuery)| ==>
      FilteredCustomers(customers, newQuery)[i] in FilteredCustomers(customers, oldQuery)
  {
    var r := FilteredCustomers(customers, newQuery);
    forall i | 0 <= i < |r| ensures r[i] in FilteredCustomers(customers, oldQuery) {
      var c := r[i];
      MatchNarrows(c, oldQuery, newQuery);
      var k :| 0 <= k < |customers| && customers[k] == c;
    }
  }

  /** A customer matching a query matches every query it contains. */
  lemma MatchNarrows(c: Customer, oldQuery: string, newQuery: string)
    requires Includes(Lower(newQuery), Lower(oldQuery))
    requires MatchesQuery(c, newQuery)
    ensures MatchesQuery(c, oldQuery)
  {
    var q, q' := Lower(oldQuery), Lower(newQuery);
    if Includes(Lower(c.name), q') {
      IncludesTransitive(Lower(c.name), q', q);
    }
    if Includes(Lower(c.surname), q') {
      IncludesTransitive(Lower(c.surname), q', q);
    }
    if Includes(Lower(c.city), q') {
      IncludesTransitive(Lower(c.city), q', q);
    }
    if Includes(Lower(c.town), q') {
      IncludesTransitive(Lower(c.town), q', q);
    }
    if Truthy(c.industry) && Includes(Lower(c.industry.value), q') {
      IncludesTransitive(Lower(c.industry.value), q', q);
    }
    if Truthy(c.email) && Includes(Lower(c.email.value), q') {
      IncludesTransitive(Lower(c.email.value), q', q);
    }
    if Includes(Lower(c.address), q') {
      IncludesTransitive(Lower(c.address), q', q);
    }
    if c.phoneNumbers.Some? {
      PhoneMatchNarrows(c.phoneNumbers.value, q, q');
    }
  }

  /** The phone part of `MatchNarrows`. */
  lemma PhoneMatchNarrows(phones: seq<string>, q: string, q': string)
    requires Includes(q', q)
    ensures Any(phones, (phone: string) => Includes(Lower(phone), q')) ==>
            Any(phones, (phone: string) => Includes(Lower(phone), q))
  {
    if Any(phones, (phone: string) => Includes(Lower(phone), q')) {
      var k :| 0 <= k < |phones| && Includes(Lower(phones[k]), q');
      IncludesTransitive(Lower(phones[k]), q', q);
    }
  }

  /** The new-customer form. */
  datatype NewCustomerData = NewCustomerData(
    name: string,
    surname: string,
    phoneNumbers: seq<string>,
    city: string,
    town: string,
    address: string,
    email: string)

  /** The form as first shown and after a successful save: every field empty
      and one empty phone line. */
  const InitialForm := NewCustomerData("", "", [""], "", "", "", "")

  /** The record sent to the `customers` insert. */
  datatype CustomerInsert = CustomerInsert(
    name: string,
    surname: string,
    phoneNumbers: Option<seq<string>>,
    city: string,
    town: string,
    address: string,
    email: Option<string>)

  /** The required fields are all truthy (not the empty string; white space
      alone is accepted). */
  predicate RequiredFieldsPresent(form: NewCustomerData) {
    form.name != "" && form.surname != "" && form.city != "" && form.town != "" && form.address != ""
  }

  /** A phone line that is not blank. */
  predicate PhoneFilled(phone: string) {
    Trim(phone) != ""
  }

  /** The insert built from the form: the phone lines that are not blank (in
      order), or null when none is; the email, or null when it is empty; the
      other fields as typed. */
  function BuildInsert(form: NewCustomerData): (r: CustomerInsert)
    ensures r.name == form.name && r.surname == form.surname && r.city == form.city
    ensures r.town == form.town && r.address == form.address
    ensures r.email == None <==> form.email == ""
    ensures r.email != None ==> r.email.value == form.email
    ensures r.phoneNumbers != None ==>
      && |r.phoneNumbers.value| > 0
      && IsSubsequence(r.phoneNumbers.value, form.phoneNumbers)
      && (forall i :: 0 <= i < |r.phoneNumbers.value| ==> PhoneFilled(r.phoneNumbers.value[i]))
      && (forall i :: 0 <= i < |form.phoneNumbers| && PhoneFilled(form.phoneNumbers[i]) ==>
            form.phoneNumbers[i] in r.phoneNumbers.value)
      && (forall phone :: phone in multiset(form.phoneNumbers) && PhoneFilled(phone) ==>
            multiset(r.phoneNumbers.value)[phone] == multiset(form.phoneNumbers)[phone])
  {
    FilterCounts(form.phoneNumbers, PhoneFilled);
    var phoneNumbers := Filter(form.phoneNumbers, PhoneFilled);
    CustomerInsert(
      form.name,
      form.surname,
      if |phoneNumbers| > 0 then Some(phoneNumbers) else None,
      form.city,
      form.town,
      form.address,
      if form.email != "" then Some(form.email) else None)
  }

  /** The phone list is sent as null exactly when every phone line consists
      of white space only. */
  lemma PhonesNullIffAllBlank(form: NewCustomerData)
    ensures BuildInsert(form).phoneNumbers == None <==>
      forall i, k :: 0 <= i < |form.phoneNumbers| && 0 <= k < |form.phoneNumbers[i]| ==>
        IsWhiteSpace(form.phoneNumbers[i][k])
  {
    var phones := form.phoneNumbers;
    forall i | 0 <= i < |phones| ensures PhoneFilled(phones[i]) <==>
      !(forall k :: 0 <= k < |phones[i]| ==> IsWhiteSpace(phones[i][k]))
    {
      TrimEmptyIffBlank(phones[i]);
    }
    var sent := Filter(phones, PhoneFilled);
    if sent != [] {
      assert PhoneFilled(sent[0]) && sent[0] in phones;
    }
  }

  /** The initial form is never accepted as it stands. */
  lemma InitialFormRejected()
    ensures !RequiredFieldsPresent(InitialForm)
    ensures BuildInsert(InitialForm).phoneNumbers == None && BuildInsert(InitialForm).email == None
  {
    PhonesNullIffAllBlank(InitialForm);
  }

  /** The fields of the form a text input edits (the phone line has its own edit). */
  datatype FormField = NameField | SurnameField | CityField | TownField | AddressField | EmailField

  /** The value a text input shows. */
  function FieldValue(form: NewCustomerData, field: FormField): string {
    match field
    case NameField => form.name
    case SurnameField => form.surname
    case CityField => form.city
    case TownField => form.town
    case AddressField => form.address
    case EmailField => form.email
  }

  /** `setNewCustomerData(prev => ({ ...prev, <field>: text }))`. */
  function WithField(form: NewCustomerData, field: FormField, text: string): (r: NewCustomerData)
    ensures FieldValue(r, field) == text
    ensures forall f :: f != field ==> FieldValue(r, f) == FieldValue(form, f)
    ensures r.phoneNumbers == form.phoneNumbers
  {
    match field
    case NameField => form.(name := text)
    case SurnameField => form.(surname := text)
    case CityField => form.(city := text)
    case TownField => form.(town := text)
    case AddressField => form.(address := text)
    case EmailField => form.(email := text)
  }

  /** The picker's screen state. */
  class CustomerPicker {
    var customers: seq<Customer>
    var searchQuery: string
    var showNewCustomerForm: bool
    var newCustomerData: NewCustomerData

    constructor ()
      ensures customers == [] && searchQuery == "" && !showNewCustomerForm && newCustomerData == InitialForm
    {
      customers := [];
      searchQuery := "";
      showNewCustomerForm := false;
      newCustomerData := InitialForm;
    }

    /** The fetched rows arrive (`setCustomers(data || [])`). */
    method SetCustomers(data: Option<seq<Customer>>)
      modifies this
      ensures customers == data.GetOr([])
      ensures searchQuery == old(searchQuery) && showNewCustomerForm == old(showNewCustomerForm)
      ensures newCustomerData == old(newCustomerData)
    {
      customers := data.GetOr([]);
    }

    /** Typing in the search box. */
    method SetSearchQuery(text: string)
      modifies this
      ensures searchQuery == text
      ensures customers == old(customers) && showNewCustomerForm == old(showNewCustomerForm)
      ensures newCustomerData == old(newCustomerData)
    {
      searchQuery := text;
    }

    /** The "+" button (`true`) and the form's "Back" button (`false`); the
        form keeps what was typed. */
    method SetShowNewCustomerForm(show: bool)
      modifies this
      ensures showNewCustomerForm == show
      ensures customers == old(customers) && searchQuery == old(searchQuery)
      ensures newCustomerData == old(newCustomerData)
    {
      showNewCustomerForm := show;
    }

    /** Typing in one of the form's text inputs. */
    method EditField(field: FormField, text: string)
      modifies this
      ensures newCustomerData == WithField(old(newCustomerData), field, text)
      ensures customers == old(customers) && searchQuery == old(searchQuery)
      ensures showNewCustomerForm == old(showNewCustomerForm)
    {
      newCustomerData := WithField(newCustomerData, field, text);
    }

    /** Typing in the phone input: the phone list becomes that one line. */
    method EditPhone(text: string)
      modifies this
      ensures newCustomerData == old(newCustomerData).(phoneNumbers := [text])
      ensures customers == old(customers) && searchQuery == old(searchQuery)
      ensures showNewCustomerForm == old(showNewCustomerForm)
    {
      newCustomerData := newCustomerData.(phoneNumbers := [text]);
    }

    /** The list as shown: the filtered customers, each matching one as
        often as it was fetched, in the fetched order. */
    method Listed() returns (shown: seq<Customer>)
      ensures shown == FilteredCustomers(customers, searchQuery)
      ensures IsSubsequence(shown, customers)
      ensures forall i :: 0 <= i < |shown| ==> MatchesQuery(shown[i], searchQuery)
      ensures forall i :: 0 <= i < |customers| && MatchesQuery(customers[i], searchQuery) ==> customers[i] in shown
      ensures forall c :: c in multiset(customers) ==>
        multiset(shown)[c] == if MatchesQuery(c, searchQuery) then multiset(customers)[c] else 0
    {
      shown := FilteredCustomers(customers, searchQuery);
    }

    /** "Save": refuses a form with an empty required field without sending
        anything; otherwise sends the insert built from the form to `insert`
        (the data store). On success `handleCustomerSelect` runs: the created
        row is put first in the list, handed to `onSelect` (returned in
        `selected`) and the parent is asked to close the picker (`onClose`,
        returned in `closes`); then the form is reset and hidden. On failure
        nothing changes and neither callback is called. */
    method CreateNewCustomer(insert: CustomerInsert -> Result<Customer>)
      returns (sent: Option<CustomerInsert>, selected: Option<Customer>, closes: bool)
      modifies this
      ensures !RequiredFieldsPresent(old(newCustomerData)) ==> sent == None
      ensures RequiredFieldsPresent(old(newCustomerData)) ==> sent == Some(BuildInsert(old(newCustomerData)))
      ensures searchQuery == old(searchQuery)
      ensures closes <==> sent.Some? && insert(sent.value).Success?
      ensures closes ==>
        && selected == Some(insert(sent.value).value)
        && customers == [insert(sent.value).value] + old(customers)
        && newCustomerData == InitialForm
        && !showNewCustomerForm
      ensures !closes ==>
        && selected == None
        && customers == old(customers)
        && newCustomerData == old(newCustomerData)
        && showNewCustomerForm == old(showNewCustomerForm)
    {
      selected, closes := None, false;
      if !RequiredFieldsPresent(newCustomerData) {
        sent := None;
        return;
      }
      var record := BuildInsert(newCustomerData);
      sent := Some(record);
      var outcome := insert(record);
      if outcome.Failure? {
        return;
      }
      var data := outcome.value;
      customers := [data] + customers;
      selected, closes := Some(data), true;
      newCustomerData := InitialForm;
      showNewCustomerForm := false;
    }
  }
}
