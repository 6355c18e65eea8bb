/**
  Listing HubSpot contacts as integration items: the bearer header built from
  the stored credentials, the status check on the contacts response, and the
  loop that normalizes each contact. The HTTP request is a function parameter
  from the header sent to the response received.
*/
module HubSpotItems {
  import opened Wrappers
  import Json
  import PyText
  import HubSpot

  /** A value of a contact's `properties`: a text, or JSON null. */
  datatype Property = Text(s: string) | Null

  /** A contact as listed by the CRM; a field that is absent or null is None. */
  datatype Contact = Contact(
    id: Option<string>,
    createdAt: Option<string>,
    updatedAt: Option<string>,
    properties: map<string, Property>)

  /** The contacts response: its status and its `results` (empty when absent). */
  datatype ContactsResponse = ContactsResponse(status: int, results: seq<Contact>)

  /** An ISO-8601 instant as parsed by `isoparse`. */
  datatype Timestamp = Timestamp(iso: string)

  datatype IntegrationItem = IntegrationItem(
    id: Option<string>,
    itemType: string,
    name: string,
    creationTime: Option<Timestamp>,
    lastModifiedTime: Option<Timestamp>,
    url: string,
    visibility: bool)

  const ContactType := "contact"
  const Unnamed := "Unnamed Contact"
  const ContactUrlPrefix := "https://app.hubspot.com/contacts/"
  const FetchFailed := "Failed to fetch HubSpot contacts"

  /** `properties.get(name, '')` as an f-string prints it. */
  function PropertyText(properties: map<string, Property>, name: string): string
  {
    if name !in properties then ""
    else
      match properties[name]
      case Text(s) => s
      case Null => "None"
  }

  /** The contact's full name, or "Unnamed Contact" when it is blank. */
  function DisplayName(properties: map<string, Property>): (r: string)
    ensures r != ""
    ensures PyText.Clean(r)
  {
    var full := PyText.Strip(PropertyText(properties, "firstname") + " " + PropertyText(properties, "lastname"));
    if full == "" then Unnamed else full
  }

  /** A timestamp field, parsed when it is a non-empty text. */
  function ParseTime(field: Option<string>): Option<Timestamp>
  {
    if field.None? || field.value == "" then None else Some(Timestamp(field.value))
  }

  /** The id as an f-string prints it. */
  function IdText(id: Option<string>): string
  {
    match id
    case None => "None"
    case Some(s) => s
  }

  function Normalize(c: Contact): IntegrationItem
  {
    IntegrationItem(
      id := c.id,
      itemType := ContactType,
      name := DisplayName(c.properties),
      creationTime := ParseTime(c.createdAt),
      lastModifiedTime := ParseTime(c.updatedAt),
      url := ContactUrlPrefix + IdText(c.id),
      visibility := true)
  }

  /** The Authorization header for the credentials text, or the error reading it raises. */
  function BearerHeader(credentials: string): Result<string, HubSpot.Error>
  {
    match Json.Decode(credentials)
    case None => Failure(HubSpot.JsonDecodeError)
    case Some(Atom(_)) => Failure(HubSpot.AttributeError)
    case Some(Object(members)) => Success("Bearer " + Json.Display(Json.Lookup(members, "access_token")))
  }

  /** The loop of `get_items_hubspot`: one item per contact, in order. */
  method NormalizeContacts(contacts: seq<Contact>) returns (items: seq<IntegrationItem>)
    ensures |items| == |contacts|
    ensures forall i :: 0 <= i < |contacts| ==> items[i] == Normalize(contacts[i])
  {
    items := [];
    for i := 0 to |contacts|
      invariant |items| == i
      invariant forall j :: 0 <= j < i ==> items[j] == Normalize(contacts[j])
    {
      var contact := contacts[i];
      var createdAt := ParseTime(contact.createdAt);
      var updatedAt := ParseTime(contact.updatedAt);
      var item := IntegrationItem(
        id := contact.id,
        itemType := ContactType,
        name := DisplayName(contact.properties),
        creationTime := createdAt,
        lastModifiedTime := updatedAt,
        url := ContactUrlPrefix + IdText(contact.id),
        visibility := true);
      assert item == Normalize(contact);
      items := items + [item];
    }
  }

  /**
    `get_items_hubspot`: the items of the contacts listed with the credentials,
    in the order listed, or the error raised on the way.
  */
  method GetItems(credentials: string, listContacts: string -> ContactsResponse)
    returns (result: Result<seq<IntegrationItem>, HubSpot.Error>)
    ensures BearerHeader(credentials).Failure? ==> result == Failure(BearerHeader(credentials).error)
    ensures BearerHeader(credentials).Success? ==>
              var response := listContacts(BearerHeader(credentials).value);
              if response.status != 200 then result == Failure(HubSpot.HttpException(response.status, FetchFailed))
              else
                && result.Success?
                && |result.value| == |response.results|
                && forall i :: 0 <= i < |response.results| ==> result.value[i] == Normalize(response.results[i])
  {
    var header := BearerHeader(credentials);
    if header.Failure? {
      return Failure(header.error);
    }
    var response := listContacts(header.value);
    if response.status != 200 {
      return Failure(HubSpot.HttpException(response.status, FetchFailed));
    }
    var items := NormalizeContacts(response.results);
    result := Success(items);
  }

  // ---------------------------------------------------------------------------
  // Properties of a normalized contact

  /**
    Every item is a visible contact whose URL ends with the contact's id, whose
    name is a non-empty text with no space at either end, and whose times are
    None exactly when the contact's fields are absent or empty.
  */
  lemma {:induction false} NormalizedItem(c: Contact)
    ensures var item := Normalize(c);
            && item.itemType == "contact"
            && item.visibility
            && item.id == c.id
            && item.url == "https://app.hubspot.com/contacts/" + IdText(c.id)
            && item.name != "" && PyText.Clean(item.name)
            && (item.creationTime.None? <==> c.createdAt.None? || c.createdAt.value == "")
            && (item.lastModifiedTime.None? <==> c.updatedAt.None? || c.updatedAt.value == "")
  {
    var url := Normalize(c).url;
    assert url == ContactUrlPrefix + IdText(c.id);
  }

  /** With clean first and last names the item is named by the two joined with a space. */
  lemma {:induction false} NameJoinsFirstAndLast(c: Contact, first: string, last: string)
    requires PropertyText(c.properties, "firstname") == first && PyText.Clean(first)
    requires PropertyText(c.properties, "lastname") == last && PyText.Clean(last)
    ensures Normalize(c).name == if first == "" && last == "" then Unnamed
                                 else if first == "" then last
                                 else if last == "" then first
                                 else first + " " + last
  {
    PyText.StripJoin(first, last);
  }

  /** A contact with neither name is "Unnamed Contact". */
  lemma {:induction false} NamelessContact(c: Contact)
    requires "firstname" !in c.properties && "lastname" !in c.properties
    ensures Normalize(c).name == "Unnamed Contact"
  {
    NameJoinsFirstAndLast(c, "", "");
  }

  /** A first name that is present but null prints as "None", as Python's f-string does. */
  lemma {:induction false} NullNameRendersNone(c: Contact)
    requires "firstname" in c.properties && c.properties["firstname"] == Null
    requires "lastname" !in c.properties
    ensures Normalize(c).name == "None"
  {
    NameJoinsFirstAndLast(c, "None", "");
  }

  /** The name is the stripped full name whenever that is not blank. */
  lemma {:induction false} NameIsStrippedFullName(properties: map<string, Property>)
    ensures var full := PropertyText(properties, "firstname") + " " + PropertyText(properties, "lastname");
            DisplayName(properties) == (if PyText.AllSpace(full) then Unnamed else PyText.Strip(full))
  {
    var full := PropertyText(properties, "firstname") + " " + PropertyText(properties, "lastname");
    PyText.StripEmpty(full);
  }

  // ---------------------------------------------------------------------------
  // The bearer header

  /**
    Credentials stored as the encoding of a token response give the header
    "Bearer " followed by its access token as Python prints it ("None" when
    the response carries none).
  */
  lemma {:induction false} BearerHeaderOfStoredCredentials(response: Json.Value)
    requires response.Object?
    ensures BearerHeader(Json.Encode(response))
            == Success("Bearer " + Json.Display(Json.Lookup(response.members, "access_token")))
  {
    Json.RoundTrip(response);
    BearerHeaderOfDecoded(Json.Encode(response), response.members);
  }

  lemma {:induction false} BearerHeaderOfDecoded(credentials: string, members: seq<Json.Member>)
    requires Json.Decode(credentials) == Some(Json.Object(members))
    ensures BearerHeader(credentials) == Success("Bearer " + Json.Display(Json.Lookup(members, "access_token")))
  {
  }

  /** Credentials raise AttributeError, before any request is made, exactly when they decode to a non-object. */
  lemma {:induction false} NoItemsWithoutObjectCredentials(credentials: string)
    ensures BearerHeader(credentials) == Failure(HubSpot.AttributeError)
            <==> Json.Decode(credentials).Some? && Json.Decode(credentials).value.Atom?
  {
  }
}
