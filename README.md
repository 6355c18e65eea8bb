# HubSpot connector: a Dafny model

This project models the HubSpot integration of an integration back end
(`backend/integrations/hubspot.py`). The model has two parts.

**The OAuth 2.0 authorization-code flow** (section 4.1 of RFC 6749). The
`state` parameter guards against cross-site request forgery, as in section
10.12 of RFC 6749. The flow runs over a shared key-value store:

- `authorize_hubspot` stores a pending state `{state, user_id, org_id}` under
  `hubspot_state:{org_id}:{user_id}`. It returns the authorization URL with
  that state attached.
- `oauth2callback_hubspot` does these steps in order:
  - rejects a provider error;
  - decodes the returned state;
  - compares its token with the stored one;
  - deletes the pending state;
  - stores the token-endpoint response under
    `hubspot_credentials:{org_id}:{user_id}`.
- `get_hubspot_credentials` hands the stored credentials out once and deletes
  them.

**Contact listing** (`get_items_hubspot`). It builds the bearer header from the
stored credentials, checks the status of the contacts response, and turns each
contact into an integration item in a loop.

Modules:

- `Wrappers`: `Option` and `Result`.
- `Json`: the subset of JSON the connector stores, which is flat objects of
  null, booleans, integers and strings.
  - `Encode` follows `json.dumps`, with its `", "` and `": "` separators.
  - `Decode` follows `json.loads`.
  - `RoundTrip` proves that `Decode(Encode(v)) == Some(v)`.
  - Python's reading of decoded values is modelled too:
    - `.get` gives None for a missing key or a JSON null, and the last
      duplicate key wins;
    - `==` treats True as equal to 1;
    - truthiness;
    - `str()` inside an f-string.
- `PyText`: Python's `str.strip()`.
- `Redis`: the store, as a class holding a `map<string, string>` with `Set`,
  `Get` and `Delete`.
- `HubSpot`: the three flow operations. Each is a method on the store, proved
  equal to a function giving its new store and its result (`AuthorizeEffect`,
  `CallbackEffect`, `CredentialsEffect`). The flow's properties are lemmas
  about these functions.
- `HubSpotItems`: contact normalization and the `GetItems` loop.

The random token, the query parameters of the callback and the token
endpoint's response body are parameters. The contacts request is a function
parameter, from the header sent to the response received.

Behaviour of the code that the model keeps as written:

- The code never checks the token endpoint's status
  (`backend/integrations/hubspot.py:58-76`). Whatever body the endpoint
  returns is decoded and stored, so an error response becomes stored
  "credentials".
- A `createdAt` or `updatedAt` that is present but empty becomes None
  (`backend/integrations/hubspot.py:122-123`), because the code tests the
  field's truth value, not its presence.
- A first or last name that is present but JSON null prints as the text
  `None` (`backend/integrations/hubspot.py:128`). A null first name beside the
  last name "Doe" gives "None Doe", and a contact whose only name is null is
  named "None" rather than "Unnamed Contact".
- If the decoded `state` has no `user_id`, the key is built from the text
  `None`: `hubspot_state:{org}:None`.

## Model

| member | source | states |
|---|---|---|
| Json.RoundTrip | backend/integrations/hubspot.py:36-47 | `Encode` models `json.dumps` and `Decode` models `json.loads`: decoding an encoded document gives that document back, so what `json.dumps` stores `json.loads` reads unchanged |
| Json.EncodeNotEmpty | backend/integrations/hubspot.py:76-90 | no document encodes to the empty text, so stored credentials always pass the "no credentials" emptiness test |
| Json.Lookup | backend/integrations/hubspot.py:49-51 | `.get(key)` on a decoded object is None when no member has the key, and otherwise the value of the last member with that key |
| Json.Get | backend/integrations/hubspot.py:55 | `.get` succeeds exactly on objects; on anything else Python raises AttributeError |
| PyText.Strip | backend/integrations/hubspot.py:128 | the stripped text is empty or begins and ends with a non-space |
| PyText.TrimStartSuffix | backend/integrations/hubspot.py:128 | what `lstrip` keeps is a suffix of its input, and everything it drops is whitespace |
| PyText.TrimEndPrefix | backend/integrations/hubspot.py:128 | what `rstrip` keeps is a prefix of its input, and everything it drops is whitespace |
| PyText.StripSlice | backend/integrations/hubspot.py:128 | the stripped text is a slice of the input with only whitespace cut before and after it |
| PyText.StripEmpty | backend/integrations/hubspot.py:128 | a text strips to empty exactly when it is all whitespace |
| PyText.StripIdempotent | backend/integrations/hubspot.py:128 | stripping twice gives the same as stripping once |
| PyText.StripJoin | backend/integrations/hubspot.py:128 | two words without surrounding spaces, joined by one space, strip to their join; the space is dropped when either word is empty |
| Redis.Store.Set | backend/integrations/hubspot.py:37 | the key maps to the value; every other entry is unchanged |
| Redis.Store.Get | backend/integrations/hubspot.py:53 | returns the stored value, or None exactly when the key is absent; the store is unchanged |
| Redis.Store.Delete | backend/integrations/hubspot.py:73 | the key is removed; every other entry is unchanged |
| HubSpot.Authorize | backend/integrations/hubspot.py:30-39 | the new store and the returned URL are those given by `AuthorizeEffect` |
| HubSpot.AuthorizeStoresPendingState | backend/integrations/hubspot.py:30-39 | authorization adds exactly the key `hubspot_state:{org}:{user}` and leaves every other entry as it was; the stored text decodes to `{state: token, user_id, org_id}`; the URL is the authorization URL, then `&state=`, then that same text |
| HubSpot.StateDocumentFields | backend/integrations/hubspot.py:49-53 | reading a state document back gives its token, and the ids it names give the same pending-state and credentials keys it was stored under |
| HubSpot.Callback | backend/integrations/hubspot.py:41-76 | the store calls and checks, made in the code's order, give the new store and result of `CallbackEffect` |
| HubSpot.CallbackReportsProviderError | backend/integrations/hubspot.py:42-43 | a non-empty `error` parameter raises 400 with that error as the detail, and the store is unchanged |
| HubSpot.CallbackRejectsWithoutPendingState | backend/integrations/hubspot.py:53-56 | if no non-empty pending state is stored under the key the returned state names, the result is 400 "State does not match." and the store is unchanged |
| HubSpot.CallbackEchoingStoredState | backend/integrations/hubspot.py:42-56 | a callback is accepted when it has no provider error and returns exactly the text stored as the pending state under the key that text names |
| HubSpot.CallbackRejectsOtherToken | backend/integrations/hubspot.py:53-56 | if the returned token differs from the stored pending state's, the result is 400 "State does not match." and the store is unchanged |
| HubSpot.CallbackRequiresIssuedToken | backend/integrations/hubspot.py:53-56 | against a pending state written by authorization, the callback succeeds exactly when there is no provider error, the returned token is the issued one, and the token response is JSON |
| HubSpot.CallbackSucceedsOnlyWhenAccepted | backend/integrations/hubspot.py:41-76 | a callback succeeds exactly when its state is accepted and the token response decodes; a state is accepted when there is no provider error and the stored pending state holds an equal token |
| HubSpot.CallbackFailureLeavesStore | backend/integrations/hubspot.py:41-76 | a failed callback leaves the store unchanged, except in one case: the state was accepted and the token response is not JSON, and then only the pending state is gone |
| HubSpot.CallbackStoresCredentials | backend/integrations/hubspot.py:58-76 | a successful callback deletes the pending state and stores credentials that decode to the token response; no other key changes |
| HubSpot.CallbackOnPendingState | backend/integrations/hubspot.py:41-76 | a callback that returns a stored pending state's text, with a token response that decodes, succeeds; it removes the pending state and stores credentials that decode to that response |
| HubSpot.CallbackIsNotReplayable | backend/integrations/hubspot.py:53-73 | after a successful callback, the same callback is rejected as a state mismatch |
| HubSpot.KeysDistinct | backend/integrations/hubspot.py:37-76 | a pending-state key never equals a credentials key |
| HubSpot.KeysIdentifyUser | backend/integrations/hubspot.py:37-76 | when organization ids contain no `:`, two keys of the same kind are equal exactly when they belong to the same organization and user |
| HubSpot.KeysCollide | backend/integrations/hubspot.py:37-76 | the ids are joined with an unescaped `:`, so ("a:b", "c") and ("a", "b:c") share both keys |
| HubSpot.GetCredentials | backend/integrations/hubspot.py:87-96 | the store calls and checks, made in the code's order, give the new store and result of `CredentialsEffect` |
| HubSpot.CredentialsRefused | backend/integrations/hubspot.py:88-93 | the read fails with 400 "No credentials found." and leaves the store unchanged exactly when the key is absent, its text is empty, or it decodes to a false value |
| HubSpot.CredentialsAreStored | backend/integrations/hubspot.py:88-96 | the credentials returned are the stored text, decoded |
| HubSpot.CredentialsOfDecodedText | backend/integrations/hubspot.py:88-96 | stored credentials that decode to a value are returned and deleted when Python counts the value as true, and refused with "No credentials found." otherwise |
| HubSpot.CredentialsAreSingleUse | backend/integrations/hubspot.py:91-96 | a successful read returns a true value and deletes only the credentials key, and a second read fails with "No credentials found." |
| HubSpot.AuthorizationFlow | backend/integrations/hubspot.py:30-96 | authorize, then call back with the state the URL carried, then read: the callback succeeds and removes the pending state, and the read returns the token response if it is true, after which no credentials remain |
| HubSpot.ReauthorizationRevokesEarlierState | backend/integrations/hubspot.py:30-56 | once a second authorization for the same users has a different token, a callback with the first URL's state is rejected as a state mismatch and the store is unchanged |
| HubSpotItems.NormalizeContacts | backend/integrations/hubspot.py:115-134 | the loop yields exactly one item per contact, in the same order, each the contact normalized |
| HubSpotItems.GetItems | backend/integrations/hubspot.py:98-136 | unreadable credentials raise their decoding error; a status other than 200 raises an HTTP error with that status and "Failed to fetch HubSpot contacts"; otherwise there is one item per contact, in order, each the contact normalized |
| HubSpotItems.DisplayName | backend/integrations/hubspot.py:128 | a contact's name is never empty and never begins or ends with whitespace |
| HubSpotItems.NameIsStrippedFullName | backend/integrations/hubspot.py:128 | the name is "Unnamed Contact" when first name, space, last name is all whitespace, and that text stripped otherwise |
| HubSpotItems.NameJoinsFirstAndLast | backend/integrations/hubspot.py:128 | for names without surrounding spaces, the item's name is "First Last", or the one name present, or "Unnamed Contact" |
| HubSpotItems.NamelessContact | backend/integrations/hubspot.py:128 | a contact with neither a first nor a last name is named "Unnamed Contact" |
| HubSpotItems.NullNameRendersNone | backend/integrations/hubspot.py:128 | a null first name with no last name gives the name "None" |
| HubSpotItems.NormalizedItem | backend/integrations/hubspot.py:118-134 | about `Normalize`, the loop body, and `ParseTime`: each item keeps the contact's id and is a visible "contact"; its URL is the contacts page followed by the id as printed, `None` for a contact without one; its name is non-empty and has no surrounding space; each timestamp is None exactly when its field is absent or empty |
| HubSpotItems.BearerHeaderOfDecoded | backend/integrations/hubspot.py:100-107 | about `BearerHeader`: for credentials that decode to an object, the header is "Bearer " followed by the access token as Python prints it |
| HubSpotItems.BearerHeaderOfStoredCredentials | backend/integrations/hubspot.py:100-107 | credentials stored as an encoded token response give "Bearer " followed by its access token, or "Bearer None" when it has none |
| HubSpotItems.NoItemsWithoutObjectCredentials | backend/integrations/hubspot.py:100-101 | credentials raise AttributeError, before any request is made, exactly when they decode to a document that is not an object |

## Left out

- The HTTP calls are not modelled. The token-endpoint POST (lines 58-74) becomes its response body as a parameter. The contacts GET (lines 104-110) becomes a function parameter.
- Expiry of stored keys is not modelled: the 600-second TTL (lines 37 and 76) is wall-clock behaviour, so keys never vanish in the model.
- `asyncio.gather` (line 59) is modelled as sequential. The token exchange and the state deletion touch disjoint resources.
- The random token from `secrets.token_urlsafe` (line 32) is a parameter.
- Environment loading and the start-up check (lines 17-25) are left out. The client registration is the `Config` value.
- The HTML close-window response (lines 78-85) is left out. A successful callback returns `()`.
- The empty `create_integration_item_metadata_object` stub (lines 138-140) is left out.
- Store failures, which propagate uncaught, are not modelled.
- The JSON model covers flat objects of null, booleans, integers and strings only. The limits of this subset:
  - A document with arrays, nested objects or floats fails to decode. Python would accept it, so a token response of that shape is a decoding failure in the model.
  - `\u` escapes are not decoded.
  - Non-ASCII and control characters other than those with short escapes are written as they are, where `json.dumps` escapes them.
  - `Decode` accepts raw control characters (U+0000 to U+001F) inside strings, where `json.loads` in its default strict mode raises "Invalid control character". A token response holding one is therefore stored by the model's callback, where Python raises `JSONDecodeError` at line 76, after the pending state was deleted at line 73. Rejecting them would break `Json.RoundTrip`, because `Encode` writes such characters unescaped.
  - A decoded object keeps every member, duplicates included, so re-encoding a token response with a repeated key writes the key again. `json.dumps(json.loads(body))` writes each key once, at its first position with its last value. Reads through `Json.Lookup` agree with Python, because the last duplicate wins there.
- HubSpot.AuthorizationFlow and HubSpot.ReauthorizationRevokesEarlierState take the redirect to return the state text exactly as line 39 put it into the URL (`ReturnedState`). The code does not percent-encode it, so an organization or user id containing `&`, `#`, `%` or `+` would reach the callback cut short or altered; the model does not capture that.
- The contacts response is taken as already decoded into its status and its `results`. Absent `results` is the empty list. Reading the response body is not modelled.
- `Json.Display` of an object is not modelled, because a key built from such an id cannot arise from a flat state document.
- `ParseTime` does not model `isoparse` rejecting a malformed timestamp. A non-empty field is kept as an opaque `Timestamp`.
- A contact whose `properties` is JSON null as a whole is not modelled. Python raises AttributeError on it; the model treats a missing property map as empty.
