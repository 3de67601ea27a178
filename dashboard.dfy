/** The guest-management dashboard page: a password gate remembered for the
    browser session, and handlers that load, add, update and delete guests
    through a backend, reporting the outcome in an error or a success
    message. */
module Dashboard {
  import opened Wrappers
  import opened Text
  import opened Web

  /** The value `API_URL` falls back to when no endpoint is configured. */
  const Placeholder := "YOUR_GOOGLE_APPS_SCRIPT_URL_HERE"

  const DashboardPassword := "debut2025"

  const WrongPasswordMessage := "Incorrect password. Please try again."

  const ConfigureMessage := "Please configure your Google Apps Script URL in the API_URL constant"

  const BulkImportMessage := "Bulk import feature coming soon!"

  /** `process.env.NEXT_PUBLIC_GUEST_API_URL || placeholder`. */
  function ApiUrl(env: Option<string>): (url: string)
    ensures url == Placeholder <==> env.None? || env.value == "" || env.value == Placeholder
    ensures url != Placeholder ==> env == Some(url)
  {
    if env.Some? && env.value != "" then env.value else Placeholder
  }

  /** A request the page sends to the backend. */
  datatype Request = GetGuests | PostGuests(payload: Json)

  /** The checks every handler applies to a response: a thrown fetch, a
      status that is not ok, a body that is not JSON, a `null` body (whose
      `error` cannot be read) and a truthy `error` field all fail, each with
      the message the thrown error carries. */
  function Checked(response: Upstream): (r: Result<Json, string>)
    ensures r.Ok? <==>
      && response.Replied? && IsOkStatus(response.status)
      && response.body.Parsed? && response.body.value != JNull
      && !HasError(response.body.value)
    ensures r.Ok? ==> r.value == response.body.value
    ensures response.Threw? ==> r == Err(response.message)
    ensures response.Replied? && !IsOkStatus(response.status) ==>
      r == Err("HTTP error! status: " + NatToString(response.status))
  {
    match response
    case Threw(message) => Err(message)
    case Replied(status, body) =>
      if !IsOkStatus(status) then Err("HTTP error! status: " + NatToString(status))
      else
        match body
        case NotJson(_, syntaxError) => Err(syntaxError)
        case Parsed(data) =>
          if data == JNull then Err(NullReadMessage("error"))
          else if HasError(data) then Err(ToJsString(Field(data, "error").value))
          else Ok(data)
  }

  /** What `fetchGuests` makes of a response: the new guest list, or the
      error message to show. */
  function FetchOutcome(apiUrl: string, response: Upstream): (r: Result<seq<Json>, string>)
    ensures r.Ok? <==> Checked(response).Ok?
    ensures r.Ok? && Checked(response).value.JArr? ==> r.value == Checked(response).value.items
    ensures r.Ok? && !Checked(response).value.JArr? ==> r.value == []
    ensures r.Err? && apiUrl == Placeholder ==> r.error == ConfigureMessage
    ensures r.Err? && apiUrl != Placeholder ==> r.error == "Failed to load guests: " + Checked(response).error
  {
    match Checked(response)
    case Ok(data) => Ok(if data.JArr? then data.items else [])
    case Err(message) =>
      Err(if apiUrl == Placeholder then ConfigureMessage else "Failed to load guests: " + message)
  }

  /** With no endpoint configured every failed load shows the configuration
      message, whatever went wrong. */
  lemma UnconfiguredFailure(response: Upstream)
    requires Checked(response).Err?
    ensures FetchOutcome(ApiUrl(None), response) == Err(ConfigureMessage)
  {
  }

  /** `guests.find(g => g.id === id)`: reading `id` of a `null` entry throws
      before any later entry is looked at. */
  datatype Lookup = Found(guest: Json) | Missing | Crashed

  function FindGuest(guests: seq<Json>, id: string): (r: Lookup)
    ensures r.Found? ==> r.guest in guests && Field(r.guest, "id") == Some(JStr(id))
    ensures r.Missing? ==> forall i :: 0 <= i < |guests| ==>
      guests[i] != JNull && Field(guests[i], "id") != Some(JStr(id))
    ensures r.Crashed? ==> JNull in guests
  {
    if guests == [] then Missing
    else if guests[0] == JNull then Crashed
    else if Field(guests[0], "id") == Some(JStr(id)) then Found(guests[0])
    else FindGuest(guests[1..], id)
  }

  const DeleteQuestion := "Are you sure you want to delete "

  /** The confirmation question: the guest's name when it has a truthy one,
      "this guest" otherwise. */
  function DeletePrompt(found: Lookup): (prompt: string)
    requires !found.Crashed?
    ensures |prompt| > |DeleteQuestion| && prompt[..|DeleteQuestion|] == DeleteQuestion
    ensures prompt[|prompt| - 1] == '?'
  {
    var name :=
      if found.Found? && Field(found.guest, "name").Some? && Truthy(Field(found.guest, "name").value)
      then ToJsString(Field(found.guest, "name").value)
      else "this guest";
    DeleteQuestion + name + "?"
  }

  lemma DeletePromptNamesGuest(found: Lookup, name: string)
    requires found.Found? && Field(found.guest, "name") == Some(JStr(name)) && name != ""
    ensures DeletePrompt(found) == "Are you sure you want to delete " + name + "?"
  {
  }

  lemma DeletePromptFallback(found: Lookup)
    requires found.Missing? || (found.Found? && Field(found.guest, "name").None?)
    ensures DeletePrompt(found) == "Are you sure you want to delete this guest?"
  {
  }

  /** The body of a delete request. */
  function DeletePayload(id: string): (payload: Json)
    ensures payload.JObj? && payload.fields.Keys == {"action", "id"}
    ensures payload.fields["action"] == JStr("delete") && payload.fields["id"] == JStr(id)
  {
    JObj(map["action" := JStr("delete"), "id" := JStr(id)])
  }

  /** The state of the dashboard page. `sessionAuth` stands for the
      `dashboardAuth` entry of the session storage being "true". */
  class DashboardPage {
    const apiUrl: string
    var isAuthenticated: bool
    var password: string
    var authError: Option<string>
    var guests: seq<Json>
    var isLoading: bool
    var error: Option<string>
    var successMessage: Option<string>
    var sessionAuth: bool
    /** Every request sent to the backend, in order. */
    var requests: seq<Request>

    constructor (env: Option<string>, storedAuth: bool)
      ensures apiUrl == ApiUrl(env) && sessionAuth == storedAuth
      ensures !isAuthenticated && password == "" && authError == None
      ensures guests == [] && !isLoading && error == None && successMessage == None
      ensures requests == []
    {
      apiUrl := ApiUrl(env);
      isAuthenticated, password, authError := false, "", None;
      guests, isLoading, error, successMessage := [], false, None, None;
      sessionAuth := storedAuth;
      requests := [];
    }

    /** `fetchGuests`: one GET; the list is replaced only by a successful
        response, and the loading flag is down again afterwards. */
    method FetchGuests(response: Upstream)
      modifies this`guests, this`isLoading, this`error, this`requests
      ensures requests == old(requests) + [GetGuests]
      ensures !isLoading
      ensures FetchOutcome(apiUrl, response).Ok? ==>
        guests == FetchOutcome(apiUrl, response).value && error == None
      ensures FetchOutcome(apiUrl, response).Err? ==>
        guests == old(guests) && error == Some(FetchOutcome(apiUrl, response).error)
    {
      isLoading := true;
      error := None;
      requests := requests + [GetGuests];
      match FetchOutcome(apiUrl, response) {
        case Ok(items) => guests := items;
        case Err(message) => error := Some(message);
      }
      isLoading := false;
    }

    /** The effect on mount: a remembered session logs in and loads the list. */
    method Restore(response: Upstream)
      modifies this`isAuthenticated, this`guests, this`isLoading, this`error, this`requests
      ensures isAuthenticated == (sessionAuth || old(isAuthenticated))
      ensures sessionAuth ==> requests == old(requests) + [GetGuests] && !isLoading
      ensures sessionAuth && FetchOutcome(apiUrl, response).Ok? ==>
        guests == FetchOutcome(apiUrl, response).value && error == None
      ensures sessionAuth && FetchOutcome(apiUrl, response).Err? ==>
        guests == old(guests) && error == Some(FetchOutcome(apiUrl, response).error)
      ensures !sessionAuth ==>
        requests == old(requests) && guests == old(guests) && error == old(error) && isLoading == old(isLoading)
    {
      if sessionAuth {
        isAuthenticated := true;
        FetchGuests(response);
      }
    }

    /** The password field's `onChange`. */
    method TypePassword(text: string)
      modifies this`password
      ensures password == text
    {
      password := text;
    }

    /** `handleLogin`: the right password opens the dashboard, remembers the
        session and loads the list; a wrong one shows the fixed message and
        clears the field. */
    method Login(response: Upstream)
      modifies this
      ensures old(password) == DashboardPassword ==>
        && isAuthenticated && authError == None && sessionAuth
        && requests == old(requests) + [GetGuests] && !isLoading
        && password == old(password)
      ensures old(password) == DashboardPassword && FetchOutcome(apiUrl, response).Ok? ==>
        guests == FetchOutcome(apiUrl, response).value && error == None
      ensures old(password) == DashboardPassword && FetchOutcome(apiUrl, response).Err? ==>
        guests == old(guests) && error == Some(FetchOutcome(apiUrl, response).error)
      ensures old(password) != DashboardPassword ==>
        && isAuthenticated == old(isAuthenticated) && authError == Some(WrongPasswordMessage)
        && password == "" && sessionAuth == old(sessionAuth)
        && requests == old(requests) && guests == old(guests) && error == old(error)
        && isLoading == old(isLoading)
      ensures successMessage == old(successMessage)
    {
      if password == DashboardPassword {
        isAuthenticated := true;
        authError := None;
        sessionAuth := true;
        FetchGuests(response);
      } else {
        authError := Some(WrongPasswordMessage);
        password := "";
      }
    }

    /** `handleLogout`. */
    method Logout()
      modifies this`isAuthenticated, this`sessionAuth, this`password, this`guests
      ensures !isAuthenticated && !sessionAuth && password == "" && guests == []
    {
      isAuthenticated := false;
      sessionAuth := false;
      password := "";
      guests := [];
    }

    /** The common body of the add, update and delete handlers: one POST;
        on success the success message and one reload, on failure the
        prefixed error; loading is down afterwards in both cases. */
    method Mutate(payload: Json, post: Upstream, reload: Upstream, success: string, failure: string)
      modifies this`guests, this`isLoading, this`error, this`successMessage, this`requests
      ensures !isLoading
      ensures Checked(post).Ok? ==>
        && successMessage == Some(success)
        && requests == old(requests) + [PostGuests(payload), GetGuests]
        && (FetchOutcome(apiUrl, reload).Ok? ==> guests == FetchOutcome(apiUrl, reload).value && error == None)
        && (FetchOutcome(apiUrl, reload).Err? ==> guests == old(guests) && error == Some(FetchOutcome(apiUrl, reload).error))
      ensures Checked(post).Err? ==>
        && successMessage == None && error == Some(failure + Checked(post).error)
        && requests == old(requests) + [PostGuests(payload)] && guests == old(guests)
    {
      isLoading := true;
      error := None;
      successMessage := None;
      requests := requests + [PostGuests(payload)];
      match Checked(post) {
        case Ok(_) =>
          successMessage := Some(success);
          FetchGuests(reload);
        case Err(message) =>
          error := Some(failure + message);
      }
      isLoading := false;
    }

    /** `handleAddGuest`: posts `{action: 'create', ...guestData}`. */
    method AddGuest(guestData: map<string, Json>, post: Upstream, reload: Upstream)
      modifies this`guests, this`isLoading, this`error, this`successMessage, this`requests
      ensures !isLoading
      ensures |requests| > |old(requests)| && requests[|old(requests)|] == PostGuests(TaggedObject("action", JStr("create"), guestData))
      ensures Checked(post).Ok? ==>
        successMessage == Some("\U{2713} " + TemplateValue(Field(JObj(guestData), "name")) + " added successfully!")
        && requests == old(requests) + [PostGuests(TaggedObject("action", JStr("create"), guestData)), GetGuests]
      ensures Checked(post).Ok? && FetchOutcome(apiUrl, reload).Ok? ==>
        guests == FetchOutcome(apiUrl, reload).value && error == None
      ensures Checked(post).Ok? && FetchOutcome(apiUrl, reload).Err? ==>
        guests == old(guests) && error == Some(FetchOutcome(apiUrl, reload).error)
      ensures Checked(post).Err? ==>
        error == Some("Failed to add guest: " + Checked(post).error) && guests == old(guests)
        && successMessage == None
        && requests == old(requests) + [PostGuests(TaggedObject("action", JStr("create"), guestData))]
    {
      var name := TemplateValue(Field(JObj(guestData), "name"));
      Mutate(TaggedObject("action", JStr("create"), guestData), post, reload,
        "\U{2713} " + name + " added successfully!", "Failed to add guest: ");
    }

    /** `handleUpdateGuest`: posts `{action: 'update', ...guest}`. */
    method UpdateGuest(guest: map<string, Json>, post: Upstream, reload: Upstream)
      modifies this`guests, this`isLoading, this`error, this`successMessage, this`requests
      ensures !isLoading
      ensures |requests| > |old(requests)| && requests[|old(requests)|] == PostGuests(TaggedObject("action", JStr("update"), guest))
      ensures Checked(post).Ok? ==>
        successMessage == Some("\U{2713} " + TemplateValue(Field(JObj(guest), "name")) + " updated successfully!")
        && requests == old(requests) + [PostGuests(TaggedObject("action", JStr("update"), guest)), GetGuests]
      ensures Checked(post).Ok? && FetchOutcome(apiUrl, reload).Ok? ==>
        guests == FetchOutcome(apiUrl, reload).value && error == None
      ensures Checked(post).Ok? && FetchOutcome(apiUrl, reload).Err? ==>
        guests == old(guests) && error == Some(FetchOutcome(apiUrl, reload).error)
      ensures Checked(post).Err? ==>
        error == Some("Failed to update guest: " + Checked(post).error) && guests == old(guests)
        && successMessage == None
        && requests == old(requests) + [PostGuests(TaggedObject("action", JStr("update"), guest))]
    {
      var name := TemplateValue(Field(JObj(guest), "name"));
      Mutate(TaggedObject("action", JStr("update"), guest), post, reload,
        "\U{2713} " + name + " updated successfully!", "Failed to update guest: ");
    }

    /** `handleDeleteGuest`: the lookup that names the guest in the question
        comes first; declining (or a lookup that throws) sends nothing and
        changes nothing. `prompt` is the question asked, if any. */
    method DeleteGuest(id: string, confirmed: bool, post: Upstream, reload: Upstream)
      returns (prompt: Option<string>)
      modifies this`guests, this`isLoading, this`error, this`successMessage, this`requests
      ensures FindGuest(old(guests), id).Crashed? ==> prompt == None
      ensures !FindGuest(old(guests), id).Crashed? ==> prompt == Some(DeletePrompt(FindGuest(old(guests), id)))
      ensures (FindGuest(old(guests), id).Crashed? || !confirmed) ==>
        && guests == old(guests) && isLoading == old(isLoading) && error == old(error)
        && successMessage == old(successMessage) && requests == old(requests)
      ensures !FindGuest(old(guests), id).Crashed? && confirmed ==>
        && !isLoading
        && |requests| > |old(requests)| && requests[|old(requests)|] == PostGuests(DeletePayload(id))
        && (Checked(post).Ok? ==>
              && successMessage == Some("\U{2713} Guest deleted successfully!")
              && requests == old(requests) + [PostGuests(DeletePayload(id)), GetGuests]
              && (FetchOutcome(apiUrl, reload).Ok? ==>
                    guests == FetchOutcome(apiUrl, reload).value && error == None)
              && (FetchOutcome(apiUrl, reload).Err? ==>
                    guests == old(guests) && error == Some(FetchOutcome(apiUrl, reload).error)))
        && (Checked(post).Err? ==>
              && error == Some("Failed to delete guest: " + Checked(post).error)
              && requests == old(requests) + [PostGuests(DeletePayload(id))]
              && guests == old(guests) && successMessage == None)
    {
      var found := FindGuest(guests, id);
      if found.Crashed? {
        return None;
      }
      prompt := Some(DeletePrompt(found));
      if !confirmed {
        return;
      }
      Mutate(DeletePayload(id), post, reload,
        "\U{2713} Guest deleted successfully!", "Failed to delete guest: ");
    }

    /** `handleBulkImport`. */
    method BulkImport()
      modifies this`error
      ensures error == Some(BulkImportMessage)
    {
      error := Some(BulkImportMessage);
    }

    /** The 5-second timer that follows a message, and the two close buttons. */
    method DismissMessages()
      modifies this`error, this`successMessage
      ensures error == None && successMessage == None
    {
      error := None;
      successMessage := None;
    }

    method DismissError()
      modifies this`error
      ensures error == None
    {
      error := None;
    }

    method DismissSuccess()
      modifies this`successMessage
      ensures successMessage == None
    {
      successMessage := None;
    }
  }
}
