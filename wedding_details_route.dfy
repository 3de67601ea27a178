/** The wedding-details route: four handlers that forward to the
    spreadsheet script and turn what it answers into a JSON response. Each
    handler is a function of the incoming request body and of what the one
    upstream `fetch` came to. */
module WeddingDetailsRoute {
  import opened Wrappers
  import opened Text
  import opened Web

  /** An object with the given keys, each holding the empty string. */
  function Blank(keys: set<string>): Json {
    JObj(map k | k in keys :: JStr(""))
  }

  /** The record answered when the details cannot be read. */
  const EmptyWeddingDetails: Json := JObj(map[
    "couple" := Blank({"bride", "brideNickname", "groom", "groomNickname"}),
    "wedding" := Blank({"date", "venue", "tagline"}),
    "theme" := JStr(""),
    "hashtag" := JStr(""),
    "ceremony" := Blank({"venue", "address", "time", "googleMapsUrl"}),
    "reception" := Blank({"venue", "address", "time", "googleMapsUrl"}),
    "narratives" := Blank({"bride", "groom", "shared"}),
    "dressCode" := Blank({"theme", "note"}),
    "details" := JObj(map["rsvp" := Blank({"deadline"})]),
    "contact" := Blank({"bridePhone", "groomPhone", "email"})
  ])

  /** Every string in the value is empty and it holds nothing but objects and strings. */
  predicate AllLeavesEmpty(j: Json) {
    match j
    case JStr(s) => s == ""
    case JObj(fields) => forall k :: k in fields ==> AllLeavesEmpty(fields[k])
    case _ => false
  }

  lemma BlankIsBlank(keys: set<string>)
    ensures AllLeavesEmpty(Blank(keys))
    ensures Blank(keys).fields.Keys == keys
  {
  }

  /** The empty record holds only empty strings. */
  lemma EmptyWeddingDetailsIsBlank()
    ensures AllLeavesEmpty(EmptyWeddingDetails)
  {
    BlankIsBlank({"bride", "brideNickname", "groom", "groomNickname"});
    BlankIsBlank({"date", "venue", "tagline"});
    BlankIsBlank({"venue", "address", "time", "googleMapsUrl"});
    BlankIsBlank({"bride", "groom", "shared"});
    BlankIsBlank({"theme", "note"});
    BlankIsBlank({"deadline"});
    BlankIsBlank({"bridePhone", "groomPhone", "email"});
    assert AllLeavesEmpty(JObj(map["rsvp" := Blank({"deadline"})]));
  }

  /** The empty record has the ten sections of the details. */
  lemma EmptyWeddingDetailsSections()
    ensures EmptyWeddingDetails.fields.Keys
         == {"couple", "wedding", "theme", "hashtag", "ceremony", "reception",
             "narratives", "dressCode", "details", "contact"}
  {
  }

  /** What the proxy sent upstream (None: no upstream call) and what it answered. */
  datatype Handled = Handled(forwarded: Option<Json>, response: Response)

  /** The request body: unreadable as JSON (with the parser's message), or a value. */
  datatype RequestBody = Unreadable(syntaxError: string) | Body(value: Json)

  // ----- GET -----

  /** The upstream answer is usable: an ok status, a JSON value that is not
      `null`, and no truthy `error` field. */
  predicate Usable(upstream: Upstream) {
    && upstream.Replied?
    && IsOkStatus(upstream.status)
    && upstream.body.Parsed?
    && upstream.body.value != JNull
    && !HasError(upstream.body.value)
  }

  /** `GET`: read the details; every failure degrades to the empty record. */
  function Get(upstream: Upstream): (r: Response)
    ensures r.status == 200
  {
    match upstream
    case Threw(_) => Response(200, EmptyWeddingDetails)
    case Replied(status, body) =>
      if !IsOkStatus(status) then Response(200, EmptyWeddingDetails)
      else
        match body
        // response.json() throws
        case NotJson(_, _) => Response(200, EmptyWeddingDetails)
        case Parsed(data) =>
          // reading data.error of null throws
          if data == JNull then Response(200, EmptyWeddingDetails)
          else if HasError(data) then Response(200, EmptyWeddingDetails)
          else Response(200, data)
  }

  /** `GET` passes a usable upstream record through unchanged and otherwise
      answers the empty record; its status is 200 either way. */
  lemma GetOutcome(upstream: Upstream)
    ensures Get(upstream).status == 200
    ensures Usable(upstream) ==> Get(upstream).body == upstream.body.value
    ensures !Usable(upstream) ==> Get(upstream).body == EmptyWeddingDetails
  {
  }

  // ----- PUT -----

  const UpdateFailed := "Failed to update wedding details"

  /** The stub that stands in for a successful reply that is not JSON. */
  const UpdatedStub: Json :=
    JObj(map["status" := JStr("ok"), "message" := JStr("Wedding details updated successfully")])

  /** `{action: 'update', ...body}`: an object holding every entry of the
      body and an `action`, which is `'update'` unless the body has its own. */
  function UpdatePayload(body: Json): (payload: Json)
    requires body.JObj? || body.JArr?
    ensures payload.JObj? && payload.fields.Keys == Spread(body).Keys + {"action"}
    ensures forall k :: k in Spread(body) ==> payload.fields[k] == Spread(body)[k]
    ensures "action" !in Spread(body) ==> payload.fields["action"] == JStr("update")
  {
    TaggedObject("action", JStr("update"), Spread(body))
  }

  /** The error answered when the reply is neither ok nor JSON: never a
      success status, with an error message and at most 200 characters of
      the reply as details. */
  function NotJsonFailure(status: nat, text: string): (r: Response)
    ensures !IsOkStatus(status) ==> !IsOkStatus(r.status)
    ensures r.body.JObj? && r.body.fields.Keys == {"error", "details"}
    ensures r.body.fields["details"].JStr? && |r.body.fields["details"].s| <= 200
  {
    Response(StatusOr500(status), JObj(map[
      "error" := JStr("Google Apps Script returned an error. Status: " + NatToString(status)
                      + ". The script may need to be updated or redeployed."),
      "details" := JStr(Prefix(text, 200))
    ]))
  }

  /** How `PUT` answers once the reply's data is known (line by line: the
      `error` field first, then the upstream status). */
  function PutAnswer(status: nat, data: Json): (r: Response)
    ensures r.status == 200 <==> data != JNull && !HasError(data) && IsOkStatus(status)
    ensures r.status == 200 ==> r.body == data
    ensures data != JNull && HasError(data) ==> r.status == 400
  {
    if data == JNull then Response(500, ErrorBody(NullReadMessage("error")))
    else if HasError(data) then Response(400, JObj(map["error" := Field(data, "error").value]))
    else if !IsOkStatus(status) then
      Response(StatusOr500(status), ErrorBody(
        "Failed to update wedding details. Google Apps Script returned status " + NatToString(status)))
    else Response(200, data)
  }

  /** `PUT`: validate the body, forward it as an update, classify the reply. */
  function Put(request: RequestBody, upstream: Upstream): (h: Handled)
    ensures h.forwarded.Some? <==> request.Body? && (request.value.JObj? || request.value.JArr?)
  {
    match request
    case Unreadable(e) => Handled(None, Response(500, ErrorBody(MessageOr(e, UpdateFailed))))
    case Body(body) =>
      if !(body.JObj? || body.JArr?) then
        Handled(None, Response(400, ErrorBody("Invalid request body")))
      else
        var payload := UpdatePayload(body);
        match upstream
        case Threw(m) => Handled(Some(payload), Response(500, ErrorBody(MessageOr(m, UpdateFailed))))
        case Replied(status, NotJson(text, _)) =>
          if !IsOkStatus(status) then Handled(Some(payload), NotJsonFailure(status, text))
          else Handled(Some(payload), PutAnswer(status, UpdatedStub))
        case Replied(status, Parsed(data)) =>
          Handled(Some(payload), PutAnswer(status, data))
  }

  /** A body that is `null` or not an object is refused with 400 and never forwarded. */
  lemma PutRejectsNonObject(body: Json, upstream: Upstream)
    requires !(body.JObj? || body.JArr?)
    ensures Put(Body(body), upstream) == Handled(None, Response(400, ErrorBody("Invalid request body")))
  {
  }

  /** The forwarded payload holds every field of the body and an `action`
      field; the body's own `action`, when it has one, wins over `'update'`. */
  lemma PutForwardsEveryField(fields: map<string, Json>, upstream: Upstream)
    ensures Put(Body(JObj(fields)), upstream).forwarded.Some?
    ensures var p := Put(Body(JObj(fields)), upstream).forwarded.value;
      && p.JObj?
      && p.fields.Keys == fields.Keys + {"action"}
      && (forall k :: k in fields ==> p.fields[k] == fields[k])
      && p.fields["action"] == (if "action" in fields then fields["action"] else JStr("update"))
  {
  }

  /** An array body is spread with its indices as keys. */
  lemma PutSpreadsArray(items: seq<Json>, upstream: Upstream, i: nat)
    requires i < |items|
    ensures var p := Put(Body(JArr(items)), upstream).forwarded.value;
      p.JObj? && NatToString(i) in p.fields && p.fields[NatToString(i)] == items[i]
  {
    IndexKeysAt(items, i);
    var key := NatToString(i);
    assert '0' <= key[0] <= '9' && "action"[0] == 'a';
  }

  /** A truthy `error` field in the reply gives 400 with that error, whatever
      the upstream status. */
  lemma PutErrorFieldFirst(body: Json, status: nat, data: Json)
    requires body.JObj? || body.JArr?
    requires data != JNull && HasError(data)
    ensures Put(Body(body), Replied(status, Parsed(data))).response
         == Response(400, JObj(map["error" := Field(data, "error").value]))
  {
  }

  /** A reply that is not JSON: an error with the upstream status (or 500) and
      the first 200 characters when not ok; the success stub with 200 when ok. */
  lemma PutNotJson(body: Json, status: nat, text: string, syntaxError: string)
    requires body.JObj? || body.JArr?
    ensures var r := Put(Body(body), Replied(status, NotJson(text, syntaxError))).response;
      if IsOkStatus(status) then r == Response(200, UpdatedStub)
      else
        && r.status == StatusOr500(status)
        && r.body.JObj?
        && "details" in r.body.fields
        && r.body.fields["details"] == JStr(text[..if |text| < 200 then |text| else 200])
  {
  }

  /** Parsed data without an error field and a status that is not ok: the
      upstream status, or 500 when it is 0. */
  lemma PutUpstreamFailure(body: Json, status: nat, data: Json)
    requires body.JObj? || body.JArr?
    requires data != JNull && !HasError(data) && !IsOkStatus(status)
    ensures Put(Body(body), Replied(status, Parsed(data))).response.status == StatusOr500(status)
    ensures Put(Body(body), Replied(status, Parsed(data))).response.status != 200
  {
  }

  /** Success answers the upstream data unchanged with 200. */
  lemma PutSuccess(body: Json, status: nat, data: Json)
    requires body.JObj? || body.JArr?
    requires IsOkStatus(status) && data != JNull && !HasError(data)
    ensures Put(Body(body), Replied(status, Parsed(data))).response == Response(200, data)
  {
  }

  // ----- DELETE -----

  const ClearFailed := "Failed to clear wedding details"

  /** `DELETE`: forward `{action: 'delete'}`; anything but an ok JSON reply is a 500. */
  function Delete(upstream: Upstream): (h: Handled)
    ensures h.forwarded == Some(JObj(map["action" := JStr("delete")]))
  {
    var sent := Some(JObj(map["action" := JStr("delete")]));
    match upstream
    case Threw(m) => Handled(sent, Response(500, ErrorBody(MessageOr(m, ClearFailed))))
    case Replied(status, body) =>
      if !IsOkStatus(status) then Handled(sent, Response(500, ErrorBody(ClearFailed)))
      else
        match body
        case NotJson(_, e) => Handled(sent, Response(500, ErrorBody(MessageOr(e, ClearFailed))))
        case Parsed(data) => Handled(sent, Response(200, data))
  }

  /** `DELETE` answers 200 with the upstream data exactly when the reply is ok
      and JSON (an `error` field in it is not looked at), and 500 otherwise. */
  lemma DeleteOutcome(upstream: Upstream)
    ensures var r := Delete(upstream).response;
      if upstream.Replied? && IsOkStatus(upstream.status) && upstream.body.Parsed?
      then r == Response(200, upstream.body.value)
      else r.status == 500
    ensures upstream.Replied? && !IsOkStatus(upstream.status)
        ==> Delete(upstream).response == Response(500, ErrorBody(ClearFailed))
  {
  }

  // ----- POST -----

  const InitializeFailed := "Failed to initialize wedding details"

  /** `POST`: only `{action: 'initialize'}` is accepted and forwarded. */
  function Post(request: RequestBody, upstream: Upstream): (h: Handled)
    ensures h.forwarded.Some? ==> h.forwarded == Some(JObj(map["action" := JStr("initialize")]))
  {
    match request
    case Unreadable(_) => Handled(None, Response(500, ErrorBody(InitializeFailed)))
    case Body(body) =>
      // reading body.action of null throws
      if body == JNull then Handled(None, Response(500, ErrorBody(InitializeFailed)))
      else if Field(body, "action") != Some(JStr("initialize")) then
        Handled(None, Response(400, ErrorBody("Invalid action")))
      else
        var sent := Some(JObj(map["action" := JStr("initialize")]));
        match upstream
        case Replied(status, Parsed(data)) =>
          if IsOkStatus(status) then Handled(sent, Response(200, data))
          else Handled(sent, Response(500, ErrorBody(InitializeFailed)))
        case _ => Handled(sent, Response(500, ErrorBody(InitializeFailed)))
  }

  /** A `null` body is a 500 (reading its `action` throws); any other action
      than `'initialize'` is a 400 without an upstream call; an initialize
      that the upstream does not answer ok is a 500. */
  lemma PostOutcome(body: Json, upstream: Upstream)
    ensures body == JNull
        ==> Post(Body(body), upstream) == Handled(None, Response(500, ErrorBody(InitializeFailed)))
    ensures body != JNull && Field(body, "action") != Some(JStr("initialize"))
        ==> Post(Body(body), upstream) == Handled(None, Response(400, ErrorBody("Invalid action")))
    ensures Field(body, "action") == Some(JStr("initialize"))
        ==> Post(Body(body), upstream).forwarded.Some?
    ensures Field(body, "action") == Some(JStr("initialize")) && upstream.Replied? && !IsOkStatus(upstream.status)
        ==> Post(Body(body), upstream).response == Response(500, ErrorBody(InitializeFailed))
  {
  }
}
