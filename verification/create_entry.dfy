/** POST /api/entries/create: identity resolution, the ordered field checks,
    the row handed to the store and the mapping of every outcome to an envelope. */
module CreateEntry {
  import opened Wrappers
  import opened EntryTypes
  import opened Envelope
  import opened Backend
  import opened Identity
  import JsString

  const MissingFields := "Missing required fields: name, email, and message are required"
  const NameLength := "Name must be between 2 and 100 characters"
  const InvalidEmail := "Invalid email address"
  const MessageLength := "Message must be between 10 and 1000 characters"

  const NameMin := 2
  const NameMax := 100
  const MessageMin := 10
  const MessageMax := 1000

  /** The row inserted on the happy path; the store adds `id` and `created_at`. */
  datatype NewRow = NewRow(user_id: string, name: string, email: string, message: string)

  datatype Validation =
    | Accepted(name: string, email: string, message: string)
    | Rejected(error: string)

  /** The handler's checks, in the order it runs them; the first failing one
      decides the answer. */
  function Validate(body: CreateEntryRequest): (v: Validation)
    ensures v.Accepted? ==>
      && body.name == Some(v.name)
      && body.email == Some(v.email)
      && body.message == Some(v.message)
    ensures v.Accepted? ==>
      && NameMin <= JsString.Length(v.name) <= NameMax
      && '@' in v.email
      && MessageMin <= JsString.Length(v.message) <= MessageMax
    ensures v.Rejected? ==>
      v.error in {MissingFields, NameLength, InvalidEmail, MessageLength}
  {
    if !JsString.Truthy(body.name) || !JsString.Truthy(body.email) || !JsString.Truthy(body.message) then
      Rejected(MissingFields)
    else if JsString.Length(body.name.value) < NameMin || JsString.Length(body.name.value) > NameMax then
      Rejected(NameLength)
    else if !JsString.Includes(body.email.value, "@") then
      Rejected(InvalidEmail)
    else if JsString.Length(body.message.value) < MessageMin || JsString.Length(body.message.value) > MessageMax then
      Rejected(MessageLength)
    else
      JsString.IncludesChar(body.email.value, '@');
      Accepted(body.name.value, body.email.value, body.message.value)
  }

  // ----- An independent reading of the checks: the first failure in an ordered list -----

  datatype Check = Check(passes: bool, error: string)

  /** The index of the first failing check, if any. */
  function FirstFailing(checks: seq<Check>): (r: Option<nat>)
    ensures r.None? <==> forall i :: 0 <= i < |checks| ==> checks[i].passes
    ensures r.Some? ==>
      && r.value < |checks|
      && !checks[r.value].passes
      && forall j :: 0 <= j < r.value ==> checks[j].passes
  {
    if checks == [] then None
    else if !checks[0].passes then Some(0)
    else
      match FirstFailing(checks[1..])
      case None => None
      case Some(k) => Some(k + 1)
  }

  predicate LengthWithin(field: Option<string>, lo: nat, hi: nat) {
    field.Some? && lo <= JsString.Length(field.value) <= hi
  }

  /** The four rules the handler enforces, stated positively and in order. */
  function Checks(body: CreateEntryRequest): seq<Check> {
    [ Check(JsString.Truthy(body.name) && JsString.Truthy(body.email) && JsString.Truthy(body.message), MissingFields),
      Check(LengthWithin(body.name, NameMin, NameMax), NameLength),
      Check(body.email.Some? && '@' in body.email.value, InvalidEmail),
      Check(LengthWithin(body.message, MessageMin, MessageMax), MessageLength) ]
  }

  /** The handler's if-chain answers exactly the first failing rule, and accepts
      exactly when every rule passes. */
  lemma ValidateIsFirstFailing(body: CreateEntryRequest)
    ensures Validate(body).Accepted? <==> FirstFailing(Checks(body)).None?
    ensures Validate(body).Rejected? ==>
      FirstFailing(Checks(body)).Some? &&
      Validate(body).error == Checks(body)[FirstFailing(Checks(body)).value].error
  {
    var cs := Checks(body);
    if body.email.Some? {
      JsString.IncludesChar(body.email.value, '@');
    }
    var r := FirstFailing(cs);
    assert |cs| == 4;
    if !cs[0].passes {
      assert r == Some(0);
      assert Validate(body) == Rejected(MissingFields);
    } else if !cs[1].passes {
      assert r == Some(1);
      assert Validate(body) == Rejected(NameLength);
    } else if !cs[2].passes {
      assert r == Some(2);
      assert Validate(body) == Rejected(InvalidEmail);
    } else if !cs[3].passes {
      assert r == Some(3);
      assert Validate(body) == Rejected(MessageLength);
    } else {
      assert r.None?;
      assert Validate(body).Accepted?;
    }
  }

  // ----- The validation properties, one rule at a time -----

  /** An empty or absent field is reported as missing, before any length rule. */
  lemma FalsyFieldIsMissing(body: CreateEntryRequest)
    requires !JsString.Truthy(body.name) || !JsString.Truthy(body.email) || !JsString.Truthy(body.message)
    ensures Validate(body) == Rejected(MissingFields)
  {
  }

  predicate AllPresent(body: CreateEntryRequest) {
    JsString.Truthy(body.name) && JsString.Truthy(body.email) && JsString.Truthy(body.message)
  }

  /** With every field present, the name rule fails exactly outside the inclusive
      range [2, 100] of `.length`, whatever the email and message are. */
  lemma NameRule(body: CreateEntryRequest)
    requires AllPresent(body)
    ensures Validate(body) == Rejected(NameLength) <==>
      !(2 <= JsString.Length(body.name.value) <= 100)
  {
  }

  /** With the name in range, the email rule fails exactly when there is no '@';
      no other format check is made. */
  lemma EmailRule(body: CreateEntryRequest)
    requires AllPresent(body)
    requires 2 <= JsString.Length(body.name.value) <= 100
    ensures Validate(body) == Rejected(InvalidEmail) <==> '@' !in body.email.value
  {
    JsString.IncludesChar(body.email.value, '@');
  }

  /** With name and email passing, the message rule fails exactly outside the
      inclusive range [10, 1000] of `.length`. */
  lemma MessageRule(body: CreateEntryRequest)
    requires AllPresent(body)
    requires 2 <= JsString.Length(body.name.value) <= 100
    requires '@' in body.email.value
    ensures Validate(body) == Rejected(MessageLength) <==>
      !(10 <= JsString.Length(body.message.value) <= 1000)
  {
    JsString.IncludesChar(body.email.value, '@');
  }

  /** The request is accepted exactly when every rule holds. */
  lemma AcceptedIff(body: CreateEntryRequest)
    ensures Validate(body).Accepted? <==>
      && AllPresent(body)
      && 2 <= JsString.Length(body.name.value) <= 100
      && '@' in body.email.value
      && 10 <= JsString.Length(body.message.value) <= 1000
  {
    if body.email.Some? {
      JsString.IncludesChar(body.email.value, '@');
    }
  }

  /** The boundary lengths: 1 and 101 fail the name rule, 9 and 1001 fail the
      message rule (for text inside the Basic Multilingual Plane, `.length` is
      the character count). */
  lemma Boundaries(name: string, email: string, message: string)
    requires name != [] && email != [] && message != []
    requires JsString.InBmp(name) && JsString.InBmp(message)
    ensures |name| == 1 || |name| == 101 ==>
      Validate(CreateEntryRequest(Some(name), Some(email), Some(message))) == Rejected(NameLength)
    ensures 2 <= |name| <= 100 && '@' in email && (|message| == 9 || |message| == 1001) ==>
      Validate(CreateEntryRequest(Some(name), Some(email), Some(message))) == Rejected(MessageLength)
  {
    JsString.LengthInBmp(name);
    JsString.LengthInBmp(message);
    JsString.IncludesChar(email, '@');
  }

  // ----- The handler -----

  /** What one call of the handler does: the envelope it answers with, and the
      row it asked the store to insert, if it got that far. */
  datatype CreateRun = CreateRun(response: ApiResponse<Entry>, inserted: Option<NewRow>)

  /** The handler, given the outcome of every outside call it would make. */
  function Create(ctx: RequestContext, body: Call<CreateEntryRequest>, insert: Call<StoreResult<Entry>>): (run: CreateRun)
    ensures WellFormed(run.response)
    // an insert is attempted exactly when setup, identity, body and every check pass
    ensures run.inserted.Some? <==>
      && ctx.client.Returned?
      && Resolve(ctx.primary, ctx.session).Resolved?
      && body.Returned?
      && Validate(body.value).Accepted?
    // the row carries the resolved identity and the three fields unchanged
    ensures run.inserted.Some? ==>
      && run.inserted.value.user_id == Resolve(ctx.primary, ctx.session).user.id
      && Some(run.inserted.value.name) == body.value.name
      && Some(run.inserted.value.email) == body.value.email
      && Some(run.inserted.value.message) == body.value.message
    // success means the store accepted the row, and the answer is the store's row
    ensures run.response.success <==> run.inserted.Some? && insert.Returned? && insert.value.Ok?
    ensures run.response.success ==> run.response.data == Some(insert.value.data)
  {
    match ctx.client
    case Threw(m) => CreateRun(Failed(ServerError(m)), None)
    case Returned(_) =>
      match Resolve(ctx.primary, ctx.session)
      case Faulted(m) => CreateRun(Failed(ServerError(m)), None)
      case Denied(e) => CreateRun(Failed(e), None)
      case Resolved(user) =>
        match body
        case Threw(m) => CreateRun(Failed(ServerError(m)), None)
        case Returned(req) =>
          match Validate(req)
          case Rejected(e) => CreateRun(Failed(e), None)
          case Accepted(name, email, message) =>
            var row := NewRow(user.id, name, email, message);
            match insert
            case Threw(m) => CreateRun(Failed(ServerError(m)), Some(row))
            case Returned(Err(m)) => CreateRun(Failed(DatabaseError(m)), Some(row))
            case Returned(Ok(entry)) => CreateRun(Succeeded(entry), Some(row))
  }

  /** A primary lookup that throws with no session user ends the request with
      "Not authenticated. Please log in again."; a session user becomes the identity. */
  lemma CreateSessionFallback(ctx: RequestContext, body: Call<CreateEntryRequest>, insert: Call<StoreResult<Entry>>)
    requires ctx.client.Returned? && ctx.primary.Threw?
    ensures ctx.session == Returned(None) ==>
      Decode(Create(ctx, body, insert).response) == Failure(SessionMissing) && Create(ctx, body, insert).inserted.None?
    ensures ctx.session.Returned? && ctx.session.value.Some? && Create(ctx, body, insert).inserted.Some? ==>
      Create(ctx, body, insert).inserted.value.user_id == ctx.session.value.value.id
  {
  }

  /** A primary lookup that returns no user ends the request with "Not authenticated"
      before the body is looked at. */
  lemma CreateNoUser(ctx: RequestContext, body: Call<CreateEntryRequest>, insert: Call<StoreResult<Entry>>)
    requires ctx.client.Returned? && ctx.primary == Returned(None)
    ensures Decode(Create(ctx, body, insert).response) == Failure(NotAuthenticated)
    ensures Create(ctx, body, insert).inserted.None?
  {
  }

  /** A failed check is answered with that check's message and nothing is inserted. */
  lemma CreateRejectsInvalid(ctx: RequestContext, req: CreateEntryRequest, insert: Call<StoreResult<Entry>>)
    requires ctx.client.Returned? && Resolve(ctx.primary, ctx.session).Resolved?
    requires Validate(req).Rejected?
    ensures Decode(Create(ctx, Returned(req), insert).response) == Failure(Validate(req).error)
    ensures Create(ctx, Returned(req), insert).inserted.None?
  {
  }

  /** Once the row is sent, the store's answer decides the envelope: its error
      becomes "Database error: ...", a fault "Server error: ...", its row the data. */
  lemma CreateStoreMapping(ctx: RequestContext, body: Call<CreateEntryRequest>, insert: Call<StoreResult<Entry>>)
    requires Create(ctx, body, insert).inserted.Some?
    ensures insert.Returned? && insert.value.Err? ==>
      Decode(Create(ctx, body, insert).response) == Failure(DatabaseError(insert.value.message))
    ensures insert.Returned? && insert.value.Ok? ==>
      Decode(Create(ctx, body, insert).response) == Success(insert.value.data)
    ensures insert.Threw? ==>
      Decode(Create(ctx, body, insert).response) == Failure(ServerError(insert.message))
  {
  }

  /** Every failure is reported as text: a fault in any outside call other than
      the primary lookup becomes "Server error: " followed by its message. */
  lemma CreateFaults(ctx: RequestContext, body: Call<CreateEntryRequest>, insert: Call<StoreResult<Entry>>)
    ensures ctx.client.Threw? ==>
      Decode(Create(ctx, body, insert).response) == Failure(ServerError(ctx.client.message))
    ensures ctx.client.Returned? && ctx.primary.Threw? && ctx.session.Threw? ==>
      Decode(Create(ctx, body, insert).response) == Failure(ServerError(ctx.session.message))
    ensures ctx.client.Returned? && Resolve(ctx.primary, ctx.session).Resolved? && body.Threw? ==>
      Decode(Create(ctx, body, insert).response) == Failure(ServerError(body.message))
  {
  }
}
