/** GET /api/entries/list: the same identity resolution, one select, and the
    mapping of its answer to an envelope, with a null result read as no rows. */
module ListEntries {
  import opened Wrappers
  import opened EntryTypes
  import opened Envelope
  import opened Backend
  import opened Identity

  /** What one call of the handler does: the envelope it answers with, and
      whether it asked the store for the rows. */
  datatype ListRun = ListRun(response: ApiResponse<seq<Entry>>, queried: bool)

  /** The handler, given the outcome of every outside call it would make. The
      select's `data` may be null, hence `Option`. */
  function List(ctx: RequestContext, select: Call<StoreResult<Option<seq<Entry>>>>): (run: ListRun)
    ensures WellFormed(run.response)
    // the store is asked exactly when setup and identity resolution succeed
    ensures run.queried <==> ctx.client.Returned? && Resolve(ctx.primary, ctx.session).Resolved?
    // success means the store answered without an error
    ensures run.response.success <==> run.queried && select.Returned? && select.value.Ok?
    // the rows come back as the store gave them; no rows (null) is the empty list
    ensures run.response.success && select.value.data.Some? ==>
      run.response.data == Some(select.value.data.value)
    ensures run.response.success && select.value.data.None? ==>
      run.response.data == Some([])
  {
    match ctx.client
    case Threw(m) => ListRun(Failed(ServerError(m)), false)
    case Returned(_) =>
      match Resolve(ctx.primary, ctx.session)
      case Faulted(m) => ListRun(Failed(ServerError(m)), false)
      case Denied(e) => ListRun(Failed(e), false)
      case Resolved(_) =>
        match select
        case Threw(m) => ListRun(Failed(ServerError(m)), true)
        case Returned(Err(m)) => ListRun(Failed(DatabaseError(m)), true)
        case Returned(Ok(data)) => ListRun(Succeeded(data.GetOr([])), true)
  }

  /** A primary lookup that throws with no session user ends the request with
      "Not authenticated. Please log in again."; a session user is accepted. */
  lemma ListSessionFallback(ctx: RequestContext, select: Call<StoreResult<Option<seq<Entry>>>>)
    requires ctx.client.Returned? && ctx.primary.Threw?
    ensures ctx.session == Returned(None) ==>
      Decode(List(ctx, select).response) == Failure(SessionMissing) && !List(ctx, select).queried
    ensures ctx.session.Returned? && ctx.session.value.Some? ==> List(ctx, select).queried
  {
  }

  /** A primary lookup that returns no user ends the request with
      "Not authenticated" and the store is never asked. */
  lemma ListNoUser(ctx: RequestContext, select: Call<StoreResult<Option<seq<Entry>>>>)
    requires ctx.client.Returned? && ctx.primary == Returned(None)
    ensures Decode(List(ctx, select).response) == Failure(NotAuthenticated)
    ensures !List(ctx, select).queried
  {
  }

  /** Once the store is asked, its answer decides the envelope: an error becomes
      "Database error: ...", a fault "Server error: ...", null data an empty list. */
  lemma ListStoreMapping(ctx: RequestContext, select: Call<StoreResult<Option<seq<Entry>>>>)
    requires List(ctx, select).queried
    ensures select.Returned? && select.value.Err? ==>
      Decode(List(ctx, select).response) == Failure(DatabaseError(select.value.message))
    ensures select.Threw? ==>
      Decode(List(ctx, select).response) == Failure(ServerError(select.message))
    ensures select == Returned(Ok(None)) ==>
      Decode(List(ctx, select).response) == Success([])
    ensures select.Returned? && select.value.Ok? && select.value.data.Some? ==>
      Decode(List(ctx, select).response) == Success(select.value.data.value)
  {
  }

  /** Every fault before the select is reported as text too: a throw in client
      setup or in the session fallback becomes "Server error: " followed by its
      message, and the store is never asked. */
  lemma ListFaults(ctx: RequestContext, select: Call<StoreResult<Option<seq<Entry>>>>)
    ensures ctx.client.Threw? ==>
      Decode(List(ctx, select).response) == Failure(ServerError(ctx.client.message)) && !List(ctx, select).queried
    ensures ctx.client.Returned? && ctx.primary.Threw? && ctx.session.Threw? ==>
      Decode(List(ctx, select).response) == Failure(ServerError(ctx.session.message)) && !List(ctx, select).queried
  {
  }

  /** Lexicographic order on timestamp strings (ISO-8601 text in one format
      orders chronologically this way). */
  predicate AtOrBefore(a: string, b: string) {
    a == [] || (b != [] && (a[0] < b[0] || (a[0] == b[0] && AtOrBefore(a[1..], b[1..]))))
  }

  /** Rows ordered by `created_at`, newest first. */
  predicate NewestFirst(rows: seq<Entry>) {
    forall i, j :: 0 <= i < j < |rows| ==> AtOrBefore(rows[j].created_at, rows[i].created_at)
  }

  /** The handler neither filters nor reorders: whatever rows the store's
      `order("created_at", descending)` produced come back as they are, so a
      newest-first answer stays newest-first. */
  lemma ListKeepsStoreOrder(ctx: RequestContext, rows: seq<Entry>)
    requires ctx.client.Returned? && Resolve(ctx.primary, ctx.session).Resolved?
    ensures Decode(List(ctx, Returned(Ok(Some(rows)))).response) == Success(rows)
    ensures NewestFirst(rows) ==> NewestFirst(List(ctx, Returned(Ok(Some(rows)))).response.data.value)
  {
  }
}
