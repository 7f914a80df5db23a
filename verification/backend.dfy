/** What a handler sees of the hosted auth and database service: each call
    either returns a value or throws a fault carrying a message. */
module Backend {
  import opened Wrappers
  import opened EntryTypes

  /** The outcome of one awaited call into code outside this repository. */
  datatype Call<+T> = Returned(value: T) | Threw(message: string)

  /** A store answer `{ data, error }`: `error` set, or `data` returned. */
  datatype StoreResult<+T> = Ok(data: T) | Err(message: string)

  /** The outcomes of the calls every handler makes before its own work:
      the dynamic import plus client creation, the primary user lookup
      (`serverSupabaseUser`) and the session fallback (`auth.getSession`,
      read as `session?.user`). */
  datatype RequestContext = RequestContext(
    client: Call<()>,
    primary: Call<Option<User>>,
    session: Call<Option<User>>)
}
