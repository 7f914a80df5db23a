/** The records shared by the client and the two entry handlers (types/entry.ts). */
module EntryTypes {
  import opened Wrappers

  /** An identity reported by the hosted auth service. */
  datatype User = User(id: string, email: Option<string>)

  /** A stored row; `id` and `created_at` are assigned by the store. */
  datatype Entry = Entry(
    id: string,
    user_id: string,
    name: string,
    email: string,
    message: string,
    created_at: string)

  /** The body of a create request. Each field is either absent or a string. */
  datatype CreateEntryRequest = CreateEntryRequest(
    name: Option<string>,
    email: Option<string>,
    message: Option<string>)
}
