/** The uniform `{success, data?, error?}` response envelope both handlers return,
    and its reading as a tagged result. */
module Envelope {
  import opened Wrappers

  datatype ApiResponse<+T> = ApiResponse(success: bool, data: Option<T>, error: Option<string>)

  /** `{ success: true, data }` */
  function Succeeded<T>(data: T): ApiResponse<T> {
    ApiResponse(true, Some(data), None)
  }

  /** `{ success: false, error }` */
  function Failed<T>(error: string): ApiResponse<T> {
    ApiResponse(false, None, Some(error))
  }

  const DatabaseErrorPrefix := "Database error: "
  const ServerErrorPrefix := "Server error: "

  /** The message a store-reported error becomes. */
  function DatabaseError(message: string): (e: string)
    ensures |e| == |DatabaseErrorPrefix| + |message|
    ensures e[..|DatabaseErrorPrefix|] == DatabaseErrorPrefix
    ensures e[|DatabaseErrorPrefix|..] == message
  {
    DatabaseErrorPrefix + message
  }

  /** The message a fault caught at the handler boundary becomes. */
  function ServerError(message: string): (e: string)
    ensures |e| == |ServerErrorPrefix| + |message|
    ensures e[..|ServerErrorPrefix|] == ServerErrorPrefix
    ensures e[|ServerErrorPrefix|..] == message
  {
    ServerErrorPrefix + message
  }

  /** The two prefixes never collide, so a caller can tell a store error from a fault. */
  lemma PrefixesDistinct(m1: string, m2: string)
    ensures DatabaseError(m1) != ServerError(m2)
  {
    assert DatabaseError(m1)[0] == 'D';
    assert ServerError(m2)[0] == 'S';
  }

  /** A well-formed envelope carries data exactly when it succeeds and an error
      exactly when it fails: never both, never neither. */
  predicate WellFormed<T>(r: ApiResponse<T>) {
    if r.success then r.data.Some? && r.error.None? else r.data.None? && r.error.Some?
  }

  /** The tagged result a well-formed envelope stands for. */
  datatype Outcome<+T> = Success(value: T) | Failure(error: string)

  function Decode<T>(r: ApiResponse<T>): (o: Outcome<T>)
    requires WellFormed(r)
    ensures o.Success? <==> r.success
    ensures o.Success? ==> r == Succeeded(o.value)
    ensures o.Failure? ==> r == Failed(o.error)
  {
    if r.success then Success(r.data.value) else Failure(r.error.value)
  }

  function Encode<T>(o: Outcome<T>): (r: ApiResponse<T>)
    ensures WellFormed(r)
    ensures r.success <==> o.Success?
  {
    match o
    case Success(v) => Succeeded(v)
    case Failure(e) => Failed(e)
  }

  /** Encoding then decoding gives back the tagged result. */
  lemma DecodeEncode<T>(o: Outcome<T>)
    ensures Decode(Encode(o)) == o
  {
  }

  /** Every well-formed envelope is the encoding of its decoding, so the two
      shapes carry the same information. */
  lemma EncodeDecode<T>(r: ApiResponse<T>)
    requires WellFormed(r)
    ensures Encode(Decode(r)) == r
  {
  }
}
