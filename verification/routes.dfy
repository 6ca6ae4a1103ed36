/** What every file-backed admin route shares: the file it reads, the body of
    a delete request, and the reply it gives. */
module Routes {

  /** What a route finds when it reads its JSON file. */
  datatype Stored<+T> =
    | Items(items: seq<T>)   // the file parsed to an array
    | NotAList               // the file parsed to some other JSON value
    | Unreadable             // the file is missing or is not valid JSON

  /** The outcome of one request: either the list written back together with
      the JSON reply, or an HTTP status with the reason the route gave.
      A refused request writes nothing. */
  datatype Reply<+S, +R, +E> =
    | Ok(store: S, body: R)
    | Fail(status: int, reason: E)

  /** A JSON body `{ id }`, as the DELETE handlers read it. */
  datatype IdRequest = IdRequest(id: string)
}
