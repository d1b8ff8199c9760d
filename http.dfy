/**
 * The Express reply plumbing: `res.status(s).json(b)` becomes the value
 * `Reply(s, b)`.
 */
module Http {
  datatype Reply<B> = Reply(status: int, body: B)

  /** The message every route's catch-all sends with status 500. */
  const InternalError := "An error has occurred."
}
