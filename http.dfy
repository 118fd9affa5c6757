/** The part of a Spring ResponseEntity the controllers decide: the status
    code and the body, absent for the bodiless 404 and 204 responses. */
module Http {
  import opened Wrappers

  const OK: int := 200
  const CREATED: int := 201
  const NO_CONTENT: int := 204
  const NOT_FOUND: int := 404

  datatype Response<+T> = Response(status: int, body: Option<T>)

  /** ResponseEntity.ok(body). */
  function OkResponse<T>(body: T): (r: Response<T>)
    ensures r.status == OK && r.body == Some(body)
  {
    Response(OK, Some(body))
  }

  /** ResponseEntity.notFound().build(). */
  function NotFoundResponse<T>(): (r: Response<T>)
    ensures r.status == NOT_FOUND && r.body.None?
  {
    Response(NOT_FOUND, None)
  }
}
