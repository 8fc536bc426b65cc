/** Optional values, as used for absent JSON keys and query parameters. */
module Wrappers {

  datatype Option<+T> = None | Some(value: T)
}

/** What a controller sends back: a status code with either a payload or an error message. */
module Http {

  datatype Reply<+T> =
    | Ok(status: int, value: T)
    | Failed(status: int, message: string)

  const Created: int := 201
  const Success: int := 200
  const BadRequest: int := 400
  const NotFound: int := 404
}
