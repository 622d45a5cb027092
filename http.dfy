/** The action results the API controllers return: `Ok`, `CreatedAtAction`,
    `NoContent`, `NotFound` and `BadRequest` with its optional message. */
module Http {
  datatype Response<T> = Ok(value: T) | Created(value: T) | NoContent | NotFound | BadRequest(message: string)
}
