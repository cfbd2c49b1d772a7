/** What a handler answers: an HTTP status and its JSON (or raw) body. */
module Http {
  import opened Stores

  datatype Body =
    | TokenBody(token: string)                      // { token }
    | UserBody(id: Id, email: string)               // { id, email }
    | FileBody(id: Id, file: FileRec)               // a files document with its id
    | FileList(items: seq<(Id, FileRec)>)           // an array of files documents
    | Content(data: seq<byte>, mimeType: string)    // raw bytes with their Content-Type

  datatype Response =
    | Ok(body: Body)                 // 200
    | Created(body: Body)            // 201
    | NoContent                      // 204
    | BadRequest(error: string)      // 400
    | Unauthorized                   // 401 { error: 'Unauthorized' }
    | NotFound                       // 404 { error: 'Not found' }
    | ServerError(error: string)     // 500
}
