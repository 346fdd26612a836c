/** The replies the handlers send: a status code and a JSON body. */
module Http {
  import opened Wrappers
  import opened JsValues

  datatype Body =
    | Error(message: string)
    | Token(token: string)
    | UserView(id: string, email: Json)
    | FileView(id: string, userId: string, name: Json, fileType: string,
               isPublic: Json, parentId: Json, localPath: Option<string>)
    | NoContent

  datatype Response = Response(status: int, body: Body)

  const Unauthorized := Response(401, Error("Unauthorized"))

  function BadRequest(message: string): Response
  {
    Response(400, Error(message))
  }

  /** The 500 reply of the file and user handlers' `catch` blocks. */
  const InternalServerError := Response(500, Error("Internal Server Error"))
}
