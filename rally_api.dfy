/** The shape of a response of the tracking service's query API, after JSON decoding:
    the HTTP status code and the records of `QueryResult.Results`. */
module RallyApi {

  const HttpOk := 200

  datatype QueryResponse<T> = QueryResponse(status: int, results: seq<T>)
}
