/** The response record handed to a request's callback. Its class is not part
    of this model; only the fields the exchange and the listener write are kept. */
module Responses {
  import opened Wrappers
  import opened Headers

  /** A raised Ruby or Java exception, known only by its message. */
  datatype Error = Error(message: string)

  /** Status recorded when the deadline elapsed before completion. */
  const TimeoutStatus: int := -1

  datatype Response = Response(
    url: string,
    ssl: bool,
    status: Option<int>,    // None until a terminal event sets it
    body: Option<string>,   // None is Ruby's nil
    timeout: bool,
    headers: Fields)

  /** A user callback, seen through what it does to the exchange: given the
      response it is called with, it returns the error it raised, if any. */
  type Callback = Response -> Option<Error>

  /** A freshly created record for `url`: nothing received yet. */
  function New(url: string): (r: Response)
    ensures r.url == url
    ensures r.status.None? && r.body.None?
    ensures !r.ssl && !r.timeout
    ensures r.headers == map[]
  {
    Response(url, false, None, None, false, map[])
  }

  /** `response[name] = value`: stores one header and changes nothing else. */
  function SetHeader(r: Response, name: string, value: string): (r': Response)
    ensures r'.headers == Put(r.headers, name, value)
    ensures r' == r.(headers := r'.headers)
  {
    r.(headers := Put(r.headers, name, value))
  }
}
