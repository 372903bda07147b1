/** The request value that flows between the depth middleware and the scheduler, and the flat
    record the disk tier stores in its place. */
module Requests {
  import opened Wrappers

  /** What a request calls back on its response. request_to_dict can only store a callback
      that is a method of the spider, by name; any other callable is not serialisable. */
  datatype Callback = NoCallback | SpiderMethod(name: string) | OtherCallable(name: string)

  /** A fetch request. `meta` keeps only integer-valued entries ('depth' is the one used here). */
  datatype Request = Request(
    url: string,
    httpMethod: string,
    body: string,
    priority: int,
    meta: map<string, int>,
    dontFilter: bool,
    callback: Callback)

  /** The dict request_to_dict produces: the callback survives as a method name. */
  datatype Record = Record(
    url: string,
    httpMethod: string,
    body: string,
    priority: int,
    meta: map<string, int>,
    dontFilter: bool,
    callbackName: Option<string>)

  /** request_to_dict raises ValueError for a callback that is not a spider method. */
  datatype SerializationError = ValueError(callbackName: string)

  predicate Serializable(r: Request) {
    !r.callback.OtherCallable?
  }

  /** request_to_dict: fails exactly on the requests the disk tier cannot hold, and what it
      produces turns back into the same request. */
  function ToDict(r: Request): (res: Result<Record, SerializationError>)
    ensures res.Success? <==> Serializable(r)
    ensures res.Success? ==> FromDict(res.value) == r && res.value.priority == r.priority
  {
    match r.callback
    case OtherCallable(name) => Failure(ValueError(name))
    case NoCallback =>
      Success(Record(r.url, r.httpMethod, r.body, r.priority, r.meta, r.dontFilter, None))
    case SpiderMethod(name) =>
      Success(Record(r.url, r.httpMethod, r.body, r.priority, r.meta, r.dontFilter, Some(name)))
  }

  /** request_from_dict: a stored method name is looked up on the spider again. */
  function FromDict(d: Record): Request {
    Request(d.url, d.httpMethod, d.body, d.priority, d.meta, d.dontFilter,
            match d.callbackName case None => NoCallback case Some(name) => SpiderMethod(name))
  }

  /** What the duplicate filter compares: method, URL and body (canonicalisation is the filter's own
      concern and is not modelled). */
  type Fingerprint = (string, string, string)

  function FingerprintOf(r: Request): Fingerprint {
    (r.httpMethod, r.url, r.body)
  }
}
