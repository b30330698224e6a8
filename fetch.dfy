/** The HTTP boundary: a response is a status code, the length of its body
    and the parsed document; the entities differ only in which statuses they
    accept. */
module Fetch {
  import opened Prelude

  datatype Response<D> = Response(status: int, bodyLength: nat, doc: D)

  datatype HttpMethod = GET | POST

  /** The rule of `get` in Work, Chapter, User and Search: any status above
      399 raises `HTTPError` carrying that status. */
  function Accept<D>(r: Response<D>): (res: Result<D>)
    ensures res.Ok? <==> r.status <= 399
    ensures res.Ok? ==> res.value == r.doc
    ensures res.Err? ==> res.error == HTTPError(Some(r.status))
  {
    if r.status > 399 then Err(HTTPError(Some(r.status))) else Ok(r.doc)
  }

  /** The rule of `Session.get`: only status 200 is accepted; every other
      status, redirects included, raises `HTTPError` carrying it. */
  function AcceptOnly200<D>(r: Response<D>): (res: Result<D>)
    ensures res.Ok? <==> r.status == 200
    ensures res.Ok? ==> res.value == r.doc
    ensures res.Err? ==> res.error == HTTPError(Some(r.status))
  {
    if r.status != 200 then Err(HTTPError(Some(r.status))) else Ok(r.doc)
  }

  /** The body length above which `request` prints its advisory warning; the
      body is parsed either way. */
  const LongPage := 650000

  predicate WarnsLong<D>(r: Response<D>)
  {
    r.bodyLength > LongPage
  }

  /** The exact-200 rule accepts a subset of what the general rule accepts. */
  lemma AcceptOnly200Stricter<D>(r: Response<D>)
    ensures AcceptOnly200(r).Ok? ==> Accept(r) == AcceptOnly200(r)
    ensures 300 <= r.status <= 399 ==> Accept(r).Ok? && AcceptOnly200(r).Err?
  {
  }
}
