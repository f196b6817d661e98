/**
 * Reading a page or a stored file (`parsePage`), the three shapes a store
 * is written in (the envelope choice of `writeFile`), and the paginated
 * fetch (`getNew`, `getNextPage`).  JSON text is not modelled: a document
 * is its decoded value, or None for bytes that do not decode.
 */
module Pages {
  import opened Wrappers
  import opened Json
  import opened Failures
  import opened UrlPath

  const ListKeys: seq<string> := ["links", "children"]

  /** `parsePage`: a bare array is the list itself; an object gives the
      array under `links`, else under `children`, or the empty list when
      that value is not an array; anything else is an error. */
  function ParsePage(doc: Option<Json>): (r: Result<seq<Json>, Error>)
    ensures r.Failure? <==> doc.None? || !(doc.value.Arr? || doc.value.Obj?)
    ensures r.Failure? ==> r.error == CouldNotParseJson
    ensures doc.Some? && doc.value.Arr? ==> r == Success(doc.value.items)
  {
    match doc
    case Some(Obj(m)) =>
      (match Either(m, ListKeys)
       case Arr(mnts) => Success(mnts)
       case _ => Success([]))
    case Some(Arr(mm)) => Success(mm)
    case _ => Failure(CouldNotParseJson)
  }

  /** `links` takes priority over `children`, and a `links` that is not an
      array gives the empty list: there is no falling through to
      `children`. */
  lemma ParsePageLinksFirst(m: map<string, Json>)
    requires "links" in m
    ensures ParsePage(Some(Obj(m))) == Success(if m["links"].Arr? then m["links"].items else [])
  {
  }

  /** Without `links`, the list is the `children` array, if there is one. */
  lemma ParsePageChildren(m: map<string, Json>)
    requires "links" !in m
    ensures ParsePage(Some(Obj(m))) ==
            Success(if "children" in m && m["children"].Arr? then m["children"].items else [])
  {
    assert Either(m, ListKeys) == Either(m, ["children"]);
    if "children" in m {
      assert Either(m, ["children"]) == m["children"];
    } else {
      assert Either(m, ["children"]) == Null;
    }
  }

  /** The value `writeFile` encodes: a bare array without a top-level
      object, else a JF2 feed or a classic `links` object. */
  function Envelope(mm: seq<Json>, tlo: bool, useJF2: bool): (doc: Json)
    ensures !tlo ==> doc == Arr(mm)
    ensures tlo && useJF2 ==>
              doc.Obj? && doc.fields.Keys == {"type", "name", "children"} &&
              doc.fields["type"] == Str("feed") && doc.fields["name"] == Str("Webmentions") &&
              doc.fields["children"] == Arr(mm)
    ensures tlo && !useJF2 ==>
              doc.Obj? && doc.fields.Keys == {"links"} && doc.fields["links"] == Arr(mm)
  {
    if !tlo then Arr(mm)
    else if useJF2 then
      Obj(map["type" := Str("feed"), "name" := Str("Webmentions"), "children" := Arr(mm)])
    else
      Obj(map["links" := Arr(mm)])
  }

  /** Reading back what was written gives the same records in the same
      order, in each of the three shapes. */
  lemma EnvelopeRoundTrip(mm: seq<Json>, tlo: bool, useJF2: bool)
    ensures ParsePage(Some(Envelope(mm, tlo, useJF2))) == Success(mm)
  {
    if tlo && useJF2 {
      var m := map["type" := Str("feed"), "name" := Str("Webmentions"), "children" := Arr(mm)];
      assert "links" !in m;
      assert Either(m, ListKeys) == Arr(mm);
    }
  }

  /** The remote endpoint: the response to the request with a given
      `since_id` and `page`, as a decoded body or a transport error. */
  type Endpoint = (int, nat) -> Result<Option<Json>, Error>

  /** `getNextPage`: fetch and parse one page. */
  function GetNextPage(get: Endpoint, since: int, page: nat): Result<seq<Json>, Error> {
    match get(since, page)
    case Failure(e) => Failure(e)
    case Success(doc) => ParsePage(doc)
  }

  /** A page served in any of the shapes this program writes yields exactly
      its records. */
  lemma GetNextPageOfEnvelope(get: Endpoint, since: int, page: nat, mm: seq<Json>, tlo: bool, useJF2: bool)
    requires get(since, page) == Success(Some(Envelope(mm, tlo, useJF2)))
    ensures GetNextPage(get, since, page) == Success(mm)
  {
    EnvelopeRoundTrip(mm, tlo, useJF2);
  }

  /** A page served as an object with neither `links` nor `children` (an
      error object from the endpoint is one) yields no records: the fetch
      ends there as if it were complete, and no error is reported. */
  lemma ObjectWithoutListStops(get: Endpoint, since: int, page: nat, m: map<string, Json>)
    requires get(since, page) == Success(Some(Obj(m)))
    requires "links" !in m && "children" !in m
    ensures GetNextPage(get, since, page) == Success([])
    ensures Stops(get, since, page)
  {
    ParsePageChildren(m);
  }

  /** A page served in any of the shapes this program writes ends the
      fetch exactly when it holds no records. */
  lemma EnvelopePageStops(get: Endpoint, since: int, page: nat, mm: seq<Json>, tlo: bool, useJF2: bool)
    requires get(since, page) == Success(Some(Envelope(mm, tlo, useJF2)))
    ensures Stops(get, since, page) <==> mm == []
  {
    GetNextPageOfEnvelope(get, since, page, mm, tlo, useJF2);
  }

  /** A page that ends the fetch: one that fails or holds no records. */
  predicate Stops(get: Endpoint, since: int, page: nat) {
    var r := GetNextPage(get, since, page);
    r.Failure? || r.value == []
  }

  /** `page` is the first page that ends the fetch. */
  predicate FirstStop(get: Endpoint, since: int, page: nat) {
    Stops(get, since, page) && forall j: nat | j < page :: !Stops(get, since, j)
  }

  /** At most one page is the first to end the fetch. */
  lemma FirstStopUnique(get: Endpoint, since: int, k1: nat, k2: nat)
    requires FirstStop(get, since, k1) && FirstStop(get, since, k2)
    ensures k1 == k2
  {
  }

  /** The records of pages `0 .. k-1`, concatenated in page order. */
  function Gathered(get: Endpoint, since: int, k: nat): seq<Json> {
    if k == 0 then []
    else Gathered(get, since, k - 1) + GetNextPage(get, since, k - 1).GetOr([])
  }

  /** `getNew`: request pages 0, 1, 2, ... with `since_id` fixed to
      `latest`, until a page is empty (all records so far, no error) or
      fails (the records so far, with that error). */
  method GetNew(parseUrl: UrlParser, uri: string, latest: int, get: Endpoint)
    returns (mm: seq<Json>, err: Option<Error>)
    requires parseUrl(uri).Some? ==> exists n: nat :: Stops(get, latest, n)
    ensures parseUrl(uri).None? ==> mm == [] && err == Some(BadUrl(uri))
    ensures parseUrl(uri).Some? ==>
              exists k: nat :: FirstStop(get, latest, k) &&
                mm == Gathered(get, latest, k + 1) &&
                err == (match GetNextPage(get, latest, k)
                        case Failure(e) => Some(e)
                        case Success(_) => None)
  {
    if parseUrl(uri).None? {
      return [], Some(BadUrl(uri));
    }
    ghost var n: nat :| Stops(get, latest, n);
    mm := [];
    var ok := true;
    var i: nat := 0;
    while ok
      invariant ok ==> i <= n && mm == Gathered(get, latest, i) &&
                       forall j: nat | j < i :: !Stops(get, latest, j)
      invariant !ok ==> 1 <= i && FirstStop(get, latest, i - 1) &&
                        mm == Gathered(get, latest, i) && GetNextPage(get, latest, i - 1).Success?
      decreases if ok then n + 1 - i else 0
    {
      var m := GetNextPage(get, latest, i);
      if m.Failure? {
        assert FirstStop(get, latest, i);
        assert Gathered(get, latest, i + 1) == mm;
        return mm, Some(m.error);
      }
      mm := mm + m.value;
      if |m.value| == 0 {
        ok := false;
      }
      i := i + 1;
    }
    err := None;
  }

  /** The scenario of the fetch test: a first page of records and a second
      `{"links":[]}` page yield exactly the first page's records, without
      error. */
  lemma GetNewTwoPages(get: Endpoint, since: int, first: seq<Json>)
    requires first != [] && GetNextPage(get, since, 0) == Success(first)
    requires get(since, 1) == Success(Some(Obj(map["links" := Arr([])])))
    ensures FirstStop(get, since, 1)
    ensures Gathered(get, since, 2) == first
    ensures GetNextPage(get, since, 1) == Success([])
  {
    assert Either(map["links" := Arr([])], ListKeys) == Arr([]);
    assert Gathered(get, since, 1) == first;
  }

  /** The outcome the fetch test checks: in that scenario `getNew` returns
      exactly the first page's records and no error. */
  method GetNewReturnsFirstPage(parseUrl: UrlParser, uri: string, get: Endpoint, since: int, first: seq<Json>)
    returns (mm: seq<Json>, err: Option<Error>)
    requires parseUrl(uri).Some?
    requires first != [] && GetNextPage(get, since, 0) == Success(first)
    requires get(since, 1) == Success(Some(Obj(map["links" := Arr([])])))
    ensures mm == first && err == None
  {
    GetNewTwoPages(get, since, first);
    mm, err := GetNew(parseUrl, uri, since, get);
    var k: nat :| FirstStop(get, since, k) && mm == Gathered(get, since, k + 1) &&
                  err == (match GetNextPage(get, since, k)
                          case Failure(e) => Some(e)
                          case Success(_) => None);
    FirstStopUnique(get, since, k, 1);
  }
}
