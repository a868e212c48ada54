/**
 * Paged listing of an Okta collection (`getOktaList` in okta.js): fetch a page,
 * append its body, follow the `Link` header's next URL, until a page has none.
 * The HTTP exchanges are given as the sequence of responses the API returns.
 */
module Pagination {
  import opened Results
  import opened Promises
  import LinkHeader

  /** One HTTP exchange: a transport error, or a response with its status, JSON array body, `Link` header and `errorSummary`. */
  datatype Response<T> =
    | TransportError(message: string)
    | Page(status: int, body: seq<T>, link: Option<string>, errorSummary: Option<string>)

  /** Why a listing was rejected: the transport error, or the API's `errorSummary` (possibly undefined). */
  datatype FetchError =
    | Transport(message: string)
    | Api(summary: Option<string>)

  predicate IsOk<T>(r: Response<T>)
  {
    r.Page? && r.status == 200
  }

  predicate HasNext<T>(r: Response<T>)
  {
    IsOk(r) && LinkHeader.NextLink(r.link).Some?
  }

  /** `getInner(url, acc)` fed the remaining responses; out of responses while a next page is due means still pending. */
  function Follow<T>(pages: seq<Response<T>>, acc: seq<T>): Settled<seq<T>, FetchError>
  {
    if |pages| == 0 then Pending
    else match pages[0]
      case TransportError(m) => Rejected(Transport(m))
      case Page(status, body, link, summary) =>
        if status != 200 then Rejected(Api(summary))
        else if LinkHeader.NextLink(link).Some? then Follow(pages[1..], acc + body)
        else Resolved(acc + body)
  }

  /** `getOktaList(initialURL)`. */
  function GetList<T>(pages: seq<Response<T>>): (r: Settled<seq<T>, FetchError>)
    ensures r.Resolved? ==> Lead(pages) < |pages| && IsOk(pages[Lead(pages)])
    ensures r.Pending? <==> Lead(pages) == |pages|
    ensures r.Rejected? ==> Lead(pages) < |pages| && !IsOk(pages[Lead(pages)]) && r.error == ErrorOf(pages[Lead(pages)])
  {
    FollowExpected(pages, []);
    Follow(pages, [])
  }

  /** How many leading pages succeeded and pointed to a further page. */
  function Lead<T>(pages: seq<Response<T>>): (n: nat)
    ensures n <= |pages|
    ensures forall j :: 0 <= j < n ==> HasNext(pages[j])
    ensures n < |pages| ==> !HasNext(pages[n])
  {
    if |pages| == 0 || !HasNext(pages[0]) then 0 else 1 + Lead(pages[1..])
  }

  /** The bodies of `pages`, concatenated in order. */
  function Bodies<T>(pages: seq<Response<T>>): seq<T>
  {
    if |pages| == 0 then []
    else (if pages[0].Page? then pages[0].body else []) + Bodies(pages[1..])
  }

  /** The error a failed exchange rejects the listing with: the transport error, else the `errorSummary`. */
  function ErrorOf<T>(r: Response<T>): FetchError
  {
    if r.TransportError? then Transport(r.message) else Api(r.errorSummary)
  }

  /**
   * The settled listing, by cases on the first page without a next link: none
   * (still pending), a failed exchange (rejected with its error, no partial
   * result), or a last page (all bodies up to it, in fetch order).
   */
  function Expected<T>(pages: seq<Response<T>>): Settled<seq<T>, FetchError>
  {
    var n := Lead(pages);
    if n == |pages| then Pending
    else if !IsOk(pages[n]) then Rejected(ErrorOf(pages[n]))
    else Resolved(Bodies(pages[..n + 1]))
  }

  lemma {:induction false} BodiesAppend<T>(a: seq<Response<T>>, b: seq<Response<T>>)
    ensures Bodies(a + b) == Bodies(a) + Bodies(b)
  {
    if |a| > 0 {
      assert (a + b)[0] == a[0];
      assert (a + b)[1..] == a[1..] + b;
      BodiesAppend(a[1..], b);
    } else {
      assert a + b == b;
    }
  }

  lemma {:induction false} FollowExpected<T>(pages: seq<Response<T>>, acc: seq<T>)
    ensures Follow(pages, acc) == match Expected(pages)
                                  case Resolved(items) => Resolved(acc + items)
                                  case Rejected(e) => Rejected(e)
                                  case Pending => Pending
  {
    if |pages| > 0 && HasNext(pages[0]) {
      var p := pages[0];
      FollowExpected(pages[1..], acc + p.body);
      var n := Lead(pages[1..]);
      assert Lead(pages) == n + 1;
      if n < |pages[1..]| {
        assert pages[n + 1] == pages[1..][n];
        if IsOk(pages[n + 1]) {
          assert pages[..n + 2] == [p] + pages[1..][..n + 1];
          BodiesAppend([p], pages[1..][..n + 1]);
          assert Bodies([p]) == p.body;
          var items := Bodies(pages[1..][..n + 1]);
          assert (acc + p.body) + items == acc + (p.body + items);
        }
      }
    } else if |pages| > 0 && IsOk(pages[0]) {
      assert pages[..1] == [pages[0]];
      assert Bodies([pages[0]]) == pages[0].body;
    }
  }

  /** A listing resolves to the concatenation of the page bodies in fetch order, or rejects with the failing page's error. */
  lemma GetListIsExpected<T>(pages: seq<Response<T>>)
    ensures GetList(pages) == Expected(pages)
  {
    FollowExpected(pages, []);
    if Expected(pages).Resolved? {
      assert [] + Expected(pages).value == Expected(pages).value;
    }
  }

  /**
   * The URLs requested: the initial one, then the next link of every page that
   * had one, up to the first that did not.
   */
  function Requests<T>(initial: string, pages: seq<Response<T>>): (urls: seq<string>)
    ensures |urls| == Lead(pages) + 1 && urls[0] == initial
    ensures forall j :: 0 <= j < Lead(pages) ==> urls[j + 1] == LinkHeader.NextLink(pages[j].link).value
    decreases |pages|
  {
    if |pages| == 0 || !HasNext(pages[0]) then [initial]
    else [initial] + Requests(LinkHeader.NextLink(pages[0].link).value, pages[1..])
  }
}
