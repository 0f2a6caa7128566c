/** The offset-based pagination of the issue fetcher, with the network replaced
    by the sequence of responses the server gives, one per request, in order. */
module Pagination {

  /** Number of records asked for per request (`$top`), and step of `$skip`. */
  const BatchSize: nat := 100

  const StatusOk: int := 200

  /** One HTTP response: its status code and, for a 200, the parsed JSON array. */
  datatype HttpResponse<T> = HttpResponse(status: int, body: seq<T>)

  /** Why the loop stopped: an empty page, a non-200 status, or the modelled
      server gave no further response. */
  datatype StopReason = EmptyPage | HttpFailure(status: int) | NoMoreResponses

  /** What the loop gathered: the raw records in server order, the `$skip` of every
      request made, and why it stopped. */
  datatype Pages<T> = Pages(records: seq<T>, offsets: seq<int>, stop: StopReason)

  /** A response that ends the loop. */
  predicate Stops<T>(r: HttpResponse<T>)
  {
    r.status != StatusOk || |r.body| == 0
  }

  function StopReasonOf<T>(r: HttpResponse<T>): StopReason
  {
    if r.status != StatusOk then HttpFailure(r.status) else EmptyPage
  }

  /** The loop from the request with `$skip` equal to `start` onwards. */
  function PaginateFrom<T>(responses: seq<HttpResponse<T>>, start: int): (p: Pages<T>)
    ensures |p.offsets| <= |responses|
    ensures |responses| > 0 ==> |p.offsets| > 0
    ensures forall k :: 0 <= k < |p.offsets| ==> p.offsets[k] == start + BatchSize * k
    ensures p.stop == NoMoreResponses <==> |p.offsets| == |responses| && forall k :: 0 <= k < |responses| ==> !Stops(responses[k])
    decreases |responses|
  {
    if |responses| == 0 then Pages([], [], NoMoreResponses)
    else
      var r := responses[0];
      if r.status == StatusOk then
        if |r.body| == 0 then Pages([], [start], EmptyPage)
        else
          var rest := PaginateFrom(responses[1..], start + BatchSize);
          Pages(r.body + rest.records, [start] + rest.offsets, rest.stop)
      else Pages([], [start], HttpFailure(r.status))
  }

  /** `get_tasks`' request loop: `$skip` starts at 0 and grows by the batch size
      after every non-empty successful page. */
  function Paginate<T>(responses: seq<HttpResponse<T>>): (p: Pages<T>)
    ensures p.records == Concat(responses[..StopIndex(responses)])
    ensures forall k :: 0 <= k < |p.offsets| ==> p.offsets[k] == BatchSize * k
  {
    PaginateCollectsPagesBeforeStop(responses, 0);
    PaginateFrom(responses, 0)
  }

  /** Index of the first response that ends the loop, or the number of responses. */
  function StopIndex<T>(responses: seq<HttpResponse<T>>): (n: nat)
    ensures n <= |responses|
    ensures forall k :: 0 <= k < n ==> !Stops(responses[k])
    ensures n < |responses| ==> Stops(responses[n])
    decreases |responses|
  {
    if |responses| == 0 || Stops(responses[0]) then 0
    else 1 + StopIndex(responses[1..])
  }

  /** The bodies of a run of responses, one after the other. */
  function Concat<T>(responses: seq<HttpResponse<T>>): seq<T>
    decreases |responses|
  {
    if |responses| == 0 then [] else responses[0].body + Concat(responses[1..])
  }

  /** The loop gathers, in order, every page before the first empty page or
      non-200 response, issues one request per page up to and including the one
      that stopped it, and reports why it stopped. */
  lemma {:induction false} PaginateCollectsPagesBeforeStop<T>(responses: seq<HttpResponse<T>>, start: int)
    ensures var p := PaginateFrom(responses, start);
            var n := StopIndex(responses);
            && p.records == Concat(responses[..n])
            && (n < |responses| ==> |p.offsets| == n + 1 && p.stop == StopReasonOf(responses[n]))
            && (n == |responses| ==> |p.offsets| == n && p.stop == NoMoreResponses)
    decreases |responses|
  {
    if |responses| > 0 && !Stops(responses[0]) {
      var n := StopIndex(responses);
      PaginateCollectsPagesBeforeStop(responses[1..], start + BatchSize);
      assert responses[..n][1..] == responses[1..][..n - 1];
    } else if |responses| > 0 {
      assert responses[..0] == [];
    }
  }

  /** A page shorter than the batch size does not end the loop: the next response
      is still requested. */
  lemma ShortPageDoesNotStop<T>(page: seq<T>, later: seq<HttpResponse<T>>)
    requires 0 < |page| < BatchSize && |later| > 0
    ensures var p := Paginate([HttpResponse(StatusOk, page)] + later);
            |p.offsets| >= 2 && p.offsets[1] == BatchSize
  {
    var rs := [HttpResponse(StatusOk, page)] + later;
    assert rs[1..] == later;
    assert PaginateFrom(rs, 0).offsets == [0] + PaginateFrom(later, BatchSize).offsets;
  }

  /** Two pages then an empty page: both pages in order, three requests. */
  lemma TwoPagesThenEmpty<T>(a: seq<T>, b: seq<T>)
    requires |a| > 0 && |b| > 0
    ensures Paginate([HttpResponse(StatusOk, a), HttpResponse(StatusOk, b), HttpResponse(StatusOk, [])])
         == Pages(a + b, [0, 100, 200], EmptyPage)
  {
    var rs := [HttpResponse(StatusOk, a), HttpResponse(StatusOk, b), HttpResponse(StatusOk, [])];
    var last := [HttpResponse(StatusOk, [])];
    assert rs[1..][1..] == last;
    assert PaginateFrom(last, 200) == Pages([], [200], EmptyPage);
    assert PaginateFrom(rs[1..], 100) == Pages(b + [], [100, 200], EmptyPage);
    assert a + (b + []) == a + b;
  }

  /** A failure after the first page keeps exactly the first page. */
  lemma FailureKeepsEarlierPages<T>(a: seq<T>, status: int, ignored: seq<T>, later: seq<HttpResponse<T>>)
    requires |a| > 0 && status != StatusOk
    ensures Paginate([HttpResponse(StatusOk, a), HttpResponse(status, ignored)] + later)
         == Pages(a, [0, 100], HttpFailure(status))
  {
    var rs := [HttpResponse(StatusOk, a), HttpResponse(status, ignored)] + later;
    assert rs[1..][0] == HttpResponse(status, ignored);
    assert PaginateFrom(rs[1..], 100) == Pages([], [100], HttpFailure(status));
    assert a + [] == a;
  }
}
