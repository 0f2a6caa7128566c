/** The issue fetcher `get_tasks`: the pagination loop of module Pagination with
    every record of every page mapped as module Issues describes. */
module Fetcher {
  import opened Wrappers
  import opened CustomFields
  import opened Duration
  import opened Pagination
  import opened Issues
  import opened Seqs

  /** What `get_tasks` hands back when it returns: the issues in server order,
      the `$skip` of each request it made, and why it stopped. */
  datatype Fetched<U> = Fetched(issues: seq<U>, offsets: seq<int>, stop: StopReason)

  /** Maps records in order with the loop body `f`; the first record that raises
      ends the whole call. The fetcher proper uses `f := MapIssue`; the loop's
      structure does not depend on what `f` computes. */
  function MapAll<T, U, E>(f: T -> Result<U, E>, raws: seq<T>): (r: Result<seq<U>, E>)
    ensures r.Success? ==> |r.value| == |raws|
    ensures r.Failure? ==> exists k :: 0 <= k < |raws| && f(raws[k]) == Failure(r.error)
    decreases |raws|
  {
    if |raws| == 0 then Success([])
    else
      match f(raws[0])
      case Failure(e) => Failure(e)
      case Success(issue) =>
        match MapAll(f, raws[1..])
        case Failure(e) => Failure(e)
        case Success(issues) => Success([issue] + issues)
  }

  /** All records map: the result is every record's mapping, in order. Otherwise
      the result is the exception of the first record that raises. */
  lemma {:induction false} MapAllSpec<T, U, E>(f: T -> Result<U, E>, raws: seq<T>)
    ensures var r := MapAll(f, raws);
            && (r.Success? <==> forall k :: 0 <= k < |raws| ==> f(raws[k]).Success?)
            && (r.Success? ==> |r.value| == |raws| && forall k :: 0 <= k < |raws| ==> f(raws[k]) == Success(r.value[k]))
            && (r.Failure? ==> exists k :: 0 <= k < |raws| && f(raws[k]) == Failure(r.error)
                                         && forall m :: 0 <= m < k ==> f(raws[m]).Success?)
    decreases |raws|
  {
    if |raws| > 0 {
      MapAllSpec(f, raws[1..]);
      assert forall k :: 0 <= k < |raws[1..]| ==> raws[1..][k] == raws[k + 1];
      var r := MapAll(f, raws);
      if r.Failure? && f(raws[0]).Success? {
        var k :| 0 <= k < |raws[1..]| && f(raws[1..][k]) == Failure(r.error)
                 && forall m :: 0 <= m < k ==> f(raws[1..][m]).Success?;
        assert f(raws[k + 1]) == Failure(r.error);
        assert forall m :: 0 <= m < k + 1 ==> f(raws[m]).Success? by {
          forall m | 0 <= m < k + 1
            ensures f(raws[m]).Success?
          {
            if m > 0 {
              assert raws[m] == raws[1..][m - 1];
            }
          }
        }
      }
    }
  }

  /** The functional reading of `get_tasks`: paginate, then map every gathered record. */
  function FetchSpec<T, U, E>(f: T -> Result<U, E>, responses: seq<HttpResponse<T>>): Result<Fetched<U>, E>
  {
    var p := Paginate(responses);
    match MapAll(f, p.records)
    case Failure(e) => Failure(e)
    case Success(issues) => Success(Fetched(issues, p.offsets, p.stop))
  }

  /** Mapping a concatenation: the first part's exception wins, otherwise the second's,
      otherwise the two results are concatenated. */
  lemma {:induction false} MapAllAppend<T, U, E>(f: T -> Result<U, E>, a: seq<T>, b: seq<T>)
    ensures MapAll(f, a + b)
         == match MapAll(f, a)
            case Failure(e) => Failure(e)
            case Success(xs) =>
              match MapAll(f, b)
              case Failure(e) => Failure(e)
              case Success(ys) => Success(xs + ys)
    decreases |a|
  {
    if |a| == 0 {
      assert a + b == b;
      if MapAll(f, b).Success? {
        assert [] + MapAll(f, b).value == MapAll(f, b).value;
      }
    } else {
      UnconsAppend(a, b);
      MapAllAppend(f, a[1..], b);
      if f(a[0]).Success? && MapAll(f, a[1..]).Success? && MapAll(f, b).Success? {
        assert [f(a[0]).value] + (MapAll(f, a[1..]).value + MapAll(f, b).value)
            == ([f(a[0]).value] + MapAll(f, a[1..]).value) + MapAll(f, b).value;
      }
    }
  }

  lemma MapAllOne<T, U, E>(f: T -> Result<U, E>, raw: T)
    ensures MapAll(f, [raw]) == match f(raw)
                                case Failure(e) => Failure(e)
                                case Success(x) => Success([x])
  {
    assert [raw][1..] == [];
    if f(raw).Success? {
      assert [f(raw).value] + [] == [f(raw).value];
    }
  }

  /** One non-stopping page: the loop from here is that page followed by the loop
      from the next response. */
  lemma PaginateStep<T>(responses: seq<HttpResponse<T>>, i: nat, start: int)
    requires i < |responses| && !Stops(responses[i])
    ensures var rest := PaginateFrom(responses[i + 1..], start + BatchSize);
            (PaginateFrom(responses[i..], start)
               == Pages(responses[i].body + rest.records, [start] + rest.offsets, rest.stop))
  {
    assert responses[i..][0] == responses[i];
    assert responses[i..][1..] == responses[i + 1..];
  }

  /** One more record mapped without raising extends the mapped prefix. */
  lemma MapAllExtend<T, U, E>(f: T -> Result<U, E>, raws: seq<T>, j: nat, mapped: seq<U>, x: U)
    requires j < |raws| && MapAll(f, raws[..j]) == Success(mapped) && f(raws[j]) == Success(x)
    ensures MapAll(f, raws[..j + 1]) == Success(mapped + [x])
  {
    TakeOneMore(raws, j);
    MapAllAppend(f, raws[..j], [raws[j]]);
    MapAllOne(f, raws[j]);
  }

  /** The first record that raises decides the whole result. */
  lemma MapAllStopsAt<T, U, E>(f: T -> Result<U, E>, raws: seq<T>, j: nat, e: E)
    requires j < |raws| && MapAll(f, raws[..j]).Success? && f(raws[j]) == Failure(e)
    ensures MapAll(f, raws) == Failure(e)
  {
    var pre := raws[..j + 1];
    var post := raws[j + 1..];
    TakeOneMore(raws, j);
    assert MapAll(f, pre) == Failure(e) by {
      MapAllAppend(f, raws[..j], [raws[j]]);
      MapAllOne(f, raws[j]);
    }
    MapAllAppend(f, pre, post);
  }

  /** The inner `for issue in issues` loop: map the records of one page in order,
      stopping at the first that raises. */
  method MapPage<T, U, E>(f: T -> Result<U, E>, issues: seq<T>) returns (r: Result<seq<U>, E>)
    ensures r == MapAll(f, issues)
  {
    var mapped: seq<U> := [];
    var j := 0;
    assert issues[..0] == [];
    while j < |issues|
      invariant 0 <= j <= |issues|
      invariant MapAll(f, issues[..j]) == Success(mapped)
      decreases |issues| - j
    {
      var one := f(issues[j]);
      if one.Failure? {
        MapAllStopsAt(f, issues, j, one.error);
        return Failure(one.error);
      }
      MapAllExtend(f, issues, j, mapped, one.value);
      mapped := mapped + [one.value];
      j := j + 1;
    }
    assert issues[..j] == issues;
    return Success(mapped);
  }

  /** The loop's view of pagination after `i` pages: the records and offsets
      gathered so far, followed by what the rest of the responses give, make up
      the whole of `Paginate`. */
  ghost predicate Gathered<T>(responses: seq<HttpResponse<T>>, i: nat, start: int, raw: seq<T>, offsets: seq<int>)
  {
    && i <= |responses|
    && var rest := PaginateFrom(responses[i..], start);
       Paginate(responses) == Pages(raw + rest.records, offsets + rest.offsets, rest.stop)
  }

  lemma GatheredAtStart<T>(responses: seq<HttpResponse<T>>)
    ensures Gathered(responses, 0, 0, [], [])
  {
    assert responses[0..] == responses;
    var p := Paginate(responses);
    assert [] + p.records == p.records && [] + p.offsets == p.offsets;
  }

  /** A page that does not stop the loop moves into the gathered part. */
  lemma GatheredStep<T>(responses: seq<HttpResponse<T>>, i: nat, start: int, raw: seq<T>, offsets: seq<int>)
    requires Gathered(responses, i, start, raw, offsets)
    requires i < |responses| && !Stops(responses[i])
    ensures Gathered(responses, i + 1, start + BatchSize, raw + responses[i].body, offsets + [start])
  {
    PaginateStep(responses, i, start);
    var rest := PaginateFrom(responses[i + 1..], start + BatchSize);
    assert raw + (responses[i].body + rest.records) == (raw + responses[i].body) + rest.records;
    assert offsets + ([start] + rest.offsets) == (offsets + [start]) + rest.offsets;
  }

  /** A response that stops the loop is the last request. */
  lemma GatheredStop<T>(responses: seq<HttpResponse<T>>, i: nat, start: int, raw: seq<T>, offsets: seq<int>)
    requires Gathered(responses, i, start, raw, offsets)
    requires i < |responses| && Stops(responses[i])
    ensures Paginate(responses) == Pages(raw, offsets + [start], StopReasonOf(responses[i]))
  {
    assert responses[i..][0] == responses[i];
    assert raw + [] == raw;
  }

  /** Without further responses the gathered part is everything. */
  lemma GatheredEnd<T>(responses: seq<HttpResponse<T>>, start: int, raw: seq<T>, offsets: seq<int>)
    requires Gathered(responses, |responses|, start, raw, offsets)
    ensures Paginate(responses) == Pages(raw, offsets, NoMoreResponses)
  {
    assert responses[|responses|..] == [];
    assert raw + [] == raw && offsets + [] == offsets;
  }

  /** `get_tasks` as the loop it is: request pages at `$skip` 0, 100, 200, ...;
      stop at a non-200 status or an empty page; otherwise map every record with
      the loop body `f` and append it. */
  method GetTasks<T, U, E>(f: T -> Result<U, E>, responses: seq<HttpResponse<T>>) returns (r: Result<Fetched<U>, E>)
    ensures r == FetchSpec(f, responses)
  {
    var i := 0;
    var start := 0;
    var allIssues: seq<U> := [];
    var offsets: seq<int> := [];
    ghost var raw: seq<T> := [];
    GatheredAtStart(responses);
    while true
      invariant i <= |responses|
      invariant start == BatchSize * i
      invariant Gathered(responses, i, start, raw, offsets)
      invariant MapAll(f, raw) == Success(allIssues)
      decreases |responses| - i
    {
      if i == |responses| {
        GatheredEnd(responses, start, raw, offsets);
        return Success(Fetched(allIssues, offsets, NoMoreResponses));
      }
      var response := responses[i];
      if response.status != StatusOk {
        GatheredStop(responses, i, start, raw, offsets);
        return Success(Fetched(allIssues, offsets + [start], HttpFailure(response.status)));
      }
      var issues := response.body;
      if |issues| == 0 {
        GatheredStop(responses, i, start, raw, offsets);
        return Success(Fetched(allIssues, offsets + [start], EmptyPage));
      }
      GatheredStep(responses, i, start, raw, offsets);
      var page := MapPage(f, issues);
      MapAllAppend(f, raw, issues);
      if page.Failure? {
        MapAllAppend(f, raw + issues, PaginateFrom(responses[i + 1..], start + BatchSize).records);
        return Failure(page.error);
      }
      allIssues := allIssues + page.value;
      offsets := offsets + [start];
      raw := raw + issues;
      start := start + BatchSize;
      i := i + 1;
    }
  }

  /** The returned issues are the records of every page before the stop, in order,
      each mapped; the k-th request used `$skip` 100·k. */
  lemma FetchedIsPagesBeforeStop(responses: seq<HttpResponse<RawIssue>>)
    requires FetchSpec(MapIssue, responses).Success?
    ensures var f := FetchSpec(MapIssue, responses).value;
            var n := StopIndex(responses);
            && MapAll(MapIssue, Concat(responses[..n])) == Success(f.issues)
            && (forall k :: 0 <= k < |f.offsets| ==> f.offsets[k] == BatchSize * k)
            && (n < |responses| ==> |f.offsets| == n + 1 && f.stop == StopReasonOf(responses[n]))
            && (n == |responses| ==> |f.offsets| == n && f.stop == NoMoreResponses)
  {
    PaginateCollectsPagesBeforeStop(responses, 0);
  }

  /** A failing second request returns exactly the first page's issues. */
  lemma FailureMidPaginationKeepsFirstPage(a: seq<RawIssue>, status: int, ignored: seq<RawIssue>, later: seq<HttpResponse<RawIssue>>)
    requires |a| > 0 && status != StatusOk
    requires MapAll(MapIssue, a).Success?
    ensures FetchSpec(MapIssue, [HttpResponse(StatusOk, a), HttpResponse(status, ignored)] + later)
         == Success(Fetched(MapAll(MapIssue, a).value, [0, 100], HttpFailure(status)))
  {
    FailureKeepsEarlierPages(a, status, ignored, later);
  }
}
