/** The paginated listing of a repository's issues and pull requests. The
    HTTP layer is a finite sequence of responses: the answer to the request
    for page `p` (counting from 1) is `responses[p - 1]`. */
module Fetch {
  import opened Records

  const STATUS_OK: int := 200

  /** A response ends the listing when it is not a 200 or carries no items. */
  function StopsAt(r: Response): (stops: bool)
    ensures r.status != STATUS_OK ==> stops
    ensures r.items == [] ==> stops
    ensures !stops ==> r.status == STATUS_OK && |r.items| > 0
  {
    r.status != STATUS_OK || |r.items| == 0
  }

  /** The server eventually ends the listing; without such a response the
      program asks for pages forever. */
  predicate Terminates(responses: seq<Response>)
  {
    exists k | 0 <= k < |responses| :: StopsAt(responses[k])
  }

  /** The first response at or after index `from` that ends the listing. */
  function FirstStopFrom(responses: seq<Response>, from: nat): (k: nat)
    requires from <= |responses|
    requires exists k | from <= k < |responses| :: StopsAt(responses[k])
    ensures from <= k < |responses| && StopsAt(responses[k])
    ensures forall j | from <= j < k :: !StopsAt(responses[j])
    decreases |responses| - from
  {
    if StopsAt(responses[from]) then from else FirstStopFrom(responses, from + 1)
  }

  /** Index of the response that ends the listing: the first one that stops.
      The page requested then is `FirstStop(responses) + 1`. */
  function FirstStop(responses: seq<Response>): (k: nat)
    requires Terminates(responses)
    ensures k < |responses| && StopsAt(responses[k])
    ensures forall j | 0 <= j < k :: !StopsAt(responses[j])
  {
    FirstStopFrom(responses, 0)
  }

  /** The first stop is unique: any index that stops, after only
      non-stopping responses, is it. */
  lemma FirstStopUnique(responses: seq<Response>, k: nat)
    requires k < |responses| && StopsAt(responses[k])
    requires forall j | 0 <= j < k :: !StopsAt(responses[j])
    ensures Terminates(responses) && FirstStop(responses) == k
  {
  }

  /** Concatenation of a sequence of pages, in order. */
  function Flatten<T>(pages: seq<seq<T>>): (r: seq<T>)
  {
    if pages == [] then [] else Flatten(pages[..|pages| - 1]) + pages[|pages| - 1]
  }

  /** Total number of elements over a sequence of pages. */
  function TotalLength<T>(pages: seq<seq<T>>): nat
  {
    if pages == [] then 0 else TotalLength(pages[..|pages| - 1]) + |pages[|pages| - 1]|
  }

  lemma {:induction false} FlattenLength<T>(pages: seq<seq<T>>)
    ensures |Flatten(pages)| == TotalLength(pages)
    decreases |pages|
  {
    if pages != [] {
      FlattenLength(pages[..|pages| - 1]);
    }
  }

  lemma {:induction false} FlattenAppend<T>(a: seq<seq<T>>, b: seq<seq<T>>)
    ensures Flatten(a + b) == Flatten(a) + Flatten(b)
    decreases |b|
  {
    if b == [] {
      assert a + b == a;
    } else {
      var b' := b[..|b| - 1];
      assert (a + b)[..|a + b| - 1] == a + b';
      FlattenAppend(a, b');
    }
  }

  /** The item lists of the given responses, page by page. */
  function PageItems(responses: seq<Response>): (pages: seq<seq<Item>>)
    ensures |pages| == |responses|
    ensures forall i | 0 <= i < |responses| :: pages[i] == responses[i].items
  {
    seq(|responses|, i requires 0 <= i < |responses| => responses[i].items)
  }

  /** What the listing returns: the items of every page before the stopping
      one, in page order. */
  function Fetched(responses: seq<Response>): seq<Item>
    requires Terminates(responses)
  {
    Flatten(PageItems(responses[..FirstStop(responses)]))
  }

  /** The loop of `fetch_issues`. It returns the gathered items, the page
      numbers it requested in order, and the status it reported when the
      listing ended on an error. */
  method FetchIssues(responses: seq<Response>) returns (issues: seq<Item>, requested: seq<nat>, failure: Option<int>)
    requires Terminates(responses)
    ensures issues == Fetched(responses)
    ensures |requested| == FirstStop(responses) + 1
    ensures forall i | 0 <= i < |requested| :: requested[i] == i + 1
    ensures failure == (var last := responses[FirstStop(responses)];
                        if last.status != STATUS_OK then Some(last.status) else None)
  {
    ghost var stop := FirstStop(responses);
    issues, requested, failure := [], [], None;
    var page: nat := 1;
    while true
      invariant 1 <= page <= stop + 1
      invariant |requested| == page - 1
      invariant forall i | 0 <= i < |requested| :: requested[i] == i + 1
      invariant issues == Flatten(PageItems(responses[..page - 1]))
      invariant failure == None
      decreases stop + 1 - page
    {
      var response := responses[page - 1];
      requested := requested + [page];
      if response.status != STATUS_OK {
        failure := Some(response.status);
        break;
      }
      var pageIssues := response.items;
      if |pageIssues| == 0 {
        break;
      }
      assert responses[..page] == responses[..page - 1] + [response];
      FlattenAppend(PageItems(responses[..page - 1]), [pageIssues]);
      assert PageItems(responses[..page]) == PageItems(responses[..page - 1]) + [pageIssues];
      issues := issues + pageIssues;
      page := page + 1;
    }
  }

  /** Items gathered before a failure are kept: every page before the
      stopping one appears whole, at its place in page order. */
  lemma FetchedKeepsEveryEarlierPage(responses: seq<Response>, j: nat)
    requires Terminates(responses) && j < FirstStop(responses)
    ensures Fetched(responses) ==
              Flatten(PageItems(responses[..j])) + responses[j].items
              + Flatten(PageItems(responses[j + 1..FirstStop(responses)]))
  {
    var k := FirstStop(responses);
    var before, after := PageItems(responses[..j]), PageItems(responses[j + 1..k]);
    assert PageItems(responses[..k]) == before + [responses[j].items] + after;
    FlattenAppend(before + [responses[j].items], after);
    FlattenAppend(before, [responses[j].items]);
  }

  /** Nothing from the stopping page or later is included: responses after
      the stopping one do not change the result. */
  lemma FetchedIgnoresLaterPages(responses: seq<Response>, other: seq<Response>)
    requires Terminates(responses)
    requires FirstStop(responses) < |other|
    requires other[..FirstStop(responses) + 1] == responses[..FirstStop(responses) + 1]
    ensures Terminates(other) && FirstStop(other) == FirstStop(responses)
    ensures Fetched(other) == Fetched(responses)
  {
    var k := FirstStop(responses);
    assert other[k] == responses[k];
    forall j | 0 <= j < k ensures !StopsAt(other[j]) {
      assert other[j] == responses[j];
    }
    FirstStopUnique(other, k);
    assert other[..k] == responses[..k];
  }

  /** The number of items returned is the sum of the sizes of the pages
      before the stopping one. */
  lemma FetchedLength(responses: seq<Response>)
    requires Terminates(responses)
    ensures |Fetched(responses)| == TotalLength(PageItems(responses[..FirstStop(responses)]))
  {
    FlattenLength(PageItems(responses[..FirstStop(responses)]));
  }

  /** Two full pages of 25 followed by an empty page: 50 items after 3 requests. */
  lemma ThreePagesScenario(a: seq<Item>, b: seq<Item>)
    requires |a| == 25 && |b| == 25
    ensures var responses := [Response(200, a), Response(200, b), Response(200, [])];
            Terminates(responses) && FirstStop(responses) + 1 == 3
            && Fetched(responses) == a + b && |Fetched(responses)| == 50
  {
    var responses := [Response(200, a), Response(200, b), Response(200, [])];
    FirstStopUnique(responses, 2);
    assert responses[..2] == [responses[0]] + [responses[1]];
    assert PageItems(responses[..2]) == [a, b];
    assert [a, b][..1] == [a] && [a][..0] == [];
    assert Flatten([a]) == a;
    assert Flatten([a, b]) == a + b;
  }

  /** An error page keeps what came before it: a full page followed by a 500
      returns the first page's items. */
  lemma ErrorAfterOnePageScenario(a: seq<Item>, rest: seq<Response>)
    requires |a| > 0
    ensures var responses := [Response(200, a), Response(500, [])] + rest;
            Terminates(responses) && FirstStop(responses) == 1 && Fetched(responses) == a
  {
    var responses := [Response(200, a), Response(500, [])] + rest;
    FirstStopUnique(responses, 1);
    assert responses[..1] == [Response(200, a)];
    assert PageItems(responses[..1]) == [a];
    assert [a][..0] == [];
    assert Flatten([a]) == a;
  }
}
