/** domain/common/query and domain/common/pagination: queries, page requests and pages. */
module Querying {
  import opened Common

  /** One equality predicate of a Query. */
  datatype Predicate = Equals(field: string, value: Value)

  /** A query is the conjunction of its predicates, in the order they were added. */
  type Query = seq<Predicate>

  function NewQuery(): (q: Query)
    ensures |q| == 0
  {
    []
  }

  /** Query.equals: adds one more predicate and keeps the earlier ones. */
  function AddEquals(q: Query, field: string, value: Value): (r: Query)
    ensures |r| == |q| + 1 && r[..|q|] == q && r[|q|] == Equals(field, value)
  {
    q + [Equals(field, value)]
  }

  /** A page number (from 0) and a page size. */
  datatype PageRequest = PageRequest(page: nat, size: nat)

  /** PageRequest.singleElementPage(): the first page, of one element. */
  function SingleElementPage(): (p: PageRequest)
    ensures p.page == 0 && p.size == 1
  {
    PageRequest(0, 1)
  }

  /** The elements of one page and the total number of matches. */
  datatype Page<T> = Page(pageRequest: PageRequest, elements: seq<T>, totalElements: nat)

  predicate IsEmptyPage<T>(p: Page<T>) {
    |p.elements| == 0
  }

  function Min(a: nat, b: nat): nat {
    if a <= b then a else b
  }

  /** Index of the first element of the requested page, clamped to the number of matches. */
  function PageStart(n: nat, req: PageRequest): nat {
    Min(req.page * req.size, n)
  }

  /** One past the last element of the requested page, clamped to the number of matches. */
  function PageEnd(n: nat, req: PageRequest): (e: nat)
    ensures PageStart(n, req) <= e <= n
  {
    Min(req.page * req.size + req.size, n)
  }

  /** The page of `all` that `req` asks for. */
  function PageOf<T>(all: seq<T>, req: PageRequest): (p: Page<T>)
    ensures p.pageRequest == req && p.totalElements == |all|
    ensures |p.elements| <= req.size && |p.elements| <= p.totalElements
    ensures p.elements == all[PageStart(|all|, req)..PageEnd(|all|, req)]
  {
    Page(req, all[PageStart(|all|, req)..PageEnd(|all|, req)], |all|)
  }

  /** The first `count` pages of size `size`, one after the other. */
  function PagesUpTo<T>(all: seq<T>, size: nat, count: nat): seq<T>
  {
    if count == 0 then [] else PagesUpTo(all, size, count - 1) + PageOf(all, PageRequest(count - 1, size)).elements
  }

  /** Reading the pages in turn yields the matches in order, without gaps or repeats. */
  lemma {:induction false} PagesCoverMatches<T>(all: seq<T>, size: nat, count: nat)
    ensures PagesUpTo(all, size, count) == all[..Min(count * size, |all|)]
  {
    if count > 0 {
      PagesCoverMatches(all, size, count - 1);
      assert (count - 1) * size + size == count * size;
      var lo := Min((count - 1) * size, |all|);
      var hi := Min(count * size, |all|);
      assert PageOf(all, PageRequest(count - 1, size)).elements == all[lo..hi];
      assert all[..lo] + all[lo..hi] == all[..hi];
    }
  }

  /** With a positive page size, page p holds something exactly when p * size < total. */
  lemma PageNonEmptyIff<T>(all: seq<T>, req: PageRequest)
    requires req.size > 0
    ensures |PageOf(all, req).elements| > 0 <==> req.page * req.size < |all|
  {
  }

  /** The last non-empty page holds the remainder of the matches, between 1 and size of them. */
  lemma LastPageHoldsRemainder<T>(all: seq<T>, size: nat)
    requires size > 0 && |all| > 0
    ensures var last := (|all| - 1) / size;
            |PageOf(all, PageRequest(last, size)).elements| == |all| - last * size
            && 0 < |all| - last * size <= size
            && |PageOf(all, PageRequest(last + 1, size)).elements| == 0
  {
    var n := |all|;
    var last := (n - 1) / size;
    assert last * size + (n - 1) % size == n - 1;
    assert last * size + size == (last + 1) * size;
  }
}
