/**
  The paginated accumulation loop (`get_all_from_api_method`, sfm/__init__.py).

  The remote listing method is replaced by a script: the reply to the k-th call
  is `script[k]`, whatever page was asked for. The loop retries forever in the
  original, so a script can run out while the loop is still going; the model
  then reports `Pending` with what was accumulated so far.
*/
module Paging {
  import opened Optional

  /** The `paging` entry of a reply body: missing, falsy (an empty object), or a page number and a page count. */
  datatype PagingField = Missing | Empty | Paging(page: int, pages: int)

  /** One call of the listing method: it raised an HTTP or API error, or it returned a body. */
  datatype Reply<T> = Raised | Body(ok: bool, items: seq<T>, paging: PagingField)

  /** How the loop ended, if it did: `calls` is the number of calls made. */
  datatype Outcome<T> =
    | Done(items: seq<T>, calls: nat)
    | KeyError(calls: nat)
    | Pending(items: seq<T>, nextPage: int)

  /** The loop waits and asks for the same page again: an HTTP or Slack API error, `ok` false, or an empty `paging`. */
  predicate Retried<T>(r: Reply<T>) {
    r.Raised? || !r.ok || r.paging.Empty?
  }

  /** An ok body without a `paging` key: the subscript raises `KeyError`, which the loop does not catch. */
  predicate Crashes<T>(r: Reply<T>) {
    r.Body? && r.ok && r.paging.Missing?
  }

  /** A valid page: its items are accumulated. */
  predicate Accepted<T>(r: Reply<T>) {
    r.Body? && r.ok && r.paging.Paging?
  }

  /** A valid page whose server-reported number is not below the reported page count: the loop stops. */
  predicate IsLast<T>(r: Reply<T>) {
    Accepted(r) && !(r.paging.page < r.paging.pages)
  }

  /** A reply after which the loop makes no further call. */
  predicate Ends<T>(r: Reply<T>) {
    Crashes(r) || IsLast(r)
  }

  /** No reply in `rs` stops the loop. */
  ghost predicate Running<T>(rs: seq<Reply<T>>) {
    forall i :: 0 <= i < |rs| ==> !Ends(rs[i])
  }

  /** The items of the valid pages among `rs`, in the order they arrived. */
  function Collected<T>(rs: seq<Reply<T>>): seq<T> {
    if rs == [] then []
    else
      var r := rs[|rs| - 1];
      Collected(rs[..|rs| - 1]) + (if Accepted(r) then r.items else [])
  }

  /** The number of valid pages among `rs` after which the loop went on to the next page. */
  function Advances<T>(rs: seq<Reply<T>>): nat {
    if rs == [] then 0
    else
      var r := rs[|rs| - 1];
      Advances(rs[..|rs| - 1]) + (if Accepted(r) && !IsLast(r) then 1 else 0)
  }

  /** The concatenation of a list of pages. */
  function Concat<T>(pages: seq<seq<T>>): seq<T> {
    if pages == [] then [] else Concat(pages[..|pages| - 1]) + pages[|pages| - 1]
  }

  /**
    What the loop does with `script`: `requested[k]` is the page number of the
    k-th call, one more than the number of pages the loop has moved past, and
    the outcome is decided by the first reply that ends the loop, if any.
  */
  ghost predicate Fetches<T>(script: seq<Reply<T>>, outcome: Outcome<T>, requested: seq<int>) {
    |requested| <= |script| &&
    (forall i :: 0 <= i < |requested| ==> requested[i] == 1 + Advances(script[..i])) &&
    match outcome
    case Done(items, calls) =>
      calls == |requested| && 0 < calls &&
      Running(script[..calls - 1]) && IsLast(script[calls - 1]) &&
      items == Collected(script[..calls])
    case KeyError(calls) =>
      calls == |requested| && 0 < calls &&
      Running(script[..calls - 1]) && Crashes(script[calls - 1])
    case Pending(items, nextPage) =>
      |requested| == |script| && Running(script) &&
      items == Collected(script) && nextPage == 1 + Advances(script)
  }

  /**
    `get_all_from_api_method`: ask for page `nextPage`; on an HTTP or Slack API
    error, a body that is not ok or an empty `paging`, ask again for the same
    page; otherwise
    append the page's items and either move to the next page, when the server
    says `page < pages`, or return the accumulated list.
  */
  method FetchAll<T>(script: seq<Reply<T>>) returns (outcome: Outcome<T>, requested: seq<int>)
    ensures Fetches(script, outcome, requested)
  {
    var fullList: seq<T> := [];
    var nextPage := 1;
    var i := 0;
    requested := [];
    while i < |script|
      invariant 0 <= i <= |script|
      invariant |requested| == i
      invariant forall j :: 0 <= j < i ==> !Ends(script[j])
      invariant fullList == Collected(script[..i])
      invariant nextPage == 1 + Advances(script[..i])
      invariant forall j :: 0 <= j < i ==> requested[j] == 1 + Advances(script[..j])
    {
      var reply := script[i];
      Step(script, i);
      requested := requested + [nextPage];
      i := i + 1;
      if reply.Raised? || !reply.ok {
        continue;
      }
      if reply.paging.Missing? {
        outcome := KeyError(i);
        return;
      }
      if reply.paging.Empty? {
        continue;
      }
      fullList := fullList + reply.items;
      var page, pageCount := reply.paging.page, reply.paging.pages;
      if page < pageCount {
        nextPage := nextPage + 1;
      } else {
        outcome := Done(fullList, i);
        return;
      }
    }
    assert script[..i] == script;
    outcome := Pending(fullList, nextPage);
  }

  /** One more reply: how `Collected`, `Advances` and `Running` extend from the prefix `script[..i]`. */
  lemma Step<T>(script: seq<Reply<T>>, i: nat)
    requires i < |script|
    ensures Collected(script[..i + 1]) == Collected(script[..i]) + (if Accepted(script[i]) then script[i].items else [])
    ensures Advances(script[..i + 1]) == Advances(script[..i]) + (if Accepted(script[i]) && !IsLast(script[i]) then 1 else 0)
    ensures Running(script[..i]) <==> forall j :: 0 <= j < i ==> !Ends(script[j])
  {
    assert script[..i + 1][..i] == script[..i];
    forall j | 0 <= j < i ensures script[..i][j] == script[j] { }
  }

  /** Replies that are retried contribute no items and do not move the page counter. */
  lemma {:induction false} RetriesLeaveNoTrace<T>(before: seq<Reply<T>>, retries: seq<Reply<T>>)
    requires forall i :: 0 <= i < |retries| ==> Retried(retries[i])
    ensures Collected(before + retries) == Collected(before)
    ensures Advances(before + retries) == Advances(before)
    ensures Running(before) ==> Running(before + retries)
  {
    if retries == [] {
      assert before + retries == before;
    } else {
      var n := |retries|;
      assert (before + retries)[..|before| + n - 1] == before + retries[..n - 1];
      RetriesLeaveNoTrace(before, retries[..n - 1]);
    }
  }

  /** Accumulation distributes over the concatenation of reply sequences: nothing is dropped or reordered. */
  lemma {:induction false} CollectedAppend<T>(a: seq<Reply<T>>, b: seq<Reply<T>>)
    ensures Collected(a + b) == Collected(a) + Collected(b)
  {
    if b == [] {
      assert a + b == a;
    } else {
      var n := |b|;
      assert (a + b)[..|a| + n - 1] == a + b[..n - 1];
      CollectedAppend(a, b[..n - 1]);
    }
  }

  /**
    A fully valid listing whose k-th page reports itself as page k of N:
    each page is asked for exactly once, in order, and the result is the
    concatenation of all pages.
  */
  lemma {:induction false} CompleteListing<T>(pages: seq<seq<T>>, script: seq<Reply<T>>)
    requires 0 < |pages| == |script|
    requires forall i :: 0 <= i < |pages| ==> script[i] == Body(true, pages[i], Paging(i + 1, |pages|))
    ensures Fetches(script, Done(Concat(pages), |pages|), seq(|pages|, i => i + 1))
  {
    var n := |pages|;
    forall k | 0 <= k < n
      ensures Advances(script[..k]) == k
    {
      PrefixOfListing(pages, script, k);
    }
    PrefixOfListing(pages, script, n - 1);
    assert script[..n] == script;
    assert pages[..n] == pages;
  }

  /** The prefix facts behind `CompleteListing`. */
  lemma {:induction false} PrefixOfListing<T>(pages: seq<seq<T>>, script: seq<Reply<T>>, k: nat)
    requires k < |pages| == |script|
    requires forall i :: 0 <= i < |pages| ==> script[i] == Body(true, pages[i], Paging(i + 1, |pages|))
    ensures Advances(script[..k]) == k
    ensures Collected(script[..k + 1]) == Concat(pages[..k + 1])
  {
    if k > 0 {
      PrefixOfListing(pages, script, k - 1);
      assert script[..k + 1][..k] == script[..k];
      assert script[..k][..k - 1] == script[..k - 1];
      assert pages[..k + 1][..k] == pages[..k];
    } else {
      assert script[..1][..0] == [];
      assert pages[..1][..0] == [];
    }
  }

  /**
    After any prefix that has not ended the loop, a page that fails K times and
    then arrives valid: all K + 1 calls ask for the same page number,
    1 + (pages moved past in the prefix), none of the failures ends the loop,
    and the page's items follow those collected before, with nothing from the
    failures in between. The next call then asks for the following page, unless
    this page is the last one.
  */
  lemma {:induction false} RetryConverges<T>(before: seq<Reply<T>>, failures: seq<Reply<T>>, page: Reply<T>)
    requires Running(before)
    requires forall i :: 0 <= i < |failures| ==> Retried(failures[i])
    requires Accepted(page)
    ensures var script := before + failures + [page];
            (forall k :: |before| <= k <= |before| + |failures| ==> Advances(script[..k]) == Advances(before)) &&
            Running(script[..|script| - 1]) &&
            Collected(script) == Collected(before) + page.items &&
            Advances(script) == Advances(before) + (if IsLast(page) then 0 else 1)
  {
    var script := before + failures + [page];
    var b, n := |before|, |failures|;
    forall k | b <= k <= b + n
      ensures Advances(script[..k]) == Advances(before)
    {
      assert script[..k] == before + failures[..k - b];
      RetriesLeaveNoTrace(before, failures[..k - b]);
    }
    RetriesLeaveNoTrace(before, failures);
    assert script[..b + n] == before + failures;
    assert script[..b + n + 1] == script;
    assert script[..|script| - 1] == before + failures;
    CollectedAppend(before + failures, [page]);
    assert [page][..0] == [];
  }

  /**
    The simplest retry case: a page that fails `retries` times and then
    arrives as the only page. The loop asks for page 1 exactly `retries + 1`
    times and returns that page's items.
  */
  lemma {:induction false} RetryConvergesOnOnlyPage<T>(failures: seq<Reply<T>>, items: seq<T>)
    requires forall i :: 0 <= i < |failures| ==> Retried(failures[i])
    ensures Fetches(failures + [Body(true, items, Paging(1, 1))], Done(items, |failures| + 1),
                    seq(|failures| + 1, _ => 1))
  {
    var last: Reply<T> := Body(true, items, Paging(1, 1));
    var script := failures + [last];
    var n := |failures|;
    forall k | 0 <= k <= n
      ensures Advances(script[..k]) == 0
    {
      assert script[..k] == [] + failures[..k];
      RetriesLeaveNoTrace([], failures[..k]);
    }
    RetriesLeaveNoTrace([], failures);
    assert [] + failures == failures;
    assert script[..n] == failures;
    assert script[..n + 1] == script;
    CollectedAppend(failures, [last]);
    assert [last][..0] == [];
  }

  /** The specification leaves no freedom: the outcome and the calls are determined by the script. */
  lemma FetchesIsDeterministic<T>(script: seq<Reply<T>>, o1: Outcome<T>, r1: seq<int>, o2: Outcome<T>, r2: seq<int>)
    requires Fetches(script, o1, r1) && Fetches(script, o2, r2)
    ensures o1 == o2 && r1 == r2
  {
  }

  /** The index of the first reply that ends the loop, or `|rs|` when none does. */
  function FirstEnd<T>(rs: seq<Reply<T>>): (k: nat)
    ensures k <= |rs|
    ensures forall i :: 0 <= i < k ==> !Ends(rs[i])
    ensures k < |rs| ==> Ends(rs[k])
  {
    if rs == [] then 0
    else if Ends(rs[0]) then 0
    else 1 + FirstEnd(rs[1..])
  }

  /** The list the loop returns on `script`, or `None` when it raises or is still running. */
  function FetchedList<T>(script: seq<Reply<T>>): Option<seq<T>> {
    var k := FirstEnd(script);
    if k < |script| && IsLast(script[k]) then Some(Collected(script[..k + 1])) else None
  }

  /** The loop returns a list exactly when `FetchedList` has one, and it is that list. */
  lemma FetchesAgreesWithFetchedList<T>(script: seq<Reply<T>>, outcome: Outcome<T>, requested: seq<int>)
    requires Fetches(script, outcome, requested)
    ensures outcome.Done? <==> FetchedList(script).Some?
    ensures outcome.Done? ==> FetchedList(script) == Some(outcome.items)
  {
    var k := FirstEnd(script);
    if !outcome.Pending? {
      var calls := outcome.calls;
      forall i | 0 <= i < calls - 1 ensures !Ends(script[i]) {
        assert script[..calls - 1][i] == script[i];
      }
      assert k == calls - 1;
    } else {
      assert script[..|script|] == script;
      assert k == |script|;
    }
  }
}
