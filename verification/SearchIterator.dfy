/** `SearchIteratorV2`: pages cut from a server cursor through a leftover cache, an external filter
    and a limit. */
module SearchIterator {
  import opened Prelude

  datatype Hit = Hit(id: int, distance: int)

  /** The request parameters the iterator changes or that the probe overrides. */
  datatype Params = Params(
    limit: int, batchSize: int, lastBound: Option<int>, searchId: Option<string>, guaranteeTs: int)

  /** An answer; `clientTs` is the fallback timestamp the client would take at that moment. */
  datatype Response = Response(hits: seq<Hit>, token: Option<string>, lastBound: int, sessionTs: int, clientTs: int) {
    predicate HasToken() { token.Some? && token.value != "" }
  }

  datatype Error = ParamError | ServerVersionIncompatible

  const MAX_BATCH_SIZE := 16384
  const UNLIMITED := -1

  /** The connection: any server whatever, its answers depending on the request and on time. */
  class Connection {
    const respond: (nat, Params) -> Response
    var calls: nat

    constructor (respond: (nat, Params) -> Response)
      ensures this.respond == respond && calls == 0
    {
      this.respond, calls := respond, 0;
    }

    method Search(p: Params) returns (r: Response)
      modifies this
      ensures r == respond(old(calls), p) && calls == old(calls) + 1
    {
      r := respond(calls, p);
      calls := calls + 1;
    }
  }

  /** What `_next` writes back into the parameters. */
  function Patch(p: Params, r: Response): Params
  {
    p.(lastBound := Some(r.lastBound),
       searchId := if p.searchId.None? then r.token else p.searchId,
       guaranteeTs := if p.guaranteeTs > 0 then p.guaranteeTs else if r.sessionTs > 0 then r.sessionTs else r.clientTs)
  }

  // ---- The stream an iterator reads, as a function of the server alone.

  /** Call 0 is the probe, so fetch `n` is call `n + 1`. */
  datatype Session = Session(respond: (nat, Params) -> Response, start: Params, filter: Option<seq<Hit> -> seq<Hit>>) {

    function ParamsAt(n: nat): Params
    {
      if n == 0 then start
      else
        var p := ParamsAt(n - 1);
        var r := respond(n, p);
        if r.HasToken() then Patch(p, r) else p
    }

    function AnswerAt(n: nat): Response { respond(n + 1, ParamsAt(n)) }

    function Filtered(hits: seq<Hit>): seq<Hit>
    {
      if filter.Some? then filter.value(hits) else hits
    }

    /** What fetch `n` contributes: nothing if it fails or is empty, else the filtered batch. */
    function Contribution(n: nat): seq<Hit>
    {
      var r := AnswerAt(n);
      if !r.HasToken() || r.hits == [] then [] else Filtered(r.hits)
    }

    function Output(n: nat): seq<Hit>
    {
      if n == 0 then [] else Output(n - 1) + Contribution(n - 1)
    }

    /** From fetch `end` on the server has nothing more; before that it always has something. */
    ghost predicate Ends(end: nat)
    {
      forall n: nat :: AnswerAt(n).HasToken() ==> (AnswerAt(n).hits == [] <==> n >= end)
    }

    /** Batches hold at most `b` hits and the filter never adds any. */
    ghost predicate Contained(b: nat)
    {
      forall n: nat :: |Contribution(n)| <= b
    }

    lemma {:induction false} OutputGrows(i: nat, j: nat)
      requires i <= j
      ensures |Output(i)| <= |Output(j)| && Output(j)[..|Output(i)|] == Output(i)
      decreases j - i
    {
      if i < j {
        OutputGrows(i, j - 1);
      }
    }

    /** Nothing is read after the end. */
    lemma {:induction false} OutputEnds(end: nat, n: nat)
      requires Ends(end) && n >= end
      ensures Output(n) == Output(end)
    {
      if n > end {
        OutputEnds(end, n - 1);
        assert AnswerAt(n - 1).HasToken() ==> AnswerAt(n - 1).hits == [];
      }
    }

    /** One more fetch. */
    lemma OutputNext(end: nat, n: nat)
      requires Ends(end)
      ensures var a := AnswerAt(n);
              if !a.HasToken() then Output(n + 1) == Output(n)
              else if a.hits == [] then Output(n + 1) == Output(n) == Output(end)
              else n < end && Output(n + 1) == Output(n) + Filtered(a.hits)
      ensures Contribution(n) == if !AnswerAt(n).HasToken() || AnswerAt(n).hits == [] then [] else Filtered(AnswerAt(n).hits)
    {
      if AnswerAt(n).HasToken() && AnswerAt(n).hits == [] {
        OutputEnds(end, n);
      }
    }

    /** What one fetch adds to the stream: its hits, through the filter if there is one, and nothing for a
        refused or empty answer. */
    lemma OutputAdds(n: nat)
      ensures var a := AnswerAt(n);
              Output(n + 1) == Output(n) +
                if a.token.None? || a.token.value == "" || a.hits == [] then []
                else if filter.Some? then filter.value(a.hits) else a.hits
    {
    }

    /** Once set, the token and a positive guarantee timestamp never change; batch sizes never do. */
    lemma {:induction false} ParamsFixed(i: nat, j: nat)
      requires i <= j
      ensures ParamsAt(i).searchId.Some? ==> ParamsAt(j).searchId == ParamsAt(i).searchId
      ensures ParamsAt(i).guaranteeTs > 0 ==> ParamsAt(j).guaranteeTs == ParamsAt(i).guaranteeTs
      ensures ParamsAt(j).limit == start.limit && ParamsAt(j).batchSize == start.batchSize
      decreases j
    {
      if j > 0 {
        ParamsFixed(if i < j then i else j - 1, j - 1);
      }
    }

    /** The server gave fetch `i` a token. */
    ghost predicate Answered(i: nat) { AnswerAt(i).token.Some? && AnswerAt(i).token.value != "" }

    /** The timestamp an answer offers: the session's if positive, else the client's. */
    function Offered(i: nat): int
    {
      if AnswerAt(i).sessionTs > 0 then AnswerAt(i).sessionTs else AnswerAt(i).clientTs
    }

    /** Until a fetch is answered the same request is repeated. */
    lemma {:induction false} RepeatsRequest(n: nat)
      requires forall i: nat | i < n :: !Answered(i)
      ensures ParamsAt(n) == start
    {
      if n > 0 {
        RepeatsRequest(n - 1);
        var i: nat := n - 1;
        assert !Answered(i);
      }
    }

    /** Every request carries the bound of the last answered fetch: the cursor moves on with every answer. */
    lemma {:induction false} CarriesLastBound(n: nat, last: nat)
      requires last < n && Answered(last) && forall i: nat | last < i < n :: !Answered(i)
      ensures ParamsAt(n).lastBound == Some(AnswerAt(last).lastBound)
      decreases n
    {
      if last < n - 1 {
        var i: nat := n - 1;
        assert !Answered(i);
        CarriesLastBound(n - 1, last);
      }
    }

    /** And the token of the first answered fetch, unless the caller gave one. */
    lemma {:induction false} CarriesFirstToken(n: nat, first: nat)
      requires first < n && Answered(first) && forall i: nat | i < first :: !Answered(i)
      ensures ParamsAt(n).searchId == if start.searchId.Some? then start.searchId else AnswerAt(first).token
      decreases n
    {
      if first < n - 1 {
        CarriesFirstToken(n - 1, first);
      } else {
        RepeatsRequest(first);
      }
    }

    lemma {:induction false} NoTimestampYet(n: nat)
      requires start.guaranteeTs <= 0 && forall i: nat | i < n && Answered(i) :: Offered(i) <= 0
      ensures ParamsAt(n).guaranteeTs <= 0
    {
      if n > 0 {
        NoTimestampYet(n - 1);
        var i: nat := n - 1;
        assert Answered(i) ==> Offered(i) <= 0;
      }
    }

    /** And the first positive timestamp that an answered fetch offers, unless the caller gave one. */
    lemma {:induction false} CarriesFirstTimestamp(n: nat, first: nat)
      requires start.guaranteeTs <= 0 && first < n && Answered(first) && Offered(first) > 0
      requires forall i: nat | i < first && Answered(i) :: Offered(i) <= 0
      ensures ParamsAt(n).guaranteeTs == Offered(first)
      decreases n
    {
      if first < n - 1 {
        CarriesFirstTimestamp(n - 1, first);
      } else {
        NoTimestampYet(first);
      }
    }

    /** The request after any fetches, the first and the last answered ones being `first` and `last`. */
    lemma RequestIs(n: nat, first: nat, last: nat)
      requires first <= last < n && Answered(first) && Answered(last)
      requires forall i: nat | i < first || last < i < n :: !Answered(i)
      ensures var p := ParamsAt(n);
              && p.lastBound == Some(AnswerAt(last).lastBound)
              && (p.searchId == if start.searchId.Some? then start.searchId else AnswerAt(first).token)
              && (start.guaranteeTs > 0 ==> p.guaranteeTs == start.guaranteeTs)
              && (start.guaranteeTs <= 0 && Offered(first) > 0 ==> p.guaranteeTs == Offered(first))
              && p.limit == start.limit && p.batchSize == start.batchSize
    {
      CarriesLastBound(n, last);
      CarriesFirstToken(n, first);
      ParamsFixed(0, n);
      if start.guaranteeTs <= 0 && Offered(first) > 0 {
        CarriesFirstTimestamp(n, first);
      }
    }
  }

  // ---- Page boundaries.

  /** The number of hits returned after `k` pages of size `b`, of `total` hits, under a limit. */
  function Reach(k: nat, b: nat, limit: Option<int>, total: nat): nat
  {
    var all := Min(k * b, total);
    if limit.None? then all else Max(0, Min(all, limit.value))
  }

  /** One more page: `target` more hits, or as many as there are. */
  lemma ReachNext(k: nat, b: nat, limit: Option<int>, total: nat)
    requires limit.Some? ==> Reach(k, b, limit, total) < limit.value
    ensures var r := Reach(k, b, limit, total);
            var target := if limit.None? then b else Min(b, limit.value - r);
            && r <= total
            && Reach(k + 1, b, limit, total) == Min(r + target, total)
  {
    assert (k + 1) * b == k * b + b;
  }

  /** What the limit lets through of `total` hits. */
  function Allowed(limit: Option<int>, total: nat): nat
  {
    if limit.None? then total else Max(0, Min(total, limit.value))
  }

  lemma ReachBounds(k: nat, b: nat, limit: Option<int>, total: nat)
    ensures Reach(0, b, limit, total) == 0
    ensures Reach(k, b, limit, total) <= Reach(k + 1, b, limit, total) <= Allowed(limit, total) <= total
    ensures b > 0 && k >= total ==> Reach(k, b, limit, total) == Allowed(limit, total)
    ensures b == 0 ==> Reach(k, b, limit, total) == 0
  {
    assert (k + 1) * b == k * b + b;
    if b > 0 {
      assert k * b >= k;
    }
  }

  /** Everything allowed is returned after some number of pages exactly when the batch size is
      positive, or nothing is allowed. Zero passes the parameter check and returns nothing, ever. */
  lemma AllReturnedIff(b: nat, limit: Option<int>, total: nat)
    ensures (exists k: nat :: Reach(k, b, limit, total) == Allowed(limit, total)) <==> b > 0 || Allowed(limit, total) == 0
  {
    if b > 0 {
      ReachBounds(total, b, limit, total);
    } else {
      forall k: nat ensures Reach(k, b, limit, total) == 0 {
        ReachBounds(k, b, limit, total);
      }
      assert Allowed(limit, total) == 0 ==> Reach(0, b, limit, total) == Allowed(limit, total);
    }
  }

  /** The first `k` pages of the closed form, one after the other. */
  function PagesUpTo(k: nat, b: nat, limit: Option<int>, total: seq<Hit>): seq<Hit>
  {
    if k == 0 then []
    else
      ReachBounds(k - 1, b, limit, |total|);
      PagesUpTo(k - 1, b, limit, total)
      + total[Reach(k - 1, b, limit, |total|)..Reach(k, b, limit, |total|)]
  }

  /** Nothing is lost, duplicated or reordered: the pages make up a prefix of the stream. */
  lemma {:induction false} PagesPartition(k: nat, b: nat, limit: Option<int>, total: seq<Hit>)
    ensures Reach(k, b, limit, |total|) <= |total|
    ensures PagesUpTo(k, b, limit, total) == total[..Reach(k, b, limit, |total|)]
  {
    ReachBounds(k, b, limit, |total|);
    if k > 0 {
      PagesPartition(k - 1, b, limit, total);
      ReachBounds(k - 1, b, limit, |total|);
      Joined(total, Reach(k - 1, b, limit, |total|), Reach(k, b, limit, |total|));
    }
  }

  lemma Joined(total: seq<Hit>, i: nat, j: nat)
    requires i <= j <= |total|
    ensures total[..i] + total[i..j] == total[..j]
  {
  }

  lemma Regroup(a: seq<Hit>, b: seq<Hit>, i: nat)
    requires i <= |b|
    ensures (a + b[..i]) + b[i..] == a + b
  {
  }

  /** Cutting `target` hits off the cache gives the next page of the closed form. */
  lemma CutIsPage(returned: seq<Hit>, cache: seq<Hit>, total: seq<Hit>, target: nat, k: nat, b: nat, limit: Option<int>)
    requires |returned| == Reach(k, b, limit, |total|) && (limit.Some? ==> |returned| < limit.value)
    requires target == if limit.None? then b else Min(b, limit.value - |returned|)
    requires |returned + cache| <= |total| && total[..|returned + cache|] == returned + cache
    requires |cache| >= target || returned + cache == total
    ensures var cut, to := Min(|cache|, target), Reach(k + 1, b, limit, |total|);
            && to == |returned| + cut && to <= |total| && cache[..cut] == total[|returned|..to]
            && (returned + cache[..cut]) + cache[cut..] == returned + cache
  {
    ReachNext(k, b, limit, |total|);
    var cut := Min(|cache|, target);
    var all, to := returned + cache, |returned| + cut;
    assert cache[..cut] == all[|returned|..to] == total[..|all|][|returned|..to];
  }

  /** The part of what was read that an unfiltered iterator has returned. */
  function UpTo(read: seq<Hit>, limit: Option<int>): seq<Hit>
  {
    if limit.None? then read else read[..Max(0, Min(|read|, limit.value))]
  }

  lemma UpToNext(read: seq<Hit>, hits: seq<Hit>, limit: Option<int>)
    requires limit.Some? ==> |read| < limit.value
    ensures UpTo(read + hits, limit) == UpTo(read, limit) + UpTo(hits, if limit.None? then None else Some(limit.value - |read|))
  {
  }

  class SearchIteratorV2 {
    const conn: Connection
    const batchSize: nat
    const filter: Option<seq<Hit> -> seq<Hit>>
    var leftResCnt: Option<int>
    var params: Params
    var cache: seq<Hit>

    ghost const session: Session
    ghost const limit: Option<int>
    ghost const end: nat
    ghost var returned: seq<Hit>
    ghost var pages: nat

    ghost function Fetches(): nat
      reads conn
      requires conn.calls > 0
    {
      conn.calls - 1
    }

    /** All hits the server will ever give, filtered. */
    ghost function Total(): seq<Hit>
    {
      session.Output(end)
    }

    /** The parameters are those the server's answers so far have produced. The refill loop, and so a filtered
        iterator, needs a server that comes to an end; an unfiltered one takes any server. */
    ghost predicate Synced()
      reads this, conn
    {
      && conn.calls > 0
      && conn.respond == session.respond && filter == session.filter
      && (filter.Some? ==> session.Ends(end))
      && params == session.ParamsAt(Fetches())
    }

    ghost predicate Valid()
      reads this, conn
    {
      && Synced()
      && (leftResCnt.None? <==> limit.None?)
      && (if filter.Some? then ValidFiltered() else ValidPlain())
    }

    /** With a filter: what was returned and what is kept are what was read, in order. */
    ghost predicate ValidFiltered()
      reads this, conn
      requires conn.calls > 0
    {
      && returned + cache == session.Output(Fetches())
      && |returned| == Reach(pages, batchSize, limit, |Total()|)
      && (limit.Some? ==> leftResCnt == Some(limit.value - |returned|))
      && (session.Contained(batchSize) && batchSize > 0 && (leftResCnt.None? || leftResCnt.value > 0) ==> |cache| < batchSize)
    }

    /** Without: the pages are the server's batches, cut at the limit; the counter may go below zero. */
    ghost predicate ValidPlain()
      reads this, conn
      requires conn.calls > 0
    {
      var read := session.Output(Fetches());
      && cache == []
      && returned == UpTo(read, limit)
      && (limit.Some? ==> leftResCnt == Some(limit.value - |read|))
    }

    constructor Start(conn: Connection, batchSize: nat, limit: int, start: Params,
                      filter: Option<seq<Hit> -> seq<Hit>>, ghost end: nat)
      requires conn.calls == 1
      requires filter.Some? ==> Session(conn.respond, start, filter).Ends(end)
      ensures Valid() && this.conn == conn && session == Session(conn.respond, start, filter)
      ensures this.batchSize == batchSize && this.end == end && params == start
      ensures this.limit == if limit == UNLIMITED then None else Some(limit)
      ensures returned == [] && pages == 0
    {
      this.conn, this.batchSize, this.filter := conn, batchSize, filter;
      params, cache := start, [];
      leftResCnt := if limit != UNLIMITED then Some(limit) else None;
      session, this.end := Session(conn.respond, start, filter), end;
      this.limit := if limit == UNLIMITED then None else Some(limit);
      returned, pages := [], 0;
      new;
      ReachBounds(0, batchSize, this.limit, |Total()|);
    }

    /** The total returned never exceeds the limit, even where the counter has gone below zero; and a
        filtered iterator whose limit is not used up keeps less than one batch, if batches fit and the
        filter adds nothing. */
    lemma LimitRespected()
      requires Valid()
      ensures limit.Some? ==> |returned| <= Max(0, limit.value)
      ensures (filter.Some? && session.Contained(batchSize) && batchSize > 0 && (leftResCnt.None? || leftResCnt.value > 0))
              ==> |cache| < batchSize
      ensures limit.Some? && leftResCnt.value < 0 ==> filter.None? || limit.value < 0
    {
      if filter.Some? {
        ReachBounds(pages, batchSize, limit, |Total()|);
      }
    }

    /** `_next`: one request, whose answer is patched into the parameters. */
    method Fetch() returns (r: Result<seq<Hit>, Error>)
      requires Synced()
      modifies this`params, conn
      ensures Synced() && conn.calls == old(conn.calls) + 1
      ensures var a := session.AnswerAt(old(Fetches()));
              r == if a.HasToken() then Ok(a.hits) else Err(ServerVersionIncompatible)
      ensures r.Err? <==> session.AnswerAt(old(Fetches())).token.None? || session.AnswerAt(old(Fetches())).token.value == ""
      ensures r.Err? ==> params == old(params)
      ensures r.Ok? ==> var a := session.AnswerAt(old(Fetches()));
                && params.lastBound == Some(a.lastBound)
                && (params.searchId == if old(params.searchId).Some? then old(params.searchId) else a.token)
                && (old(params.guaranteeTs) > 0 ==> params.guaranteeTs == old(params.guaranteeTs))
                && (old(params.guaranteeTs) <= 0 ==> params.guaranteeTs == if a.sessionTs > 0 then a.sessionTs else a.clientTs)
                && params.limit == old(params.limit) && params.batchSize == old(params.batchSize)
    {
      var res := conn.Search(params);
      if !res.HasToken() {
        return Err(ServerVersionIncompatible);
      }
      params := params.(lastBound := Some(res.lastBound));
      if params.searchId.None? {
        params := params.(searchId := res.token);
      }
      if params.guaranteeTs <= 0 {
        if res.sessionTs > 0 {
          params := params.(guaranteeTs := res.sessionTs);
        } else {
          params := params.(guaranteeTs := res.clientTs);
        }
      }
      r := Ok(res.hits);
    }

    /** `_wrap_return_res`: cuts at the limit, but counts the uncut length. */
    method WrapReturnRes(res: seq<Hit>) returns (page: seq<Hit>)
      requires leftResCnt.Some? ==> leftResCnt.value > 0
      modifies this`leftResCnt
      ensures leftResCnt == if old(leftResCnt).None? then None else Some(old(leftResCnt).value - |res|)
      ensures page == UpTo(res, old(leftResCnt))
    {
      if |res| == 0 {
        return [];
      }
      if leftResCnt.None? {
        return res;
      }
      var curLen := |res|;
      page := if curLen > leftResCnt.value then res[..leftResCnt.value] else res;
      leftResCnt := Some(leftResCnt.value - curLen);
    }

    /** The end of `next` without a filter. */
    method TakeBatch(hits: seq<Hit>, ghost read: seq<Hit>) returns (page: seq<Hit>)
      requires Synced() && filter.None? && cache == [] && returned == UpTo(read, limit)
      requires leftResCnt == if limit.None? then None else Some(limit.value - |read|)
      requires leftResCnt.Some? ==> leftResCnt.value > 0
      requires session.Output(Fetches()) == read + hits
      modifies this`leftResCnt, this`returned
      ensures Valid() && returned == old(returned) + page
    {
      UpToNext(read, hits, limit);
      page := WrapReturnRes(hits);
      returned := returned + page;
    }

    /** `next` without a filter. */
    method NextPlain() returns (r: Result<seq<Hit>, Error>)
      requires Valid() && filter.None? && (leftResCnt.Some? ==> leftResCnt.value > 0)
      modifies this, conn
      ensures Valid() && pages == old(pages)
      ensures r.Err? ==> returned == old(returned) && !session.AnswerAt(old(Fetches())).HasToken()
      ensures r.Ok? ==> returned == old(returned) + r.value && conn.calls == old(conn.calls) + 1
    {
      ghost var n := Fetches();
      session.OutputAdds(n);
      r := Fetch();
      if r.Ok? {
        var page := TakeBatch(r.value, session.Output(n));
        r := Ok(page);
      }
    }

    /** One turn of the refill loop; `Ok(false)` when the server has no more. */
    method FetchMore() returns (r: Result<bool, Error>)
      requires Synced() && filter.Some? && returned + cache == session.Output(Fetches())
      modifies this`params, this`cache, conn
      ensures Synced() && conn.calls == old(conn.calls) + 1 && returned + cache == session.Output(Fetches())
      ensures r.Ok? && r.value ==> old(Fetches()) < end
      ensures r.Ok? && !r.value ==> session.Output(Fetches()) == Total()
      ensures !(r.Ok? && r.value) ==> cache == old(cache)
      ensures session.Contained(batchSize) ==> |cache| <= |old(cache)| + batchSize
    {
      ghost var n := Fetches();
      session.OutputNext(end, n);
      var hits := Fetch();
      if hits.Err? {
        return Err(hits.error);
      }
      r := Ok(|hits.value| > 0);
      if r.value {
        var kept := filter.value(hits.value);
        assert returned + (cache + kept) == (returned + cache) + kept;
        cache := cache + kept;
      }
    }

    /** The refill loop of `next` with a filter. */
    method Refill(target: nat) returns (err: Option<Error>)
      requires Synced() && filter.Some? && returned + cache == session.Output(Fetches())
      modifies this`params, this`cache, conn
      ensures Synced() && returned + cache == session.Output(Fetches())
      ensures |returned + cache| <= |Total()| && Total()[..|returned + cache|] == returned + cache
      ensures err.None? ==> |cache| >= target || returned + cache == Total()
      ensures session.Contained(batchSize) ==> |cache| <= Max(|old(cache)|, target - 1) + if err.None? then batchSize else 0
    {
      var more := true;
      while more
        invariant Synced() && returned + cache == session.Output(Fetches())
        invariant more ==> |cache| <= Max(|old(cache)|, target - 1)
        invariant session.Contained(batchSize) ==> |cache| <= Max(|old(cache)|, target - 1) + batchSize
        invariant !more ==> |cache| >= target || session.Output(Fetches()) == Total()
        decreases more, end - Fetches()
      {
        var r := FetchMore();
        if r.Err? {
          PrefixOfTotal();
          return Some(r.error);
        }
        more := r.value && |cache| < target;
      }
      PrefixOfTotal();
      err := None;
    }

    /** The end of `next` with a filter: cut the page off the cache. */
    method TakePage(target: nat, ghost total: seq<Hit>) returns (page: seq<Hit>)
      requires leftResCnt == if limit.None? then None else Some(limit.value - |returned|)
      requires leftResCnt.Some? ==> leftResCnt.value > 0
      requires target == if leftResCnt.None? then batchSize else Min(batchSize, leftResCnt.value)
      requires |returned| == Reach(pages, batchSize, limit, |total|)
      requires |returned + cache| <= |total| && total[..|returned + cache|] == returned + cache
      requires |cache| >= target || returned + cache == total
      modifies this`cache, this`leftResCnt, this`returned, this`pages
      ensures returned == old(returned) + page && returned + cache == old(returned + cache)
      ensures pages == old(pages) + 1 && |returned| == Reach(pages, batchSize, limit, |total|) <= |total|
      ensures page == total[|old(returned)|..|returned|]
      ensures leftResCnt == if limit.None? then None else Some(limit.value - |returned|)
      ensures |page| == Min(|old(cache)|, target)
    {
      CutIsPage(returned, cache, total, target, pages, batchSize, limit);
      var cut := Min(|cache|, target);
      var ret := cache[..cut];
      cache := cache[cut..];
      page := WrapReturnRes(ret);
      assert page == ret;
      Regroup(returned, old(cache), cut);
      returned := returned + page;
      pages := pages + 1;
    }

    /** `next` with a filter: page number `pages` of the closed form. */
    method NextFiltered() returns (r: Result<seq<Hit>, Error>)
      requires Valid() && filter.Some? && (leftResCnt.Some? ==> leftResCnt.value > 0)
      modifies this, conn
      ensures Valid()
      ensures r.Err? ==> returned == old(returned) && pages == old(pages)
      ensures r.Ok? ==> returned == old(returned) + r.value && pages == old(pages) + 1
      ensures r.Ok? ==> |returned| <= |Total()| && r.value == Total()[|old(returned)|..|returned|]
    {
      var target := if leftResCnt.None? then batchSize else Min(batchSize, leftResCnt.value);
      var err := Refill(target);
      if err.Some? {
        return Err(err.value);
      }
      var page := TakePage(target, Total());
      r := Ok(page);
    }

    lemma PrefixOfTotal()
      requires conn.calls > 0 && session.Ends(end)
      ensures var read := session.Output(Fetches()); |read| <= |Total()| && Total()[..|read|] == read
    {
      if Fetches() <= end {
        session.OutputGrows(Fetches(), end);
      } else {
        session.OutputEnds(end, Fetches());
      }
    }

    /** `next`. `None` means that the limit is used up; an empty page that the server has no more. */
    method Next() returns (r: Result<Option<seq<Hit>>, Error>)
      requires Valid()
      modifies this, conn
      ensures Valid()
      ensures r.Ok? && r.value.None? <==> old(leftResCnt).Some? && old(leftResCnt).value <= 0
      ensures r.Err? || r.value.None? ==> returned == old(returned) && pages == old(pages)
      ensures r.Ok? && r.value.Some? ==> returned == old(returned) + r.value.value
      ensures r.Ok? && r.value.Some? && filter.Some? ==>
                && pages == old(pages) + 1
                && |old(returned)| == Reach(old(pages), batchSize, limit, |Total()|)
                && |returned| == Reach(pages, batchSize, limit, |Total()|) <= |Total()|
                && r.value.value == Total()[|old(returned)|..|returned|]
    {
      if leftResCnt.Some? && leftResCnt.value <= 0 {
        return Ok(None);
      }
      var page;
      if filter.None? {
        page := NextPlain();
      } else {
        page := NextFiltered();
      }
      r := if page.Ok? then Ok(Some(page.value)) else Err(page.error);
    }
  }

  /** The constructor of the source: parameter checks, then a probe on a copy of the parameters. */
  method Create(conn: Connection, batchSize: int, limit: int, start: Params, offset: int, numQueries: nat,
                filter: Option<seq<Hit> -> seq<Hit>>, ghost end: nat)
    returns (r: Result<SearchIteratorV2, Error>)
    requires conn.calls == 0 && start.limit == start.batchSize == batchSize
    requires filter.Some? ==> Session(conn.respond, start, filter).Ends(end)
    modifies conn
    ensures var bad := batchSize < 0 || batchSize > MAX_BATCH_SIZE || offset != 0 || numQueries != 1;
            && (bad <==> r == Err(ParamError))
            && (r == Err(ServerVersionIncompatible) <==>
                !bad && !conn.respond(0, start.(limit := 1, batchSize := 1)).HasToken())
    ensures r.Ok? ==>
              && fresh(r.value) && r.value.Valid() && r.value.params == start
              && r.value.session == Session(conn.respond, start, filter) && r.value.batchSize == batchSize
              && r.value.limit == (if limit == UNLIMITED then None else Some(limit))
              && r.value.returned == [] && r.value.pages == 0
  {
    if batchSize < 0 || batchSize > MAX_BATCH_SIZE || offset != 0 || numQueries != 1 {
      return Err(ParamError);
    }
    var dummy := start.(limit := 1, batchSize := 1);
    var info := conn.Search(dummy);
    if !info.HasToken() {
      return Err(ServerVersionIncompatible);
    }
    var it := new SearchIteratorV2.Start(conn, batchSize, limit, start, filter, end);
    r := Ok(it);
  }
}
