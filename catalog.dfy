/**
 * The catalog routes of server.js: the `/api/games` listing, which slices an
 * in-memory list of games into pages, and the `/api/game/:id` detail route,
 * which picks the download link according to whether the caller is signed in.
 */
module Catalog {
  import opened Wrappers
  import opened Accounts

  const DefaultPage := 1
  const DefaultLimit := 24

  /**
   * `parseInt(q) || d`: a query value that is absent or not a number (`NaN`)
   * or that parses to 0 is falsy and gives `d`; any other parsed integer,
   * negative ones included, is kept.
   */
  function IntParamOr(q: Option<int>, d: int): (r: int)
    ensures q.None? || q.value == 0 ==> r == d
    ensures q.Some? && q.value != 0 ==> r == q.value
  {
    if q.Some? && q.value != 0 then q.value else d
  }

  /** How `Array.prototype.slice` resolves one bound: a negative index counts back from the end, and both ends are clamped to the array. */
  function SliceIndex(x: int, len: nat): (r: nat)
    ensures r <= len
    ensures 0 <= x ==> r == Min(x, len)
    ensures x < 0 ==> r == Max(len + x, 0)
  {
    if x < 0 then Max(len + x, 0) else Min(x, len)
  }

  /** `s.slice(start, end)` with JavaScript's index rules; for non-negative bounds it is the ordinary window, clamped to `s`. */
  function JsSlice<T>(s: seq<T>, start: int, end: int): (r: seq<T>)
    ensures |r| <= |s|
    ensures 0 <= start <= end ==> r == s[Min(start, |s|)..Min(end, |s|)]
    ensures 0 <= end <= start ==> r == []
    ensures start < end < 0 ==> r == s[Max(|s| + start, 0)..Max(|s| + end, 0)]
    ensures end <= start < 0 ==> r == []
    ensures 0 <= start && end < 0 ==> r == s[Min(start, |s|)..Max(Min(start, |s|), |s| + end)]
    ensures start < 0 <= end ==> r == s[Max(|s| + start, 0)..Max(Max(|s| + start, 0), Min(end, |s|))]
  {
    var lo, hi := SliceIndex(start, |s|), SliceIndex(end, |s|);
    if lo < hi then s[lo..hi] else []
  }

  /** `Math.ceil(n / d)` for a non-zero integer divisor of either sign. */
  function CeilDiv(n: nat, d: int): (r: int)
    requires d != 0
    ensures d > 0 ==> (r - 1) * d < n <= r * d && r >= 0
    ensures d < 0 ==> r * d <= n < (r - 1) * d
  {
    if d > 0 then
      var r := (n + d - 1) / d;
      assert (r - 1) * d == r * d - d;
      r
    else
      var q := n / -d;
      assert -q * d == q * -d;
      assert (-q - 1) * d == q * -d - d;
      -q
  }

  /** The body of a `/api/games` reply. */
  datatype Listing<T> = Listing(page: int, totalPages: int, totalGames: nat, games: seq<T>)

  /**
   * `GET /api/games?page&limit` over the cached list `all`. The reply echoes
   * the page number (1 when the query gives none or 0), counts every cached
   * game, gives the ceiling of the count over the limit (24 by default) as
   * the number of pages, and never returns more games than are cached.
   */
  function ListGames<T>(all: seq<T>, pageQuery: Option<int>, limitQuery: Option<int>): (r: Listing<T>)
    ensures var limit := IntParamOr(limitQuery, DefaultLimit);
            && limit != 0
            && (pageQuery.None? || pageQuery.value == 0 ==> r.page == 1)
            && (pageQuery.Some? && pageQuery.value != 0 ==> r.page == pageQuery.value)
            && r.totalGames == |all|
            && (limit > 0 ==> (r.totalPages - 1) * limit < |all| <= r.totalPages * limit)
            && (limit < 0 ==> r.totalPages * limit <= |all| < (r.totalPages - 1) * limit)
            && |r.games| <= |all|
  {
    var page := IntParamOr(pageQuery, DefaultPage);
    var limit := IntParamOr(limitQuery, DefaultLimit);
    Listing(page, CeilDiv(|all|, limit), |all|, PageSlice(all, page, limit))
  }

  /**
   * The games of page `page`: `all.slice((page - 1) * limit, page * limit)`.
   * For a page and a limit of at least 1 this is the window of the list
   * between those two bounds, clamped to its length, so at most `limit` games.
   */
  function PageSlice<T>(all: seq<T>, page: int, limit: int): (r: seq<T>)
    ensures |r| <= |all|
    ensures page >= 1 && limit >= 1 ==>
              && 0 <= (page - 1) * limit <= page * limit
              && r == all[Min((page - 1) * limit, |all|)..Min(page * limit, |all|)]
              && |r| <= limit
  {
    assert page >= 1 && limit >= 1 ==> 0 <= (page - 1) * limit <= page * limit by {
      if page >= 1 && limit >= 1 {
        MulMono(0, page - 1, limit);
        assert page * limit == (page - 1) * limit + limit;
      }
    }
    JsSlice(all, (page - 1) * limit, page * limit)
  }

  /** Asking for page `k` with limit `limit`, both non-zero, returns `PageSlice(all, k, limit)`. */
  lemma ListedPage<T>(all: seq<T>, k: int, limit: int)
    requires k != 0 && limit != 0
    ensures ListGames(all, Some(k), Some(limit)).games == PageSlice(all, k, limit)
  {
  }

  /** A negative page number is passed to `slice` as is, so the window is counted back from the end of the list. */
  lemma NegativePageCountsFromEnd()
    ensures ListGames([10, 20, 30, 40, 50], Some(-1), Some(2)).games == [20, 30]
  {
    var all := [10, 20, 30, 40, 50];
    assert ListGames(all, Some(-1), Some(2)).games == JsSlice(all, -4, -2);
    assert SliceIndex(-4, 5) == 1 && SliceIndex(-2, 5) == 3;
  }

  /** With a negative limit, page 1 is `slice(0, limit)`: every game but the last `-limit` ones. */
  lemma NegativeLimitFirstPage<T>(all: seq<T>, limit: int)
    requires limit <= -1
    ensures ListGames(all, Some(1), Some(limit)).games == all[..Max(|all| + limit, 0)]
  {
    ListedPage(all, 1, limit);
  }

  /** A negative page is the window of the list counted back from its end by `(page-1)*limit` and `page*limit`. */
  lemma NegativePage<T>(all: seq<T>, k: int, limit: int)
    requires k <= -1 && limit >= 1
    ensures ListGames(all, Some(k), Some(limit)).games == all[Max(|all| + (k - 1) * limit, 0)..Max(|all| + k * limit, 0)]
  {
    ListedPage(all, k, limit);
    MulMono(k, -1, limit);
    assert (k - 1) * limit == k * limit - limit;
  }

  /**
   * For a page number and a limit that are both at least 1, the page holds at
   * most `limit` games, it is empty exactly when the page number is past the
   * page count, and otherwise it is the window `[(page-1)*limit, page*limit)`
   * of the list.
   */
  lemma PageContents<T>(all: seq<T>, pageQuery: Option<int>, limitQuery: Option<int>)
    ensures var r, limit := ListGames(all, pageQuery, limitQuery), IntParamOr(limitQuery, DefaultLimit);
            r.page >= 1 && limit >= 1 ==>
              && |r.games| <= limit
              && (r.page > r.totalPages <==> r.games == [])
              && (r.page <= r.totalPages ==> 0 <= (r.page - 1) * limit < |all| && r.games == all[(r.page - 1) * limit..Min(r.page * limit, |all|)])
  {
    var r, limit := ListGames(all, pageQuery, limitQuery), IntParamOr(limitQuery, DefaultLimit);
    if r.page >= 1 && limit >= 1 {
      PageWindow(|all|, r.page, limit, r.totalPages);
    }
  }

  lemma MulMono(a: int, b: int, c: int)
    requires a <= b && c >= 0
    ensures a * c <= b * c
  {
    assert b * c - a * c == (b - a) * c;
  }

  /** Page `page` of `limit` items starts inside a list of `n` items exactly when `page` is at most the number of pages. */
  lemma PageWindow(n: nat, page: int, limit: int, totalPages: int)
    requires page >= 1 && limit >= 1
    requires (totalPages - 1) * limit < n <= totalPages * limit
    ensures 0 <= (page - 1) * limit && page * limit == (page - 1) * limit + limit
    ensures page <= totalPages <==> (page - 1) * limit < n
  {
    MulMono(0, page - 1, limit);
    assert page * limit == (page - 1) * limit + limit;
    if page <= totalPages {
      MulMono(page - 1, totalPages - 1, limit);
    } else {
      MulMono(totalPages, page - 1, limit);
    }
  }

  /** The games the route returns for pages 1 to `k`, one after the other. */
  function PagesUpTo<T>(all: seq<T>, limit: int, k: nat): seq<T>
    requires limit >= 1
  {
    if k == 0 then [] else PagesUpTo(all, limit, k - 1) + ListGames(all, Some(k), Some(limit)).games
  }

  /** `k * limit`, written as repeated addition so that the proofs about pages stay linear. */
  function Offset(k: nat, limit: nat): nat
  {
    if k == 0 then 0 else Offset(k - 1, limit) + limit
  }

  lemma {:induction false} OffsetIsProduct(k: nat, limit: nat)
    ensures Offset(k, limit) == k * limit
  {
    if k > 0 {
      OffsetIsProduct(k - 1, limit);
      assert k * limit == (k - 1) * limit + limit;
    }
  }

  /** Page `k` of a positive limit is the window of the list between the clamped bounds `(k-1)*limit` and `k*limit`. */
  lemma PageK<T>(all: seq<T>, limit: nat, k: nat)
    requires limit >= 1 && k >= 1
    ensures PageSlice(all, k, limit) == all[Min(Offset(k - 1, limit), |all|)..Min(Offset(k, limit), |all|)]
  {
    OffsetIsProduct(k - 1, limit);
    OffsetIsProduct(k, limit);
  }

  /** Pages 1 to `k` together are the first `k * limit` games (or all of them). */
  lemma {:induction false} PagesUpToIsPrefix<T>(all: seq<T>, limit: nat, k: nat)
    requires limit >= 1
    ensures PagesUpTo(all, limit, k) == all[..Min(Offset(k, limit), |all|)]
  {
    if k > 0 {
      PagesUpToIsPrefix(all, limit, k - 1);
      ListedPage(all, k, limit);
      PageK(all, limit, k);
      var lo, hi := Min(Offset(k - 1, limit), |all|), Min(Offset(k, limit), |all|);
      assert all[..hi] == all[..lo] + all[lo..hi];
    }
  }

  /** For any positive limit, concatenating pages 1 to `totalPages` gives back the whole list, in order, each game once. */
  lemma PagesCoverList<T>(all: seq<T>, limit: int)
    requires limit >= 1
    ensures var total := ListGames(all, Some(1), Some(limit)).totalPages;
            total >= 0 && PagesUpTo(all, limit, total) == all
  {
    var total := CeilDiv(|all|, limit);
    assert ListGames(all, Some(1), Some(limit)).totalPages == total;
    PagesUpToIsPrefix(all, limit, total);
    OffsetIsProduct(total, limit);
  }

  /** A JSON value as the upstream catalog sends it. */
  datatype Json =
    | JNull
    | JBool(b: bool)
    | JNumber(n: real)
    | JString(s: string)
    | JArray(items: seq<Json>)
    | JObject(fields: map<string, Json>)

  type Fields = map<string, Json>

  /**
   * What the detail route does to the game object before sending it. A signed-in
   * caller has `download_url` replaced by `premium_url`; when the game has no
   * `premium_url` that assignment stores `undefined`, which the JSON reply
   * omits, so the key is then absent. `premium_url` is always removed. Every
   * other key keeps its value.
   */
  function Resolved(game: Fields, authenticated: bool): (out: Fields)
    ensures "premium_url" !in out
    ensures authenticated ==>
              ("download_url" in out <==> "premium_url" in game)
              && ("premium_url" in game ==> out["download_url"] == game["premium_url"])
    ensures !authenticated ==>
              ("download_url" in out <==> "download_url" in game)
              && ("download_url" in game ==> out["download_url"] == game["download_url"])
    ensures forall k :: k != "premium_url" && k != "download_url" ==>
              (k in out <==> k in game) && (k in game ==> out[k] == game[k])
  {
    var promoted :=
      if !authenticated then game
      else if "premium_url" in game then game["download_url" := game["premium_url"]]
      else game - {"download_url"};
    promoted - {"premium_url"}
  }

  /** A game object that the route changes in place (`game.download_url = …`, `delete game.premium_url`). */
  class GameObject {
    var fields: Fields

    constructor (data: Fields)
      ensures fields == data
    {
      fields := data;
    }

    method ResolveDownload(authenticated: bool)
      modifies this
      ensures fields == Resolved(old(fields), authenticated)
    {
      if authenticated {
        if "premium_url" in fields {
          fields := fields["download_url" := fields["premium_url"]];
        } else {
          fields := fields - {"download_url"};
        }
      }
      fields := fields - {"premium_url"};
    }
  }

  /** The outcome of the `/gameinfo/get` call to the upstream catalog. */
  datatype Upstream = Fetched(data: Fields) | UpstreamFailed(message: string)

  datatype DetailReply = Detail200(game: Fields) | Detail500(message: string, details: string)

  const DetailErrorMessage := "Erro ao buscar detalhes do jogo"

  /** `GET /api/game/:id`: the upstream game with its download link resolved for `caller`, or a 500 carrying the upstream error. */
  method GameDetail(upstream: Upstream, caller: Option<User>) returns (reply: DetailReply)
    ensures upstream.UpstreamFailed? ==> reply == Detail500(DetailErrorMessage, upstream.message)
    ensures upstream.Fetched? ==> reply.Detail200? && reply.game == Resolved(upstream.data, caller.Some?)
    ensures reply.Detail200? ==> "premium_url" !in reply.game
  {
    match upstream
    case UpstreamFailed(message) =>
      reply := Detail500(DetailErrorMessage, message);
    case Fetched(data) =>
      var game := new GameObject(data);
      game.ResolveDownload(caller.Some?);
      reply := Detail200(game.fields);
  }
}
