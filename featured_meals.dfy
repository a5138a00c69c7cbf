/** The meal list (components/FeaturedMeals.tsx): which query feeds it, the
    loading and empty states, the prefix of cards it reveals and the load-more
    counter. Query results are inputs. */
module Featured {
  import opened Wrappers
  import opened JsText
  import opened FoodApi

  /** The reveal limit a fresh list starts with. */
  const InitialLimit: nat := 8
  /** How far one load-more click raises the limit. */
  const LoadStep: nat := 4
  /** The number of skeleton tiles shown while loading. */
  const PlaceholderCount: nat := 8

  /** What a query hook hands back: its data, if any, and its loading flag. */
  datatype QueryState = QueryState(data: Option<seq<Food>>, isLoading: bool)

  /** `searchQuery.trim()` is truthy. */
  predicate Searching(q: string) {
    Truthy(Trim(q))
  }

  /** The queries the list subscribes to for a search text: the full list
      always, the search only when it is not skipped. The search parameter is
      the text as typed, not its trimmed form. */
  function Subscriptions(q: string): (r: seq<Endpoint>)
    ensures 1 <= |r| && r[0] == GetFoods && forall e | e in r :: IsQuery(e)
    ensures SearchFoods(q) in r <==> !AllSpace(q)
    ensures forall p | SearchFoods(p) in r :: p == q
  {
    [GetFoods] + if Searching(q) then [SearchFoods(q)] else []
  }

  /** Where the list and its loading flag come from: the search hook when the
      trimmed text is non-empty, the full-list hook otherwise. */
  function Source(q: string, all: QueryState, search: QueryState): (r: QueryState)
    ensures r == all || r == search
    ensures r == (if SearchFoods(q) in Subscriptions(q) then search else all)
  {
    if Searching(q) then search else all
  }

  /** What the section renders. */
  datatype View =
    | Skeleton(tiles: seq<nat>)
    | EmptyState
    | Cards(cards: seq<Food>, loadMore: bool)

  /** `[...Array(n)].map((_, i) => i)`, the keys of the skeleton tiles. */
  function Keys(n: nat): (r: seq<nat>)
    ensures |r| == n && forall i | 0 <= i < n :: r[i] == i
  {
    if n == 0 then [] else Keys(n - 1) + [n - 1]
  }

  /** `Array.prototype.slice(0, n)` for a non-negative n. */
  function Take<T>(s: seq<T>, n: nat): (r: seq<T>)
    ensures |r| == if n < |s| then n else |s|
    ensures forall i | 0 <= i < |r| :: r[i] == s[i]
  {
    if n < |s| then s[..n] else s
  }

  /** The render decision: the skeleton while loading, the empty state for a
      missing or empty list, otherwise the first `limit` meals (all of them
      when there are fewer) in the list's order, with the load-more button
      exactly when some meal is still hidden. */
  function ViewOf(src: QueryState, limit: nat): (r: View)
    ensures src.isLoading <==> r.Skeleton?
    ensures r.Skeleton? ==> |r.tiles| == PlaceholderCount
    ensures r == EmptyState <==> !src.isLoading && (src.data.None? || src.data.value == [])
    ensures r.Cards? ==> src.data.Some? && |r.cards| == Min(limit, |src.data.value|)
    ensures r.Cards? ==> forall i | 0 <= i < |r.cards| :: r.cards[i] == src.data.value[i]
    ensures r.Cards? ==> (r.loadMore <==> |src.data.value| > limit)
  {
    if src.isLoading then Skeleton(Keys(PlaceholderCount))
    else if src.data.None? || |src.data.value| == 0 then EmptyState
    else
      var foods := src.data.value;
      Cards(Take(foods, limit), |foods| > limit)
  }

  function Min(a: int, b: int): int {
    if a < b then a else b
  }

  /** The section holds only the reveal counter. */
  class FeaturedMeals {
    var displayedItems: nat

    constructor()
      ensures displayedItems == InitialLimit
    {
      displayedItems := InitialLimit;
    }

    /** `handleLoadMore`: no upper clamp. */
    method HandleLoadMore()
      modifies this
      ensures displayedItems == old(displayedItems) + LoadStep
    {
      displayedItems := displayedItems + LoadStep;
    }

    /** What the section shows for a search text and the two hooks' states. */
    function Render(q: string, all: QueryState, search: QueryState): (r: View)
      reads this
      ensures !AllSpace(q) && search.isLoading ==> r.Skeleton?
      ensures AllSpace(q) ==> r == ViewOf(all, displayedItems)
      ensures !AllSpace(q) ==> r == ViewOf(search, displayedItems)
    {
      ViewOf(Source(q, all, search), displayedItems)
    }
  }

  /** The number of clicks after which a list of n meals is fully revealed. */
  function ClicksNeeded(n: nat): nat {
    if n <= InitialLimit then 0 else (n - InitialLimit + LoadStep - 1) / LoadStep
  }

  /** After k clicks the limit is 8 + 4k; the button is still there exactly for
      the first `ClicksNeeded(n)` of them, so it disappears once the limit
      reaches the list's length. */
  lemma LoadMoreShownUntilAllRevealed(n: nat, k: nat)
    ensures n > InitialLimit + LoadStep * k <==> k < ClicksNeeded(n)
  {
    if n > InitialLimit {
      var c := ClicksNeeded(n);
      assert LoadStep * c >= n - InitialLimit > LoadStep * (c - 1);
      if k < c {
        assert LoadStep * k <= LoadStep * (c - 1);
      } else {
        assert LoadStep * k >= LoadStep * c;
      }
    }
  }

  /** A click only appends: the cards shown before it are the first cards shown
      after it. */
  lemma {:induction false} LoadMoreKeepsShownCards(src: QueryState, limit: nat)
    requires ViewOf(src, limit).Cards?
    ensures ViewOf(src, limit + LoadStep).Cards?
    ensures ViewOf(src, limit).cards <= ViewOf(src, limit + LoadStep).cards
  {
    var before := ViewOf(src, limit).cards;
    var after := ViewOf(src, limit + LoadStep).cards;
    assert |before| <= |after|;
    assert before == after[..|before|];
  }
}
