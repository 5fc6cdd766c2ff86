/** `searchProducts` and `binarySearchProductById` of the search utility. */
module Search {
  import opened Results
  import opened Products
  import opened Scorer

  /** The options object; an absent field is `None`. */
  datatype SearchOptions = SearchOptions(
    query: Option<string>,
    minPrice: Option<int>,   // cents
    maxPrice: Option<int>,   // cents
    category: Option<string>)

  /** A product carrying its `_score`. */
  datatype Scored = Scored(product: Product, score: real)

  /** Without a query the filtered products come back as they are; with one,
      scored products come back ranked. */
  datatype SearchResult = Unranked(products: seq<Product>) | Ranked(hits: seq<Scored>)

  /** JavaScript truthiness of an optional string: present and non-empty. */
  predicate Given(s: Option<string>) {
    s.Some? && s.value != []
  }

  /** The structural filter: category (when given) and the price bounds. */
  predicate PassesFilters(p: Product, o: SearchOptions) {
    && (Given(o.category) ==> p.category == o.category.value)
    && (o.minPrice.Some? ==> p.price >= o.minPrice.value)
    && (o.maxPrice.Some? ==> p.price <= o.maxPrice.value)
  }

  function FilterProducts(ps: seq<Product>, o: SearchOptions): (r: seq<Product>)
    ensures |r| <= |ps|
  {
    if ps == [] then []
    else (if PassesFilters(ps[0], o) then [ps[0]] else []) + FilterProducts(ps[1..], o)
  }

  /** A product is kept exactly when it is in the input and passes the filters. */
  lemma {:induction false} FilterProductsMembers(ps: seq<Product>, o: SearchOptions)
    ensures forall p :: p in FilterProducts(ps, o) <==> p in ps && PassesFilters(p, o)
    decreases |ps|
  {
    if ps != [] {
      FilterProductsMembers(ps[1..], o);
      assert ps == [ps[0]] + ps[1..];
    }
  }

  /** The filter distributes over concatenation, so it keeps the products
      it keeps in input order and with their multiplicity. */
  lemma {:induction false} FilterProductsConcat(a: seq<Product>, b: seq<Product>, o: SearchOptions)
    ensures FilterProducts(a + b, o) == FilterProducts(a, o) + FilterProducts(b, o)
    decreases |a|
  {
    if a == [] {
      assert a + b == b;
    } else {
      FilterProductsConcat(a[1..], b, o);
      assert (a + b)[0] == a[0] && (a + b)[1..] == a[1..] + b;
    }
  }

  /** A list whose every product passes the filters comes back unchanged. */
  lemma {:induction false} FilterProductsAllPass(ps: seq<Product>, o: SearchOptions)
    requires forall i :: 0 <= i < |ps| ==> PassesFilters(ps[i], o)
    ensures FilterProducts(ps, o) == ps
    decreases |ps|
  {
    if ps != [] {
      FilterProductsAllPass(ps[1..], o);
      assert ps == [ps[0]] + ps[1..];
    }
  }

  /** Weighted average: the name counts twice, description and category once. */
  function TotalScore(query: string, p: Product): (r: real)
    ensures 0.0 <= r <= 100.0
  {
    (Similarity(query, p.name) * 2.0 + Similarity(query, p.description) + Similarity(query, p.category)) / 4.0
  }

  function ScoreAll(query: string, ps: seq<Product>): (r: seq<Scored>)
    ensures |r| == |ps|
    ensures forall i :: 0 <= i < |ps| ==> r[i] == Scored(ps[i], TotalScore(query, ps[i]))
  {
    seq(|ps|, i requires 0 <= i < |ps| => Scored(ps[i], TotalScore(query, ps[i])))
  }

  function KeepPositive(hs: seq<Scored>): (r: seq<Scored>)
    ensures forall h :: h in r <==> h in hs && h.score > 0.0
  {
    if hs == [] then []
    else (if hs[0].score > 0.0 then [hs[0]] else []) + KeepPositive(hs[1..])
  }

  predicate NonIncreasing(hs: seq<Scored>) {
    forall i, j :: 0 <= i < j < |hs| ==> hs[i].score >= hs[j].score
  }

  /** Places `h` before the first element whose score is not above its own. */
  function InsertByScore(h: Scored, hs: seq<Scored>): seq<Scored> {
    if hs == [] then [h]
    else if hs[0].score <= h.score then [h] + hs
    else [hs[0]] + InsertByScore(h, hs[1..])
  }

  /** Insertion adds `h` and loses nothing. */
  lemma {:induction false} InsertByScorePermutes(h: Scored, hs: seq<Scored>)
    ensures multiset(InsertByScore(h, hs)) == multiset([h] + hs)
  {
    if hs != [] && hs[0].score > h.score {
      InsertByScorePermutes(h, hs[1..]);
      assert hs == [hs[0]] + hs[1..];
    }
  }

  /** Inserting below a bound keeps every score below it. */
  lemma {:induction false} InsertByScoreBounded(h: Scored, hs: seq<Scored>, bound: real)
    requires h.score <= bound
    requires forall k :: 0 <= k < |hs| ==> hs[k].score <= bound
    ensures forall k :: 0 <= k < |InsertByScore(h, hs)| ==> InsertByScore(h, hs)[k].score <= bound
  {
    if hs != [] && hs[0].score > h.score {
      InsertByScoreBounded(h, hs[1..], bound);
    }
  }

  lemma {:induction false} InsertByScoreSorted(h: Scored, hs: seq<Scored>)
    requires NonIncreasing(hs)
    ensures NonIncreasing(InsertByScore(h, hs))
  {
    if hs != [] && hs[0].score > h.score {
      var rest := InsertByScore(h, hs[1..]);
      InsertByScoreSorted(h, hs[1..]);
      InsertByScoreBounded(h, hs[1..], hs[0].score);
      var r := [hs[0]] + rest;
      forall i, j | 0 <= i < j < |r| ensures r[i].score >= r[j].score {
        assert r[j] == rest[j - 1];
        if i > 0 { assert r[i] == rest[i - 1]; }
      }
    }
  }

  /** `.sort((a, b) => b._score - a._score)`: a stable sort, highest score first. */
  function SortByScore(hs: seq<Scored>): (r: seq<Scored>)
    ensures multiset(r) == multiset(hs)
    ensures NonIncreasing(r)
  {
    if hs == [] then []
    else
      assert hs == [hs[0]] + hs[1..];
      var rest := SortByScore(hs[1..]);
      InsertByScoreSorted(hs[0], rest);
      InsertByScorePermutes(hs[0], rest);
      InsertByScore(hs[0], rest)
  }

  lemma SortByScoreMembers(hs: seq<Scored>)
    ensures forall h :: h in SortByScore(hs) <==> h in hs
  {
    var r := SortByScore(hs);
    forall h ensures h in r <==> h in hs {
      assert h in r <==> h in multiset(r);
      assert h in hs <==> h in multiset(hs);
    }
  }

  /** The elements with score exactly `v`, in order. */
  function WithScore(hs: seq<Scored>, v: real): seq<Scored> {
    if hs == [] then []
    else (if hs[0].score == v then [hs[0]] else []) + WithScore(hs[1..], v)
  }

  lemma {:induction false} InsertByScoreStable(h: Scored, hs: seq<Scored>, v: real)
    ensures WithScore(InsertByScore(h, hs), v) == (if h.score == v then [h] else []) + WithScore(hs, v)
  {
    if hs == [] {
      assert [h][1..] == [];
    } else if hs[0].score <= h.score {
      assert ([h] + hs)[1..] == hs;
    } else {
      var r := [hs[0]] + InsertByScore(h, hs[1..]);
      InsertByScoreStable(h, hs[1..], v);
      assert r[0] == hs[0] && r[1..] == InsertByScore(h, hs[1..]);
    }
  }

  /** Stability: among elements of equal score the sort keeps input order. */
  lemma {:induction false} SortByScoreStable(hs: seq<Scored>, v: real)
    ensures WithScore(SortByScore(hs), v) == WithScore(hs, v)
  {
    if hs != [] {
      SortByScoreStable(hs[1..], v);
      InsertByScoreStable(hs[0], SortByScore(hs[1..]), v);
    }
  }

  /** `searchProducts(products, options)` */
  function SearchProducts(ps: seq<Product>, o: SearchOptions): (r: SearchResult)
    ensures !Given(o.query) ==> r == Unranked(FilterProducts(ps, o))
    ensures Given(o.query) ==> r.Ranked? && NonIncreasing(r.hits)
    ensures Given(o.query) ==> forall h :: h in r.hits ==>
              && h.product in ps
              && PassesFilters(h.product, o)
              && h.score == TotalScore(o.query.value, h.product)
              && h.score > 0.0
  {
    var filtered := FilterProducts(ps, o);
    FilterProductsMembers(ps, o);
    if !Given(o.query) then Unranked(filtered)
    else
      var kept := KeepPositive(ScoreAll(o.query.value, filtered));
      SortByScoreMembers(kept);
      Ranked(SortByScore(kept))
  }

  /** Nothing is lost: every product that passes the filters and scores
      above zero is among the hits. */
  lemma SearchComplete(ps: seq<Product>, o: SearchOptions, p: Product)
    requires Given(o.query) && p in ps && PassesFilters(p, o)
    requires TotalScore(o.query.value, p) > 0.0
    ensures Scored(p, TotalScore(o.query.value, p)) in SearchProducts(ps, o).hits
  {
    var filtered := FilterProducts(ps, o);
    FilterProductsMembers(ps, o);
    var scored := ScoreAll(o.query.value, filtered);
    var i :| 0 <= i < |filtered| && filtered[i] == p;
    assert scored[i] == Scored(p, TotalScore(o.query.value, p));
    SortByScoreMembers(KeepPositive(scored));
  }

  /** Hits of equal score appear in the order of the input. */
  lemma SearchStable(ps: seq<Product>, o: SearchOptions, v: real)
    requires Given(o.query)
    ensures WithScore(SearchProducts(ps, o).hits, v) ==
            WithScore(KeepPositive(ScoreAll(o.query.value, FilterProducts(ps, o))), v)
  {
    SortByScoreStable(KeepPositive(ScoreAll(o.query.value, FilterProducts(ps, o))), v);
  }

  predicate SortedById(ps: seq<Product>) {
    forall i, j :: 0 <= i < j < |ps| ==> ps[i].id <= ps[j].id
  }

  /** `binarySearchProductById(sortedProducts, productId)`: whatever the
      input, a returned product has the id; on input sorted by id, nothing
      is returned only when no product has the id. */
  method BinarySearchProductById(sorted: seq<Product>, id: ProductId) returns (r: Option<Product>)
    ensures r.Some? ==> r.value in sorted && r.value.id == id
    ensures SortedById(sorted) && r.None? ==> forall p :: p in sorted ==> p.id != id
  {
    var start := 0;
    var end := |sorted| - 1;
    while start <= end
      invariant 0 <= start <= |sorted| && -1 <= end < |sorted|
      invariant SortedById(sorted) ==>
                  forall k :: 0 <= k < |sorted| && (k < start || end < k) ==> sorted[k].id != id
      decreases end - start
    {
      var mid := (start + end) / 2;
      if sorted[mid].id == id {
        return Some(sorted[mid]);
      }
      if sorted[mid].id < id {
        start := mid + 1;
      } else {
        end := mid - 1;
      }
    }
    return None;
  }
}
