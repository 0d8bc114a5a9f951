/**
 * The catalogue search of the home page and of the products page: a category choice
 * (`all` or a category literal) and a case-insensitive text query.
 */
module Search {
  import opened Seqs
  import opened Text
  import opened Catalog

  /** The product's category is the chosen one, or `all` is chosen. */
  predicate MatchesCategory(p: Product, category: string) {
    category == "all" || p.category.Value() == category
  }

  /** The lower-cased query occurs in the lower-cased name or description. */
  predicate MatchesQuery(p: Product, query: string) {
    Contains(Lower(p.name), Lower(query)) || Contains(Lower(p.description), Lower(query))
  }

  /** The filter callback of `filteredProducts`. */
  predicate Matches(p: Product, category: string, query: string) {
    MatchesCategory(p, category) && MatchesQuery(p, query)
  }

  /** `filteredProducts`: the matching products, in catalogue order. */
  function FilterProducts(ps: seq<Product>, category: string, query: string): seq<Product> {
    Select(ps, p => Matches(p, category, query))
  }

  /** The product is flagged as a new arrival. */
  predicate IsNew(p: Product) {
    p.isNew
  }

  /** `newProducts`: the filtered products marked as new. */
  function NewProducts(ps: seq<Product>, category: string, query: string): seq<Product> {
    Select(FilterProducts(ps, category, query), IsNew)
  }

  /** The shown products keep their catalogue order. */
  lemma FilterSubsequence(ps: seq<Product>, category: string, query: string)
    ensures IsSubsequence(FilterProducts(ps, category, query), ps)
  {
    SelectSubsequence(ps, p => Matches(p, category, query));
  }

  /** A product is shown exactly when it is listed and matches. */
  lemma FilterMembership(ps: seq<Product>, category: string, query: string, p: Product)
    ensures p in FilterProducts(ps, category, query) <==> p in ps && Matches(p, category, query)
  {
    SelectSound(ps, p => Matches(p, category, query));
    SelectComplete(ps, p => Matches(p, category, query));
  }

  /** With category `all` and an empty query every product is shown. */
  lemma FilterShowsAll(ps: seq<Product>)
    ensures FilterProducts(ps, "all", "") == ps
  {
    forall p: Product
      ensures Matches(p, "all", "")
    {
      ContainsEmpty(Lower(p.name));
    }
    SelectAll(ps, p => Matches(p, "all", ""));
  }

  /** Filtering the filtered list again with the same choice changes nothing. */
  lemma FilterIdempotent(ps: seq<Product>, category: string, query: string)
    ensures FilterProducts(FilterProducts(ps, category, query), category, query) == FilterProducts(ps, category, query)
  {
    SelectIdempotent(ps, p => Matches(p, category, query));
  }

  /** Queries that lower-case alike select alike. */
  lemma FilterQueryCase(ps: seq<Product>, category: string, q1: string, q2: string)
    requires Lower(q1) == Lower(q2)
    ensures FilterProducts(ps, category, q1) == FilterProducts(ps, category, q2)
  {
    SelectCongruent(ps, p => Matches(p, category, q1), p => Matches(p, category, q2));
  }

  /** The search ignores case: a query and its lower-cased form select the same products. */
  lemma FilterCaseInsensitive(ps: seq<Product>, category: string, query: string)
    ensures FilterProducts(ps, category, query) == FilterProducts(ps, category, Lower(query))
  {
    LowerIdempotent(query);
    FilterQueryCase(ps, category, query, Lower(query));
  }

  /** The new arrivals are the products that match and are new, in catalogue order. */
  lemma NewProductsAreNewMatches(ps: seq<Product>, category: string, query: string)
    ensures NewProducts(ps, category, query) == Select(ps, p => Matches(p, category, query) && p.isNew)
    ensures IsSubsequence(NewProducts(ps, category, query), ps)
  {
    SelectSubsequence(ps, p => Matches(p, category, query) && p.isNew);
    SelectSelect(ps, p => Matches(p, category, query), IsNew, p => Matches(p, category, query) && p.isNew);
  }

  /** Filtering nine products by `isNew` when exactly the first, second, fourth and last three are new. */
  lemma NewAmongNine(d: seq<Product>)
    requires |d| == 9
    requires d[0].isNew && d[1].isNew && !d[2].isNew && d[3].isNew && !d[4].isNew && !d[5].isNew
    requires d[6].isNew && d[7].isNew && d[8].isNew
    ensures Select(d, IsNew) == [d[0], d[1], d[3], d[6], d[7], d[8]]
  {
    assert Select(d[8..], IsNew) == [d[8]];
    assert Select(d[7..], IsNew) == [d[7], d[8]];
    assert Select(d[6..], IsNew) == [d[6], d[7], d[8]];
    assert Select(d[5..], IsNew) == [d[6], d[7], d[8]];
    assert Select(d[4..], IsNew) == [d[6], d[7], d[8]];
    assert Select(d[3..], IsNew) == [d[3], d[6], d[7], d[8]];
    assert Select(d[2..], IsNew) == [d[3], d[6], d[7], d[8]];
    assert Select(d[1..], IsNew) == [d[1], d[3], d[6], d[7], d[8]];
  }

  /** Unfiltered new arrivals of nine products numbered 1 to 9 with the seed's flags. */
  lemma NewArrivalsOfNine(d: seq<Product>)
    requires |d| == 9 && forall i :: 0 <= i < 9 ==> d[i].id == i + 1
    requires d[0].isNew && d[1].isNew && !d[2].isNew && d[3].isNew && !d[4].isNew && !d[5].isNew
    requires d[6].isNew && d[7].isNew && d[8].isNew
    ensures Ids(NewProducts(d, "all", "")) == [1, 2, 4, 7, 8, 9]
  {
    calc {
      NewProducts(d, "all", "");
      Select(FilterProducts(d, "all", ""), IsNew);
      { FilterShowsAll(d); }
      Select(d, IsNew);
      { NewAmongNine(d); }
      [d[0], d[1], d[3], d[6], d[7], d[8]];
    }
  }

  /** On the seed, with no filter, the new arrivals are products 1, 2, 4, 7, 8 and 9. */
  lemma SeedNewArrivals()
    ensures Ids(NewProducts(DefaultProducts, "all", "")) == [1, 2, 4, 7, 8, 9]
  {
    SeedIds();
    NewArrivalsOfNine(DefaultProducts);
  }
}
