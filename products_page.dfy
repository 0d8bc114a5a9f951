/**
 * The products page: the product list loaded from the API, the category and text filter
 * over it, the choice between the loading message, the empty result and the grid, and
 * what each product card shows.
 */
module ProductsPage {
  import opened Options
  import opened Seqs
  import opened Text
  import opened Catalog
  import opened Search

  const LoadingText := "Chargement des produits..."
  const NothingFoundText := "Aucun produit trouvé"

  /** What the results area shows. */
  datatype View = LoadingMessage | NothingFound | ProductGrid(shown: seq<Product>)

  /** The loading message while loading, the empty-result message for no match, else the grid. */
  function ViewOf(loading: bool, filtered: seq<Product>): View {
    if loading then LoadingMessage
    else if |filtered| == 0 then NothingFound
    else ProductGrid(filtered)
  }

  /** The grid appears exactly when loading is over and something matches, and shows the matches. */
  lemma GridShowsMatches(loading: bool, filtered: seq<Product>)
    ensures ViewOf(loading, filtered).ProductGrid? <==> !loading && filtered != []
    ensures ViewOf(loading, filtered).ProductGrid? ==> ViewOf(loading, filtered).shown == filtered
    ensures ViewOf(loading, filtered).NothingFound? <==> !loading && filtered == []
  {
  }

  /** The result count line: singular for one product, plural above one. */
  function CountText(n: nat): (text: string) {
    var plural := if n > 1 then "s" else "";
    NatToString(n) + " produit" + plural + " trouvé" + plural
  }

  /** One result reads "1 produit trouvé"; more read "N produits trouvés". */
  lemma CountTextForms(n: nat)
    ensures n == 1 ==> CountText(n) == "1 produit trouvé"
    ensures n > 1 ==> CountText(n) == NatToString(n) + " produits trouvés"
  {
  }

  /** The count line opens with the decimal digits of the count. */
  lemma CountTextStartsWithCount(n: nat)
    ensures var d := NatToString(n);
      |d| <= |CountText(n)| && CountText(n)[..|d|] == d && ValueIn(d, 10) == n
  {
    NatToStringValue(n);
  }

  /** The hover image: the second image, when there is more than one. */
  function SecondImage(p: Product): Option<string> {
    if |p.images| > 1 then Some(p.images[1]) else None
  }

  /** The image-count badge `+k`, when there is more than one image. */
  function MoreImagesBadge(p: Product): Option<string> {
    if |p.images| > 1 then Some("+" + NatToString(|p.images| - 1)) else None
  }

  /**
   * The second image and the badge appear together, exactly when there is more than one
   * image; the badge counts the images beyond the first.
   */
  lemma ExtraImages(p: Product)
    ensures SecondImage(p).Some? <==> |p.images| > 1
    ensures MoreImagesBadge(p).Some? <==> SecondImage(p).Some?
    ensures SecondImage(p).Some? ==> SecondImage(p).value == p.images[1]
    ensures MoreImagesBadge(p).Some? ==>
      var b := MoreImagesBadge(p).value;
      b[0] == '+' && ValueIn(b[1..], 10) + 1 == |p.images|
  {
    if |p.images| > 1 {
      var b := "+" + NatToString(|p.images| - 1);
      assert b[1..] == NatToString(|p.images| - 1);
      NatToStringValue(|p.images| - 1);
    }
  }

  /**
   * The red price badge. `oldPrice && …` renders the number itself when the old price is
   * 0, so that case shows a bare "0"; otherwise the badge is `-r%` with the discount `r`.
   */
  function DiscountBadge(p: Product): Option<string> {
    match p.oldPrice
    case None => None
    case Some(o) => if o == 0 then Some("0") else Some("-" + IntToString(DiscountPercentage(p.price, p.oldPrice)) + "%")
  }

  /** A product reduced from a positive old price shows `-r%` with `r` between 0 and 100. */
  lemma DiscountBadgeReduced(p: Product)
    requires p.oldPrice.Some? && p.oldPrice.value > 0 && p.price <= p.oldPrice.value
    ensures var r := DiscountPercentage(p.price, p.oldPrice);
      0 <= r <= 100 && DiscountBadge(p) == Some("-" + NatToString(r) + "%")
  {
    DiscountInRange(p.price, p.oldPrice.value);
  }

  /** The state of the page component. */
  class ProductsPage {
    var products: seq<Product>
    var loading: bool
    var category: string
    var query: string
    var selected: Option<Product>
    var dialogOpen: bool

    /** The first render: nothing loaded yet, loading, no filter. */
    constructor ()
      ensures products == [] && loading && category == "all" && query == ""
      ensures selected == None && !dialogOpen
    {
      products := [];
      loading := true;
      category := "all";
      query := "";
      selected := None;
      dialogOpen := false;
    }

    /** The products the filter lets through. */
    function Filtered(): seq<Product>
      reads this
    {
      FilterProducts(products, category, query)
    }

    /** What the results area shows now. */
    function Shown(): View
      reads this
    {
      ViewOf(loading, Filtered())
    }

    /**
     * The end of `loadProducts`: the fetched list replaces the products, a failed fetch
     * (`None`) keeps them; either way loading is over.
     */
    method FinishLoading(result: Option<seq<Product>>)
      modifies this
      ensures products == (if result.Some? then result.value else old(products))
      ensures !loading
      ensures category == old(category) && query == old(query)
      ensures selected == old(selected) && dialogOpen == old(dialogOpen)
    {
      if result.Some? {
        products := result.value;
      }
      loading := false;
    }

    /** Typing in the search box. */
    method SetQuery(q: string)
      modifies this
      ensures query == q
      ensures products == old(products) && loading == old(loading) && category == old(category)
      ensures selected == old(selected) && dialogOpen == old(dialogOpen)
    {
      query := q;
    }

    /** Clicking a category button. */
    method SelectCategory(c: string)
      modifies this
      ensures category == c
      ensures products == old(products) && loading == old(loading) && query == old(query)
      ensures selected == old(selected) && dialogOpen == old(dialogOpen)
    {
      category := c;
    }

    /** "Réinitialiser les filtres": afterwards every loaded product is shown again. */
    method ResetFilters()
      modifies this
      ensures query == "" && category == "all"
      ensures products == old(products) && loading == old(loading)
      ensures selected == old(selected) && dialogOpen == old(dialogOpen)
      ensures Filtered() == products && Shown() == ViewOf(loading, products)
    {
      query := "";
      category := "all";
      FilterShowsAll(products);
    }

    /** "Commander": opens the order dialog for the product. */
    method Order(p: Product)
      modifies this
      ensures selected == Some(p) && dialogOpen
      ensures products == old(products) && loading == old(loading)
      ensures category == old(category) && query == old(query)
    {
      selected := Some(p);
      dialogOpen := true;
    }
  }

  /** A failed first load leaves the list empty, so the page says nothing was found. */
  lemma FailedLoadShowsNothingFound(category: string, query: string)
    ensures ViewOf(false, FilterProducts([], category, query)) == NothingFound
  {
    SelectKeepsLength([], p => Matches(p, category, query));
  }
}
