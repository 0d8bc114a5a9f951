/**
 * The catalogue rules of `src/lib/products.ts`: the product record, the discount
 * badge, the price label, the seed catalogue and the list of category filters.
 */
module Catalog {
  import opened Options
  import opened Seqs
  import opened Text

  /** The five product categories, written in the store as French literals. */
  datatype Category = Tissu | Chemise | Pantalon | Costume | Accessoire {
    /** The literal stored in `Product.category`. */
    function Value(): (v: string)
      ensures v != "all"
    {
      match this
      case Tissu => "tissu"
      case Chemise => "chemise"
      case Pantalon => "pantalon"
      case Costume => "costume"
      case Accessoire => "accessoire"
    }
  }

  /** Reads a stored category literal back. */
  function ParseCategory(v: string): Option<Category> {
    if v == "tissu" then Some(Tissu)
    else if v == "chemise" then Some(Chemise)
    else if v == "pantalon" then Some(Pantalon)
    else if v == "costume" then Some(Costume)
    else if v == "accessoire" then Some(Accessoire)
    else None
  }

  /** Every category literal reads back as its category, so distinct categories have distinct literals. */
  lemma ParseCategoryValue(c: Category)
    ensures ParseCategory(c.Value()) == Some(c)
  {
  }

  /** Every literal that reads as a category is that category's literal. */
  lemma ValueParseCategory(v: string)
    ensures ParseCategory(v).Some? ==> ParseCategory(v).value.Value() == v
  {
  }

  /**
   * A catalogue entry. Prices are whole francs; an absent `oldPrice` is `None`.
   * `id` is an `int` because the id of an update request comes from the client.
   */
  datatype Product = Product(
    id: int,
    name: string,
    category: Category,
    price: nat,
    oldPrice: Option<nat>,
    images: seq<string>,
    isNew: bool,
    publishedDate: string,
    description: string)

  /**
   * `getDiscountPercentage(price, oldPrice)`: 0 without a (non-zero) old price, else
   * `Math.round(100 * (oldPrice - price) / oldPrice)`, rounding halves up, with no clamping.
   */
  function DiscountPercentage(price: nat, oldPrice: Option<nat>): (r: int)
    ensures (oldPrice.None? || oldPrice.value == 0) ==> r == 0
    ensures oldPrice.Some? && oldPrice.value > 0 ==>
      RoundsHalfUp(r, 100 * (oldPrice.value - price), oldPrice.value)
  {
    match oldPrice
    case None => 0
    case Some(before) =>
      if before == 0 then 0
      else
        FloorDivBounds(200 * (before - price) + before, 2 * before);
        (200 * (before - price) + before) / (2 * before)
  }

  /** `r` is `n / d` rounded to the nearest integer, halves rounded up: `r - 1/2 <= n/d < r + 1/2`. */
  predicate RoundsHalfUp(r: int, n: int, d: int)
    requires d > 0
  {
    d * (2 * r - 1) <= 2 * n < d * (2 * r + 1)
  }

  lemma FloorDivBounds(n: int, d: int)
    requires d > 0
    ensures d * (n / d) <= n < d * (n / d) + d
  {
  }

  /** For a positive factor, a product has the sign of the other factor. */
  lemma SignOfProduct(a: int, b: int)
    requires a > 0
    ensures a * b < 0 <==> b < 0
    ensures a * b > 0 <==> b > 0
  {
  }

  /** Only one integer rounds `n / d` half up. */
  lemma RoundsHalfUpUnique(r: int, q: int, n: int, d: int)
    requires d > 0 && RoundsHalfUp(r, n, d) && RoundsHalfUp(q, n, d)
    ensures r == q
  {
    assert d * (2 * (r - q) - 2) < 0;
    SignOfProduct(d, 2 * (r - q) - 2);
    assert d * (2 * (q - r) - 2) < 0;
    SignOfProduct(d, 2 * (q - r) - 2);
  }

  /** A price at or below the old price gives a discount between 0 and 100. */
  lemma DiscountInRange(price: nat, before: nat)
    requires before > 0 && price <= before
    ensures 0 <= DiscountPercentage(price, Some(before)) <= 100
  {
    var r := DiscountPercentage(price, Some(before));
    SignOfProduct(before, 2 * r + 1);
    assert before * (2 * r - 201) == before * (2 * r - 1) - 200 * before;
    SignOfProduct(before, 2 * r - 201);
  }

  /** The endpoints: no reduction is 0 %, a free product is 100 %. */
  lemma DiscountEndpoints(before: nat)
    requires before > 0
    ensures DiscountPercentage(before, Some(before)) == 0
    ensures DiscountPercentage(0, Some(before)) == 100
  {
    RoundsHalfUpUnique(DiscountPercentage(before, Some(before)), 0, 0, before);
    RoundsHalfUpUnique(DiscountPercentage(0, Some(before)), 100, 100 * before, before);
  }

  /**
   * A price above the old price is not clamped: the discount is never positive, and it is
   * negative exactly when the increase is more than half a percent of the old price.
   */
  lemma DiscountAboveOldPrice(price: nat, before: nat)
    requires before > 0 && price > before
    ensures DiscountPercentage(price, Some(before)) <= 0
    ensures DiscountPercentage(price, Some(before)) < 0 <==> 200 * (price - before) > before
  {
    var r := DiscountPercentage(price, Some(before));
    SignOfProduct(before, 2 * r - 1);
    if 200 * (price - before) > before {
      assert before * (2 * r) == before * (2 * r - 1) + before;
      SignOfProduct(before, 2 * r);
    }
    if r < 0 {
      assert before * (2 * r + 1) == before * (2 * r + 2) - before;
      SignOfProduct(before, 2 * r + 2);
    }
  }

  /** The discounts the seed catalogue shows: products 1 and 2, 4 and 9. */
  lemma SeedDiscounts()
    ensures DiscountPercentage(7500, Some(10500)) == 29
    ensures DiscountPercentage(9500, Some(35000)) == 73
    ensures DiscountPercentage(6500, Some(75000)) == 91
  {
  }

  /** The separator `Intl.NumberFormat('fr-FR')` puts between groups of three digits. */
  const GroupSeparator: char := '\U{202F}'

  /** Decimal digits with a separator before every group of three, counted from the right. */
  function Group(digits: string): string
    decreases |digits|
  {
    if |digits| <= 3 then digits
    else Group(digits[..|digits| - 3]) + [GroupSeparator] + digits[|digits| - 3..]
  }

  /** `formatPrice(price)`: the grouped decimal digits and the currency suffix. */
  function FormatPrice(price: nat): (shown: string)
    ensures |shown| > 5 && shown[|shown| - 5..] == " FCFA"
  {
    Group(NatToString(price)) + " FCFA"
  }

  predicate NotSeparator(c: char) {
    c != GroupSeparator
  }

  /** Removing the separators from a grouped string gives back the string it grouped. */
  lemma {:induction false} UngroupGroup(digits: string)
    requires forall i :: 0 <= i < |digits| ==> NotSeparator(digits[i])
    ensures Select(Group(digits), NotSeparator) == digits
    decreases |digits|
  {
    if |digits| > 3 {
      var head, tail := digits[..|digits| - 3], digits[|digits| - 3..];
      calc {
        Select(Group(digits), NotSeparator);
        Select((Group(head) + [GroupSeparator]) + tail, NotSeparator);
        { SelectAppend(Group(head) + [GroupSeparator], tail, NotSeparator); }
        Select(Group(head) + [GroupSeparator], NotSeparator) + Select(tail, NotSeparator);
        { SelectAppend(Group(head), [GroupSeparator], NotSeparator); }
        Select(Group(head), NotSeparator) + Select([GroupSeparator], NotSeparator) + Select(tail, NotSeparator);
        { UngroupGroup(head); SelectAll(tail, NotSeparator); }
        head + [] + tail;
        { assert head + tail == digits; }
        digits;
      }
    } else {
      SelectAll(digits, NotSeparator);
    }
  }

  /** Decimal digits are never the separator. */
  lemma DigitsHaveNoSeparator(s: string)
    requires AllDigits(s, 10)
    ensures forall i :: 0 <= i < |s| ==> NotSeparator(s[i])
  {
    forall i | 0 <= i < |s|
      ensures NotSeparator(s[i])
    {
      assert DigitIn(s[i], 10) >= 0;
    }
  }

  /** The price label is the grouped digits of the price followed by " FCFA". */
  lemma FormatPriceDigits(price: nat)
    ensures FormatPrice(price) == Group(NatToString(price)) + " FCFA"
    ensures Select(Group(NatToString(price)), NotSeparator) == NatToString(price)
  {
    DigitsHaveNoSeparator(NatToString(price));
    UngroupGroup(NatToString(price));
  }

  /** Grouping adds no character other than the separator. */
  lemma {:induction false} GroupAvoids(digits: string, c: char)
    requires c !in digits && c != GroupSeparator
    ensures c !in Group(digits)
    decreases |digits|
  {
    if |digits| > 3 {
      var head, tail := digits[..|digits| - 3], digits[|digits| - 3..];
      assert forall i :: 0 <= i < |head| ==> head[i] == digits[i];
      GroupAvoids(head, c);
    }
  }

  /** A price label fits on one line. */
  lemma FormatPriceOneLine(price: nat)
    ensures '\n' !in FormatPrice(price)
  {
    var d := NatToString(price);
    assert '\n' !in d by {
      forall i | 0 <= i < |d|
        ensures d[i] != '\n'
      {
        assert DigitIn(d[i], 10) >= 0;
      }
    }
    GroupAvoids(d, '\n');
  }

  /** The label of the seed's most common price. */
  lemma FormatSeedPrice()
    ensures FormatPrice(7500) == "7\U{202F}500 FCFA"
  {
    assert NatToString(7500) == "7500" by {
      assert NatToString(7) == "7";
      assert NatToString(75) == "75";
      assert NatToString(750) == "750";
    }
  }

  /** The ids of a product list, in order. */
  function Ids(ps: seq<Product>): (ids: seq<int>)
    ensures |ids| == |ps|
    ensures forall i :: 0 <= i < |ps| ==> ids[i] == ps[i].id
  {
    if ps == [] then [] else [ps[0].id] + Ids(ps[1..])
  }

  /** No two products share an id. */
  predicate DistinctIds(ps: seq<Product>) {
    forall i, j :: 0 <= i < j < |ps| ==> ps[i].id != ps[j].id
  }

  /** `defaultProducts`: the seed catalogue, also exported as `products`. */
  const DefaultProducts: seq<Product> := [Seed1, Seed2, Seed3, Seed4, Seed5, Seed6, Seed7, Seed8, Seed9]

  const Seed1: Product :=
    Product(1, "Tissu Bazin Riche Premium", Tissu, 7500, Some(10500),
      ["/images/Image3.jpeg", "/images/Image2.jpeg", "/images/Image1.jpeg"], true, "2025-11-25",
      "Bazin riche de qualité supérieure, parfait pour vos tenues traditionnelles")

  const Seed2: Product :=
    Product(2, "Tissu 3 Pièces Classique", Costume, 7500, Some(10500),
      ["/images/Image1.jpeg", "/images/Image2.jpeg", "/images/Image3.jpeg"], true, "2025-11-24",
      "Tissu élégant en laine, coupe moderne")

  const Seed3: Product :=
    Product(3, "Tissu Oxford Bleu Marine", Chemise, 8500, None,
      ["/images/Image4.jpeg", "/images/Image5.jpeg", "/images/Image6.jpeg"], false, "2025-11-20",
      "Tissu en coton oxford, coupe ajustée")

  const Seed4: Product :=
    Product(4, "Tissu Qualité Premium", Tissu, 9500, Some(35000),
      ["/images/Image7.jpeg", "/images/Image8.jpeg", "/images/Image9.jpeg"], true, "2025-11-26",
      "Tissu de qualité supérieure, parfait pour les vêtements de qualité")

  const Seed5: Product :=
    Product(5, "Tissu Chino Beige", Tissu, 6500, None,
      ["/images/Image8.jpeg", "/images/Image7.jpeg", "/images/Image6.jpeg"], false, "2025-11-18",
      "Tissu chino confortable, coupe droite")

  const Seed6: Product :=
    Product(6, "Tissu coton", Tissu, 18000, Some(28000),
      ["/images/Image3.jpeg"], false, "2025-11-15",
      "Tissu coton de haute qualité")

  const Seed7: Product :=
    Product(7, "Tissu de Cérémonie", Tissu, 10000, None,
      ["/images/Image6.jpeg"], true, "2025-11-27",
      "Chemise blanche parfaite pour les événements")

  const Seed8: Product :=
    Product(8, "Tissu bleu marine", Tissu, 6500, Some(10500),
      ["/images/Image5.jpeg"], true, "2025-11-28",
      "Tissu bleu marine, coupe moderne")

  const Seed9: Product :=
    Product(9, "Tissu Blanc gris", Tissu, 6500, Some(75000),
      ["/images/Image4.jpeg", "/images/Image5.jpeg", "/images/Image6.jpeg"], true, "2025-11-26",
      "Tissu blanc gris, coupe moderne")

  /** The seed holds products 1 to 9, in that order. */
  lemma SeedIds()
    ensures |DefaultProducts| == 9
    ensures forall i :: 0 <= i < |DefaultProducts| ==> DefaultProducts[i].id == i + 1
  {
  }

  /** The seed ids are distinct. */
  lemma SeedDistinctIds()
    ensures DistinctIds(DefaultProducts)
  {
    SeedIds();
  }

  /** Every seed product has an image, and an old price only above its price. */
  lemma SeedWellFormed()
    ensures forall i :: 0 <= i < |DefaultProducts| ==> |DefaultProducts[i].images| >= 1
    ensures forall i :: 0 <= i < |DefaultProducts| && DefaultProducts[i].oldPrice.Some? ==>
      DefaultProducts[i].price < DefaultProducts[i].oldPrice.value
  {
  }

  /** An entry of the category filter: `value` is `all` or a category literal. */
  datatype CategoryOption = CategoryOption(value: string, title: string)

  /** Every category, in the order `Product.category` lists them. */
  const AllCategories: seq<Category> := [Tissu, Chemise, Pantalon, Costume, Accessoire]

  /** `categories`: the sentinel `all`, then one entry per category. */
  const Categories: seq<CategoryOption> := [
    CategoryOption("all", "Tous les produits"),
    CategoryOption("tissu", "Tissus"),
    CategoryOption("chemise", "Chemises"),
    CategoryOption("pantalon", "Pantalons"),
    CategoryOption("costume", "Costumes"),
    CategoryOption("accessoire", "Accessoires")
  ]

  /** `AllCategories` lists every category once. */
  lemma AllCategoriesComplete(c: Category)
    ensures c in AllCategories
    ensures forall i, j :: 0 <= i < j < |AllCategories| ==> AllCategories[i] != AllCategories[j]
  {
  }

  /** The filter list is `all` followed by exactly the five category literals, in order. */
  lemma CategoriesShape()
    ensures |Categories| == 1 + |AllCategories|
    ensures Categories[0].value == "all"
    ensures forall i :: 0 <= i < |AllCategories| ==> Categories[i + 1].value == AllCategories[i].Value()
  {
  }
}
