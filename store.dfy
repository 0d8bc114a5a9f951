/**
 * The product API of `src/app/api/products/route.ts`. The JSON file becomes the field
 * `file` of a `ProductStore`: `Some(ps)` when it holds a readable product array, `None`
 * when it is missing or does not parse. Each handler is specified by a pure outcome
 * function that gives the response and the new file contents; a failing write is the
 * parameter `writeOk == false`.
 */
module ProductApi {
  import opened Options
  import opened Seqs
  import opened Text
  import opened Catalog

  /** A product without its id: the body `POST` receives, whatever id it carries being replaced. */
  datatype Draft = Draft(
    name: string,
    category: Category,
    price: nat,
    oldPrice: Option<nat>,
    images: seq<string>,
    isNew: bool,
    publishedDate: string,
    description: string)

  /** The fields a `PUT` body supplies besides the id; `None` is a field the body does not carry. */
  datatype Patch = Patch(
    name: Option<string>,
    category: Option<Category>,
    price: Option<nat>,
    oldPrice: Option<nat>,
    images: Option<seq<string>>,
    isNew: Option<bool>,
    publishedDate: Option<string>,
    description: Option<string>)

  datatype Body = ProductList(products: seq<Product>) | OneProduct(product: Product) | Success | Failure(error: string)

  datatype Response = Response(status: nat, body: Body)

  /** A draft given an id. */
  function WithId(d: Draft, id: int): (p: Product)
    ensures p.id == id
  {
    Product(id, d.name, d.category, d.price, d.oldPrice, d.images, d.isNew, d.publishedDate, d.description)
  }

  /** A product without its id. */
  function DraftOf(p: Product): Draft {
    Draft(p.name, p.category, p.price, p.oldPrice, p.images, p.isNew, p.publishedDate, p.description)
  }

  /** Dropping the id and putting it back gives the product; giving a draft an id and dropping it gives the draft. */
  lemma DraftRoundTrip(p: Product, d: Draft, id: int)
    ensures WithId(DraftOf(p), p.id) == p
    ensures DraftOf(WithId(d, id)) == d
  {
  }

  /** The patch a full form sends: every field, except an absent old price, which `JSON.stringify` leaves out. */
  function PatchOf(d: Draft): Patch {
    Patch(Some(d.name), Some(d.category), Some(d.price), d.oldPrice, Some(d.images), Some(d.isNew),
          Some(d.publishedDate), Some(d.description))
  }

  /** The patch that supplies nothing. */
  const NoChange: Patch := Patch(None, None, None, None, None, None, None, None)

  /** `{...p, ...updates, id}`: supplied fields override, the others are kept, and the id is `id`. */
  function Merge(p: Product, u: Patch, id: int): (r: Product)
    ensures r.id == id
  {
    Product(id, u.name.GetOr(p.name), u.category.GetOr(p.category), u.price.GetOr(p.price),
            if u.oldPrice.Some? then u.oldPrice else p.oldPrice, u.images.GetOr(p.images),
            u.isNew.GetOr(p.isNew), u.publishedDate.GetOr(p.publishedDate), u.description.GetOr(p.description))
  }

  /** Merging nothing with the product's own id leaves it unchanged. */
  lemma MergeNoChange(p: Product)
    ensures Merge(p, NoChange, p.id) == p
  {
  }

  /** Applying the same update twice is applying it once. */
  lemma MergeIdempotent(p: Product, u: Patch, id: int)
    ensures Merge(Merge(p, u, id), u, id) == Merge(p, u, id)
  {
  }

  /** A field the patch carries takes the patch's value; a field it lacks keeps the product's. */
  lemma MergeFields(p: Product, u: Patch, id: int)
    ensures u.name.Some? ==> Merge(p, u, id).name == u.name.value
    ensures u.name.None? ==> Merge(p, u, id).name == p.name
    ensures u.price.Some? ==> Merge(p, u, id).price == u.price.value
    ensures u.price.None? ==> Merge(p, u, id).price == p.price
    ensures u.oldPrice.Some? ==> Merge(p, u, id).oldPrice == u.oldPrice
    ensures u.oldPrice.None? ==> Merge(p, u, id).oldPrice == p.oldPrice
    ensures u.images.Some? ==> Merge(p, u, id).images == u.images.value
    ensures u.images.None? ==> Merge(p, u, id).images == p.images
    ensures u.category.Some? ==> Merge(p, u, id).category == u.category.value
    ensures u.category.None? ==> Merge(p, u, id).category == p.category
    ensures u.isNew.Some? ==> Merge(p, u, id).isNew == u.isNew.value
    ensures u.isNew.None? ==> Merge(p, u, id).isNew == p.isNew
    ensures u.publishedDate.Some? ==> Merge(p, u, id).publishedDate == u.publishedDate.value
    ensures u.publishedDate.None? ==> Merge(p, u, id).publishedDate == p.publishedDate
    ensures u.description.Some? ==> Merge(p, u, id).description == u.description.value
    ensures u.description.None? ==> Merge(p, u, id).description == p.description
  {
  }

  /**
   * Saving a full form over a product gives the form's product with the requested id, except that
   * a form without an old price keeps the product's old price: an absent field cannot clear it.
   */
  lemma MergeFullForm(p: Product, d: Draft, id: int)
    ensures d.oldPrice.Some? ==> Merge(p, PatchOf(d), id) == WithId(d, id)
    ensures d.oldPrice.None? ==> Merge(p, PatchOf(d), id) == WithId(d.(oldPrice := p.oldPrice), id)
  {
  }

  /** `readProducts()`: the stored array, or the empty array when the file cannot be read or parsed. */
  function ReadProducts(file: Option<seq<Product>>): (ps: seq<Product>)
    ensures file.Some? ==> ps == file.value
    ensures file.None? ==> ps == []
  {
    file.GetOr([])
  }

  /** `Math.max(...ids)`. */
  function MaxId(ps: seq<Product>): (m: int)
    requires ps != []
    ensures exists i :: 0 <= i < |ps| && ps[i].id == m
    ensures forall i :: 0 <= i < |ps| ==> ps[i].id <= m
  {
    if |ps| == 1 then ps[0].id
    else
      var rest := MaxId(ps[1..]);
      assert forall i :: 1 <= i < |ps| ==> ps[i] == ps[1..][i - 1];
      if ps[0].id >= rest then ps[0].id else rest
  }

  /** The id `POST` assigns: one more than the largest id, or 1 for an empty store. */
  function NextId(ps: seq<Product>): (id: int)
    ensures forall i :: 0 <= i < |ps| ==> ps[i].id < id
    ensures ps == [] ==> id == 1
    ensures ps != [] ==> exists i :: 0 <= i < |ps| && ps[i].id == id - 1
  {
    if |ps| > 0 then MaxId(ps) + 1 else 1
  }

  /** `products.findIndex(p => p.id === id)`: the first index holding `id`, or -1. */
  function FindIndex(ps: seq<Product>, id: int): (k: int)
    ensures -1 <= k < |ps|
    ensures k == -1 <==> forall i :: 0 <= i < |ps| ==> ps[i].id != id
    ensures k >= 0 ==> ps[k].id == id && forall i :: 0 <= i < k ==> ps[i].id != id
  {
    if ps == [] then -1
    else if ps[0].id == id then 0
    else
      var k := FindIndex(ps[1..], id);
      assert forall i :: 1 <= i < |ps| ==> ps[i] == ps[1..][i - 1];
      if k == -1 then -1 else k + 1
  }

  predicate HasOtherId(id: int, p: Product) {
    p.id != id
  }

  /** `products.filter(p => p.id !== id)`. */
  function RemoveId(ps: seq<Product>, id: int): seq<Product> {
    Select(ps, p => HasOtherId(id, p))
  }

  /** Deleting removes every record with the id and keeps the others, in their order. */
  lemma RemoveIdContents(ps: seq<Product>, id: int)
    ensures IsSubsequence(RemoveId(ps, id), ps)
    ensures forall p :: p in RemoveId(ps, id) <==> p in ps && p.id != id
  {
    SelectSubsequence(ps, p => HasOtherId(id, p));
    SelectSound(ps, p => HasOtherId(id, p));
    SelectComplete(ps, p => HasOtherId(id, p));
  }

  /** Deleting keeps the length exactly when no record has the id. */
  lemma RemoveIdLength(ps: seq<Product>, id: int)
    ensures |RemoveId(ps, id)| == |ps| <==> forall i :: 0 <= i < |ps| ==> ps[i].id != id
  {
    SelectKeepsLength(ps, p => HasOtherId(id, p));
  }

  /** Filtering never makes two records share an id. */
  lemma {:induction false} SelectKeepsDistinct(ps: seq<Product>, keep: Product -> bool)
    requires DistinctIds(ps)
    ensures DistinctIds(Select(ps, keep))
  {
    if ps != [] {
      var rest := ps[1..];
      assert DistinctIds(rest) by {
        assert forall i :: 0 <= i < |rest| ==> rest[i] == ps[i + 1];
      }
      SelectKeepsDistinct(rest, keep);
      if keep(ps[0]) {
        var r := Select(rest, keep);
        SelectSound(rest, keep);
        forall j | 0 <= j < |r|
          ensures r[j].id != ps[0].id
        {
          var k :| 0 <= k < |rest| && rest[k] == r[j];
          assert ps[k + 1] == r[j];
        }
        var s := [ps[0]] + r;
        assert forall j :: 1 <= j < |s| ==> s[j] == r[j - 1];
      }
    }
  }

  /** Deleting never makes two records share an id. */
  lemma RemoveIdKeepsDistinct(ps: seq<Product>, id: int)
    requires DistinctIds(ps)
    ensures DistinctIds(RemoveId(ps, id))
  {
    SelectKeepsDistinct(ps, p => HasOtherId(id, p));
  }

  /** Replacing one record by a record with the same id keeps the ids distinct. */
  lemma ReplaceKeepsDistinct(ps: seq<Product>, k: nat, p: Product)
    requires DistinctIds(ps) && k < |ps| && p.id == ps[k].id
    ensures DistinctIds(ps[k := p])
  {
  }

  /** Appending a record whose id is above every other keeps the ids distinct. */
  lemma AppendKeepsDistinct(ps: seq<Product>, p: Product)
    requires DistinctIds(ps) && forall i :: 0 <= i < |ps| ==> ps[i].id < p.id
    ensures DistinctIds(ps + [p])
  {
  }

  const MessageIdRequired := "ID du produit requis"
  const MessageCreateFailed := "Erreur lors de la création du produit"
  const MessageUpdateFailed := "Erreur lors de la mise à jour du produit"
  const MessageDeleteFailed := "Erreur lors de la suppression du produit"

  /** `Produit avec l'ID ${id} introuvable`. */
  function NotFoundMessage(id: int): string {
    "Produit avec l'ID " + IntToString(id) + " introuvable"
  }

  /** The result of a handler: the response and the file contents afterwards. */
  datatype Outcome = Outcome(response: Response, file: Option<seq<Product>>)

  /** `GET`: the stored products, or none when the file cannot be read. */
  function ListOutcome(file: Option<seq<Product>>): Response {
    Response(200, ProductList(ReadProducts(file)))
  }

  /** `POST`: the draft gets the next id and is appended; a failed write answers 500. */
  function CreateOutcome(file: Option<seq<Product>>, body: Draft, writeOk: bool): Outcome {
    var ps := ReadProducts(file);
    var p := WithId(body, NextId(ps));
    if writeOk then Outcome(Response(201, OneProduct(p)), Some(ps + [p]))
    else Outcome(Response(500, Failure(MessageCreateFailed)), file)
  }

  /** `!id` for the id of a `PUT` body: absent or zero (a number body id is never NaN). */
  predicate MissingId(id: Option<int>) {
    id.None? || id.value == 0
  }

  /** `PUT`: a missing id answers 400, an unknown one 404; otherwise the first record with the id is merged. */
  function UpdateOutcome(file: Option<seq<Product>>, id: Option<int>, updates: Patch, writeOk: bool): Outcome {
    if MissingId(id) then Outcome(Response(400, Failure(MessageIdRequired)), file)
    else
      var ps := ReadProducts(file);
      var k := FindIndex(ps, id.value);
      if k == -1 then Outcome(Response(404, Failure(NotFoundMessage(id.value))), file)
      else
        var p := Merge(ps[k], updates, id.value);
        if writeOk then Outcome(Response(200, OneProduct(p)), Some(ps[k := p]))
        else Outcome(Response(500, Failure(MessageUpdateFailed)), file)
  }

  /** `parseInt(searchParams.get('id') || '0')`: an absent or empty parameter reads as `'0'`. */
  function QueryId(query: Option<string>): Option<int> {
    ParseInt(if query.None? || query.value == "" then "0" else query.value)
  }

  /** `DELETE`: an id that parses to NaN or 0 answers 400; nothing removed answers 404. */
  function DeleteOutcome(file: Option<seq<Product>>, query: Option<string>, writeOk: bool): Outcome {
    DeleteById(file, QueryId(query), writeOk)
  }

  /** `DELETE` once the id parameter is parsed; `None` is NaN. */
  function DeleteById(file: Option<seq<Product>>, id: Option<int>, writeOk: bool): Outcome {
    if id.None? || id.value == 0 then Outcome(Response(400, Failure(MessageIdRequired)), file)
    else
      var ps := ReadProducts(file);
      var kept := RemoveId(ps, id.value);
      if |kept| == |ps| then Outcome(Response(404, Failure(NotFoundMessage(id.value))), file)
      else if writeOk then Outcome(Response(200, Success), Some(kept))
      else Outcome(Response(500, Failure(MessageDeleteFailed)), file)
  }

  /** A created product gets the next id and goes at the end; nothing before it changes. */
  lemma CreateAppends(file: Option<seq<Product>>, body: Draft)
    ensures var o, ps := CreateOutcome(file, body, true), ReadProducts(file);
      && o.response.status == 201
      && o.file.Some? && |o.file.value| == |ps| + 1 && o.file.value[..|ps|] == ps
      && o.file.value[|ps|] == WithId(body, NextId(ps))
      && o.response.body == OneProduct(o.file.value[|ps|])
  {
    var ps := ReadProducts(file);
    assert (ps + [WithId(body, NextId(ps))])[..|ps|] == ps;
  }

  /** The id a create assigns is above every stored id, and 1 in an empty store. */
  lemma CreateIdFresh(file: Option<seq<Product>>, body: Draft)
    ensures var o, ps := CreateOutcome(file, body, true), ReadProducts(file);
      && (forall i :: 0 <= i < |ps| ==> ps[i].id < o.response.body.product.id)
      && (ps == [] ==> o.response.body.product.id == 1)
  {
  }

  /** An update without a usable id answers 400 and writes nothing. */
  lemma UpdateMissingId(file: Option<seq<Product>>, id: Option<int>, updates: Patch, writeOk: bool)
    requires MissingId(id)
    ensures UpdateOutcome(file, id, updates, writeOk) == Outcome(Response(400, Failure("ID du produit requis")), file)
  {
  }

  /** An update answers 404 exactly when the id is usable and no record has it; it then writes nothing. */
  lemma UpdateNotFound(file: Option<seq<Product>>, id: Option<int>, updates: Patch, writeOk: bool)
    ensures var o := UpdateOutcome(file, id, updates, writeOk);
      o.response.status == 404 <==> !MissingId(id) && forall i :: 0 <= i < |ReadProducts(file)| ==> ReadProducts(file)[i].id != id.value
    ensures var o := UpdateOutcome(file, id, updates, writeOk);
      o.response.status == 404 ==> o.file == file && o.response.body == Failure(NotFoundMessage(id.value))
  {
  }

  /**
   * A successful update rewrites only the first record with the id: same length, every other
   * record as it was, the record itself merged with the update and keeping the requested id.
   */
  lemma UpdateChangesOneRecord(file: Option<seq<Product>>, id: Option<int>, updates: Patch)
    requires UpdateOutcome(file, id, updates, true).response.status == 200
    ensures var o, ps := UpdateOutcome(file, id, updates, true), ReadProducts(file);
      var k := FindIndex(ps, id.value);
      && 0 <= k < |ps| && ps[k].id == id.value
      && o.file.Some? && |o.file.value| == |ps|
      && o.file.value[k] == Merge(ps[k], updates, id.value)
      && o.file.value[k].id == id.value
      && (forall i :: 0 <= i < |ps| && i != k ==> o.file.value[i] == ps[i])
      && o.response.body == OneProduct(o.file.value[k])
  {
  }

  /** `parseInt` reads the decimal form of an integer back. */
  lemma QueryIdOfInt(n: int)
    ensures QueryId(Some(IntToString(n))) == Some(n)
  {
    ParseIntToString(n);
    if n >= 0 {
      assert |NatToString(n)| >= 1;
    }
  }

  /** A delete without an id parameter, or with an empty one, answers 400 and writes nothing. */
  lemma DeleteMissingId(file: Option<seq<Product>>, writeOk: bool)
    ensures DeleteOutcome(file, None, writeOk) == Outcome(Response(400, Failure("ID du produit requis")), file)
    ensures DeleteOutcome(file, Some(""), writeOk) == Outcome(Response(400, Failure("ID du produit requis")), file)
  {
    QueryIdOfInt(0);
    assert IntToString(0) == "0";
  }

  /** A delete whose id parameter parses to NaN or 0 answers 400 and writes nothing. */
  lemma DeleteUnusableId(file: Option<seq<Product>>, query: Option<string>, writeOk: bool)
    requires QueryId(query).None? || QueryId(query).value == 0
    ensures DeleteOutcome(file, query, writeOk) == Outcome(Response(400, Failure("ID du produit requis")), file)
  {
  }

  /** A delete answers 404 exactly when the id is usable and no record has it; it then writes nothing. */
  lemma DeleteNotFound(file: Option<seq<Product>>, query: Option<string>, writeOk: bool)
    ensures var o, id, ps := DeleteOutcome(file, query, writeOk), QueryId(query), ReadProducts(file);
      o.response.status == 404 <==> id.Some? && id.value != 0 && forall i :: 0 <= i < |ps| ==> ps[i].id != id.value
    ensures var o := DeleteOutcome(file, query, writeOk);
      o.response.status == 404 ==> o.file == file
  {
    var id := QueryId(query);
    if id.Some? && id.value != 0 {
      RemoveIdLength(ReadProducts(file), id.value);
    }
  }

  /** A successful delete stores the records without the id, the others kept in their order. */
  lemma DeleteRemovesId(file: Option<seq<Product>>, query: Option<string>)
    requires DeleteOutcome(file, query, true).response.status == 200
    ensures var o, id, ps := DeleteOutcome(file, query, true), QueryId(query), ReadProducts(file);
      && id.Some? && id.value != 0
      && o.file.Some? && IsSubsequence(o.file.value, ps) && |o.file.value| < |ps|
      && (forall p :: p in o.file.value <==> p in ps && p.id != id.value)
  {
    var id := QueryId(query);
    RemoveIdContents(ReadProducts(file), id.value);
  }

  /** A create succeeds exactly when the write does; a failed one leaves the file as it was. */
  lemma CreateWritesOnSuccess(file: Option<seq<Product>>, body: Draft, writeOk: bool)
    ensures var o := CreateOutcome(file, body, writeOk);
      (o.response.status == 201 <==> writeOk) && (!writeOk ==> o.file == file)
  {
  }

  /** An update that does not succeed leaves the file as it was; one that succeeds writes it. */
  lemma UpdateWritesOnSuccess(file: Option<seq<Product>>, id: Option<int>, updates: Patch, writeOk: bool)
    ensures var o := UpdateOutcome(file, id, updates, writeOk);
      (o.response.status != 200 ==> o.file == file) && (o.response.status == 200 ==> writeOk && o.file.Some?)
  {
  }

  /** A delete that does not succeed leaves the file as it was; one that succeeds writes it. */
  lemma DeleteWritesOnSuccess(file: Option<seq<Product>>, query: Option<string>, writeOk: bool)
    ensures var o := DeleteOutcome(file, query, writeOk);
      (o.response.status != 200 ==> o.file == file) && (o.response.status == 200 ==> writeOk && o.file.Some?)
  {
  }

  /** Creating keeps the stored ids distinct. */
  lemma CreateKeepsDistinct(file: Option<seq<Product>>, body: Draft, writeOk: bool)
    requires DistinctIds(ReadProducts(file))
    ensures DistinctIds(ReadProducts(CreateOutcome(file, body, writeOk).file))
  {
    var ps := ReadProducts(file);
    AppendKeepsDistinct(ps, WithId(body, NextId(ps)));
  }

  /** Updating keeps the stored ids distinct. */
  lemma UpdateKeepsDistinct(file: Option<seq<Product>>, id: Option<int>, updates: Patch, writeOk: bool)
    requires DistinctIds(ReadProducts(file))
    ensures DistinctIds(ReadProducts(UpdateOutcome(file, id, updates, writeOk).file))
  {
    var ps := ReadProducts(file);
    if !MissingId(id) && FindIndex(ps, id.value) != -1 {
      var k := FindIndex(ps, id.value);
      ReplaceKeepsDistinct(ps, k, Merge(ps[k], updates, id.value));
    }
  }

  /** Deleting keeps the stored ids distinct. */
  lemma DeleteKeepsDistinct(file: Option<seq<Product>>, query: Option<string>, writeOk: bool)
    requires DistinctIds(ReadProducts(file))
    ensures DistinctIds(ReadProducts(DeleteOutcome(file, query, writeOk).file))
  {
    var id := QueryId(query);
    if id.Some? {
      RemoveIdKeepsDistinct(ReadProducts(file), id.value);
    }
    assert DeleteOutcome(file, query, writeOk) == DeleteById(file, id, writeOk);
  }

  /**
   * Ids are reused: in a store numbered 1 to n, deleting record n and then creating a
   * product gives the new product the id n again.
   */
  lemma DeleteLastThenCreateReusesId(ps: seq<Product>, body: Draft)
    requires ps != [] && forall i :: 0 <= i < |ps| ==> ps[i].id == i + 1
    ensures var n := |ps|;
      var d := DeleteOutcome(Some(ps), Some(IntToString(n)), true);
      && d.response.status == 200
      && CreateOutcome(d.file, body, true).response.body.product.id == n
  {
    var n := |ps|;
    QueryIdOfInt(n);
    RemoveIdContents(ps, n);
    var kept := RemoveId(ps, n);
    RemoveIdLength(ps, n);
    assert ps[n - 1].id == n;
    if n == 1 {
      assert |kept| == 0;
    } else {
      assert ps[n - 2] in kept;
      assert forall i :: 0 <= i < |kept| ==> kept[i] in ps && kept[i].id <= n - 1;
      assert MaxId(kept) == n - 1;
    }
  }

  /** The API over the products file. */
  class ProductStore {
    var file: Option<seq<Product>>

    constructor (initial: Option<seq<Product>>)
      ensures file == initial
    {
      file := initial;
    }

    /** `GET`. */
    method List() returns (r: Response)
      ensures r == ListOutcome(file)
    {
      var products := ReadProducts(file);
      r := Response(200, ProductList(products));
    }

    /** `POST`. */
    method Create(body: Draft, writeOk: bool) returns (r: Response)
      modifies this
      ensures Outcome(r, file) == CreateOutcome(old(file), body, writeOk)
    {
      var products := ReadProducts(file);
      var newProduct := WithId(body, NextId(products));
      if writeOk {
        file := Some(products + [newProduct]);
        r := Response(201, OneProduct(newProduct));
      } else {
        r := Response(500, Failure(MessageCreateFailed));
      }
    }

    /** `PUT`. */
    method Update(id: Option<int>, updates: Patch, writeOk: bool) returns (r: Response)
      modifies this
      ensures Outcome(r, file) == UpdateOutcome(old(file), id, updates, writeOk)
    {
      if MissingId(id) {
        return Response(400, Failure(MessageIdRequired));
      }
      var products := ReadProducts(file);
      var index := FindIndex(products, id.value);
      if index == -1 {
        return Response(404, Failure(NotFoundMessage(id.value)));
      }
      var updatedProduct := Merge(products[index], updates, id.value);
      var updatedProducts := products;
      updatedProducts := updatedProducts[index := updatedProduct];
      if writeOk {
        file := Some(updatedProducts);
        r := Response(200, OneProduct(updatedProduct));
      } else {
        r := Response(500, Failure(MessageUpdateFailed));
      }
    }

    /** `DELETE`, with the raw `id` search parameter. */
    method Delete(query: Option<string>, writeOk: bool) returns (r: Response)
      modifies this
      ensures Outcome(r, file) == DeleteOutcome(old(file), query, writeOk)
    {
      var id := QueryId(query);
      if id.None? || id.value == 0 {
        return Response(400, Failure(MessageIdRequired));
      }
      var products := ReadProducts(file);
      var filteredProducts := RemoveId(products, id.value);
      if |filteredProducts| == |products| {
        return Response(404, Failure(NotFoundMessage(id.value)));
      }
      if writeOk {
        file := Some(filteredProducts);
        r := Response(200, Success);
      } else {
        r := Response(500, Failure(MessageDeleteFailed));
      }
    }
  }
}
