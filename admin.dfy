/**
 * The administration page: the product form, the parsing of its comma-separated image
 * list, the choice between creating and updating on submit, editing and resetting the
 * form, and deleting, all through the products API.
 */
module Admin {
  import opened Options
  import opened Seqs
  import opened Text
  import opened Catalog
  import opened ProductApi

  /** The form's state; prices are the text of the number inputs. */
  datatype ProductForm = ProductForm(
    name: string,
    category: Category,
    price: string,
    oldPrice: string,
    description: string,
    images: string,
    isNew: bool,
    publishedDate: string)

  /** The empty form, dated `today` (the `YYYY-MM-DD` part of the current time, an input here). */
  function DefaultForm(today: string): (f: ProductForm)
    ensures f.category == Tissu && !f.isNew && f.publishedDate == today
    ensures f.name == "" && f.price == "" && f.oldPrice == "" && f.description == "" && f.images == ""
  {
    ProductForm("", Tissu, "", "", "", "", false, today)
  }

  /** `img.trim()` for every piece. */
  function TrimAll(pieces: seq<string>): (r: seq<string>)
    ensures |r| == |pieces|
    ensures forall i :: 0 <= i < |r| ==> r[i] == Trim(pieces[i])
  {
    if pieces == [] then [] else [Trim(pieces[0])] + TrimAll(pieces[1..])
  }

  predicate NonEmpty(s: string) {
    |s| > 0
  }

  /** `images.split(',').map(img => img.trim()).filter(img => img.length > 0)`. */
  function ParseImages(images: string): seq<string> {
    Select(TrimAll(Split(images, ',')), NonEmpty)
  }

  /** Every trimmed piece is its own trim. */
  lemma {:induction false} TrimAllTrimmed(pieces: seq<string>)
    ensures forall x :: x in TrimAll(pieces) ==> Trim(x) == x
  {
    if pieces != [] {
      TrimIdempotent(pieces[0]);
      TrimAllTrimmed(pieces[1..]);
    }
  }

  /** Every parsed image path is non-empty and has no white space around it. */
  lemma ParseImagesClean(images: string)
    ensures forall i :: 0 <= i < |ParseImages(images)| ==>
      ParseImages(images)[i] != "" && Trim(ParseImages(images)[i]) == ParseImages(images)[i]
  {
    var trimmed := TrimAll(Split(images, ','));
    SelectSound(trimmed, NonEmpty);
    TrimAllTrimmed(Split(images, ','));
  }

  /** A path that the list parser keeps as it is: non-empty, trimmed, without a comma. */
  predicate CleanPath(s: string) {
    s != "" && !IsSpace(s[0]) && !IsSpace(s[|s| - 1]) && ',' !in s
  }

  /** A clean path is its own trim. */
  lemma CleanPathTrimmed(s: string)
    requires CleanPath(s)
    ensures Trim(s) == s
  {
    TrimFixedPoint(s);
  }

  /** White space in front of a clean path is trimmed away. */
  lemma TrimPaddedPath(pad: string, x: string)
    requires forall i :: 0 <= i < |pad| ==> IsSpace(pad[i])
    requires CleanPath(x)
    ensures Trim(pad + x) == x
  {
    TrimStartPadded(pad, x);
  }

  /** A join of two or more pieces: the first piece, the separator, and the join of the rest. */
  lemma JoinHead(before: string, paths: seq<string>)
    requires |paths| > 1
    ensures before + Join(paths, ", ") == (before + paths[0]) + [','] + (" " + Join(paths[1..], ", "))
  {
  }

  /** Splitting at a first comma and trimming: the trimmed first piece, then the trimmed rest. */
  lemma TrimSplitHead(first: string, rest: string)
    requires ',' !in first
    ensures TrimAll(Split(first + [','] + rest, ',')) == [Trim(first)] + TrimAll(Split(rest, ','))
  {
    SplitAt(first, rest, ',');
    var pieces := [first] + Split(rest, ',');
    assert pieces[1..] == Split(rest, ',');
  }

  /** A clean path after `pad` has no comma and trims back to the path. */
  lemma PaddedPath(pad: string, x: string)
    requires pad == "" || pad == " "
    requires CleanPath(x)
    ensures ',' !in pad + x && Trim(pad + x) == x
  {
    assert forall i :: 0 <= i < |pad| ==> IsSpace(pad[i]);
    TrimPaddedPath(pad, x);
  }

  /** The pieces of a `", "` join, the first one after `pad`, trim back to the paths. */
  lemma {:induction false} TrimJoinedPieces(pad: string, paths: seq<string>)
    requires pad == "" || pad == " "
    requires paths != [] && forall i :: 0 <= i < |paths| ==> CleanPath(paths[i])
    ensures TrimAll(Split(pad + Join(paths, ", "), ',')) == paths
    decreases |paths|
  {
    var first := pad + paths[0];
    PaddedPath(pad, paths[0]);
    if |paths| == 1 {
      assert pad + Join(paths, ", ") == first;
    } else {
      JoinHead(pad, paths);
      TrimSplitHead(first, " " + Join(paths[1..], ", "));
      assert forall i :: 0 <= i < |paths| - 1 ==> paths[1..][i] == paths[i + 1];
      TrimJoinedPieces(" ", paths[1..]);
      assert [paths[0]] + paths[1..] == paths;
    }
  }

  /** Parsing the `", "` join of clean paths, as editing shows them, gives back the paths. */
  lemma ParseJoinedImages(paths: seq<string>)
    requires forall i :: 0 <= i < |paths| ==> CleanPath(paths[i])
    ensures ParseImages(Join(paths, ", ")) == paths
  {
    if paths == [] {
      assert Split("", ',') == [""];
    } else {
      TrimJoinedPieces("", paths);
      assert "" + Join(paths, ", ") == Join(paths, ", ");
      SelectAll(paths, NonEmpty);
    }
  }

  /** Text the number inputs accept here: decimal digits. */
  predicate IsPriceText(s: string) {
    s != "" && AllDigits(s, 10)
  }

  /** `parseFloat` of a price text. */
  function PriceValue(s: string): nat
    requires IsPriceText(s)
  {
    ValueIn(s, 10)
  }

  /** `formData.oldPrice ? parseFloat(formData.oldPrice) : undefined`. */
  function OldPriceValue(s: string): Option<nat>
    requires s == "" || IsPriceText(s)
  {
    if s == "" then None else Some(PriceValue(s))
  }

  /** The empty old-price field sends no old price; a filled one sends its value. */
  lemma OldPriceCases(s: string)
    requires s == "" || IsPriceText(s)
    ensures OldPriceValue(s).None? <==> s == ""
    ensures s != "" ==> OldPriceValue(s) == ParseInt(s)
  {
    if s != "" {
      ParseIntDigits(s);
    }
  }

  /**
   * The browser's constraint validation: the required fields are filled and the number
   * fields hold whole numbers written in decimal digits; fractions are not modelled. Until it
   * passes, the submit handler does not run.
   */
  predicate Submittable(f: ProductForm) {
    && f.name != "" && f.description != "" && f.images != "" && f.publishedDate != ""
    && IsPriceText(f.price) && (f.oldPrice == "" || IsPriceText(f.oldPrice))
  }

  /** `productData`, with the parsed image list. */
  function FormDraft(f: ProductForm, images: seq<string>): Draft
    requires Submittable(f)
  {
    Draft(f.name, f.category, PriceValue(f.price), OldPriceValue(f.oldPrice), images, f.isNew,
          f.publishedDate, f.description)
  }

  const NoImageMessage := "Au moins une image est requise"

  /** What a submit does. */
  datatype Plan = Blocked | Reject(message: string) | Create(draft: Draft) | Update(id: int, patch: Patch)

  /** `handleSubmit`: no image rejects; otherwise update the product being edited, or create. */
  function SubmitPlan(editing: Option<Product>, f: ProductForm): Plan {
    if !Submittable(f) then Blocked
    else
      var images := ParseImages(f.images);
      if images == [] then Reject(NoImageMessage)
      else if editing.Some? then Update(editing.value.id, PatchOf(FormDraft(f, images)))
      else Create(FormDraft(f, images))
  }

  /** An image list with no path rejects the form, and only that does once the browser lets it through. */
  lemma SubmitRejectsNoImage(editing: Option<Product>, f: ProductForm)
    requires Submittable(f)
    ensures SubmitPlan(editing, f).Reject? <==> ParseImages(f.images) == []
    ensures SubmitPlan(editing, f).Reject? ==> SubmitPlan(editing, f).message == "Au moins une image est requise"
  {
  }

  /** With a product being edited the form updates that product's id; without one it creates. */
  lemma SubmitDispatch(editing: Option<Product>, f: ProductForm)
    requires Submittable(f) && ParseImages(f.images) != []
    ensures editing.Some? ==> SubmitPlan(editing, f).Update? && SubmitPlan(editing, f).id == editing.value.id
    ensures editing.None? ==> SubmitPlan(editing, f).Create?
    ensures var d := FormDraft(f, ParseImages(f.images));
      (editing.Some? ==> SubmitPlan(editing, f).patch == PatchOf(d))
      && (editing.None? ==> SubmitPlan(editing, f).draft == d)
  {
  }

  /** `handleEdit`: the product's fields in the form, the images joined with `", "`. */
  function EditForm(p: Product): ProductForm {
    ProductForm(p.name, p.category, NatToString(p.price),
                match p.oldPrice case None => "" case Some(o) => NatToString(o),
                p.description, Join(p.images, ", "), p.isNew, p.publishedDate)
  }

  /** Editing copies the text fields and flags verbatim and writes the prices in decimal. */
  lemma EditFormFields(p: Product)
    ensures var f := EditForm(p);
      && f.name == p.name && f.category == p.category && f.description == p.description
      && f.isNew == p.isNew && f.publishedDate == p.publishedDate
      && IsPriceText(f.price) && PriceValue(f.price) == p.price
      && (f.oldPrice == "" || IsPriceText(f.oldPrice)) && OldPriceValue(f.oldPrice) == p.oldPrice
  {
    NatToStringValue(p.price);
    if p.oldPrice.Some? {
      NatToStringValue(p.oldPrice.value);
    }
  }

  /** A product whose texts the form can hold and whose images are clean paths. */
  predicate Editable(p: Product) {
    p.name != "" && p.description != "" && p.publishedDate != "" && p.images != []
    && forall i :: 0 <= i < |p.images| ==> CleanPath(p.images[i])
  }

  /** Opening a product for editing and saving at once sends the product's own fields. */
  lemma EditThenSave(p: Product)
    requires Editable(p)
    ensures SubmitPlan(Some(p), EditForm(p)) == Update(p.id, PatchOf(DraftOf(p)))
  {
    EditFormFields(p);
    ParseJoinedImages(p.images);
  }

  /** Saving an unchanged edit over the stored product leaves that product as it was. */
  lemma EditThenSaveKeepsProduct(p: Product)
    requires Editable(p)
    ensures var plan := SubmitPlan(Some(p), EditForm(p));
      plan.Update? && Merge(p, plan.patch, plan.id) == p
  {
    EditThenSave(p);
    MergeFullForm(p, DraftOf(p), p.id);
  }

  /** Clearing the old price of a product while editing cannot remove the stored old price. */
  lemma ClearedOldPriceIsKept(p: Product)
    requires Editable(p) && p.oldPrice.Some?
    ensures var plan := SubmitPlan(Some(p), EditForm(p).(oldPrice := ""));
      plan.Update? && Merge(p, plan.patch, plan.id).oldPrice == p.oldPrice
  {
    EditFormFields(p);
    ParseJoinedImages(p.images);
  }

  /** The API call a plan makes. */
  function SaveOutcome(file: Option<seq<Product>>, plan: Plan, writeOk: bool): Outcome
    requires plan.Create? || plan.Update?
  {
    if plan.Create? then CreateOutcome(file, plan.draft, writeOk)
    else UpdateOutcome(file, Some(plan.id), plan.patch, writeOk)
  }

  /** `response.ok`. */
  predicate Ok(r: Response) {
    200 <= r.status < 300
  }

  /** `err.message`: the response's `error`, or the client's fallback when it has none. */
  function ApiError(r: Response, fallback: string): string {
    if r.body.Failure? && r.body.error != "" then r.body.error else fallback
  }

  const UpdatedMessage := "Produit mis à jour avec succès"
  const CreatedMessage := "Produit créé avec succès"
  const DeletedMessage := "Produit supprimé avec succès"

  function SuccessMessage(plan: Plan): string {
    if plan.Update? then UpdatedMessage else CreatedMessage
  }

  /** The message `createProduct` or `updateProduct` throws when the response has no `error`. */
  function FallbackMessage(plan: Plan): string {
    if plan.Update? then MessageUpdateFailed else MessageCreateFailed
  }

  /** A create from the form stores the draft under a fresh id; a refused write stores nothing. */
  lemma SaveCreate(file: Option<seq<Product>>, d: Draft, writeOk: bool)
    ensures var o := SaveOutcome(file, Create(d), writeOk);
      && (Ok(o.response) <==> writeOk)
      && (writeOk ==> o.file == Some(ReadProducts(file) + [WithId(d, NextId(ReadProducts(file)))]))
      && (!writeOk ==> o.file == file && ApiError(o.response, FallbackMessage(Create(d))) == MessageCreateFailed)
  {
  }

  /** The state of the page component. */
  class AdminPage {
    const store: ProductStore
    var products: seq<Product>
    var loading: bool
    var editing: Option<Product>
    var form: ProductForm
    var error: Option<string>
    var success: Option<string>

    /** The first render, before the products are loaded. */
    constructor (api: ProductStore, today: string)
      ensures store == api && products == [] && loading && editing == None
      ensures form == DefaultForm(today) && error == None && success == None
    {
      store := api;
      products := [];
      loading := true;
      editing := None;
      form := DefaultForm(today);
      error := None;
      success := None;
    }

    /** `loadProducts`: the list the API returns. */
    method Load()
      modifies this
      ensures products == ReadProducts(store.file) && !loading
      ensures editing == old(editing) && form == old(form) && error == old(error) && success == old(success)
    {
      loading := true;
      var r := store.List();
      products := r.body.products;
      loading := false;
    }

    /** Typing into the form. */
    method Input(f: ProductForm)
      modifies this
      ensures form == f
      ensures products == old(products) && loading == old(loading) && editing == old(editing)
      ensures error == old(error) && success == old(success)
    {
      form := f;
    }

    /** `resetForm`. */
    method ResetForm(today: string)
      modifies this
      ensures editing == None && form == DefaultForm(today)
      ensures products == old(products) && loading == old(loading)
      ensures error == old(error) && success == old(success)
    {
      editing := None;
      form := DefaultForm(today);
    }

    /** `handleEdit`. */
    method Edit(p: Product)
      modifies this
      ensures editing == Some(p) && form == EditForm(p)
      ensures products == old(products) && loading == old(loading)
      ensures error == old(error) && success == old(success)
    {
      editing := Some(p);
      form := EditForm(p);
    }

    /**
     * `handleSubmit`. A rejected image list sets the error and calls nothing; a saved product
     * sets the success message, resets the form and reloads; a failed call sets the error.
     */
    method Submit(writeOk: bool, today: string)
      modifies this, store
      ensures var plan := SubmitPlan(old(editing), old(form));
        plan.Blocked? ==>
          && store.file == old(store.file) && form == old(form) && editing == old(editing)
          && error == old(error) && success == old(success) && products == old(products)
          && loading == old(loading)
      ensures var plan := SubmitPlan(old(editing), old(form));
        plan.Reject? ==>
          && store.file == old(store.file) && form == old(form) && editing == old(editing)
          && error == Some(plan.message) && success == None && products == old(products)
          && loading == old(loading)
      ensures var plan := SubmitPlan(old(editing), old(form));
        (plan.Create? || plan.Update?) ==>
          var o := SaveOutcome(old(store.file), plan, writeOk);
          && store.file == o.file
          && (Ok(o.response) ==>
                && success == Some(SuccessMessage(plan)) && error == None
                && editing == None && form == DefaultForm(today)
                && products == ReadProducts(store.file) && !loading)
          && (!Ok(o.response) ==>
                && error == Some(ApiError(o.response, FallbackMessage(plan))) && success == None
                && editing == old(editing) && form == old(form) && products == old(products)
                && loading == old(loading))
    {
      if !Submittable(form) {
        return;
      }
      error := None;
      success := None;
      var images := ParseImages(form.images);
      if images == [] {
        error := Some(NoImageMessage);
        return;
      }
      var data := FormDraft(form, images);
      var r: Response;
      if editing.Some? {
        r := store.Update(Some(editing.value.id), PatchOf(data), writeOk);
        if !Ok(r) {
          error := Some(ApiError(r, MessageUpdateFailed));
          return;
        }
        success := Some(UpdatedMessage);
      } else {
        r := store.Create(data, writeOk);
        if !Ok(r) {
          error := Some(ApiError(r, MessageCreateFailed));
          return;
        }
        success := Some(CreatedMessage);
      }
      ResetForm(today);
      Load();
    }

    /**
     * `handleDelete`: nothing without confirmation; otherwise the `DELETE` call with the id in
     * the query string, then the success message and a reload, or the error.
     */
    method Delete(id: int, confirmed: bool, writeOk: bool)
      modifies this, store
      ensures !confirmed ==>
        && store.file == old(store.file) && products == old(products)
        && error == old(error) && success == old(success) && loading == old(loading)
      ensures confirmed ==>
        var o := DeleteOutcome(old(store.file), Some(IntToString(id)), writeOk);
        && store.file == o.file
        && (Ok(o.response) ==>
              success == Some(DeletedMessage) && error == old(error)
              && products == ReadProducts(store.file) && !loading)
        && (!Ok(o.response) ==>
              error == Some(ApiError(o.response, MessageDeleteFailed))
              && success == old(success) && products == old(products) && loading == old(loading))
      ensures editing == old(editing) && form == old(form)
    {
      if !confirmed {
        return;
      }
      var r := store.Delete(Some(IntToString(id)), writeOk);
      if !Ok(r) {
        error := Some(ApiError(r, MessageDeleteFailed));
        return;
      }
      success := Some(DeletedMessage);
      Load();
    }
  }
}
