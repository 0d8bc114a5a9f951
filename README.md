# Golfa Couture storefront — a Dafny model

Golfa Couture is a small Next.js storefront for a tailoring shop. It has a catalogue of
fabrics, shirts, trousers, suits and accessories, with prices in FCFA. This project models
the logic behind that storefront and proves properties of it:

- **The products API** (`src/app/api/products/route.ts`). A JSON file holds the product list.
  `GET` lists it. `POST` appends a product under the next id. `PUT` merges an update into
  the first record with the id. `DELETE` filters the id out and answers 404 when nothing was
  removed. The file is the `file` field of the class `ProductApi.ProductStore`. `None` stands
  for a file that cannot be read or parsed, which the source reads as the empty list. Each
  handler is specified by a pure function (`CreateOutcome`, `UpdateOutcome`,
  `DeleteOutcome`) that gives the response and the new file contents. The method's
  `ensures` ties it to that function, and lemmas state what the function guarantees.
- **The catalogue** (`src/lib/products.ts`): the product record, the five categories and
  the `all` sentinel, the discount percentage, the price format, the nine seed products and
  the category list (`Catalog`).
- **Search** (`src/app/page.tsx`, `src/app/produits/page.tsx`): the category and
  case-insensitive text filter, and the new-arrivals list (`Search`).
- **The products page** (`src/app/produits/page.tsx`): loading, filtering, the choice
  between the loading message, "Aucun produit trouvé" and the grid, the count line, and
  the badges on a card (`ProductsPage`).
- **The order dialog** (`src/components/OrderDialog.tsx`): the buyer form, the image
  carousel, and the order message. The message is sent either as a WhatsApp link or as a
  `mailto:` link as in section 2 of RFC 6068, percent-encoded as in section 2.1 of RFC 3986
  (`Order`, `Uri`).
- **The admin page** (`src/app/admin/page.tsx`). It parses the image list, maps an empty old
  price to none, and decides between create and update. It fills the form from a product
  for editing, resets it, and takes the messages it shows from the API's answers (`Admin`).

The JavaScript built-ins these rely on are written out in `Text`:

- `trim`, with the full ECMAScript white-space set;
- `toLowerCase`, on ASCII and Latin-1 letters;
- `includes`, `split` and `join`;
- `parseInt`;
- the decimal `toString` of integers.

`Uri` holds `encodeURIComponent` (UTF-8, then percent-encoding of every byte outside the
unreserved set) and a decoder, which is its partner in the round-trip lemmas. `Seqs` holds
`Array.filter` (`Select`) and the subsequence relation.

Prices are non-negative integers. `Math.round((old - price) / old * 100)` is modelled as
rounding half up of the exact quotient (`RoundsHalfUp`: `2·old·r ≤ 200·(old − price) + old <
2·old·r + 2·old`). Doubles can round the other way when the exact value sits on a half: for
price 17 and old price 40 the exact value is 57.5 and the model gives 58, while the double
computation gives 57.49999999999999 and so 57.

Following the code as written has these consequences:

- Ids can be reused. Deleting the product with the highest id and then creating one gives
  the new product that id again (`ProductApi.DeleteLastThenCreateReusesId`).
- A price above the old price does not always give a negative discount. `Math.round(-0.4)`
  is 0, so the discount is negative exactly when `200·(price − old) > old`
  (`Catalog.DiscountAboveOldPrice`).
- The home page filters the built-in seed list (`products` is `defaultProducts`), not the
  products the API returns. Only the products page uses the API list.
- The order dialog stays mounted once a product has been chosen, so its state survives a
  dismissal. Ordering a second product keeps the typed form and the image index. An index
  left from a product with more images shows no image (`undefined`) until the carousel
  moves (`Order.StaleImageAfterReopen`).
- `oldPrice: undefined` is dropped by `JSON.stringify`, so an update built from the admin
  form never carries "no old price". Clearing the old price of a product while editing
  therefore keeps the stored one (`Admin.ClearedOldPriceIsKept`).

## Model

| member | source | states |
|---|---|---|
| Seqs.SelectSubsequence | src/app/page.tsx:26-31 | `Array.filter` keeps a subsequence of its input, in the input's order |
| Seqs.SelectSound | src/app/page.tsx:26-31 | every element the filter keeps comes from the input and passes the predicate |
| Seqs.SelectComplete | src/app/page.tsx:26-31 | every element of the input that passes the predicate is kept |
| Seqs.SelectKeepsLength | src/app/api/products/route.ts:126-128 | the filter keeps the length exactly when every element passes |
| Seqs.SelectIdempotent | src/app/page.tsx:26-31 | filtering a filtered list again with the same predicate changes nothing |
| Seqs.SelectSelect | src/app/page.tsx:34 | a filter of a filter is one filter by the conjunction of both predicates |
| Seqs.SelectAppend | src/app/page.tsx:26-31 | filtering distributes over concatenation |
| Text.TrimStart | src/app/admin/page.tsx:63 | the result is no longer than the input and does not start with white space |
| Text.TrimStartSuffix | src/app/admin/page.tsx:63 | trimming the start leaves a suffix of the input |
| Text.TrimStartDropsSpace | src/app/admin/page.tsx:63 | every character removed from the front is white space |
| Text.TrimEnd | src/app/admin/page.tsx:63 | the result is no longer than the input and does not end with white space |
| Text.TrimEndPrefix | src/app/admin/page.tsx:63 | trimming the end leaves a prefix of the input |
| Text.TrimEndDropsSpace | src/app/admin/page.tsx:63 | every character removed from the back is white space |
| Text.TrimFixedPoint | src/app/admin/page.tsx:63 | `trim` leaves a string unchanged exactly when it is empty or neither starts nor ends with white space |
| Text.TrimIdempotent | src/app/admin/page.tsx:63 | trimming twice is trimming once |
| Text.TrimPadded | src/components/OrderDialog.tsx:28-41 | white space around text that starts with a non-space is removed, leaving the text without its trailing space |
| Text.Lower | src/app/page.tsx:28-29 | `toLowerCase` keeps the length |
| Text.LowerIdempotent | src/app/page.tsx:28-29 | lowering twice is lowering once |
| Text.LowerPointwise | src/app/page.tsx:28-29 | each character is lowered on its own |
| Text.ContainsIff | src/app/page.tsx:28-29 | `includes` holds exactly when the part occurs at some index |
| Text.ContainsHasChars | src/app/page.tsx:28-29 | a string that includes a part holds each of the part's characters |
| Text.ContainsEmpty | src/app/page.tsx:28-29 | every string includes the empty query |
| Text.Split | src/app/admin/page.tsx:62 | `split` gives at least one piece, none of which holds the separator |
| Text.SplitAt | src/app/admin/page.tsx:62 | splitting at the first separator gives the text before it, then the split of the rest |
| Text.JoinSplit | src/app/admin/page.tsx:62 | joining the pieces of a split with the separator gives back the string |
| Text.SplitJoin | src/app/admin/page.tsx:105 | splitting a join of separator-free pieces gives back the pieces |
| Text.JoinSnoc | src/app/admin/page.tsx:105 | joining one more piece appends the separator and the piece |
| Text.JoinAppend | src/app/admin/page.tsx:105 | joining two non-empty lists of pieces is joining each, with the separator between |
| Text.SplitJoinThen | src/components/OrderDialog.tsx:28-41 | splitting separator-free lines joined and followed by a separator and a text gives the lines, then the split of the text |
| Text.NatToString | src/app/admin/page.tsx:102 | the decimal form of a number is a non-empty string of digits |
| Text.NatToStringValue | src/app/admin/page.tsx:102 | the decimal digits of a number read back as that number |
| Text.ParseIntNaN | src/app/api/products/route.ts:116 | `parseInt` gives NaN exactly when no digit follows the white space, the sign and an optional `0x` |
| Text.ParseIntDigits | src/app/api/products/route.ts:116 | `parseInt` of a digit string is its decimal value |
| Text.ParseIntNegativeDigits | src/app/api/products/route.ts:116 | `parseInt` of a minus sign and digits is the negated value |
| Text.ParseIntToString | src/app/api/products/route.ts:116 | `parseInt` reads back the decimal form of every integer |
| Uri.Utf8 | src/components/OrderDialog.tsx:46 | a character takes one to four UTF-8 bytes, and one byte, its own code, exactly when it is ASCII |
| Uri.HexRoundTrip | src/components/OrderDialog.tsx:46 | each hex digit written by the encoder reads back as its value |
| Uri.PercentBytesSafe | src/components/OrderDialog.tsx:46 | percent-escaping bytes writes only unreserved characters and `%` |
| Uri.EncodeSafe | src/components/OrderDialog.tsx:46 | `encodeURIComponent` writes only unreserved characters and `%`, so no `&`, `?` or `=` of the link can come from the message |
| Uri.DecodePercentBytes | src/components/OrderDialog.tsx:46 | decoding the escapes of a byte sequence gives the bytes back, followed by the decoding of the rest |
| Uri.DecodeEncodeChar | src/components/OrderDialog.tsx:46 | decoding one encoded character gives its UTF-8 bytes, followed by the decoding of the rest |
| Uri.DecodeEncode | src/components/OrderDialog.tsx:46 | percent-decoding `encodeURIComponent(s)` gives the UTF-8 bytes of `s` |
| Uri.EncodeAppend | src/components/OrderDialog.tsx:51-52 | encoding a concatenation is the concatenation of the encodings |
| Catalog.Category.Value | src/lib/products.ts:4 | each category's value is its French literal, never the `all` sentinel |
| Catalog.ParseCategoryValue | src/lib/products.ts:4 | reading a category's value gives that category back |
| Catalog.ValueParseCategory | src/lib/products.ts:4 | a string read as a category is that category's value |
| Catalog.DiscountPercentage | src/lib/products.ts:163-166 | no old price or an old price of 0 gives 0 (no division); otherwise the result is 100·(old − price)/old rounded half up |
| Catalog.RoundsHalfUpUnique | src/lib/products.ts:165 | that rounding has exactly one result, so the discount is determined by the formula |
| Catalog.DiscountInRange | src/lib/products.ts:165 | a price at or below a positive old price gives a discount between 0 and 100 |
| Catalog.DiscountEndpoints | src/lib/products.ts:165 | the discount is 0 at the old price and 100 at price 0 |
| Catalog.DiscountAboveOldPrice | src/lib/products.ts:165 | above the old price the discount is at most 0, and negative exactly when `200·(price − old) > old` |
| Catalog.SeedDiscounts | src/lib/products.ts:163-166 | the seed shows discounts of 29, 73 and 91 percent (7500 from 10500, 9500 from 35000, 6500 from 75000) |
| Catalog.FormatPrice | src/lib/products.ts:168-173 | a formatted price always ends with " FCFA" |
| Catalog.UngroupGroup | src/lib/products.ts:169-172 | removing the group separators from grouped digits gives the digits back |
| Catalog.FormatPriceDigits | src/lib/products.ts:168-173 | a formatted price is the grouped decimal digits of the price and " FCFA", and the digits read back without the separators |
| Catalog.GroupAvoids | src/lib/products.ts:169-172 | grouping adds no character other than the separator |
| Catalog.FormatPriceOneLine | src/lib/products.ts:168-173 | a formatted price has no line break |
| Catalog.FormatSeedPrice | src/lib/products.ts:168-173 | 7500 is shown as "7 500 FCFA" with a narrow no-break space |
| Catalog.SeedIds | src/lib/products.ts:14-141 | the seed has nine products, numbered 1 to 9 in order |
| Catalog.SeedDistinctIds | src/lib/products.ts:14-141 | the seed ids are distinct |
| Catalog.SeedWellFormed | src/lib/products.ts:14-141 | every seed product has at least one image, and every seed product with an old price sells below it |
| Catalog.AllCategoriesComplete | src/lib/products.ts:4 | the category list holds every category, each once |
| Catalog.CategoriesShape | src/lib/products.ts:175-182 | `categories` is the `all` sentinel followed by exactly the five category values, in order |
| Search.FilterSubsequence | src/app/page.tsx:25-32 | the filtered list is a subsequence of the products, in their order |
| Search.FilterMembership | src/app/page.tsx:27-30 | a product is shown exactly when it is listed, its category is selected or `all` is, and the lowered query occurs in its lowered name or description |
| Search.FilterShowsAll | src/app/page.tsx:27-29 | category `all` and an empty query show every product |
| Search.FilterIdempotent | src/app/page.tsx:26-31 | filtering the filtered list again with the same settings changes nothing |
| Search.FilterQueryCase | src/app/page.tsx:28-29 | queries with the same lower-case form give the same result |
| Search.FilterCaseInsensitive | src/app/page.tsx:28-29 | a query and its lower-case form give the same result |
| Search.NewProductsAreNewMatches | src/app/page.tsx:34 | the new arrivals are exactly the matching products marked new, in order, and a subsequence of the products |
| Search.NewArrivalsOfNine | src/app/page.tsx:34 | in nine products numbered 1 to 9 with the seed's `isNew` flags, the new arrivals are 1, 2, 4, 7, 8 and 9 |
| Search.SeedNewArrivals | src/app/page.tsx:34 | on the seed with no filter the new arrivals are products 1, 2, 4, 7, 8 and 9 |
| ProductsPage.GridShowsMatches | src/app/produits/page.tsx:111-135 | loading shows the loading message; after it, no match shows "Aucun produit trouvé", and otherwise the grid shows exactly the matches |
| ProductsPage.CountTextForms | src/app/produits/page.tsx:132 | one result reads "1 produit trouvé", n > 1 results read "n produits trouvés" |
| ProductsPage.CountTextStartsWithCount | src/app/produits/page.tsx:132 | the count line starts with the decimal digits of the count |
| ProductsPage.ExtraImages | src/app/produits/page.tsx:178-185 | the hover image and the `+k` badge appear together, exactly when there is more than one image; the hover image is the second one and `k` is the number of images after the first |
| ProductsPage.DiscountBadgeReduced | src/app/produits/page.tsx:164-168 | a product reduced from a positive old price shows `-r%` with r between 0 and 100 |
| ProductsPage.FailedLoadShowsNothingFound | src/app/produits/page.tsx:111-117 | when the first load fails, loading ends with an empty list and "Aucun produit trouvé" shows whatever the filter |
| ProductsPage.ProductsPage.constructor | src/app/produits/page.tsx:14-19 | the first render has no products, is loading, shows category `all`, an empty query and no dialog |
| ProductsPage.ProductsPage.FinishLoading | src/app/produits/page.tsx:21-33 | the fetched list replaces the products, a failed fetch keeps them, and loading is over in both cases; the filter and dialog state are unchanged |
| ProductsPage.ProductsPage.SetQuery | src/app/produits/page.tsx:90 | typing sets the query and nothing else |
| ProductsPage.ProductsPage.SelectCategory | src/app/produits/page.tsx:101 | a category button sets the category and nothing else |
| ProductsPage.ProductsPage.ResetFilters | src/app/produits/page.tsx:120-123 | the reset sets the query to empty and the category to `all`, after which every loaded product passes the filter and the results area shows the loading message, "Aucun produit trouvé" or the grid of all of them |
| ProductsPage.ProductsPage.Order | src/app/produits/page.tsx:35-38 | ordering opens the dialog for that product and leaves the list and filters alone |
| Order.WithGet | src/components/OrderDialog.tsx:172 | typing into one buyer field changes that field and no other |
| Order.FillingEnablesSubmit | src/components/OrderDialog.tsx:211 | the send buttons start disabled and are enabled exactly when nom, prénom and téléphone are all non-empty |
| Order.JsRemainderBounds | src/components/OrderDialog.tsx:63 | JavaScript's `%` has the sign of the dividend and a magnitude below the divisor, and it agrees with Dafny's `%` on non-negative numbers |
| Order.NextIndexSteps | src/components/OrderDialog.tsx:62-64 | `next` moves to the following image and wraps from the last one to the first |
| Order.PrevIndexSteps | src/components/OrderDialog.tsx:66-68 | `prev` moves to the preceding image and wraps from the first one to the last |
| Order.CarouselSteps | src/components/OrderDialog.tsx:62-68 | `next` and `prev` keep the index among the images, undo each other, and with one image both stay at 0 |
| Order.HeadLinesOneLine | src/components/OrderDialog.tsx:29-38 | with single-line buyer fields and product name, no header line of the message holds a line break |
| Order.TemplateLines | src/components/OrderDialog.tsx:28-41 | trimming the template and splitting it at line breaks gives its single-line lines in order, then the lines of the last piece with its trailing space removed |
| Order.TemplateTrim | src/components/OrderDialog.tsx:28-41 | `trim` on the template removes the newline before it and the newline and indentation after it, and the trailing space of the last piece, and nothing else |
| Order.DescriptionLineKept | src/components/OrderDialog.tsx:40 | the description line is never blank, so `trim` never reaches into the lines above it |
| Order.MessageLines | src/components/OrderDialog.tsx:28-41 | the message's lines are, in order: the title, a blank line, product name, price, category, a blank line, the client heading, nom, prénom, téléphone, a blank line and then the lines of the description without its trailing space; a one-line description gives exactly one last line |
| Order.OneLineDescription | src/components/OrderDialog.tsx:40 | a description without a line break stays one line after `trimEnd` |
| Order.ReadFieldsSplits | src/components/OrderDialog.tsx:53 | a subject value without `&`, then `&body=` and a body value, read back as the two decoded values |
| Order.WhatsAppRoundTrip | src/components/OrderDialog.tsx:43-47 | the WhatsApp link is `https://wa.me/22376376746?text=` and a text that decodes to the UTF-8 bytes of the message |
| Order.MailtoRoundTrip | src/components/OrderDialog.tsx:48-54 | the e-mail link is `mailto:dktseydou@gmail.com?subject=`, an encoded subject, `&body=` and an encoded body, which decode to the UTF-8 bytes of the subject and of the message |
| Order.OrderDialog.ShownImage | src/components/OrderDialog.tsx:84 | the image shown is the product's image at the index, or none (`undefined`) when the index is past the images |
| Order.OrderDialog.constructor | src/components/OrderDialog.tsx:18-23 | the first mount opens with an empty form on the first image of the chosen product |
| Order.OrderDialog.Reopen | src/app/produits/page.tsx:239-246 | ordering another product while the dialog is mounted changes its product and opens it, keeping the form and the image index |
| Order.OrderDialog.Input | src/components/OrderDialog.tsx:172 | typing changes the one field and leaves the carousel and the dialog alone |
| Order.OrderDialog.NextImage | src/components/OrderDialog.tsx:62-64 | `next` sets the index to JavaScript's `(i + 1) % n`, from any index, including one left from another product, and afterwards an image is shown |
| Order.OrderDialog.PrevImage | src/components/OrderDialog.tsx:66-68 | `prev` sets the index to JavaScript's `(i - 1 + n) % n`, from any index, including one left from another product, and afterwards an image is shown |
| Order.OrderDialog.ShowImage | src/components/OrderDialog.tsx:119 | clicking a thumbnail shows that image |
| Order.OrderDialog.Submit | src/components/OrderDialog.tsx:25-60 | a submit, possible only once the three fields are filled, returns the one link of the chosen channel, built from the product and the form as it was, then empties the form, goes back to the first image and closes the dialog |
| Order.OrderDialog.Dismiss | src/components/OrderDialog.tsx:71 | closing the dialog keeps the product, the form and the image |
| Order.StaleImageAfterReopen | src/components/OrderDialog.tsx:23-84 | after typing a name and stepping to the third image of a product, dismissing and ordering a one-image product, the name is kept, the index is 2 and no image is shown |
| ProductApi.WithId | src/app/api/products/route.ts:53-56 | a new product carries the assigned id, whatever id the body had |
| ProductApi.DraftRoundTrip | src/app/api/products/route.ts:53-56 | a product is its fields plus its id: splitting one and putting it back together changes nothing |
| ProductApi.Merge | src/app/api/products/route.ts:93-97 | the merged product has the requested id |
| ProductApi.MergeFields | src/app/api/products/route.ts:93-97 | for each of the eight fields (name, price, old price, category, images, new flag, publication date, description), a supplied value overrides the stored one and an absent one keeps it |
| ProductApi.MergeNoChange | src/app/api/products/route.ts:93-97 | an empty update leaves the product as it was |
| ProductApi.MergeIdempotent | src/app/api/products/route.ts:93-97 | applying the same update twice is applying it once |
| ProductApi.MergeFullForm | src/app/api/products/route.ts:93-97 | an update with every field replaces the product, except that a missing old price keeps the stored one |
| ProductApi.ReadProducts | src/app/api/products/route.ts:9-17 | a readable file gives its list; an unreadable one gives the empty list |
| ProductApi.MaxId | src/app/api/products/route.ts:50 | `Math.max` of the ids is one of the ids and at least every id |
| ProductApi.NextId | src/app/api/products/route.ts:49-51 | the next id is above every stored id; it is 1 in an empty store and otherwise the largest id plus 1 |
| ProductApi.FindIndex | src/app/api/products/route.ts:84 | `findIndex` gives -1 exactly when no record has the id, and otherwise the first record with it |
| ProductApi.RemoveIdContents | src/app/api/products/route.ts:126 | the delete filter keeps the other records in their order and drops every record with the id |
| ProductApi.RemoveIdLength | src/app/api/products/route.ts:126-128 | the filtered list keeps its length exactly when no record has the id |
| ProductApi.SelectKeepsDistinct | src/app/api/products/route.ts:126 | filtering a list with distinct ids keeps them distinct |
| ProductApi.RemoveIdKeepsDistinct | src/app/api/products/route.ts:126 | removing an id keeps the ids distinct |
| ProductApi.ReplaceKeepsDistinct | src/app/api/products/route.ts:99-100 | replacing a record by one with the same id keeps the ids distinct |
| ProductApi.AppendKeepsDistinct | src/app/api/products/route.ts:58 | appending a record whose id is above every stored id keeps the ids distinct |
| ProductApi.CreateAppends | src/app/api/products/route.ts:53-61 | a successful create answers 201 with the new product and appends it as the last record, leaving every earlier record unchanged |
| ProductApi.CreateIdFresh | src/app/api/products/route.ts:49-51 | the created product's id is above every stored id, and 1 in an empty store |
| ProductApi.UpdateMissingId | src/app/api/products/route.ts:76-81 | an update with no id or id 0 answers 400 "ID du produit requis" and writes nothing |
| ProductApi.UpdateNotFound | src/app/api/products/route.ts:83-91 | an update answers 404 exactly when the id is usable and no record has it, and then writes nothing |
| ProductApi.UpdateChangesOneRecord | src/app/api/products/route.ts:93-103 | a successful update keeps the length, merges the first record with the id, keeps the id, leaves every other record and answers with the merged product |
| ProductApi.QueryIdOfInt | src/app/api/products/route.ts:116 | the id an admin puts in the query string reads back as that id |
| ProductApi.DeleteMissingId | src/app/api/products/route.ts:116-123 | a delete with no id parameter, or an empty one, answers 400 and writes nothing |
| ProductApi.DeleteUnusableId | src/app/api/products/route.ts:116-123 | a delete whose id parses to NaN or 0 answers 400 and writes nothing |
| ProductApi.DeleteNotFound | src/app/api/products/route.ts:125-133 | a delete answers 404 exactly when the id is usable and no record has it, and then writes nothing |
| ProductApi.DeleteRemovesId | src/app/api/products/route.ts:125-137 | a successful delete stores a shorter subsequence of the records: exactly those without the id |
| ProductApi.CreateWritesOnSuccess | src/app/api/products/route.ts:58-67 | a create answers 201 exactly when the write succeeds; a failed write leaves the file as it was |
| ProductApi.UpdateWritesOnSuccess | src/app/api/products/route.ts:99-109 | an update that does not answer 200 leaves the file as it was, and one that does has written it |
| ProductApi.DeleteWritesOnSuccess | src/app/api/products/route.ts:135-143 | a delete that does not answer 200 leaves the file as it was, and one that does has written it |
| ProductApi.CreateKeepsDistinct | src/app/api/products/route.ts:49-59 | if the stored ids are distinct, they are distinct after a create |
| ProductApi.UpdateKeepsDistinct | src/app/api/products/route.ts:93-101 | if the stored ids are distinct, they are distinct after an update |
| ProductApi.DeleteKeepsDistinct | src/app/api/products/route.ts:125-135 | if the stored ids are distinct, they are distinct after a delete |
| ProductApi.DeleteLastThenCreateReusesId | src/app/api/products/route.ts:49-51 | in a store numbered 1 to n, deleting n and then creating gives the new product id n again |
| ProductApi.ProductStore.constructor | src/app/api/products/route.ts:6 | the store starts from the given file contents |
| ProductApi.ProductStore.List | src/app/api/products/route.ts:30-40 | `GET` answers 200 with the stored list, or with the empty list when the file cannot be read |
| ProductApi.ProductStore.Create | src/app/api/products/route.ts:43-68 | `POST` gives the response and new file of `CreateOutcome` |
| ProductApi.ProductStore.Update | src/app/api/products/route.ts:71-110 | `PUT` gives the response and new file of `UpdateOutcome`, changing the copy's one record in place |
| ProductApi.ProductStore.Delete | src/app/api/products/route.ts:113-144 | `DELETE` gives the response and new file of `DeleteOutcome` |
| Admin.DefaultForm | src/app/admin/page.tsx:17-26 | the empty form: empty texts, category `tissu`, not new, and today's date |
| Admin.TrimAll | src/app/admin/page.tsx:63 | the result has one piece per input piece, each the trim of the piece in the same position |
| Admin.TrimAllTrimmed | src/app/admin/page.tsx:63 | every trimmed piece is its own trim |
| Admin.ParseImagesClean | src/app/admin/page.tsx:61-64 | every parsed image path is non-empty and equal to its own trim |
| Admin.CleanPathTrimmed | src/app/admin/page.tsx:63 | a path that neither starts nor ends with white space is its own trim |
| Admin.TrimJoinedPieces | src/app/admin/page.tsx:62-63 | splitting `paths.join(", ")` at commas and trimming the pieces gives the paths back |
| Admin.ParseJoinedImages | src/app/admin/page.tsx:105 | parsing the image field that editing fills in, `images.join(", ")`, gives back the images when each is non-empty, trimmed and comma-free |
| Admin.OldPriceCases | src/app/admin/page.tsx:75 | an empty old-price field sends no old price; a filled one sends its number |
| Admin.SubmitRejectsNoImage | src/app/admin/page.tsx:66-69 | once the browser lets the form through, it is rejected with "Au moins une image est requise" exactly when no image path is left after parsing |
| Admin.SubmitDispatch | src/app/admin/page.tsx:82-88 | with a product being edited the form updates that product's id with the form's fields; without one it creates a product from them |
| Admin.EditFormFields | src/app/admin/page.tsx:97-108 | editing copies name, category, description, isNew and date verbatim and writes the prices in decimal, so they read back as the product's |
| Admin.EditThenSave | src/app/admin/page.tsx:97-108 | saving an edit at once sends an update of that id with the product's own fields |
| Admin.EditThenSaveKeepsProduct | src/app/admin/page.tsx:97-108 | saving an edit at once leaves the stored product as it was |
| Admin.ClearedOldPriceIsKept | src/app/admin/page.tsx:75 | clearing the old price while editing keeps the stored old price, since no old price is sent |
| Admin.SaveCreate | src/app/admin/page.tsx:86 | a create from the form succeeds exactly when the write does, stores the draft under the next id, and otherwise leaves the file and reports "Erreur lors de la création du produit" |
| Admin.AdminPage.constructor | src/app/admin/page.tsx:14-28 | the first render: no products, loading, nothing edited, the empty form, no message |
| Admin.AdminPage.Load | src/app/admin/page.tsx:42-53 | loading sets the products to what the API lists and ends loading |
| Admin.AdminPage.Input | src/app/admin/page.tsx:185 | typing replaces the form and nothing else |
| Admin.AdminPage.ResetForm | src/app/admin/page.tsx:126-138 | the reset stops editing and restores the empty form |
| Admin.AdminPage.Edit | src/app/admin/page.tsx:97-110 | editing remembers the product and fills the form from it |
| Admin.AdminPage.Submit | src/app/admin/page.tsx:55-95 | a form the browser blocks does nothing; a missing image sets the error and calls nothing; otherwise the create or the update is called, and success sets its message, resets the form and reloads, while failure sets the API's error and keeps the form; only a reload touches the loading flag |
| Admin.AdminPage.Delete | src/app/admin/page.tsx:112-124 | without confirmation nothing happens; otherwise the `DELETE` runs, and success sets "Produit supprimé avec succès" and reloads, while failure sets the API's error; only a reload touches the loading flag |

## Left out

- File I/O and JSON (`fs.readFile`, `fs.writeFile`, `JSON.parse`, `JSON.stringify` in
  `src/app/api/products/route.ts:9-27`). The file is a value, and a failed write is the
  `writeOk` parameter. A request body is taken to be well-formed: request bodies that are
  not JSON, ids that are not numbers, and fields outside the product record are not
  modelled.
- The `500` branch of `GET` (`route.ts:34-39`) is not modelled, because `readProducts`
  never throws.
- Concurrency between requests: the model has one writer.
- The HTTP client `src/lib/api.ts` and `getProductsFromAPI` are not modelled as code. The
  admin page holds the store itself, so a response reaches it as the client passes it on:
  the `error` of a failed response, or the client's fallback message. A network failure is
  not modelled either, so the admin's "Erreur lors du chargement des produits" cannot
  occur in the model. The products page's load takes the fetched list or `None` as a
  parameter.
- Floating point. Prices are non-negative integers and `parseFloat` reads decimal digits.
  `Math.round` on doubles becomes the exact integer rounding. Fractional prices are not
  modelled.
- Catalog.DiscountPercentage rounds the exact quotient half up, not the double. The two
  differ when the double falls just below a half, as for price 17 and old price 40 (57 in
  JavaScript, 58 in the model).
- Catalog.FormatPrice: only the fr-FR grouping of whole numbers, in threes with U+202F, is
  modelled. The rest of `Intl.NumberFormat` (locale data, fractions) is not.
- Uri.EncodeUriComponent: strings are sequences of Unicode scalar values, not UTF-16 code
  units. A lone surrogate, which `encodeURIComponent` rejects with a `URIError` so that
  `handleSubmit` stops before opening the link and resetting the form, is not modelled;
  `Order.OrderDialog.Submit` always returns a link.
- `toLocaleDateString`, and the date shown on a card, are not modelled.
- Text.Lower: `toLowerCase` is modelled only for ASCII and Latin-1 capitals. Every other
  character is left as it is.
- Browser effects are not modelled. `window.open` is the link `Submit` returns,
  `confirm` is the `confirmed` parameter, and scrolling is left out.
- The clock is left out: `new Date()` becomes the `today` parameter.
- Order.OrderDialog.NextImage and Order.OrderDialog.PrevImage require at least one image.
  With no image the carousel computes `% 0`, which is NaN in JavaScript. The arrows render
  only for more than one image.
- Order.OrderDialog: the model follows the mounted-once dialog as written, including the
  stale image index after ordering another product. No dialog that resets per product is
  modelled.
- The dialog's `open` is a property owned by its parent. It is modelled as a field of the
  dialog.
- Order.MessageLines assumes buyer fields and a product name without line breaks
  (`SingleLine`); they are one-line inputs. The description may hold line breaks.
- Search: the seed search for category `tissu` and query `bazin` is not proved to return
  only product 1. The seed descriptions make that proof too costly. The new-arrivals
  result on the seed is proved.
- The home page's own state (the selected product and the dialog flag) is not modelled; its
  filter is the one `Search` models.
- `src/lib/testimonials.ts`, `src/app/layout.tsx`, `src/app/ClientBody.tsx`,
  `src/components/ui/input.tsx` and the page markup have no logic and are not part of this
  model.
