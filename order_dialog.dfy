/**
 * The order dialog: the buyer's three fields, the image carousel, and the order message
 * sent either as a WhatsApp link or as a `mailto:` link (section 2 of RFC 6068), both
 * percent-encoded.
 */
module Order {
  import opened Options
  import opened Text
  import opened Uri
  import opened Catalog

  /** The buyer's fields: `nom`, `prenom`, `telephone`. */
  datatype BuyerForm = BuyerForm(nom: string, prenom: string, telephone: string)

  datatype Field = Nom | Prenom | Telephone

  const EmptyForm := BuyerForm("", "", "")

  function Get(f: BuyerForm, field: Field): string {
    match field
    case Nom => f.nom
    case Prenom => f.prenom
    case Telephone => f.telephone
  }

  /** `setFormData({ ...formData, [field]: value })`. */
  function With(f: BuyerForm, field: Field, value: string): BuyerForm {
    match field
    case Nom => f.(nom := value)
    case Prenom => f.(prenom := value)
    case Telephone => f.(telephone := value)
  }

  /** Typing into one field sets that field and leaves the other two. */
  lemma WithGet(f: BuyerForm, field: Field, value: string, other: Field)
    ensures Get(With(f, field, value), other) == if other == field then value else Get(f, other)
  {
  }

  /** `!formData.nom || !formData.prenom || !formData.telephone`: the submit buttons are greyed out. */
  predicate SubmitDisabled(f: BuyerForm) {
    f.nom == "" || f.prenom == "" || f.telephone == ""
  }

  /** Starting from the empty form, the buttons become usable exactly when all three entries are non-empty. */
  lemma FillingEnablesSubmit(nom: string, prenom: string, telephone: string)
    ensures SubmitDisabled(EmptyForm)
    ensures var f := With(With(With(EmptyForm, Nom, nom), Prenom, prenom), Telephone, telephone);
      !SubmitDisabled(f) <==> nom != "" && prenom != "" && telephone != ""
  {
  }

  /** JavaScript's `%` for a positive divisor: the remainder of division truncated toward zero. */
  function JsRemainder(a: int, n: int): (r: int)
    requires n > 0
  {
    if a >= 0 then a % n else -((-a) % n)
  }

  /** JavaScript's integer division truncated toward zero, for a positive divisor. */
  function TruncatedQuotient(a: int, n: int): int
    requires n > 0
  {
    if a >= 0 then a / n else -((-a) / n)
  }

  /** The remainder is what the truncated quotient leaves: smaller than the divisor in size and signed like the dividend. */
  lemma JsRemainderBounds(a: int, n: int)
    requires n > 0
    ensures var r := JsRemainder(a, n);
      && -n < r < n
      && (a >= 0 ==> r >= 0) && (a <= 0 ==> r <= 0)
      && a == n * TruncatedQuotient(a, n) + r
  {
    if a < 0 {
      var q := (-a) / n;
      assert -a == n * q + (-a) % n;
      assert n * (-q) == -(n * q);
    }
  }

  /** `nextImage`: `(prev + 1) % images.length`. */
  function NextIndex(i: int, n: int): int
    requires n >= 1
  {
    JsRemainder(i + 1, n)
  }

  /** `prevImage`: `(prev - 1 + images.length) % images.length`. */
  function PrevIndex(i: int, n: int): int
    requires n >= 1
  {
    JsRemainder(i - 1 + n, n)
  }

  /** On a valid index, next steps forward and wraps from the last image to the first. */
  lemma NextIndexSteps(i: int, n: int)
    requires 0 <= i < n
    ensures NextIndex(i, n) == if i == n - 1 then 0 else i + 1
  {
  }

  /** On a valid index, previous steps back and wraps from the first image to the last. */
  lemma PrevIndexSteps(i: int, n: int)
    requires 0 <= i < n
    ensures PrevIndex(i, n) == if i == 0 then n - 1 else i - 1
  {
    assert i - 1 + n >= 0;
    if i > 0 {
      assert (i - 1 + n) % n == i - 1 by {
        assert i - 1 + n == n * 1 + (i - 1);
      }
    }
  }

  /** Both steps stay on a valid index and undo each other; with one image both stay at 0. */
  lemma CarouselSteps(i: int, n: int)
    requires 0 <= i < n
    ensures 0 <= NextIndex(i, n) < n && 0 <= PrevIndex(i, n) < n
    ensures PrevIndex(NextIndex(i, n), n) == i && NextIndex(PrevIndex(i, n), n) == i
    ensures n == 1 ==> NextIndex(i, n) == 0 && PrevIndex(i, n) == 0
  {
    NextIndexSteps(i, n);
    PrevIndexSteps(i, n);
    NextIndexSteps(PrevIndex(i, n), n);
    PrevIndexSteps(NextIndex(i, n), n);
  }

  const Title := "Nouvelle Commande - GOLFA COUTURE"
  const ClientHeading := "Informations du client:"
  const ProductLabel := "Produit reference: "
  const PriceLabel := "Prix: "
  const CategoryLabel := "Catégorie: "
  const NomLabel := "Nom: "
  const PrenomLabel := "Prénom: "
  const TelephoneLabel := "Téléphone: "

  /** The lines of the order template before the description. */
  function HeadLines(p: Product, f: BuyerForm): seq<string> {
    [ Title, "",
      ProductLabel + p.name,
      PriceLabel + FormatPrice(p.price),
      CategoryLabel + p.category.Value(),
      "",
      ClientHeading,
      NomLabel + f.nom,
      PrenomLabel + f.prenom,
      TelephoneLabel + f.telephone,
      "" ]
  }

  function DescriptionLine(p: Product): string {
    "Description: " + p.description
  }

  /** The template literal: a newline, the lines, a newline and the closing indentation. */
  function Template(p: Product, f: BuyerForm): string {
    "\n" + Join(HeadLines(p, f) + [DescriptionLine(p)], "\n") + "\n    "
  }

  /** `message`: the trimmed template. */
  function Message(p: Product, f: BuyerForm): string {
    Trim(Template(p, f))
  }

  /** No line break in the product name or the buyer's entries, which are one-line inputs. */
  predicate SingleLine(p: Product, f: BuyerForm) {
    '\n' !in p.name && '\n' !in f.nom && '\n' !in f.prenom && '\n' !in f.telephone
  }

  lemma CategoryOneLine(c: Category)
    ensures '\n' !in c.Value()
  {
  }

  /** Every template line before the description is free of line breaks for single-line inputs. */
  lemma HeadingsOneLine()
    ensures '\n' !in Title && '\n' !in ClientHeading
  {
  }

  lemma LabelsOneLine()
    ensures '\n' !in ProductLabel && '\n' !in PriceLabel && '\n' !in CategoryLabel
    ensures '\n' !in NomLabel && '\n' !in PrenomLabel && '\n' !in TelephoneLabel
  {
  }

  /** Every template line before the description is free of line breaks for single-line inputs. */
  lemma HeadLinesOneLine(p: Product, f: BuyerForm)
    requires SingleLine(p, f)
    ensures forall i :: 0 <= i < |HeadLines(p, f)| ==> '\n' !in HeadLines(p, f)[i]
  {
    FormatPriceOneLine(p.price);
    CategoryOneLine(p.category);
    HeadingsOneLine();
    LabelsOneLine();
  }

  /**
   * Trimming a template made of lines, with a newline before and a newline and indentation
   * after, and splitting it at line breaks gives back the lines, then the lines of the last
   * piece without its trailing white space.
   */
  lemma TemplateLines(head: seq<string>, last: string)
    requires head != [] && head[0] != [] && !IsSpace(head[0][0])
    requires forall i :: 0 <= i < |head| ==> '\n' !in head[i]
    requires TrimEnd(last) != []
    ensures Split(Trim("\n" + Join(head + [last], "\n") + "\n    "), '\n') == head + Split(TrimEnd(last), '\n')
  {
    TemplateTrim(head, last);
    SplitJoinThen(head, TrimEnd(last), '\n');
  }

  /** Trimming the template leaves the lines joined, with only the last one trimmed at its end. */
  lemma TemplateTrim(head: seq<string>, last: string)
    requires head != [] && head[0] != [] && !IsSpace(head[0][0])
    requires TrimEnd(last) != []
    ensures Trim("\n" + Join(head + [last], "\n") + "\n    ") == Join(head, "\n") + "\n" + TrimEnd(last)
  {
    var body := Join(head + [last], "\n");
    var prefix := Join(head, "\n") + "\n";
    JoinSnoc(head, last, "\n");
    assert body[0] == head[0][0] by {
      assert body == prefix + last;
      if |head| == 1 {
        assert prefix == head[0] + "\n";
      } else {
        assert Join(head, "\n") == head[0] + "\n" + Join(head[1..], "\n");
      }
    }
    TrimPadded("\n", body, "\n    ");
    TrimEndAppend(prefix, last);
  }

  /** The description line keeps at least "Description:" after `trimEnd`. */
  lemma DescriptionLineKept(p: Product)
    ensures TrimEnd(DescriptionLine(p)) != []
  {
    var last := DescriptionLine(p);
    TrimEndPrefix(last);
    TrimEndDropsSpace(last);
    assert last[11] == ':';
  }

  /**
   * The message holds the template's lines in their order: title, product, price, category,
   * the buyer's three fields and then the description, which loses only its trailing white
   * space and may run over several lines.
   */
  lemma MessageLines(p: Product, f: BuyerForm)
    requires SingleLine(p, f)
    ensures Split(Message(p, f), '\n') == HeadLines(p, f) + Split(TrimEnd(DescriptionLine(p)), '\n')
    ensures '\n' !in p.description ==>
      Split(Message(p, f), '\n') == HeadLines(p, f) + [TrimEnd(DescriptionLine(p))]
  {
    HeadLinesOneLine(p, f);
    DescriptionLineKept(p);
    assert HeadLines(p, f)[0] == Title;
    assert Title[0] == 'N';
    TemplateLines(HeadLines(p, f), DescriptionLine(p));
    if '\n' !in p.description {
      OneLineDescription(p);
    }
  }

  /** A one-line description stays one line after `trimEnd`. */
  lemma OneLineDescription(p: Product)
    requires '\n' !in p.description
    ensures Split(TrimEnd(DescriptionLine(p)), '\n') == [TrimEnd(DescriptionLine(p))]
  {
    var last := DescriptionLine(p);
    assert '\n' !in "Description: ";
    assert '\n' !in last;
    TrimEndPrefix(last);
    assert '\n' !in TrimEnd(last) by {
      assert TrimEnd(last) == last[..|TrimEnd(last)|];
    }
  }

  const WhatsAppBase := "https://wa.me/22376376746?text="
  const MailtoBase := "mailto:dktseydou@gmail.com?subject="
  const BodyField := "&body="

  datatype Channel = WhatsApp | Email

  /** `https://wa.me/<number>?text=<message>`. */
  function WhatsAppLink(message: string): string {
    WhatsAppBase + EncodeUriComponent(message)
  }

  /** `mailto:<address>?subject=<subject>&body=<message>`. */
  function MailtoLink(subject: string, message: string): string {
    MailtoBase + EncodeUriComponent(subject) + BodyField + EncodeUriComponent(message)
  }

  function Subject(p: Product): string {
    "Commande: " + p.name
  }

  /** The one link a submit opens, chosen by the channel. */
  function OrderLink(channel: Channel, p: Product, f: BuyerForm): string {
    match channel
    case WhatsApp => WhatsAppLink(Message(p, f))
    case Email => MailtoLink(Subject(p), Message(p, f))
  }

  /** What WhatsApp reads from its link: the decoded `text` parameter. */
  function ReadWhatsApp(link: string): Option<seq<Byte>> {
    if |link| < |WhatsAppBase| || link[..|WhatsAppBase|] != WhatsAppBase then None
    else PercentDecode(link[|WhatsAppBase|..])
  }

  /** What a mail client reads from a `mailto:` link: the decoded subject and body fields. */
  function ReadMailto(link: string): Option<(seq<Byte>, seq<Byte>)> {
    if |link| < |MailtoBase| || link[..|MailtoBase|] != MailtoBase then None
    else ReadFields(link[|MailtoBase|..])
  }

  /** The subject value runs up to the first `&`, which must open the `body` field. */
  function ReadFields(q: string): Option<(seq<Byte>, seq<Byte>)> {
    if '&' !in q then None
    else
      var k := IndexOf(q, '&');
      var rest := q[k + 1..];
      if |rest| < 5 || rest[..5] != "body=" then None
      else
        match (PercentDecode(q[..k]), PercentDecode(rest[5..]))
        case (Some(subject), Some(body)) => Some((subject, body))
        case _ => None
  }

  /** A subject value without `&` and a body value are read back as written. */
  lemma ReadFieldsSplits(es: string, em: string)
    requires '&' !in es
    ensures ReadFields(es + BodyField + em) ==
      match (PercentDecode(es), PercentDecode(em))
      case (Some(subject), Some(body)) => Some((subject, body))
      case _ => None
  {
    var q := es + BodyField + em;
    assert q[|es|] == '&';
    var k := IndexOf(q, '&');
    assert q[..|es|] == es;
    assert k == |es|;
    assert q[k + 1..] == "body=" + em;
    assert q[k + 1..][5..] == em;
  }

  /** The WhatsApp link carries the message: reading it gives the message's UTF-8 bytes. */
  lemma WhatsAppRoundTrip(message: string)
    ensures ReadWhatsApp(WhatsAppLink(message)) == Some(Utf8String(message))
  {
    var link := WhatsAppLink(message);
    assert link[|WhatsAppBase|..] == EncodeUriComponent(message);
    DecodeEncode(message);
  }

  /** The `mailto:` link carries subject and message: reading it gives the UTF-8 bytes of both. */
  lemma MailtoRoundTrip(subject: string, message: string)
    ensures ReadMailto(MailtoLink(subject, message)) == Some((Utf8String(subject), Utf8String(message)))
  {
    var es, em := EncodeUriComponent(subject), EncodeUriComponent(message);
    var q := es + BodyField + em;
    assert MailtoLink(subject, message) == MailtoBase + q;
    assert (MailtoBase + q)[|MailtoBase|..] == q;
    EncodeSafe(subject);
    assert '&' !in es by {
      assert forall i :: 0 <= i < |es| ==> IsEncodedChar(es[i]);
    }
    ReadFieldsSplits(es, em);
    DecodeEncode(subject);
    DecodeEncode(message);
  }

  /**
   * The state of the dialog component. The pages mount it once a product is chosen and never
   * unmount it, so its state outlives a dismissal: ordering another product later reuses the
   * form and the image index.
   */
  class OrderDialog {
    var product: Product
    var form: BuyerForm
    var imageIndex: nat
    var open: bool

    /** `product.images[currentImageIndex]`: `None` is `undefined`, an index past the images. */
    function ShownImage(): Option<string>
      reads this
    {
      if imageIndex < |product.images| then Some(product.images[imageIndex]) else None
    }

    /** The first mount, on the chosen product: an empty form on the first image. */
    constructor (p: Product)
      ensures product == p && form == EmptyForm && imageIndex == 0 && open
    {
      product := p;
      form := EmptyForm;
      imageIndex := 0;
      open := true;
    }

    /** "Commander" on a product while the dialog is mounted: a new product, the old form and index. */
    method Reopen(p: Product)
      modifies this
      ensures product == p && open
      ensures form == old(form) && imageIndex == old(imageIndex)
    {
      product := p;
      open := true;
    }

    /** Typing into a field. */
    method Input(field: Field, value: string)
      modifies this
      ensures form == With(old(form), field, value)
      ensures product == old(product) && imageIndex == old(imageIndex) && open == old(open)
    {
      form := With(form, field, value);
    }

    /** `nextImage`: from any index, even one left over from another product, back among the images. */
    method NextImage()
      requires |product.images| >= 1
      modifies this
      ensures product == old(product) && form == old(form) && open == old(open)
      ensures imageIndex == NextIndex(old(imageIndex), |product.images|)
      ensures imageIndex < |product.images| && ShownImage() == Some(product.images[imageIndex])
    {
      imageIndex := (imageIndex + 1) % |product.images|;
    }

    /** `prevImage`: from any index, even one left over from another product, back among the images. */
    method PrevImage()
      requires |product.images| >= 1
      modifies this
      ensures product == old(product) && form == old(form) && open == old(open)
      ensures imageIndex == PrevIndex(old(imageIndex), |product.images|)
      ensures imageIndex < |product.images| && ShownImage() == Some(product.images[imageIndex])
    {
      imageIndex := (imageIndex - 1 + |product.images|) % |product.images|;
    }

    /** Clicking a thumbnail or a dot, which exist one per image. */
    method ShowImage(index: nat)
      requires index < |product.images|
      modifies this
      ensures product == old(product) && form == old(form) && open == old(open)
      ensures imageIndex == index && ShownImage() == Some(product.images[index])
    {
      imageIndex := index;
    }

    /**
     * `handleSubmit`, reachable only through the send buttons, which are enabled once the
     * three fields are filled: opens the chosen link, then empties the form, rewinds the
     * carousel and closes.
     */
    method Submit(channel: Channel) returns (link: string)
      requires !SubmitDisabled(form)
      modifies this
      ensures link == OrderLink(channel, product, old(form))
      ensures form == EmptyForm && imageIndex == 0 && !open && product == old(product)
    {
      var message := Message(product, form);
      if channel == WhatsApp {
        link := WhatsAppBase + EncodeUriComponent(message);
      } else {
        var subject := EncodeUriComponent(Subject(product));
        var body := EncodeUriComponent(message);
        link := MailtoBase + subject + BodyField + body;
      }
      form := EmptyForm;
      imageIndex := 0;
      open := false;
    }

    /** Closing the dialog without ordering keeps what was typed and the image. */
    method Dismiss()
      modifies this
      ensures !open && product == old(product) && form == old(form) && imageIndex == old(imageIndex)
    {
      open := false;
    }
  }

  /**
   * Ordering a three-image product, typing a name, stepping to the third image, closing, and
   * then ordering a one-image product: the name is still there and no image is shown.
   */
  method StaleImageAfterReopen(first: Product, second: Product, nom: string) returns (shown: Option<string>, index: nat, kept: BuyerForm)
    requires |first.images| == 3 && |second.images| == 1
    ensures index == 2 && shown == None && kept == With(EmptyForm, Nom, nom)
  {
    var d := new OrderDialog(first);
    d.Input(Nom, nom);
    d.NextImage();
    d.NextImage();
    d.Dismiss();
    d.Reopen(second);
    shown := d.ShownImage();
    index := d.imageIndex;
    kept := d.form;
  }
}
