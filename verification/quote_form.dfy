/**
 * The quote form itself: the editable list of line items, the discount, the two addresses
 * with the "same as billing" box, and the submit / start-over flow. React state becomes the
 * fields of `QuoteForm`; each handler becomes a method that reassigns them. The identifiers
 * the browser generates (`crypto.randomUUID()`) and the clock reading behind the submission
 * number are parameters; what the submission sends out is recorded in `outbox`.
 */
module QuoteForm {
  import opened Options
  import opened Domain
  import opened ProductCatalog
  import opened LineItems
  import opened SummaryPdf
  import opened ProductFinder

  /** What a submission does outside the form: the saved document, then the confirmation e-mail. */
  datatype Effect = PdfSaved(doc: Document) | EmailSent(to: string, submissionId: string)

  /**
   * How a press of the submit button ends: refused by validation; interrupted by a throw,
   * with the document if it was saved before the e-mail failed; or submitted under `id`.
   */
  datatype SubmitOutcome =
    | Rejected(reason: ValidationError)
    | Failed(saved: Option<Document>)
    | Submitted(id: string, doc: Document)

  /**
   * A row's search field only hands over products it offers for some term, so choosing one
   * keeps every row blank or showing a catalog product.
   */
  lemma OfferedProductKeepsRowsConsistent(items: seq<LineItem>, id: string, term: string, p: Product)
    requires RowsConsistent(items)
    requires p in FilterProducts(term, Catalog)
    ensures RowsConsistent(SelectProduct(items, id, p))
  {
    OfferedProductsListed(term, Catalog);
    SelectProductKeepsRowsConsistent(items, id, p);
  }

  /** `parseFloat(text) || 0` for the discount field, with `None` standing for `NaN`. */
  function DiscountFromInput(parsed: Option<real>): (pct: real)
    ensures parsed.None? ==> pct == 0.0
    ensures parsed.Some? ==> pct == parsed.value
  {
    match parsed
    case None => 0.0
    case Some(v) => v
  }

  /**
   * `doc` is the summary of a form holding `items`, discount `pct` and the two addresses,
   * under submission number `id`: the file name, both address blocks, the column titles,
   * one table row per line item, and the totals panel's figures with the discount amount.
   */
  ghost predicate Summarizes(doc: Document, id: string, items: seq<LineItem>, pct: real,
                             billing: Address, shipping: Address)
  {
    && doc.numberLine == SubmissionNumberLabel + id
    && doc.fileName == "Soumission_" + id + ".pdf"
    && doc.billingText == AddressText(BillingTitle, billing)
    && doc.shippingText == AddressText(ShippingTitle, shipping)
    && doc.columns == TableColumns
    && |doc.rows| == |items|
    && (forall i :: 0 <= i < |items| ==> doc.rows[i] == TableRow(items[i]))
    && doc.subtotal == ComputeTotals(items, pct).subtotal
    && doc.discountPercentage == pct
    && doc.discountAmount == ComputeTotals(items, pct).discountAmount
    && doc.total == ComputeTotals(items, pct).total
  }

  class App {
    var lineItems: seq<LineItem>
    var discountPercentage: real
    var billingAddress: Address
    var shippingAddress: Address
    var sameAsBilling: bool
    var isSubmitted: bool
    var submissionId: string
    var outbox: seq<Effect>

    /**
     * At least one row, row identifiers distinct, the shipping address a copy of the billing
     * one while the box is ticked, and the form counted as submitted exactly when it holds a
     * submission number.
     */
    ghost predicate Valid()
      reads this
    {
      && |lineItems| >= 1
      && DistinctIds(lineItems)
      && (sameAsBilling ==> shippingAddress == billingAddress)
      && (isSubmitted <==> submissionId != "")
    }

    /** The form as first shown: one blank row, no discount, empty addresses, box ticked. */
    constructor (firstId: string)
      ensures Valid()
      ensures lineItems == [BlankItem(firstId)] && discountPercentage == 0.0
      ensures billingAddress == EmptyAddress && shippingAddress == EmptyAddress
      ensures sameAsBilling && !isSubmitted && submissionId == "" && outbox == []
    {
      lineItems := [BlankItem(firstId)];
      discountPercentage := 0.0;
      billingAddress := EmptyAddress;
      shippingAddress := EmptyAddress;
      sameAsBilling := true;
      isSubmitted := false;
      submissionId := "";
      outbox := [];
    }

    /** "Ajouter un produit": a blank row with a new identifier goes at the end. */
    method AddRow(freshId: string)
      requires Valid()
      requires !HasId(lineItems, freshId)
      modifies this
      ensures Valid()
      ensures lineItems == AddLineItem(old(lineItems), freshId)
      ensures ComputeTotals(lineItems, discountPercentage).subtotal
              == old(ComputeTotals(lineItems, discountPercentage).subtotal)
      ensures discountPercentage == old(discountPercentage) && outbox == old(outbox)
      ensures billingAddress == old(billingAddress) && shippingAddress == old(shippingAddress)
      ensures sameAsBilling == old(sameAsBilling) && isSubmitted == old(isSubmitted)
      ensures submissionId == old(submissionId)
    {
      AddLineItemKeepsDistinctIds(lineItems, freshId);
      SubtotalAddLineItem(lineItems, freshId);
      lineItems := AddLineItem(lineItems, freshId);
    }

    /**
     * The remove button of a row; it is only shown while there is more than one row, so the
     * list never becomes empty.
     */
    method RemoveRow(id: string)
      requires Valid()
      requires |lineItems| > 1
      modifies this
      ensures Valid()
      ensures lineItems == RemoveLineItem(old(lineItems), id)
      ensures HasId(old(lineItems), id) ==> |lineItems| == |old(lineItems)| - 1
      ensures discountPercentage == old(discountPercentage) && outbox == old(outbox)
      ensures billingAddress == old(billingAddress) && shippingAddress == old(shippingAddress)
      ensures sameAsBilling == old(sameAsBilling) && isSubmitted == old(isSubmitted)
      ensures submissionId == old(submissionId)
    {
      RemoveLineItemKeepsDistinctIds(lineItems, id);
      RemoveLineItemLength(lineItems, id);
      lineItems := RemoveLineItem(lineItems, id);
    }

    /** A product picked in a row's search field fills that row's SKU, description and price. */
    method ProductSelect(id: string, p: Product)
      requires Valid()
      modifies this
      ensures Valid()
      ensures lineItems == SelectProduct(old(lineItems), id, p)
      ensures discountPercentage == old(discountPercentage) && outbox == old(outbox)
      ensures billingAddress == old(billingAddress) && shippingAddress == old(shippingAddress)
      ensures sameAsBilling == old(sameAsBilling) && isSubmitted == old(isSubmitted)
      ensures submissionId == old(submissionId)
    {
      SelectProductKeepsDistinctIds(lineItems, id, p);
      lineItems := SelectProduct(lineItems, id, p);
    }

    /** The quantity field of a row changed to `text`. */
    method QuantityChange(id: string, text: string)
      requires Valid()
      modifies this
      ensures Valid()
      ensures lineItems == ChangeQuantity(old(lineItems), id, ParseQuantity(text))
      ensures forall i :: 0 <= i < |lineItems| ==> lineItems[i].quantity != 0 || old(lineItems)[i].quantity == 0
      ensures discountPercentage == old(discountPercentage) && outbox == old(outbox)
      ensures billingAddress == old(billingAddress) && shippingAddress == old(shippingAddress)
      ensures sameAsBilling == old(sameAsBilling) && isSubmitted == old(isSubmitted)
      ensures submissionId == old(submissionId)
    {
      var q := ParseQuantity(text);
      ChangeQuantityKeepsDistinctIds(lineItems, id, q);
      lineItems := ChangeQuantity(lineItems, id, q);
    }

    /** The discount field changed; its text reads as `parsed`. */
    method DiscountChange(parsed: Option<real>)
      requires Valid()
      modifies this
      ensures Valid()
      ensures discountPercentage == DiscountFromInput(parsed)
      ensures lineItems == old(lineItems) && outbox == old(outbox)
      ensures billingAddress == old(billingAddress) && shippingAddress == old(shippingAddress)
      ensures sameAsBilling == old(sameAsBilling) && isSubmitted == old(isSubmitted)
      ensures submissionId == old(submissionId)
    {
      discountPercentage := DiscountFromInput(parsed);
    }

    /**
     * A billing field changed. While the box is ticked the effect that follows copies the
     * new billing address over the shipping one.
     */
    method BillingFieldChange(f: AddressField, v: string)
      requires Valid()
      modifies this
      ensures Valid()
      ensures billingAddress == SetField(old(billingAddress), f, v)
      ensures shippingAddress == if sameAsBilling then billingAddress else old(shippingAddress)
      ensures lineItems == old(lineItems) && discountPercentage == old(discountPercentage)
      ensures sameAsBilling == old(sameAsBilling) && isSubmitted == old(isSubmitted)
      ensures submissionId == old(submissionId) && outbox == old(outbox)
    {
      billingAddress := SetField(billingAddress, f, v);
      if sameAsBilling {
        shippingAddress := billingAddress;
      }
    }

    /** A shipping field changed; the shipping form only accepts input while the box is clear. */
    method ShippingFieldChange(f: AddressField, v: string)
      requires Valid()
      requires !sameAsBilling
      modifies this
      ensures Valid()
      ensures shippingAddress == SetField(old(shippingAddress), f, v)
      ensures billingAddress == old(billingAddress)
      ensures lineItems == old(lineItems) && discountPercentage == old(discountPercentage)
      ensures sameAsBilling == old(sameAsBilling) && isSubmitted == old(isSubmitted)
      ensures submissionId == old(submissionId) && outbox == old(outbox)
    {
      shippingAddress := SetField(shippingAddress, f, v);
    }

    /**
     * The "same as billing" box changed. Ticking it copies the billing address; clearing it
     * keeps the last copy as the starting point of the shipping address.
     */
    method SameAsBillingChange(checked: bool)
      requires Valid()
      modifies this
      ensures Valid()
      ensures sameAsBilling == checked
      ensures shippingAddress == if checked then billingAddress else old(shippingAddress)
      ensures billingAddress == old(billingAddress)
      ensures lineItems == old(lineItems) && discountPercentage == old(discountPercentage)
      ensures isSubmitted == old(isSubmitted) && submissionId == old(submissionId) && outbox == old(outbox)
    {
      sameAsBilling := checked;
      if checked {
        shippingAddress := billingAddress;
      }
    }

    /**
     * `generateSubmissionPdf` run on the form: the document is built and saved; the shipping
     * block uses the billing address while the box is ticked.
     */
    method SavePdf(timestamp: nat) returns (doc: Document, id: string)
      requires Valid()
      modifies this
      ensures Valid()
      ensures id == SubmissionId(timestamp)
      ensures Summarizes(doc, id, old(lineItems), old(discountPercentage), old(billingAddress), old(shippingAddress))
      ensures outbox == old(outbox) + [PdfSaved(doc)]
      ensures lineItems == old(lineItems) && discountPercentage == old(discountPercentage)
      ensures billingAddress == old(billingAddress) && shippingAddress == old(shippingAddress)
      ensures sameAsBilling == old(sameAsBilling)
      ensures isSubmitted == old(isSubmitted) && submissionId == old(submissionId)
    {
      var finalShipping := shippingAddress;
      if sameAsBilling {
        finalShipping := billingAddress;
      }
      var totals := ComputeTotals(lineItems, discountPercentage);
      doc, id := GenerateSubmissionPdf(lineItems, totals.subtotal, discountPercentage, totals.total,
                                       billingAddress, finalShipping, timestamp);
      outbox := outbox + [PdfSaved(doc)];
    }

    /**
     * The submit button, with the clock reading `timestamp`; `pdfFails` says whether building
     * or saving the document throws and `emailFails` whether the confirmation e-mail does.
     * A form that fails validation changes nothing and sends nothing. A throw inside the `try`
     * leaves the form as it was; the document is then saved only when it was the e-mail that
     * failed. Otherwise the document is saved, the e-mail goes to the billing address and the
     * form shows the new submission number.
     */
    method Submit(timestamp: nat, pdfFails: bool, emailFails: bool) returns (outcome: SubmitOutcome)
      requires Valid()
      modifies this
      ensures Valid()
      ensures Validate(old(lineItems), old(billingAddress)).Some? ==>
                outcome == Rejected(Validate(old(lineItems), old(billingAddress)).value)
      ensures outcome.Failed? <==> Validate(old(lineItems), old(billingAddress)).None? && (pdfFails || emailFails)
      ensures outcome.Submitted? <==> Validate(old(lineItems), old(billingAddress)).None? && !pdfFails && !emailFails
      ensures outcome.Rejected? || outcome == Failed(None) ==> unchanged(this)
      ensures outcome.Failed? ==> (outcome.saved.Some? <==> !pdfFails)
      ensures outcome.Failed? && outcome.saved.Some? ==>
                && outbox == old(outbox) + [PdfSaved(outcome.saved.value)]
                && Summarizes(outcome.saved.value, SubmissionId(timestamp), old(lineItems),
                              old(discountPercentage), old(billingAddress), old(shippingAddress))
      ensures outcome.Submitted? ==>
                && outcome.id == SubmissionId(timestamp)
                && isSubmitted && submissionId == outcome.id
                && outbox == old(outbox) + [PdfSaved(outcome.doc)] + [EmailSent(old(billingAddress).email, outcome.id)]
                && Summarizes(outcome.doc, outcome.id, old(lineItems),
                              old(discountPercentage), old(billingAddress), old(shippingAddress))
      ensures !outcome.Submitted? ==> isSubmitted == old(isSubmitted) && submissionId == old(submissionId)
      ensures lineItems == old(lineItems) && discountPercentage == old(discountPercentage)
      ensures billingAddress == old(billingAddress) && shippingAddress == old(shippingAddress)
      ensures sameAsBilling == old(sameAsBilling)
    {
      var problem := Validate(lineItems, billingAddress);
      if problem.Some? {
        return Rejected(problem.value);
      }
      if pdfFails {
        return Failed(None);
      }
      var doc, id := SavePdf(timestamp);
      if emailFails {
        return Failed(Some(doc));
      }
      Confirm(id);
      outcome := Submitted(id, doc);
    }

    /** The e-mail to the billing address went out: the form now shows submission number `id`. */
    method Confirm(id: string)
      requires Valid()
      requires |id| > 4
      modifies this
      ensures Valid()
      ensures outbox == old(outbox) + [EmailSent(billingAddress.email, id)]
      ensures isSubmitted && submissionId == id
      ensures lineItems == old(lineItems) && discountPercentage == old(discountPercentage)
      ensures billingAddress == old(billingAddress) && shippingAddress == old(shippingAddress)
      ensures sameAsBilling == old(sameAsBilling)
    {
      outbox := outbox + [EmailSent(billingAddress.email, id)];
      submissionId := id;
      isSubmitted := true;
    }

    /**
     * "Créer une nouvelle soumission": back to the initial form, with a new identifier for
     * the blank row. What was already sent stays sent.
     */
    method StartNewSubmission(freshId: string)
      requires Valid()
      modifies this
      ensures Valid()
      ensures lineItems == [BlankItem(freshId)] && discountPercentage == 0.0
      ensures billingAddress == EmptyAddress && shippingAddress == EmptyAddress
      ensures sameAsBilling && !isSubmitted && submissionId == ""
      ensures outbox == old(outbox)
    {
      lineItems := [BlankItem(freshId)];
      discountPercentage := 0.0;
      billingAddress := EmptyAddress;
      shippingAddress := EmptyAddress;
      sameAsBilling := true;
      isSubmitted := false;
      submissionId := "";
    }
  }
}
