/**
 * The quotation's rows and the values derived from them: the copy-on-write list
 * operations behind the row buttons and fields, the quantity field's parse, the
 * subtotal / discount / total computation and the checks made before submitting.
 */
module LineItems {
  import opened Options
  import opened Seqs
  import opened Numbers
  import opened Domain
  import opened ProductCatalog

  /** A new, unselected row: no product, price 0, quantity 1. */
  function BlankItem(id: string): LineItem
  {
    LineItem(id, "", "", 0.0, 1)
  }

  predicate HasId(items: seq<LineItem>, id: string)
  {
    exists i :: 0 <= i < |items| && items[i].id == id
  }

  /** No two rows share an identifier. */
  ghost predicate DistinctIds(items: seq<LineItem>)
  {
    forall i, j :: 0 <= i < j < |items| ==> items[i].id != items[j].id
  }

  /**
   * A row is either unselected (no SKU, no description, price 0) or shows exactly the
   * SKU, description and price of a catalog product.
   */
  ghost predicate RowConsistent(item: LineItem)
  {
    || (item.sku == "" && item.description == "" && item.price == 0.0)
    || InCatalog(Product(item.sku, item.description, item.price))
  }

  ghost predicate RowsConsistent(items: seq<LineItem>)
  {
    forall i :: 0 <= i < |items| ==> RowConsistent(items[i])
  }

  // ---------------------------------------------------------------- list operations

  /** The "add a product" button: one blank row appended after the existing ones. */
  function AddLineItem(items: seq<LineItem>, freshId: string): (r: seq<LineItem>)
    ensures |r| == |items| + 1
    ensures r[..|items|] == items
    ensures r[|items|] == BlankItem(freshId)
  {
    items + [BlankItem(freshId)]
  }

  /** A row's remove button: drops the rows carrying `id`. */
  function RemoveLineItem(items: seq<LineItem>, id: string): (r: seq<LineItem>)
    ensures forall x :: x in r ==> x in items && x.id != id
  {
    Filter((item: LineItem) => item.id != id, items)
  }

  /** Removal keeps every other row, in order and with its multiplicity, and nothing else. */
  lemma RemoveLineItemExact(items: seq<LineItem>, id: string)
    ensures IsSubsequence(RemoveLineItem(items, id), items)
    ensures forall x :: x in items && x.id != id ==> x in RemoveLineItem(items, id)
    ensures forall x :: multiset(RemoveLineItem(items, id))[x]
                        == if x.id != id then multiset(items)[x] else 0
  {
    var keep := (item: LineItem) => item.id != id;
    FilterIsSubsequence(keep, items);
    forall x | x in items && x.id != id ensures x in RemoveLineItem(items, id) {
      FilterComplete(keep, items, x);
    }
    forall x ensures multiset(RemoveLineItem(items, id))[x]
                     == if x.id != id then multiset(items)[x] else 0 {
      FilterCount(keep, items, x);
    }
  }

  /** With distinct identifiers, removing a present one drops exactly one row; an absent one drops none. */
  lemma RemoveLineItemLength(items: seq<LineItem>, id: string)
    ensures DistinctIds(items) && HasId(items, id) ==> |RemoveLineItem(items, id)| == |items| - 1
    ensures !HasId(items, id) ==> RemoveLineItem(items, id) == items
  {
    if DistinctIds(items) && HasId(items, id) {
      var k :| 0 <= k < |items| && items[k].id == id;
      RemoveOnlyMatch(items, id, k);
    }
    if !HasId(items, id) {
      FilterAllKept((item: LineItem) => item.id != id, items);
    }
  }

  /** When row `k` is the only row with identifier `id`, removal cuts out exactly that row. */
  lemma RemoveOnlyMatch(items: seq<LineItem>, id: string, k: int)
    requires 0 <= k < |items| && items[k].id == id
    requires forall i :: 0 <= i < |items| && i != k ==> items[i].id != id
    ensures RemoveLineItem(items, id) == items[..k] + items[k + 1..]
  {
    FilterDropsOne((item: LineItem) => item.id != id, items, k);
  }

  /** Removing the row just added gives back the list it was added to. */
  lemma RemoveUndoesAdd(items: seq<LineItem>, freshId: string)
    requires !HasId(items, freshId)
    ensures RemoveLineItem(AddLineItem(items, freshId), freshId) == items
  {
    var keep := (item: LineItem) => item.id != freshId;
    FilterAppend(keep, items, [BlankItem(freshId)]);
    FilterAllKept(keep, items);
  }

  /** A partial row (`Partial<LineItem>`): `None` is a key the object does not have. */
  datatype Patch = Patch(
    id: Option<string>,
    sku: Option<string>,
    description: Option<string>,
    price: Option<real>,
    quantity: Option<int>)

  const NoChange := Patch(None, None, None, None, None)

  /** `{...item, ...patch}`: each key the patch has overrides the row's own value. */
  function ApplyPatch(item: LineItem, patch: Patch): (r: LineItem)
    ensures patch.id.None? ==> r.id == item.id
    ensures patch.sku.None? ==> r.sku == item.sku
    ensures patch.description.None? ==> r.description == item.description
    ensures patch.price.None? ==> r.price == item.price
    ensures patch.quantity.None? ==> r.quantity == item.quantity
    ensures patch.id.Some? ==> r.id == patch.id.value
    ensures patch.sku.Some? ==> r.sku == patch.sku.value
    ensures patch.description.Some? ==> r.description == patch.description.value
    ensures patch.price.Some? ==> r.price == patch.price.value
    ensures patch.quantity.Some? ==> r.quantity == patch.quantity.value
  {
    LineItem(
      patch.id.GetOr(item.id),
      patch.sku.GetOr(item.sku),
      patch.description.GetOr(item.description),
      patch.price.GetOr(item.price),
      patch.quantity.GetOr(item.quantity))
  }

  /** An empty patch changes nothing, and applying a patch twice is applying it once. */
  lemma ApplyPatchLaws(item: LineItem, patch: Patch)
    ensures ApplyPatch(item, NoChange) == item
    ensures ApplyPatch(ApplyPatch(item, patch), patch) == ApplyPatch(item, patch)
  {
  }

  /** `handleLineItemChange`: the rows carrying `id` get the patch, the others stay as they are. */
  function UpdateLineItem(items: seq<LineItem>, id: string, patch: Patch): (r: seq<LineItem>)
    ensures |r| == |items|
    ensures forall i :: 0 <= i < |items| && items[i].id != id ==> r[i] == items[i]
    ensures forall i :: 0 <= i < |items| && items[i].id == id ==> r[i] == ApplyPatch(items[i], patch)
  {
    seq(|items|, i requires 0 <= i < |items| =>
      if items[i].id == id then ApplyPatch(items[i], patch) else items[i])
  }

  /** Editing a row twice with the same values is editing it once, as long as the edit keeps its identifier. */
  lemma UpdateLineItemIdempotent(items: seq<LineItem>, id: string, patch: Patch)
    requires patch.id.None? || patch.id == Some(id)
    ensures UpdateLineItem(UpdateLineItem(items, id, patch), id, patch) == UpdateLineItem(items, id, patch)
  {
    var once := UpdateLineItem(items, id, patch);
    assert forall i :: 0 <= i < |items| ==> once[i].id == items[i].id;
    forall i | 0 <= i < |items| && items[i].id == id
      ensures ApplyPatch(once[i], patch) == once[i] {
      ApplyPatchLaws(items[i], patch);
    }
  }

  /** The patch written when a product is chosen: SKU, description and price together. */
  function ProductPatch(p: Product): Patch
  {
    Patch(None, Some(p.sku), Some(p.description), Some(p.price), None)
  }

  /** The patch written by the quantity field. */
  function QuantityPatch(quantity: int): Patch
  {
    Patch(None, None, None, None, Some(quantity))
  }

  /**
   * `handleProductSelect`: the chosen row takes the product's SKU, description and price;
   * its identifier and quantity stay, and every other row is untouched.
   */
  function SelectProduct(items: seq<LineItem>, id: string, p: Product): (r: seq<LineItem>)
    ensures |r| == |items|
    ensures forall i :: 0 <= i < |items| && items[i].id != id ==> r[i] == items[i]
    ensures forall i :: 0 <= i < |items| && items[i].id == id ==>
      && r[i].id == items[i].id && r[i].quantity == items[i].quantity
      && r[i].sku == p.sku && r[i].description == p.description && r[i].price == p.price
  {
    UpdateLineItem(items, id, ProductPatch(p))
  }

  /** The quantity field's edit: only the quantity of the rows carrying `id` changes. */
  function ChangeQuantity(items: seq<LineItem>, id: string, quantity: int): (r: seq<LineItem>)
    ensures |r| == |items|
    ensures forall i :: 0 <= i < |items| ==>
      r[i] == if items[i].id == id then items[i].(quantity := quantity) else items[i]
  {
    UpdateLineItem(items, id, QuantityPatch(quantity))
  }

  /** Appending a blank row under a new identifier keeps the identifiers distinct. */
  lemma AddLineItemKeepsDistinctIds(items: seq<LineItem>, freshId: string)
    requires DistinctIds(items)
    requires !HasId(items, freshId)
    ensures DistinctIds(AddLineItem(items, freshId))
  {
    var r := AddLineItem(items, freshId);
    forall i, j | 0 <= i < j < |r| ensures r[i].id != r[j].id {
      if j == |items| {
        assert r[i] == items[i];
      }
    }
  }

  /** A blank row has no product, so appending one keeps every row consistent with the catalog. */
  lemma AddLineItemKeepsRowsConsistent(items: seq<LineItem>, freshId: string)
    requires RowsConsistent(items)
    ensures RowsConsistent(AddLineItem(items, freshId))
  {
  }

  /** Removing rows keeps the identifiers distinct. */
  lemma {:induction false} RemoveLineItemKeepsDistinctIds(items: seq<LineItem>, id: string)
    requires DistinctIds(items)
    ensures DistinctIds(RemoveLineItem(items, id))
    decreases |items|
  {
    if items != [] {
      var rest := items[1..];
      assert DistinctIds(rest) by {
        forall i, j | 0 <= i < j < |rest| ensures rest[i].id != rest[j].id {
          assert rest[i] == items[i + 1] && rest[j] == items[j + 1];
        }
      }
      RemoveLineItemKeepsDistinctIds(rest, id);
      var tail := RemoveLineItem(rest, id);
      if items[0].id != id {
        assert RemoveLineItem(items, id) == [items[0]] + tail;
        forall x | x in tail ensures x.id != items[0].id {
          var k :| 0 <= k < |rest| && rest[k] == x;
          assert items[k + 1] == x;
        }
      }
    }
  }

  /** Every remaining row was already a row, so removing keeps every row consistent. */
  lemma RemoveLineItemKeepsRowsConsistent(items: seq<LineItem>, id: string)
    requires RowsConsistent(items)
    ensures RowsConsistent(RemoveLineItem(items, id))
  {
    var r := RemoveLineItem(items, id);
    forall i | 0 <= i < |r| ensures RowConsistent(r[i]) {
      assert r[i] in items;
    }
  }

  /** Choosing a product keeps the identifiers distinct. */
  lemma SelectProductKeepsDistinctIds(items: seq<LineItem>, id: string, p: Product)
    requires DistinctIds(items)
    ensures DistinctIds(SelectProduct(items, id, p))
  {
    var s := SelectProduct(items, id, p);
    assert forall i :: 0 <= i < |s| ==> s[i].id == items[i].id;
  }

  /** Choosing a catalog product keeps every row consistent with the catalog. */
  lemma SelectProductKeepsRowsConsistent(items: seq<LineItem>, id: string, p: Product)
    requires RowsConsistent(items) && InCatalog(p)
    ensures RowsConsistent(SelectProduct(items, id, p))
  {
    var s := SelectProduct(items, id, p);
    forall i | 0 <= i < |s| ensures RowConsistent(s[i]) {
      if items[i].id == id {
        assert Product(s[i].sku, s[i].description, s[i].price) == p;
      }
    }
  }

  /** Editing a quantity keeps the identifiers distinct. */
  lemma ChangeQuantityKeepsDistinctIds(items: seq<LineItem>, id: string, quantity: int)
    requires DistinctIds(items)
    ensures DistinctIds(ChangeQuantity(items, id, quantity))
  {
    var q := ChangeQuantity(items, id, quantity);
    assert forall i :: 0 <= i < |q| ==> q[i].id == items[i].id;
  }

  /** Editing a quantity leaves product fields alone, so every row stays consistent. */
  lemma ChangeQuantityKeepsRowsConsistent(items: seq<LineItem>, id: string, quantity: int)
    requires RowsConsistent(items)
    ensures RowsConsistent(ChangeQuantity(items, id, quantity))
  {
    var q := ChangeQuantity(items, id, quantity);
    forall i | 0 <= i < |q| ensures RowConsistent(q[i]) {
      assert RowConsistent(items[i]);
    }
  }

  // ---------------------------------------------------------------- quantity field

  /** `parseInt(text, 10) || 1`: NaN and 0 (also -0) become 1, every other integer is kept. */
  function ParseQuantity(text: string): (q: int)
    ensures q != 0
  {
    match ParseInt(text)
    case None => 1
    case Some(v) => if v == 0 then 1 else v
  }

  /** A typed positive integer is taken as is; so is a negative one; an empty field or 0 gives 1. */
  lemma ParseQuantityExamples(n: nat)
    requires n > 0
    ensures ParseQuantity(NatToString(n)) == n
    ensures ParseQuantity("-" + NatToString(n)) == -(n as int)
    ensures ParseQuantity(NatToString(0)) == 1
    ensures ParseQuantity("") == 1
  {
    ParseIntOfNatToString(n);
    ParseIntOfNegative(n);
    ParseIntOfNatToString(0);
  }

  // ---------------------------------------------------------------- totals

  function LineAmount(item: LineItem): real
  {
    item.price * item.quantity as real
  }

  /** `items.reduce((acc, item) => acc + item.price * item.quantity, 0)`, folded from the left. */
  function Subtotal(items: seq<LineItem>): real
  {
    if items == [] then 0.0 else Subtotal(items[..|items| - 1]) + LineAmount(items[|items| - 1])
  }

  /** The subtotal of two lists put end to end is the sum of their subtotals. */
  lemma {:induction false} SubtotalAppend(a: seq<LineItem>, b: seq<LineItem>)
    ensures Subtotal(a + b) == Subtotal(a) + Subtotal(b)
    decreases |b|
  {
    if b == [] {
      assert a + b == a;
    } else {
      var ab := a + b;
      assert ab[..|ab| - 1] == a + b[..|b| - 1];
      SubtotalAppend(a, b[..|b| - 1]);
    }
  }

  /** With non-negative prices and quantities the subtotal is non-negative. */
  lemma {:induction false} SubtotalNonNegative(items: seq<LineItem>)
    requires forall i :: 0 <= i < |items| ==> items[i].price >= 0.0 && items[i].quantity >= 0
    ensures Subtotal(items) >= 0.0
    decreases |items|
  {
    if items != [] {
      SubtotalNonNegative(items[..|items| - 1]);
    }
  }

  /** A blank row adds nothing to the subtotal. */
  lemma SubtotalAddLineItem(items: seq<LineItem>, freshId: string)
    ensures Subtotal(AddLineItem(items, freshId)) == Subtotal(items)
  {
    SubtotalAppend(items, [BlankItem(freshId)]);
    assert Subtotal([BlankItem(freshId)]) == Subtotal([]) + 0.0;
  }

  /** Removing rows lowers the subtotal by exactly the amounts of the removed rows. */
  lemma {:induction false} SubtotalRemoveLineItem(items: seq<LineItem>, id: string)
    ensures Subtotal(items)
            == Subtotal(RemoveLineItem(items, id)) + Subtotal(Filter((item: LineItem) => item.id == id, items))
    decreases |items|
  {
    if items != [] {
      var x := items[0];
      var rest := items[1..];
      SubtotalRemoveLineItem(rest, id);
      assert items == [x] + rest;
      SubtotalAppend([x], rest);
      var kept := RemoveLineItem(rest, id);
      var gone := Filter((item: LineItem) => item.id == id, rest);
      if x.id == id {
        SubtotalAppend([x], gone);
      } else {
        SubtotalAppend([x], kept);
      }
    }
  }

  /** What the totals panel shows. */
  datatype Totals = Totals(subtotal: real, discountAmount: real, total: real)

  /** `pct` percent of `amount`, computed as the totals panel and the document both compute it. */
  function PercentOf(amount: real, pct: real): real
  {
    amount * (pct / 100.0)
  }

  /** The `useMemo` totals: the discount is `pct` percent of the subtotal and comes off it. */
  function ComputeTotals(items: seq<LineItem>, pct: real): (t: Totals)
    ensures t.subtotal == Subtotal(items)
    ensures t.discountAmount == t.subtotal * pct / 100.0
    ensures t.total == t.subtotal - t.discountAmount
    ensures t.total == t.subtotal * (100.0 - pct) / 100.0
    ensures items == [] ==> t == Totals(0.0, 0.0, 0.0)
  {
    var sub := Subtotal(items);
    var discountAmount := PercentOf(sub, pct);
    Totals(sub, discountAmount, sub - discountAmount)
  }

  /** A discount between 0 and 100 percent leaves a total between 0 and the subtotal. */
  lemma TotalWithinSubtotal(items: seq<LineItem>, pct: real)
    requires 0.0 <= pct <= 100.0
    requires forall i :: 0 <= i < |items| ==> items[i].price >= 0.0 && items[i].quantity >= 0
    ensures 0.0 <= ComputeTotals(items, pct).total <= ComputeTotals(items, pct).subtotal
  {
    SubtotalNonNegative(items);
    var s := Subtotal(items);
    assert s * (100.0 - pct) / 100.0 <= s * 100.0 / 100.0;
  }

  /** Two TR-24 transformers at 45.00 with a 10 % discount: 90.00, 9.00 off, 81.00. */
  lemma TransformerExample(id: string)
    ensures ComputeTotals([LineItem(id, "TR-24", "Transformateur 24VCA, 40VA", 45.0, 2)], 10.0)
            == Totals(90.0, 9.0, 81.0)
  {
    var items := [LineItem(id, "TR-24", "Transformateur 24VCA, 40VA", 45.0, 2)];
    assert items[..0] == [];
    assert Subtotal(items) == 90.0;
    assert 90.0 * (10.0 / 100.0) == 9.0;
  }

  // ---------------------------------------------------------------- validation

  /** Why a submission was refused. */
  datatype ValidationError = NoProductSelected | MissingBillingEmail

  /** `items.every(item => !item.sku)`. */
  function NoSkuSelected(items: seq<LineItem>): bool
  {
    if items == [] then true else items[0].sku == "" && NoSkuSelected(items[1..])
  }

  /**
   * The two checks made before anything is generated: some row must have a product
   * (checked first), then the billing address must have an email.
   */
  function Validate(items: seq<LineItem>, billing: Address): (r: Option<ValidationError>)
    ensures r == Some(NoProductSelected) <==> forall i :: 0 <= i < |items| ==> items[i].sku == ""
    ensures r == Some(MissingBillingEmail)
            <==> (exists i :: 0 <= i < |items| && items[i].sku != "") && billing.email == ""
    ensures r == None <==> (exists i :: 0 <= i < |items| && items[i].sku != "") && billing.email != ""
  {
    NoSkuSelectedIff(items);
    if |items| == 0 || NoSkuSelected(items) then Some(NoProductSelected)
    else if billing.email == "" then Some(MissingBillingEmail)
    else None
  }

  lemma {:induction false} NoSkuSelectedIff(items: seq<LineItem>)
    ensures NoSkuSelected(items) <==> forall i :: 0 <= i < |items| ==> items[i].sku == ""
    decreases |items|
  {
    if items != [] {
      NoSkuSelectedIff(items[1..]);
      assert forall i :: 1 <= i < |items| ==> items[i] == items[1..][i - 1];
    }
  }
}
