/**
 * The product autocomplete of one line item: the catalog filter and the state machine
 * that the text field's input, focus, keyboard and mouse events drive.
 */
module ProductFinder {
  import opened Options
  import opened Seqs
  import opened Text
  import opened Numbers
  import opened Domain
  import opened ProductCatalog

  /** Shorter search terms show nothing. */
  const MinTermLength := 3

  /** Case-insensitive match on the SKU or the description. */
  predicate Matches(term: string, p: Product)
  {
    Includes(Lower(p.sku), Lower(term)) || Includes(Lower(p.description), Lower(term))
  }

  /** The products offered for `term`: nothing below the threshold, else the matching catalog entries. */
  function FilterProducts(term: string, catalog: seq<Product>): (r: seq<Product>)
    ensures |term| < MinTermLength ==> r == []
    ensures forall p :: p in r ==> p in catalog && Matches(term, p)
  {
    if |term| < MinTermLength then [] else Filter(p => Matches(term, p), catalog)
  }

  /**
   * From the threshold on, the results are exactly the matching catalog entries: in catalog
   * order, each as often as the catalog lists it, and no others.
   */
  lemma FilterProductsExact(term: string, catalog: seq<Product>)
    requires |term| >= MinTermLength
    ensures IsSubsequence(FilterProducts(term, catalog), catalog)
    ensures forall p :: multiset(FilterProducts(term, catalog))[p]
                        == if Matches(term, p) then multiset(catalog)[p] else 0
    ensures forall p :: p in catalog && Matches(term, p) ==> p in FilterProducts(term, catalog)
  {
    FilterIsSubsequence(p => Matches(term, p), catalog);
    forall p ensures multiset(FilterProducts(term, catalog))[p]
                     == if Matches(term, p) then multiset(catalog)[p] else 0 {
      FilterProductsCount(term, catalog, p);
    }
    forall p | p in catalog && Matches(term, p) ensures p in FilterProducts(term, catalog) {
      FilterProductsKeeps(term, catalog, p);
    }
  }

  /** Every offered product is listed in the catalog searched. */
  lemma OfferedProductsListed(term: string, catalog: seq<Product>)
    ensures forall p :: p in FilterProducts(term, catalog) ==> Listed(p, catalog)
  {
    forall p | p in FilterProducts(term, catalog) ensures Listed(p, catalog) {
      ListedIff(p, catalog);
    }
  }

  /** A matching catalog product is offered. */
  lemma FilterProductsKeeps(term: string, catalog: seq<Product>, p: Product)
    requires |term| >= MinTermLength && p in catalog && Matches(term, p)
    ensures p in FilterProducts(term, catalog)
  {
    FilterComplete(q => Matches(term, q), catalog, p);
  }

  /** A matching product is offered as often as the catalog lists it; any other, never. */
  lemma FilterProductsCount(term: string, catalog: seq<Product>, p: Product)
    requires |term| >= MinTermLength
    ensures multiset(FilterProducts(term, catalog))[p] == if Matches(term, p) then multiset(catalog)[p] else 0
  {
    FilterCount(q => Matches(term, q), catalog, p);
  }

  /** Only the letters' case-insensitive content of the term matters. */
  lemma FilterProductsIgnoresCase(term: string, catalog: seq<Product>)
    ensures FilterProducts(Lower(term), catalog) == FilterProducts(term, catalog)
  {
    LowerIdempotent(term);
    if |term| >= MinTermLength {
      FilterCongruent(p => Matches(Lower(term), p), p => Matches(term, p), catalog);
    }
  }

  /** Searching the shipped catalog for "VC2000" offers VC2000-W and PL-VC2000-S, VC2000-W exactly once. */
  lemma SearchVC2000()
    ensures Catalog[1] in FilterProducts("VC2000", Catalog)
    ensures Catalog[14] in FilterProducts("VC2000", Catalog)
    ensures multiset(FilterProducts("VC2000", Catalog))[Catalog[1]] == 1
  {
    MatchesVC2000();
    FilterProductsKeeps("VC2000", Catalog, Catalog[1]);
    FilterProductsKeeps("VC2000", Catalog, Catalog[14]);
    FilterProductsCount("VC2000", Catalog, Catalog[1]);
    CatalogListsVC2000WOnce();
  }

  lemma MatchesVC2000()
    ensures Matches("VC2000", Catalog[1]) && Matches("VC2000", Catalog[14])
  {
    var term := Lower("VC2000");
    assert term == "vc2000";
    SkuOccurrenceMatches("VC2000", Catalog[1], 0);
    SkuOccurrenceMatches("VC2000", Catalog[14], 3);
  }

  /** An occurrence of the lower-cased term in the lower-cased SKU is a match. */
  lemma SkuOccurrenceMatches(term: string, p: Product, i: int)
    requires OccursAt(Lower(p.sku), Lower(term), i)
    ensures Matches(term, p)
  {
    OccurrenceIsIncluded(Lower(p.sku), Lower(term), i);
  }

  /** A product whose SKU is the only one starting with `ch` is listed once. */
  lemma UniqueInitialListedOnce(s: seq<Product>, k: int, ch: char)
    requires 0 <= k < |s|
    requires forall i :: 0 <= i < |s| && i != k ==> |s[i].sku| > 0 && s[i].sku[0] != ch
    requires |s[k].sku| > 0 && s[k].sku[0] == ch
    ensures multiset(s)[s[k]] == 1
  {
    OccursOnce(s, k);
  }

  lemma CatalogListsVC2000WOnce()
    ensures multiset(Catalog)[Catalog[1]] == 1
  {
    // VC2000-W is the only SKU that starts with a V
    FirstRowsNotV();
    MiddleRowsNotV();
    LastRowsNotV();
    UniqueInitialListedOnce(Catalog, 1, 'V');
  }

  lemma FirstRowsNotV()
    ensures |Catalog| == 27
    ensures forall i :: 0 <= i < 9 && i != 1 ==> |Catalog[i].sku| > 0 && Catalog[i].sku[0] != 'V'
  {
  }

  lemma MiddleRowsNotV()
    ensures |Catalog| == 27
    ensures forall i :: 9 <= i < 18 ==> |Catalog[i].sku| > 0 && Catalog[i].sku[0] != 'V'
  {
  }

  lemma LastRowsNotV()
    ensures |Catalog| == 27
    ensures forall i :: 18 <= i < 27 ==> |Catalog[i].sku| > 0 && Catalog[i].sku[0] != 'V'
  {
  }

  /** Three rows, none highlighted: ArrowDown reaches the first; from the last it wraps to the first. */
  lemma ArrowDownExamples()
    ensures NextIndex(-1, 3) == 0 && NextIndex(2, 3) == 0
    ensures PrevIndex(0, 3) == 2 && PrevIndex(-1, 3) == 1 && PrevIndex(-1, 1) == 0
  {
  }

  /** The highlighted row after ArrowDown: `(i + 1) % n`. */
  function NextIndex(i: int, n: int): (r: int)
    requires n > 0
    ensures -1 <= i < n ==> 0 <= r < n
    ensures -1 <= i < n ==> r == if i == n - 1 then 0 else i + 1
  {
    JsRem(i + 1, n)
  }

  /** The highlighted row after ArrowUp: `(i - 1 + n) % n`. */
  function PrevIndex(i: int, n: int): (r: int)
    requires n > 0
    ensures -1 <= i < n ==> 0 <= r < n
    ensures 0 <= i < n ==> r == if i == 0 then n - 1 else i - 1
    ensures i == -1 ==> r == if n == 1 then 0 else n - 2
  {
    JsRem(i - 1 + n, n)
  }

  /** On a highlighted row, ArrowUp undoes ArrowDown and ArrowDown undoes ArrowUp. */
  lemma NavigationInverse(i: int, n: int)
    requires 0 <= i < n
    ensures PrevIndex(NextIndex(i, n), n) == i
    ensures NextIndex(PrevIndex(i, n), n) == i
  {
  }

  /** The keys the text field reacts to; every other key is `OtherKey`. */
  datatype Key = ArrowDown | ArrowUp | Enter | Escape | OtherKey

  /** The state of one product search field. */
  class ProductSearchInput {
    /** The product list the field searches: the catalog, fixed at construction. */
    const catalog: seq<Product>
    var searchTerm: string
    var results: seq<Product>
    var isOpen: bool
    var activeIndex: int

    /**
     * The highlighted row is -1 or a row of the list, the list is only open when it has
     * rows, and every row comes from the catalog.
     */
    ghost predicate Valid()
      reads this
    {
      && -1 <= activeIndex
      && (results != [] ==> activeIndex < |results|)
      && (isOpen ==> results != [])
      && forall p :: p in results ==> p in catalog
    }

    constructor (initialSku: string)
      ensures Valid()
      ensures catalog == Catalog
      ensures searchTerm == initialSku && results == [] && !isOpen && activeIndex == -1
    {
      catalog := Catalog;
      searchTerm := initialSku;
      results := [];
      isOpen := false;
      activeIndex := -1;
    }

    /** The owning row's SKU changed: the text follows it. */
    method SyncInitialSku(initialSku: string)
      requires Valid()
      modifies this
      ensures Valid()
      ensures searchTerm == initialSku
      ensures results == old(results) && isOpen == old(isOpen) && activeIndex == old(activeIndex)
    {
      searchTerm := initialSku;
    }

    /** Recomputes the list for `term`; a short term closes it and leaves the highlight alone. */
    method FilterAndShow(term: string)
      requires Valid()
      modifies this
      ensures Valid()
      ensures results == FilterProducts(term, catalog)
      ensures isOpen == (results != [])
      ensures activeIndex == if |term| < MinTermLength then old(activeIndex) else -1
      ensures searchTerm == old(searchTerm)
    {
      if |term| < MinTermLength {
        isOpen := false;
        results := [];
        return;
      }
      var filtered := FilterProducts(term, catalog);
      results := filtered;
      isOpen := |filtered| > 0;
      activeIndex := -1;
    }

    /** The user typed: the text becomes `term` and the list is recomputed for it. */
    method InputChange(term: string)
      requires Valid()
      modifies this
      ensures Valid()
      ensures searchTerm == term
      ensures results == FilterProducts(term, catalog)
      ensures isOpen == (results != [])
      ensures activeIndex == if |term| < MinTermLength then old(activeIndex) else -1
    {
      searchTerm := term;
      FilterAndShow(term);
    }

    /** The field gained focus: the same state as if the current text had just been typed. */
    method Focus()
      requires Valid()
      modifies this
      ensures Valid()
      ensures searchTerm == old(searchTerm)
      ensures results == FilterProducts(searchTerm, catalog)
      ensures isOpen == (results != [])
      ensures activeIndex == if |searchTerm| < MinTermLength then old(activeIndex) else -1
    {
      FilterAndShow(searchTerm);
    }

    /** A product was chosen: it is emitted, its SKU becomes the text and the list closes. */
    method Select(p: Product) returns (emitted: Product)
      requires Valid()
      modifies this
      ensures Valid()
      ensures emitted == p
      ensures searchTerm == p.sku && !isOpen && activeIndex == -1
      ensures results == old(results)
    {
      searchTerm := p.sku;
      emitted := p;
      isOpen := false;
      activeIndex := -1;
    }

    /**
     * A key press. Nothing happens unless the list is open with rows; the arrows move the
     * highlight cyclically, Enter selects the highlighted row if there is one, Escape closes.
     */
    method KeyDown(key: Key) returns (emitted: Option<Product>)
      requires Valid()
      modifies this
      ensures Valid()
      ensures !old(isOpen) || old(results) == [] ==> emitted == None && unchanged(this)
      ensures old(isOpen) && old(results) != [] ==>
        match key
        case ArrowDown =>
          && activeIndex == NextIndex(old(activeIndex), |old(results)|)
          && emitted == None && searchTerm == old(searchTerm)
          && results == old(results) && isOpen == old(isOpen)
        case ArrowUp =>
          && activeIndex == PrevIndex(old(activeIndex), |old(results)|)
          && emitted == None && searchTerm == old(searchTerm)
          && results == old(results) && isOpen == old(isOpen)
        case Enter =>
          if 0 <= old(activeIndex) < |old(results)| then
            && emitted == Some(old(results)[old(activeIndex)])
            && searchTerm == emitted.value.sku && !isOpen && activeIndex == -1
            && results == old(results)
          else
            emitted == None && unchanged(this)
        case Escape =>
          && !isOpen && emitted == None
          && searchTerm == old(searchTerm) && results == old(results)
          && activeIndex == old(activeIndex)
        case OtherKey =>
          emitted == None && unchanged(this)
    {
      emitted := None;
      if !isOpen || |results| == 0 {
        return;
      }
      match key
      case ArrowDown =>
        activeIndex := NextIndex(activeIndex, |results|);
      case ArrowUp =>
        activeIndex := PrevIndex(activeIndex, |results|);
      case Enter =>
        // `results[activeIndex]` is truthy exactly when the index is in range
        if 0 <= activeIndex < |results| {
          var p := Select(results[activeIndex]);
          emitted := Some(p);
        }
      case Escape =>
        isOpen := false;
      case OtherKey =>
    }

    /** A pointer press outside the component closes the list and changes nothing else. */
    method ClickOutside()
      requires Valid()
      modifies this
      ensures Valid()
      ensures !isOpen
      ensures searchTerm == old(searchTerm) && results == old(results) && activeIndex == old(activeIndex)
    {
      isOpen := false;
    }

    /** The pointer moved over a shown row, which becomes the highlighted one. */
    method MouseOver(index: int)
      requires Valid()
      requires isOpen && 0 <= index < |results|
      modifies this
      ensures Valid()
      ensures activeIndex == index
      ensures searchTerm == old(searchTerm) && results == old(results) && isOpen == old(isOpen)
    {
      activeIndex := index;
    }

    /** A shown row was clicked: its product is selected. */
    method ClickRow(index: int) returns (emitted: Product)
      requires Valid()
      requires isOpen && 0 <= index < |results|
      modifies this
      ensures Valid()
      ensures emitted == old(results)[index]
      ensures searchTerm == emitted.sku && !isOpen && activeIndex == -1
      ensures results == old(results)
    {
      emitted := Select(results[index]);
    }
  }
}
