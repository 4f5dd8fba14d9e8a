/**
 * The stock-in form: a searchable product combobox and the submit that records a
 * new batch with everything it received still remaining.
 */
module StockInForm {
  import opened Wrappers
  import opened Inventory
  import opened Seqs
  import opened Sorting
  import opened Stock
  import opened Db
  import opened Text

  /** `(a, b) => a.name.localeCompare(b.name)`, under the collation `collate`. */
  function ByProductName(collate: (string, string) -> bool): (Product, Product) -> bool
  {
    ByKey(collate, (p: Product) => p.name)
  }

  function Matches(term: string, lower: string -> string): Product -> bool
  {
    (p: Product) => MatchesSearch(p.name, p.sku, term, lower)
  }

  /**
   * The dropdown's entries: the loaded products whose name or sku contains the
   * term, ignoring case, in name order.
   */
  function DropdownList(products: seq<Product>, term: string, collate: (string, string) -> bool,
                        lower: string -> string): (r: seq<Product>)
    ensures forall p :: p in r <==>
      p in products && (Contains(lower(p.name), lower(term)) || Contains(lower(p.sku), lower(term)))
    ensures multiset(r) == multiset(Filter(products, Matches(term, lower)))
  {
    var matching := Filter(products, Matches(term, lower));
    var r := Sort(matching, ByProductName(collate));
    assert forall p :: p in r <==> p in multiset(matching);
    r
  }

  /** Under a collation that is a total preorder, the dropdown is in name order. */
  lemma DropdownListSorted(products: seq<Product>, term: string, collate: (string, string) -> bool,
                           lower: string -> string)
    requires TotalPreorder(collate)
    ensures Sorted(DropdownList(products, term, collate, lower), ByProductName(collate))
  {
    ByKeyIsTotalPreorder(collate, (p: Product) => p.name);
    SortSorted(Filter(products, Matches(term, lower)), ByProductName(collate));
  }

  /** With an empty term the dropdown lists every loaded product. */
  lemma EmptyTermListsAll(products: seq<Product>, p: Product, collate: (string, string) -> bool,
                          lower: string -> string)
    requires p in products && lower("") == ""
    ensures p in DropdownList(products, "", collate, lower)
  {
    EmptyTermMatches(p.name, p.sku, lower);
  }

  class Form {
    var products: seq<Product>
    var productId: Option<nat>
    var quantity: Option<int>
    var costPrice: Option<int>
    var searchTerm: string
    var displaySearchTerm: string
    var showDropdown: bool
    /** The user's collation and the runtime's case mapping. */
    const collate: (string, string) -> bool
    const lower: string -> string

    /** A selected product never sits under a pending search: its dropdown lists everything. */
    ghost predicate Valid()
      reads this
    {
      productId.Some? ==> searchTerm == ""
    }

    constructor (collate: (string, string) -> bool, lower: string -> string)
      ensures Valid()
      ensures this.collate == collate && this.lower == lower
      ensures products == [] && productId.None? && quantity.None? && costPrice.None?
      ensures searchTerm == "" && displaySearchTerm == "" && !showDropdown
    {
      this.collate := collate;
      this.lower := lower;
      products := [];
      productId := None;
      quantity := None;
      costPrice := None;
      searchTerm := "";
      displaySearchTerm := "";
      showDropdown := false;
    }

    /** `fetchProducts`: the active products, in name order. */
    method FetchProducts(all: seq<Product>)
      requires Valid()
      modifies this`products
      ensures Valid()
      ensures products == Sort(Filter(all, IsActive), ByProductName(collate))
    {
      products := Sort(Filter(all, IsActive), ByProductName(collate));
    }

    function Dropdown(): seq<Product>
      reads this
    {
      DropdownList(products, searchTerm, collate, lower)
    }

    /**
     * The invariant's point: once a product is selected, reopening the dropdown
     * lists every loaded product, not only those matching earlier typing.
     */
    lemma SelectionListsAll(p: Product)
      requires Valid() && productId.Some? && p in products && lower("") == ""
      ensures p in Dropdown()
    {
      EmptyTermListsAll(products, p, collate, lower);
    }

    /**
     * The quantity input's `onChange`. `value` is the entered text as `Number`
     * reads it; None is the empty text, which the `required` input refuses to submit.
     */
    method HandleQuantityChange(value: Option<int>)
      requires Valid()
      modifies this`quantity
      ensures Valid()
      ensures quantity == value
    {
      quantity := value;
    }

    /** The cost input's `onChange`, read as the quantity's is. */
    method HandleCostChange(value: Option<int>)
      requires Valid()
      modifies this`costPrice
      ensures Valid()
      ensures costPrice == value
    {
      costPrice := value;
    }

    /**
     * `handleSubmit`. Nothing happens without a selected product, or with an empty
     * quantity or cost (the inputs are required). Otherwise a batch is inserted
     * with remaining = quantity received, at the unit cost entered, stamped now;
     * a failed insert writes nothing and keeps every field, a successful one
     * clears every field and closes the dropdown.
     */
    method HandleSubmit(db: Store, now: int, insertSucceeds: bool)
      requires Valid() && db.Valid()
      modifies this`productId, this`quantity, this`costPrice, this`searchTerm,
               this`displaySearchTerm, this`showDropdown, db`batches
      ensures Valid() && db.Valid()
      ensures products == old(products)
      ensures old(productId).None? || old(quantity).None? || old(costPrice).None? || !insertSucceeds ==>
        && db.batches == old(db.batches)
        && productId == old(productId) && quantity == old(quantity) && costPrice == old(costPrice)
        && searchTerm == old(searchTerm) && displaySearchTerm == old(displaySearchTerm)
        && showDropdown == old(showDropdown)
      ensures old(productId).Some? && old(quantity).Some? && old(costPrice).Some? && insertSucceeds ==>
        && db.batches == old(db.batches) + [Batch(|old(db.batches)|, old(productId).value,
                                                  old(quantity).value, old(quantity).value,
                                                  old(costPrice).value, now)]
        && productId.None? && quantity.None? && costPrice.None?
        && searchTerm == "" && displaySearchTerm == "" && !showDropdown
    {
      if quantity.None? || costPrice.None? {
        return;
      }
      if productId.None? {
        return;
      }
      if !insertSucceeds {
        return;
      }
      var _ := db.InsertBatch(productId.value, quantity.value, quantity.value, costPrice.value, now);
      productId := None;
      quantity := None;
      costPrice := None;
      searchTerm := "";
      displaySearchTerm := "";
      showDropdown := false;
    }

    /** `handleSelectProduct`: remember the product, show "name (sku)", clear the search, close. */
    method HandleSelectProduct(p: Product)
      modifies this`productId, this`displaySearchTerm, this`searchTerm, this`showDropdown
      ensures Valid()
      ensures productId == Some(p.id) && displaySearchTerm == p.name + " (" + p.sku + ")"
      ensures searchTerm == "" && !showDropdown
    {
      productId := Some(p.id);
      displaySearchTerm := p.name + " (" + p.sku + ")";
      searchTerm := "";
      showDropdown := false;
    }

    /**
     * `handleToggleDropdown`. Opening over a selected product drops the selection
     * and both search texts; opening over typed text filters by it; closing
     * changes nothing else.
     */
    method HandleToggleDropdown()
      requires Valid()
      modifies this`productId, this`displaySearchTerm, this`searchTerm, this`showDropdown
      ensures Valid()
      ensures showDropdown == !old(showDropdown)
      ensures !old(showDropdown) && old(productId).Some? ==>
        productId.None? && searchTerm == "" && displaySearchTerm == ""
      ensures !old(showDropdown) && old(productId).None? && old(displaySearchTerm) != "" ==>
        productId.None? && searchTerm == old(displaySearchTerm) && displaySearchTerm == old(displaySearchTerm)
      ensures old(showDropdown) || (old(productId).None? && old(displaySearchTerm) == "") ==>
        productId == old(productId) && searchTerm == old(searchTerm) && displaySearchTerm == old(displaySearchTerm)
    {
      if !showDropdown && productId.Some? {
        searchTerm := "";
        displaySearchTerm := "";
        productId := None;
      } else if !showDropdown && displaySearchTerm != "" {
        searchTerm := displaySearchTerm;
      }
      showDropdown := !showDropdown;
    }

    /**
     * The input's `onFocus`: with a product selected the search is cleared so every
     * product is listed; otherwise typed text becomes the search; the dropdown opens
     * either way and the selection is kept.
     */
    method HandleFocus()
      modifies this`searchTerm, this`showDropdown
      ensures Valid()
      ensures showDropdown
      ensures old(productId).Some? ==> searchTerm == ""
      ensures old(productId).None? && old(displaySearchTerm) != "" ==> searchTerm == old(displaySearchTerm)
      ensures old(productId).None? && old(displaySearchTerm) == "" ==> searchTerm == old(searchTerm)
    {
      if productId.Some? {
        searchTerm := "";
      } else if displaySearchTerm != "" {
        searchTerm := displaySearchTerm;
      }
      showDropdown := true;
    }

    /**
     * The input's `onBlur`, at the moment its 100 ms timer fires: the dropdown
     * closes and nothing else changes.
     */
    method HandleBlur()
      requires Valid()
      modifies this`showDropdown
      ensures Valid()
      ensures !showDropdown
    {
      showDropdown := false;
    }

    /** `handleInputChange`: the typed text drives both search texts, drops the selection, opens. */
    method HandleInputChange(value: string)
      modifies this`productId, this`displaySearchTerm, this`searchTerm, this`showDropdown
      ensures Valid()
      ensures displaySearchTerm == value && searchTerm == value && productId.None? && showDropdown
    {
      displaySearchTerm := value;
      searchTerm := value;
      productId := None;
      showDropdown := true;
    }
  }
}
