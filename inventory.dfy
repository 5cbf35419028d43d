/**
 * The inventory page: products, their stock status, and the product dialog that
 * reads a stored price back into the form and writes it again on save.
 */
module Inventory {
  import opened Wrappers
  import opened Lists
  import opened Text

  datatype StockStatus = InStock | LowStock | OutOfStock

  /** The badge text of each status. */
  function StatusLabel(s: StockStatus): string {
    match s
    case InStock => "Em Estoque"
    case LowStock => "Estoque Baixo"
    case OutOfStock => "Fora de Estoque"
  }

  /** The price is kept as the text the page writes, for example "R$7500,00". */
  datatype Product = Product(sku: string, name: string, category: string, quantity: int, price: string, status: StockStatus)

  function Sku(p: Product): string {
    p.sku
  }

  const InitialProducts: seq<Product> := [
    Product("LP-001", "Laptop Pro", "Eletrônicos", 25, "R$7500.00", InStock),
    Product("SX-002", "Smartphone X", "Eletrônicos", 8, "R$3200.00", LowStock),
    Product("M4K-003", "Monitor 4K", "Eletrônicos", 15, "R$1800.00", InStock),
    Product("TM-004", "Teclado Mecânico", "Periféricos", 50, "R$450.00", InStock),
    Product("MG-005", "Mouse Gamer", "Periféricos", 0, "R$250.00", OutOfStock)
  ]

  /** `getStatus`: out of stock only at exactly zero, low below ten (negative counts included), in stock from ten. */
  function GetStatus(quantity: int): (s: StockStatus)
    ensures s == OutOfStock <==> quantity == 0
    ensures s == LowStock <==> quantity < 10 && quantity != 0
    ensures s == InStock <==> quantity >= 10
  {
    if quantity == 0 then OutOfStock else if quantity < 10 then LowStock else InStock
  }

  /** A product whose status badge agrees with its quantity. */
  predicate StatusConsistent(p: Product) {
    p.status == GetStatus(p.quantity)
  }

  lemma InitialProductsConsistent()
    ensures DistinctKeys(InitialProducts, Sku)
    ensures forall i :: 0 <= i < |InitialProducts| ==> StatusConsistent(InitialProducts[i])
  {
  }

  /** The dialog's fields: the quantity as the number input yields it, the price as typed text. */
  datatype ProductForm = ProductForm(name: string, sku: string, category: string, quantity: int, price: string)

  const BlankForm := ProductForm("", "", "", 0, "")

  /** `handleOpenDialog(product)`: the form shows the product, its price with "R$", "." and "," undone. */
  function FormOf(p: Product): (f: ProductForm)
    ensures f.name == p.name && f.sku == p.sku && f.category == p.category && f.quantity == p.quantity
    ensures f.price == Unformat(p.price)
  {
    ProductForm(p.name, p.sku, p.category, p.quantity, Unformat(p.price))
  }

  /**
   * The product `handleSubmit` builds: an edit keeps the typed sku, a new product gets
   * `PROD-<now>`; the price is re-parsed and written, and the status follows the quantity.
   */
  function Submitted(form: ProductForm, editing: Option<Product>, now: nat): (p: Product)
    ensures StatusConsistent(p)
    ensures p.name == form.name && p.category == form.category && p.quantity == form.quantity
    ensures editing.Some? ==> p.sku == form.sku
    ensures editing.None? ==> p.sku == "PROD-" + NatToString(now)
    ensures p.price == FormatAmount(ParseCents(form.price))
  {
    var sku := if editing.Some? then form.sku else "PROD-" + NatToString(now);
    Product(sku, form.name, form.category, form.quantity, FormatAmount(ParseCents(form.price)), GetStatus(form.quantity))
  }

  /** The product list after `handleSubmit`. */
  function Saved(products: seq<Product>, editing: Option<Product>, form: ProductForm, now: nat): (r: seq<Product>)
    ensures editing.Some? ==> |r| == |products| && forall i :: 0 <= i < |products| ==>
              r[i] == if products[i].sku == editing.value.sku then Submitted(form, editing, now) else products[i]
    ensures editing.None? ==> r == [Submitted(form, editing, now)] + products
  {
    var p := Submitted(form, editing, now);
    if editing.Some? then ReplaceKey(products, Sku, editing.value.sku, p) else [p] + products
  }

  /** A product the page itself wrote: its price has the page's own shape and its status follows its quantity. */
  ghost predicate WrittenByPage(p: Product) {
    StatusConsistent(p) && exists cents: int :: p.price == FormatPrice(cents)
  }

  /** Opening a product the page wrote and saving the form untouched gives back the same product. */
  lemma EditRoundTrip(p: Product, now: nat)
    requires WrittenByPage(p)
    ensures Submitted(FormOf(p), Some(p), now) == p
  {
    var cents :| p.price == FormatPrice(cents);
    PriceRoundTrip(cents);
  }

  /** Saving such an edit unchanged leaves the whole list as it was. */
  lemma ResubmitUnchanged(products: seq<Product>, p: Product, now: nat)
    requires DistinctKeys(products, Sku) && p in products && WrittenByPage(p)
    ensures Saved(products, Some(p), FormOf(p), now) == products
  {
    EditRoundTrip(p, now);
    ReplaceWithSelf(products, Sku, p);
  }

  /** The seed Laptop Pro, saved unchanged, comes back a hundred times dearer. */
  lemma SeedEditReprices(now: nat)
    ensures Saved(InitialProducts, Some(InitialProducts[0]), FormOf(InitialProducts[0]), now)[0].price == "R$750000,00"
    ensures Saved(InitialProducts, Some(InitialProducts[0]), FormOf(InitialProducts[0]), now)[0] != InitialProducts[0]
  {
    SeedPriceReadBack();
  }

  class InventoryPage {
    var products: seq<Product>
    var dialogOpen: bool
    var editing: Option<Product>
    var form: ProductForm

    constructor ()
      ensures products == InitialProducts && !dialogOpen && editing == None && form == BlankForm
    {
      products := InitialProducts;
      dialogOpen := false;
      editing := None;
      form := BlankForm;
    }

    /** `handleOpenDialog`: a product to edit fills the form from it; none clears the form. */
    method OpenDialog(product: Option<Product>)
      modifies this
      ensures products == old(products) && editing == product && dialogOpen
      ensures product.Some? ==> form == FormOf(product.value)
      ensures product.None? ==> form == BlankForm
    {
      editing := product;
      form := if product.Some? then FormOf(product.value) else BlankForm;
      dialogOpen := true;
    }

    /** `handleFormChange` on the name input. */
    method ChangeName(name: string)
      modifies this`form
      ensures form == old(form).(name := name)
    {
      form := form.(name := name);
    }

    /** `handleFormChange` on the sku input (the input is disabled while editing). */
    method ChangeSku(sku: string)
      modifies this`form
      ensures form == old(form).(sku := sku)
    {
      form := form.(sku := sku);
    }

    /** `handleSelectChange('category', value)`. */
    method ChangeCategory(category: string)
      modifies this`form
      ensures form == old(form).(category := category)
    {
      form := form.(category := category);
    }

    /** `handleFormChange` on the quantity input, with the number it holds. */
    method ChangeQuantity(quantity: int)
      modifies this`form
      ensures form == old(form).(quantity := quantity)
    {
      form := form.(quantity := quantity);
    }

    /** `handleFormChange` on the price input. */
    method ChangePrice(price: string)
      modifies this`form
      ensures form == old(form).(price := price)
    {
      form := form.(price := price);
    }

    /** `handleDelete`: every product with the sku goes, the rest keep their order. */
    method Delete(sku: string)
      modifies this`products
      ensures products == RemoveKey(old(products), Sku, sku)
      ensures forall i :: 0 <= i < |products| ==> products[i].sku != sku
      ensures IsSubsequence(products, old(products))
    {
      RemoveKeyIsSubsequence(products, Sku, sku);
      products := RemoveKey(products, Sku, sku);
    }

    /** `handleSubmit`. */
    method Submit(now: nat)
      modifies this`products, this`dialogOpen
      ensures products == Saved(old(products), editing, form, now)
      ensures editing.Some? ==> |products| == |old(products)|
      ensures editing.None? ==> |products| == |old(products)| + 1 && products[0].sku == "PROD-" + NatToString(now)
      ensures !dialogOpen
    {
      products := Saved(products, editing, form, now);
      dialogOpen := false;
    }
  }
}
