/**
 * The sales page: a one-product sale form whose submit reads the product's
 * price text back into a number, multiplies it by the quantity and prepends the sale.
 */
module Sales {
  import opened Wrappers
  import opened Lists
  import opened Text
  import opened Directory

  datatype SaleStatus = Completed | Pending | Cancelled

  function StatusLabel(s: SaleStatus): string {
    match s
    case Completed => "Concluída"
    case Pending => "Pendente"
    case Cancelled => "Cancelada"
  }

  /** A catalog entry, its price held as the text the page lists ("R$7500.00"). */
  datatype Product = Product(sku: string, name: string, price: string)

  function Sku(p: Product): string {
    p.sku
  }

  const Catalog: seq<Product> := [
    Product("LP-001", "Laptop Pro", "R$7500.00"),
    Product("SX-002", "Smartphone X", "R$3200.00"),
    Product("M4K-003", "Monitor 4K", "R$1800.00"),
    Product("TM-004", "Teclado Mecânico", "R$450.00"),
    Product("MG-005", "Mouse Gamer", "R$250.00")
  ]

  datatype Sale = Sale(id: string, customer: string, date: string, status: SaleStatus, total: string)

  const InitialSales: seq<Sale> := [
    Sale("SALE001", "Liam Johnson", "2023-11-23", Completed, "R$250.00"),
    Sale("SALE002", "Olivia Smith", "2023-11-22", Completed, "R$150.00"),
    Sale("SALE003", "Noah Williams", "2023-11-21", Pending, "R$350.00"),
    Sale("SALE004", "Emma Brown", "2023-11-20", Completed, "R$450.00"),
    Sale("SALE005", "James Jones", "2023-11-19", Cancelled, "R$550.00")
  ]

  datatype SaleForm = SaleForm(customer: string, product: string, quantity: int, status: SaleStatus)

  /** The form `handleOpenDialog` starts from: no customer or product, quantity 1, "Pendente". */
  const FreshForm := SaleForm("", "", 1, Pending)

  /** `parseFloat(price.replace('R$', '').replace('.', '').replace(',', '.'))`, in cents; `None` is NaN. */
  function UnitPrice(price: string): Option<int> {
    ParseCents(Unformat(price))
  }

  /** `priceAsNumber * quantity`, NaN staying NaN. */
  function Amount(unit: Option<int>, quantity: int): (r: Option<int>)
    ensures r.Some? <==> unit.Some?
    ensures r.Some? ==> r.value == unit.value * quantity
  {
    match unit
    case Some(c) => Some(c * quantity)
    case None => None
  }

  /** `` `SALE${String(Date.now()).slice(-3)}` ``. */
  function SaleId(now: nat): string {
    "SALE" + LastThreeDigits(now)
  }

  /** The save button is enabled once a customer and a product are chosen. */
  predicate SaveEnabled(form: SaleForm) {
    form.customer != "" && form.product != ""
  }

  /**
   * `handleSubmit` up to the prepend: `None` when no product has the chosen sku or no
   * customer is chosen; otherwise the sale, priced from the first product with that sku.
   * `localDate` is today as "dd/mm/yyyy", supplied by the caller.
   */
  function Record(products: seq<Product>, customers: seq<Customer>, form: SaleForm, now: nat, localDate: string): (r: Option<Sale>)
    ensures r.None? <==> Find(products, Sku, form.product).None? || form.customer == ""
    ensures r.Some? ==>
              r.value.id == SaleId(now) && r.value.status == form.status &&
              r.value.customer == CustomerName(customers, form.customer) &&
              r.value.date == IsoDate(localDate) &&
              r.value.total == FormatAmount(Amount(UnitPrice(Find(products, Sku, form.product).value.price), form.quantity))
  {
    match Find(products, Sku, form.product)
    case None => None
    case Some(p) =>
      if form.customer == "" then None
      else
        Some(Sale(SaleId(now), CustomerName(customers, form.customer), IsoDate(localDate), form.status,
                  FormatAmount(Amount(UnitPrice(p.price), form.quantity))))
  }

  /** When no product has an empty sku, a recorded sale always came through the enabled button. */
  lemma RecordedOnlyWhenEnabled(products: seq<Product>, customers: seq<Customer>, form: SaleForm, now: nat, localDate: string)
    requires forall i :: 0 <= i < |products| ==> products[i].sku != ""
    requires Record(products, customers, form, now, localDate).Some?
    ensures SaveEnabled(form)
  {
    var p := Find(products, Sku, form.product).value;
    var i :| 0 <= i < |products| && products[i] == p;
  }

  /** A product priced in the page's own written shape is charged exactly price times quantity. */
  lemma WrittenPriceCharged(cents: int, quantity: int)
    ensures UnitPrice(FormatPrice(cents)) == Some(cents)
    ensures ParseCents(Unformat(FormatAmount(Amount(UnitPrice(FormatPrice(cents)), quantity)))) == Some(cents * quantity)
  {
    PriceRoundTrip(cents);
    PriceRoundTrip(cents * quantity);
  }

  /** The seed Laptop Pro, listed at "R$7500.00", is charged as 750000 reais a unit. */
  lemma SeedLaptopChargedHundredfold(customers: seq<Customer>, customer: string, quantity: int, status: SaleStatus, now: nat, localDate: string)
    requires customer != ""
    ensures UnitPrice(Catalog[0].price) == Some(100 * 750000)
    ensures Record(Catalog, customers, SaleForm(customer, "LP-001", quantity, status), now, localDate).Some?
    ensures Record(Catalog, customers, SaleForm(customer, "LP-001", quantity, status), now, localDate).value.total
            == FormatPrice(75000000 * quantity)
  {
    SeedPriceReadBack();
    assert Find(Catalog, Sku, "LP-001") == Some(Catalog[0]);
  }

  class SalesPage {
    const products: seq<Product>
    const customers: seq<Customer>
    var sales: seq<Sale>
    var dialogOpen: bool
    var form: SaleForm

    constructor ()
      ensures products == Catalog && customers == InitialCustomers
      ensures sales == InitialSales && !dialogOpen && form == FreshForm
    {
      products := Catalog;
      customers := InitialCustomers;
      sales := InitialSales;
      dialogOpen := false;
      form := FreshForm;
    }

    /** `handleOpenDialog`. */
    method OpenDialog()
      modifies this`form, this`dialogOpen
      ensures form == FreshForm && dialogOpen
    {
      form := FreshForm;
      dialogOpen := true;
    }

    /** `handleSelectChange('customer', id)`. */
    method ChooseCustomer(id: string)
      modifies this`form
      ensures form == old(form).(customer := id)
    {
      form := form.(customer := id);
    }

    /** `handleSelectChange('product', sku)`. */
    method ChooseProduct(sku: string)
      modifies this`form
      ensures form == old(form).(product := sku)
    {
      form := form.(product := sku);
    }

    /** `handleSelectChange('status', value)`. */
    method ChooseStatus(status: SaleStatus)
      modifies this`form
      ensures form == old(form).(status := status)
    {
      form := form.(status := status);
    }

    /** `handleInputChange` on the quantity input, with the number it holds. */
    method ChangeQuantity(quantity: int)
      modifies this`form
      ensures form == old(form).(quantity := quantity)
    {
      form := form.(quantity := quantity);
    }

    /** `handleSubmit`: a recorded sale goes first and the dialog closes; otherwise nothing changes. */
    method Submit(now: nat, localDate: string)
      modifies this`sales, this`dialogOpen
      ensures match Record(products, customers, form, now, localDate)
              case Some(sale) => sales == [sale] + old(sales) && !dialogOpen
              case None => sales == old(sales) && dialogOpen == old(dialogOpen)
    {
      var r := Record(products, customers, form, now, localDate);
      if r.Some? {
        sales := [r.value] + sales;
        dialogOpen := false;
      }
    }
  }
}
