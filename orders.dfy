/**
 * The orders page: the order form with its editable product lines, and the
 * submit handler that prices the lines from the catalog and prepends the order.
 */
module Orders {
  import opened Wrappers
  import opened Lists
  import opened Text
  import opened Directory

  datatype OrderStatus = Processing | Shipped | Delivered | Cancelled

  function StatusLabel(s: OrderStatus): string {
    match s
    case Processing => "Processando"
    case Shipped => "Enviado"
    case Delivered => "Entregue"
    case Cancelled => "Cancelado"
  }

  /** A catalog entry; the page writes its price as "7500.00", held here in cents. */
  datatype CatalogItem = CatalogItem(sku: string, name: string, price: int)

  function ItemSku(p: CatalogItem): string {
    p.sku
  }

  const Catalog: seq<CatalogItem> := [
    CatalogItem("LP-001", "Laptop Pro", 750000),
    CatalogItem("SX-002", "Smartphone X", 320000),
    CatalogItem("M4K-003", "Monitor 4K", 180000),
    CatalogItem("TM-004", "Teclado Mecânico", 45000),
    CatalogItem("MG-005", "Mouse Gamer", 25000)
  ]

  /** An order line as stored: the product's name and unit price (in cents) at the time of the order. */
  datatype LineItem = LineItem(name: string, quantity: int, price: int)

  datatype Order = Order(id: string, customer: string, date: string, status: OrderStatus, total: string, products: seq<LineItem>)

  const InitialOrders: seq<Order> := [
    Order("ORD001", "Liam Johnson", "2023-11-23", Shipped, "R$250.00", [LineItem("Mouse Gamer", 1, 25000)]),
    Order("ORD002", "Olivia Smith", "2023-11-22", Processing, "R$150.00", [LineItem("Teclado Mecânico", 1, 15000)])
  ]

  /** One product row of the form: the chosen sku and the typed quantity. */
  datatype FormLine = FormLine(productId: string, quantity: int)

  datatype OrderForm = OrderForm(customer: string, status: OrderStatus, lines: seq<FormLine>)

  const EmptyLine := FormLine("", 1)

  /** The form `handleOpenFormDialog` starts from: no customer, "Processando", one empty line. */
  const FreshForm := OrderForm("", Processing, [EmptyLine])

  /** `addProductField`: one more empty line at the end; nothing before it changes. */
  function AddLine(form: OrderForm): (r: OrderForm)
    ensures r.customer == form.customer && r.status == form.status
    ensures |r.lines| == |form.lines| + 1 && r.lines[|form.lines|] == EmptyLine
    ensures forall i :: 0 <= i < |form.lines| ==> r.lines[i] == form.lines[i]
  {
    form.(lines := form.lines + [EmptyLine])
  }

  /** `removeProductField(index)`: exactly line `index` goes, the others keep their order. */
  function RemoveLine(form: OrderForm, index: int): (r: OrderForm)
    ensures r.customer == form.customer && r.status == form.status
    ensures 0 <= index < |form.lines| ==>
              |r.lines| == |form.lines| - 1 &&
              (forall i :: 0 <= i < index ==> r.lines[i] == form.lines[i]) &&
              (forall i :: index < i < |form.lines| ==> r.lines[i - 1] == form.lines[i])
    ensures !(0 <= index < |form.lines|) ==> r == form
  {
    form.(lines := DropIndex(form.lines, index))
  }

  /** Removing the line just added gives the form back. */
  lemma RemoveAfterAdd(form: OrderForm)
    ensures RemoveLine(AddLine(form), |form.lines|) == form
  {
    var r := RemoveLine(AddLine(form), |form.lines|);
    assert r.lines == form.lines;
  }

  /** The field of a line that `handleProductChange` sets, with its new value. */
  datatype LineEdit = SetProduct(sku: string) | SetQuantity(quantity: int)

  /** `{ ...line, [field]: value }`. */
  function Edited(line: FormLine, edit: LineEdit): (r: FormLine)
    ensures edit.SetProduct? ==> r.productId == edit.sku && r.quantity == line.quantity
    ensures edit.SetQuantity? ==> r.quantity == edit.quantity && r.productId == line.productId
  {
    match edit
    case SetProduct(sku) => line.(productId := sku)
    case SetQuantity(q) => line.(quantity := q)
  }

  /** The submit guard, which is also the condition that enables the save button. */
  predicate CanSubmit(form: OrderForm) {
    form.customer != "" && forall i :: 0 <= i < |form.lines| ==> form.lines[i].productId != ""
  }

  function LineFor(item: CatalogItem, line: FormLine): LineItem {
    LineItem(item.name, line.quantity, item.price)
  }

  /** A sku the catalog lists. */
  predicate Listed(catalog: seq<CatalogItem>, sku: string) {
    exists j :: 0 <= j < |catalog| && catalog[j].sku == sku
  }

  /**
   * The line mapping of `handleSubmit`: each line takes name and price from the first
   * catalog entry with its sku. `None` when some sku is not listed (the `find(...)!` throws).
   */
  function BuildLines(catalog: seq<CatalogItem>, lines: seq<FormLine>): (r: Option<seq<LineItem>>)
    ensures r.Some? <==> forall i :: 0 <= i < |lines| ==> Listed(catalog, lines[i].productId)
    ensures r.Some? ==> |r.value| == |lines|
    ensures r.Some? ==> forall i :: 0 <= i < |lines| ==>
              Find(catalog, ItemSku, lines[i].productId).Some? &&
              r.value[i] == LineFor(Find(catalog, ItemSku, lines[i].productId).value, lines[i])
  {
    if lines == [] then Some([])
    else
      match Find(catalog, ItemSku, lines[0].productId)
      case None => None
      case Some(item) =>
        match BuildLines(catalog, lines[1..])
        case None => None
        case Some(rest) => Some([LineFor(item, lines[0])] + rest)
  }

  /** `reduce((acc, p) => acc + p.price * p.quantity, 0)`, in cents. */
  function Total(items: seq<LineItem>): int {
    if items == [] then 0 else Total(items[..|items| - 1]) + items[|items| - 1].price * items[|items| - 1].quantity
  }

  lemma {:induction false} TotalAppend(a: seq<LineItem>, b: seq<LineItem>)
    ensures Total(a + b) == Total(a) + Total(b)
  {
    if b == [] {
      assert a + b == a;
    } else {
      var front := b[..|b| - 1];
      TotalAppend(a, front);
      assert (a + b)[..|a + b| - 1] == a + front;
      assert (a + b)[|a + b| - 1] == b[|b| - 1];
    }
  }

  /** Lines with no negative price or quantity never total below zero. */
  lemma {:induction false} TotalNonNegative(items: seq<LineItem>)
    requires forall i :: 0 <= i < |items| ==> items[i].price >= 0 && items[i].quantity >= 0
    ensures Total(items) >= 0
  {
    if items != [] {
      TotalNonNegative(items[..|items| - 1]);
    }
  }

  /** `` `ORD${String(Date.now()).slice(-3)}` ``. */
  function OrderId(now: nat): string {
    "ORD" + LastThreeDigits(now)
  }

  const CompanyName := "Sua Empresa LTDA"

  /** What the page hands to the document generator. */
  datatype DocumentInput = DocumentInput(companyName: string, customerName: string, products: seq<LineItem>, totalAmount: int, date: string)

  const DocumentError := "Erro ao gerar o documento."

  /** How a submit ends: the guard stops it, the line mapping throws, or an order is placed. */
  datatype Placement = Ignored | Crashed | Placed(order: Order, doc: DocumentInput)

  /**
   * `handleSubmit` up to the prepend. `localDate` is today as "dd/mm/yyyy";
   * `docDate` is the stored date read back by the locale, both supplied by the caller.
   */
  function Place(catalog: seq<CatalogItem>, customers: seq<Customer>, form: OrderForm,
                 now: nat, localDate: string, docDate: string): (r: Placement)
    ensures r.Ignored? <==> !CanSubmit(form)
    ensures r.Crashed? <==> CanSubmit(form) && BuildLines(catalog, form.lines).None?
    ensures r.Placed? ==>
              r.order.products == BuildLines(catalog, form.lines).value &&
              r.doc.totalAmount == Total(r.order.products) && r.doc.products == r.order.products &&
              r.order.total == FormatPrice(r.doc.totalAmount) &&
              r.order.id == OrderId(now) && r.order.status == form.status &&
              r.order.customer == CustomerName(customers, form.customer) &&
              r.order.date == IsoDate(localDate) &&
              r.doc.companyName == CompanyName && r.doc.customerName == r.order.customer && r.doc.date == docDate
  {
    if !CanSubmit(form) then Ignored
    else
      match BuildLines(catalog, form.lines)
      case None => Crashed
      case Some(items) =>
        var total := Total(items);
        var order := Order(OrderId(now), CustomerName(customers, form.customer), IsoDate(localDate),
                           form.status, FormatPrice(total), items);
        Placed(order, DocumentInput(CompanyName, order.customer, items, total, docDate))
  }

  /** The written total reads back as the amount handed to the document generator. */
  lemma PlacedTotalReadsBack(catalog: seq<CatalogItem>, customers: seq<Customer>, form: OrderForm,
                             now: nat, localDate: string, docDate: string)
    ensures var p := Place(catalog, customers, form, now, localDate, docDate);
            p.Placed? ==> ParseCents(Unformat(p.order.total)) == Some(p.doc.totalAmount)
  {
    var p := Place(catalog, customers, form, now, localDate, docDate);
    if p.Placed? {
      PriceRoundTrip(p.doc.totalAmount);
    }
  }

  /** A placed order is dated "yyyy-mm-dd" when today reads "dd/mm/yyyy". */
  lemma PlacedOnIsoDate(catalog: seq<CatalogItem>, customers: seq<Customer>, form: OrderForm,
                        now: nat, dd: string, mm: string, yyyy: string, docDate: string)
    requires '/' !in dd && '/' !in mm && '/' !in yyyy
    requires Place(catalog, customers, form, now, dd + "/" + mm + "/" + yyyy, docDate).Placed?
    ensures Place(catalog, customers, form, now, dd + "/" + mm + "/" + yyyy, docDate).order.date == yyyy + "-" + mm + "-" + dd
  {
    IsoDateOfLocal(dd, mm, yyyy);
  }

  /** Every catalog entry has its own sku, so the lines priced from it are the listed ones. */
  lemma CatalogDistinct()
    ensures DistinctKeys(Catalog, ItemSku)
  {
  }

  /** A line naming a listed product is priced from that product, whatever else the catalog holds. */
  lemma LinePricedFromItem(catalog: seq<CatalogItem>, lines: seq<FormLine>, i: int, item: CatalogItem)
    requires DistinctKeys(catalog, ItemSku) && item in catalog
    requires 0 <= i < |lines| && lines[i].productId == item.sku
    ensures BuildLines(catalog, lines).Some? ==>
              BuildLines(catalog, lines).value[i] == LineItem(item.name, lines[i].quantity, item.price)
  {
    var found := Find(catalog, ItemSku, item.sku).value;
    var a :| 0 <= a < |catalog| && catalog[a] == item;
    var b :| 0 <= b < |catalog| && catalog[b] == found;
    SameKeySameEntry(catalog, ItemSku, a, b);
  }

  class OrdersPage {
    const catalog: seq<CatalogItem>
    const customers: seq<Customer>
    var orders: seq<Order>
    var formOpen: bool
    var form: OrderForm
    var documentOpen: bool
    var currentOrder: Option<DocumentInput>
    var generatedDocument: Option<string>
    var documentLoading: bool

    constructor ()
      ensures catalog == Catalog && customers == InitialCustomers
      ensures orders == InitialOrders && form == FreshForm && !formOpen && !documentOpen
      ensures currentOrder == None && generatedDocument == None && !documentLoading
    {
      catalog := Catalog;
      customers := InitialCustomers;
      orders := InitialOrders;
      formOpen := false;
      form := FreshForm;
      documentOpen := false;
      currentOrder := None;
      generatedDocument := None;
      documentLoading := false;
    }

    /** `handleOpenFormDialog`. */
    method OpenForm()
      modifies this`form, this`formOpen
      ensures form == FreshForm && formOpen
    {
      form := FreshForm;
      formOpen := true;
    }

    /** `handleSelectChange('customer', id)`. */
    method ChooseCustomer(id: string)
      modifies this`form
      ensures form == old(form).(customer := id)
    {
      form := form.(customer := id);
    }

    /** `handleSelectChange('status', status)`. */
    method ChooseStatus(status: OrderStatus)
      modifies this`form
      ensures form == old(form).(status := status)
    {
      form := form.(status := status);
    }

    /** `addProductField`. */
    method AddProductField()
      modifies this`form
      ensures form == AddLine(old(form))
    {
      form := AddLine(form);
    }

    /** `removeProductField(index)`. */
    method RemoveProductField(index: int)
      modifies this`form
      ensures form == RemoveLine(old(form), index)
    {
      form := RemoveLine(form, index);
    }

    /** `handleProductChange`: copy the lines, overwrite one slot of the copy, store the copy. */
    method ProductChange(index: int, edit: LineEdit)
      requires 0 <= index < |form.lines|
      modifies this`form
      ensures form.customer == old(form.customer) && form.status == old(form.status)
      ensures |form.lines| == |old(form.lines)|
      ensures form.lines[index] == Edited(old(form.lines[index]), edit)
      ensures forall i :: 0 <= i < |form.lines| && i != index ==> form.lines[i] == old(form.lines[i])
    {
      var lines := form.lines;
      var copy := new FormLine[|lines|](i requires 0 <= i < |lines| => lines[i]);
      copy[index] := Edited(copy[index], edit);
      form := form.(lines := copy[..]);
    }

    /** The state updates of a placed order: prepend it, close the form, show its document. */
    method Show(order: Order, doc: DocumentInput, generated: Option<string>)
      modifies this`orders, this`formOpen, this`documentOpen, this`currentOrder,
               this`generatedDocument, this`documentLoading
      ensures orders == [order] + old(orders) && !formOpen && documentOpen && currentOrder == Some(doc)
      ensures generatedDocument == Some(if generated.Some? then generated.value else DocumentError)
      ensures !documentLoading
    {
      orders := [order] + orders;
      formOpen := false;
      currentOrder := Some(doc);
      documentOpen := true;
      documentLoading := true;
      generatedDocument := Some(if generated.Some? then generated.value else DocumentError);
      documentLoading := false;
    }

    /**
     * `handleSubmit`, with `generated` the generator's text or `None` when it fails.
     * Nothing changes when the guard stops the submit or the line mapping throws.
     */
    method Submit(now: nat, localDate: string, docDate: string, generated: Option<string>)
      modifies this`orders, this`formOpen, this`documentOpen, this`currentOrder,
               this`generatedDocument, this`documentLoading
      ensures var p := Place(catalog, customers, form, now, localDate, docDate);
              p.Placed? ==>
                orders == [p.order] + old(orders) && !formOpen &&
                documentOpen && currentOrder == Some(p.doc) && !documentLoading &&
                generatedDocument == Some(if generated.Some? then generated.value else DocumentError)
      ensures !Place(catalog, customers, form, now, localDate, docDate).Placed? ==>
                orders == old(orders) && formOpen == old(formOpen) &&
                documentOpen == old(documentOpen) && currentOrder == old(currentOrder) &&
                generatedDocument == old(generatedDocument) && documentLoading == old(documentLoading)
    {
      var p := Place(catalog, customers, form, now, localDate, docDate);
      if p.Placed? {
        Show(p.order, p.doc, generated);
      }
    }
  }
}
