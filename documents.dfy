/**
 * The document generator page: the form's validation rules, the total it
 * computes from the product rows, and the result/error panel a submit leaves.
 */
module Documents {
  import opened Wrappers
  import opened Lists

  /** One product row; the price in cents. */
  datatype Product = Product(name: string, quantity: int, price: int)

  datatype DocumentForm = DocumentForm(companyName: string, customerName: string, products: seq<Product>)

  /** The row `append` adds and the form starts with: `{ name: '', quantity: 1, price: 0 }`. */
  const DefaultProduct := Product("", 1, 0)

  const DefaultForm := DocumentForm("", "", [DefaultProduct])

  /** `productSchema`: a name, at least one unit, and a price of at least 0.01 (one cent). */
  predicate ProductValid(p: Product) {
    |p.name| >= 1 && p.quantity >= 1 && p.price >= 1
  }

  /** `formSchema`: both names given and at least one product, each of them valid. */
  predicate FormValid(f: DocumentForm) {
    |f.companyName| >= 1 && |f.customerName| >= 1 && |f.products| >= 1 &&
    forall i :: 0 <= i < |f.products| ==> ProductValid(f.products[i])
  }

  /** Where a validation message is shown. */
  datatype Field = CompanyName | CustomerName | Products | ProductName(row: nat) | ProductQuantity(row: nat) | ProductPrice(row: nat)

  datatype Issue = Issue(field: Field, message: string)

  /** The messages of one product row, in the order its rules are declared. */
  function RowIssues(p: Product, row: nat): (r: seq<Issue>)
    ensures r == [] <==> ProductValid(p)
  {
    (if |p.name| >= 1 then [] else [Issue(ProductName(row), "Nome do produto é obrigatório.")]) +
    (if p.quantity >= 1 then [] else [Issue(ProductQuantity(row), "Quantidade deve ser no mínimo 1.")]) +
    (if p.price >= 1 then [] else [Issue(ProductPrice(row), "Preço deve ser positivo.")])
  }

  function RowsIssues(ps: seq<Product>, from: nat): seq<Issue>
    decreases |ps|
  {
    if ps == [] then [] else RowIssues(ps[0], from) + RowsIssues(ps[1..], from + 1)
  }

  /** Every message the schema reports for a form. */
  function Issues(f: DocumentForm): seq<Issue> {
    (if |f.companyName| >= 1 then [] else [Issue(CompanyName, "Nome da empresa é obrigatório.")]) +
    (if |f.customerName| >= 1 then [] else [Issue(CustomerName, "Nome do cliente é obrigatório.")]) +
    (if |f.products| >= 1 then [] else [Issue(Products, "Adicione pelo menos um produto.")]) +
    RowsIssues(f.products, 0)
  }

  lemma {:induction false} RowsIssuesEmpty(ps: seq<Product>, from: nat)
    ensures RowsIssues(ps, from) == [] <==> forall i :: 0 <= i < |ps| ==> ProductValid(ps[i])
    decreases |ps|
  {
    if ps != [] {
      RowsIssuesEmpty(ps[1..], from + 1);
      assert forall i :: 1 <= i < |ps| ==> ps[i] == ps[1..][i - 1];
    }
  }

  /** The schema reports no message exactly when the form is valid. */
  lemma NoIssuesIffValid(f: DocumentForm)
    ensures Issues(f) == [] <==> FormValid(f)
  {
    RowsIssuesEmpty(f.products, 0);
  }

  /** The default row is rejected (its name is empty and its price is zero), so is the default form. */
  lemma DefaultsInvalid()
    ensures !ProductValid(DefaultProduct) && !FormValid(DefaultForm)
    ensures RowIssues(DefaultProduct, 0) ==
            [Issue(ProductName(0), "Nome do produto é obrigatório."), Issue(ProductPrice(0), "Preço deve ser positivo.")]
  {
  }

  /** `reduce((acc, p) => acc + p.price * p.quantity, 0)`. */
  function TotalAmount(ps: seq<Product>): int {
    if ps == [] then 0 else TotalAmount(ps[..|ps| - 1]) + ps[|ps| - 1].price * ps[|ps| - 1].quantity
  }

  /** Every valid row is worth at least a cent. */
  lemma {:induction false} TotalAtLeastRows(ps: seq<Product>)
    requires forall i :: 0 <= i < |ps| ==> ProductValid(ps[i])
    ensures TotalAmount(ps) >= |ps|
  {
    if ps != [] {
      var last := ps[|ps| - 1];
      TotalAtLeastRows(ps[..|ps| - 1]);
      assert last.price * last.quantity >= last.quantity;
    }
  }

  /** A form that passes validation always has a positive total. */
  lemma ValidFormTotalPositive(f: DocumentForm)
    requires FormValid(f)
    ensures TotalAmount(f.products) >= 1
  {
    TotalAtLeastRows(f.products);
  }

  /** `append(DefaultProduct)`. */
  function AppendProduct(ps: seq<Product>): (r: seq<Product>)
    ensures |r| == |ps| + 1 && r[|ps|] == DefaultProduct
    ensures forall i :: 0 <= i < |ps| ==> r[i] == ps[i]
  {
    ps + [DefaultProduct]
  }

  /** The remove control is shown only while there is more than one row. */
  predicate RemoveOffered(ps: seq<Product>) {
    |ps| > 1
  }

  /** `remove(index)`. */
  function RemoveProduct(ps: seq<Product>, index: int): (r: seq<Product>)
    ensures 0 <= index < |ps| ==> r == ps[..index] + ps[index + 1..] && |r| == |ps| - 1
    ensures !(0 <= index < |ps|) ==> r == ps
  {
    DropIndex(ps, index)
  }

  /** Through the offered controls, the form never has fewer than one row. */
  lemma RowsNeverDropBelowOne(ps: seq<Product>, index: int)
    requires |ps| >= 1
    ensures |AppendProduct(ps)| >= 1
    ensures RemoveOffered(ps) ==> |RemoveProduct(ps, index)| >= 1
  {
  }

  /** What the page hands to the generator: the form, its total and today's date. */
  datatype Request = Request(companyName: string, customerName: string, products: seq<Product>, totalAmount: int, date: string)

  function RequestOf(f: DocumentForm, date: string): (r: Request)
    ensures r.totalAmount == TotalAmount(f.products)
    ensures r.companyName == f.companyName && r.customerName == f.customerName && r.products == f.products
  {
    Request(f.companyName, f.customerName, f.products, TotalAmount(f.products), date)
  }

  /** The result panel: the generated text, the error message, and the loading flag. */
  datatype Panel = Panel(document: Option<string>, error: Option<string>, loading: bool)

  const InitialPanel := Panel(None, None, false)

  const GenerationError := "Ocorreu um erro ao gerar o documento. Tente novamente."

  /**
   * A submit: an invalid form is stopped by the resolver and the panel is untouched;
   * a valid one ends with the generator's text (`generated`) or the error message.
   */
  function AfterSubmit(panel: Panel, f: DocumentForm, generated: Option<string>): (r: Panel)
    ensures !FormValid(f) ==> r == panel
    ensures FormValid(f) ==> !r.loading && (r.document.Some? <==> !r.error.Some?)
    ensures FormValid(f) && generated.Some? ==> r.document == generated
    ensures FormValid(f) && generated.None? ==> r.error == Some(GenerationError)
  {
    if !FormValid(f) then panel
    else
      match generated
      case Some(text) => Panel(Some(text), None, false)
      case None => Panel(None, Some(GenerationError), false)
  }
}
