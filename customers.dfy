/**
 * The customers page: a list of customers edited through a dialog whose form
 * holds the name, email and phone inputs, keyed by each input's id.
 */
module Customers {
  import opened Wrappers
  import opened Lists
  import opened Text

  datatype Customer = Customer(id: string, name: string, email: string, phone: string, totalSpent: string)

  function CustomerId(c: Customer): string {
    c.id
  }

  const InitialCustomers: seq<Customer> := [
    Customer("CUST001", "Liam Johnson", "liam@example.com", "(11) 98765-4321", "R$250.00"),
    Customer("CUST002", "Olivia Smith", "olivia@example.com", "(21) 91234-5678", "R$150.00"),
    Customer("CUST003", "Noah Williams", "noah@example.com", "(31) 99999-8888", "R$350.00"),
    Customer("CUST004", "Emma Brown", "emma@example.com", "(41) 98888-7777", "R$450.00"),
    Customer("CUST005", "James Jones", "james@example.com", "(51) 97777-6666", "R$550.00")
  ]

  const NoSpending := "R$0.00"

  /** The form state: input id to typed value. */
  type Form = map<string, string>

  predicate HasFields(form: Form) {
    "name" in form && "email" in form && "phone" in form
  }

  const BlankForm: Form := map["name" := "", "email" := "", "phone" := ""]

  /** `handleOpenDialog(customer)`: the form shows the customer's name, email and phone. */
  function FormOf(c: Customer): (f: Form)
    ensures HasFields(f) && f["name"] == c.name && f["email"] == c.email && f["phone"] == c.phone
  {
    map["name" := c.name, "email" := c.email, "phone" := c.phone]
  }

  /**
   * The customer `handleSubmit` builds: contact fields from the form; an edit keeps the
   * customer's id and total spent, a new customer gets `CUST-<now>` and "R$0.00".
   */
  function Submitted(form: Form, editing: Option<Customer>, now: nat): (c: Customer)
    requires HasFields(form)
    ensures c.name == form["name"] && c.email == form["email"] && c.phone == form["phone"]
    ensures editing.Some? ==> c.id == editing.value.id && c.totalSpent == editing.value.totalSpent
    ensures editing.None? ==> c.id == "CUST-" + NatToString(now) && c.totalSpent == NoSpending
  {
    var id := if editing.Some? then editing.value.id else "CUST-" + NatToString(now);
    var spent := if editing.Some? then editing.value.totalSpent else NoSpending;
    Customer(id, form["name"], form["email"], form["phone"], spent)
  }

  /** The customer list after `handleSubmit`. */
  function Saved(customers: seq<Customer>, editing: Option<Customer>, form: Form, now: nat): (r: seq<Customer>)
    requires HasFields(form)
    ensures editing.Some? ==> |r| == |customers| && forall i :: 0 <= i < |customers| ==>
              r[i] == if customers[i].id == editing.value.id then Submitted(form, editing, now) else customers[i]
    ensures editing.None? ==> r == [Submitted(form, editing, now)] + customers
  {
    var c := Submitted(form, editing, now);
    if editing.Some? then ReplaceKey(customers, CustomerId, editing.value.id, c) else [c] + customers
  }

  /** Opening a customer and saving the form untouched gives back the same customer. */
  lemma EditRoundTrip(c: Customer, now: nat)
    ensures Submitted(FormOf(c), Some(c), now) == c
  {
  }

  /** Saving such an edit leaves the whole list as it was. */
  lemma ResubmitUnchanged(customers: seq<Customer>, c: Customer, now: nat)
    requires DistinctKeys(customers, CustomerId) && c in customers
    ensures Saved(customers, Some(c), FormOf(c), now) == customers
  {
    ReplaceWithSelf(customers, CustomerId, c);
  }

  /** An edit keeps the list's ids as they were, so ids stay unique. */
  lemma EditKeepsIdsUnique(customers: seq<Customer>, c: Customer, form: Form, now: nat)
    requires DistinctKeys(customers, CustomerId) && HasFields(form)
    ensures DistinctKeys(Saved(customers, Some(c), form, now), CustomerId)
  {
    ReplaceKeepsKeys(customers, CustomerId, Submitted(form, Some(c), now));
  }

  /** Customers created at different times get different ids. */
  lemma CreatedIdsDiffer(form: Form, other: Form, now: nat, later: nat)
    requires HasFields(form) && HasFields(other) && now != later
    ensures Submitted(form, None, now).id != Submitted(other, None, later).id
  {
    if Submitted(form, None, now).id == Submitted(other, None, later).id {
      PrefixedIdInjective("CUST-", now, later);
    }
  }

  class CustomersPage {
    var customers: seq<Customer>
    var dialogOpen: bool
    var editing: Option<Customer>
    var form: Form

    /** Every input of the dialog has its entry in the form. */
    predicate Valid()
      reads this
    {
      HasFields(form)
    }

    constructor ()
      ensures Valid()
      ensures customers == InitialCustomers && !dialogOpen && editing == None && form == BlankForm
    {
      customers := InitialCustomers;
      dialogOpen := false;
      editing := None;
      form := BlankForm;
    }

    /** `handleOpenDialog`: a customer to edit fills the form from it; none clears the form. */
    method OpenDialog(customer: Option<Customer>)
      modifies this
      ensures Valid()
      ensures customers == old(customers) && editing == customer && dialogOpen
      ensures customer.Some? ==> form == FormOf(customer.value)
      ensures customer.None? ==> form == BlankForm
    {
      editing := customer;
      form := if customer.Some? then FormOf(customer.value) else BlankForm;
      dialogOpen := true;
    }

    /** `handleFormChange` for the input with the given id. */
    method ChangeField(id: string, value: string)
      requires Valid()
      modifies this`form
      ensures Valid()
      ensures form == SetField(old(form), id, value)
    {
      form := SetField(form, id, value);
    }

    /** `handleDelete`: every customer with the id goes, the rest keep their order. */
    method Delete(id: string)
      modifies this`customers
      ensures customers == RemoveKey(old(customers), CustomerId, id)
      ensures forall i :: 0 <= i < |customers| ==> customers[i].id != id
      ensures IsSubsequence(customers, old(customers))
    {
      RemoveKeyIsSubsequence(customers, CustomerId, id);
      customers := RemoveKey(customers, CustomerId, id);
    }

    /** `handleSubmit`. */
    method Submit(now: nat)
      requires Valid()
      modifies this`customers, this`dialogOpen
      ensures Valid()
      ensures customers == Saved(old(customers), editing, form, now)
      ensures editing.Some? ==> |customers| == |old(customers)|
      ensures editing.None? ==> |customers| == |old(customers)| + 1
      ensures !dialogOpen
    {
      customers := Saved(customers, editing, form, now);
      dialogOpen := false;
    }
  }
}
