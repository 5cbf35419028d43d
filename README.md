# Studio dashboard and signup function, modelled in Dafny

A small-business management studio. Its dashboard pages are client-side React
pages, each over a list held in page state:

- roles with page permissions;
- an inventory of products;
- orders, and an informative document for each order;
- a finance ledger with filters and a monthly chart;
- sales, customers and product categories;
- a standalone document generator form;
- the team members of the settings page.

A callable cloud function, `addUserToFirestore`, sets up a new user's company
and profile at signup.

The model follows the code file by file:

- Each page becomes a `class`. Its fields are the page's state variables. Its
  methods are the page's handlers (`handleOpenDialog`, `handleSubmit`,
  `handleDelete`, the input `onChange` handlers). Each method states its new
  state through a pure function of the old state. This function has its own
  properties proved as lemmas: round trips, uniqueness of ids, what
  `filter`/`map` keep, and how a permission click flips exactly one page.
- The finance chart is built by three loops in the source (`forEach` over the
  months, `forEach` over the transactions, `Object.values`). Each loop is a
  `method` proved against the bucket functions.
- The document generator page and the cloud function have no page state worth
  a class. They are pure functions: a result panel, and a database plus reply.
- Prices are written as text by the pages (`R$…`) and read back with
  `replace`/`parseFloat`. `Text` models `indexOf` and `replace` exactly:
  `replace` with a string pattern replaces only the first occurrence.
  `parseFloat` is modelled only on plain decimals with at most two decimal
  places (see "Left out"). Amounts are held as integer cents.
- An edited, page-written price survives the read-back and rewrite unchanged
  (`Text.PriceRoundTrip`). The seed prices "R$7500.00" do not survive it,
  because their `.` is dropped: the Laptop Pro is repriced, or charged, at
  one hundred times its value (`Inventory.SeedEditReprices`,
  `Sales.SeedLaptopChargedHundredfold`).
- The finance date filter is modelled as JavaScript groups the expression
  `!from || d >= from && !to || d <= to`. Once an end date is picked, the start
  date is ignored (`Finance.BothEndsIgnoreStart`, `Finance.EarlyDatePasses`).

Modules:

- `Wrappers`: Option and Result.
- `Lists`: `filter`/`map`/`find` by key, the `Set`-based dedup, and subsequences.
- `Text`: string and number formatting.
- `Directory`: the customer lookup and the timestamp suffix ids that orders
  and sales share.
- One module per page: `Roles`, `Inventory`, `Orders`, `Finance`, `Sales`,
  `Customers`, `Categories`, `Documents`, `Settings`.
- `Signup`: `functions/src/index.ts`.

## Model

| member | source | states |
|---|---|---|
| Roles.PageIdsDistinct | src/app/dashboard/roles/page.tsx:57-67 | the nine page slugs are distinct and none of them is the "all" sentinel |
| Roles.InitialRolesWellFormed | src/app/dashboard/roles/page.tsx:69-72 | both seed roles hold a normal-form permission list (the sentinel alone, or distinct page slugs), and neither lists all nine slugs explicitly |
| Roles.Discard | src/app/dashboard/roles/page.tsx:111 | the filter keeps exactly the entries that are neither the page nor "all"; it shrinks the list when the page was held and is the identity otherwise |
| Roles.DiscardDistinct | src/app/dashboard/roles/page.tsx:111 | filtering keeps a duplicate-free list duplicate-free, and removes exactly one entry from an explicit list holding the page |
| Roles.NextPermissions | src/app/dashboard/roles/page.tsx:95-122 | the step-by-step updater handed to setFormState computes the click's permission list |
| Roles.AllSelectedIsFullAccess | src/app/dashboard/roles/page.tsx:97-102 | on a normal-form list, `areAllSelected` (the sentinel held, or nine entries) holds exactly when the role grants every page |
| Roles.ToggleKeepsCollapsed | src/app/dashboard/roles/page.tsx:95-122 | every click keeps the collapsed form: normal form, and an explicit list shorter than the nine slugs |
| Roles.AllBoxIsFullAccess | src/app/dashboard/roles/page.tsx:260 | on a collapsed list, the "all" checkbox (`includes('all')`) shows checked exactly when the role grants every page |
| Roles.ToggleAll | src/app/dashboard/roles/page.tsx:97-102 | clicking "all" clears full access and grants full access otherwise, keeping normal form; every page's access becomes the opposite of the old full access |
| Roles.ToggleFromAll | src/app/dashboard/roles/page.tsx:105-112 | unchecking one page of a full-access role leaves the other eight pages, explicitly |
| Roles.ToggleExplicit | src/app/dashboard/roles/page.tsx:110-118 | on an explicit list, a missing page is appended unless that completes the set, and a held page is removed |
| Roles.NeverNineEntries | src/app/dashboard/roles/page.tsx:116-118 | a click never leaves a list of nine entries: a complete set collapses to "all" |
| Roles.ToggleKeepsWellFormed | src/app/dashboard/roles/page.tsx:95-122 | any click on a listed checkbox keeps the permission list in normal form |
| Roles.ToggleFlipsOne | src/app/dashboard/roles/page.tsx:95-122 | a click on a page flips that page's effective access and no other page's |
| Roles.ToggleTwice | src/app/dashboard/roles/page.tsx:95-122 | two clicks on the same page restore every page's effective access |
| Roles.Saved | src/app/dashboard/roles/page.tsx:124-140 | an edit replaces the entries with the role's id by the role carrying the form, keeping length and order; a new role "role-<now>" is prepended |
| Roles.ResubmitUnchanged | src/app/dashboard/roles/page.tsx:124-140 | saving an opened role without changes leaves the role list as it was |
| Roles.EnabledPageClickIsExplicit | src/app/dashboard/roles/page.tsx:274 | a page checkbox is clickable only when the list does not hold the sentinel |
| Roles.DeleteKeepsAdmin | src/app/dashboard/roles/page.tsx:194 | deleting through the enabled delete button never removes a role named Admin |
| Roles.SaveKeepsAdmin | src/app/dashboard/roles/page.tsx:290 | saving through the enabled save button keeps every role named Admin in the list |
| Roles.RolesPage.constructor | src/app/dashboard/roles/page.tsx:76-79 | the page starts with the seed roles, the dialog closed and an empty form |
| Roles.RolesPage.OpenDialog | src/app/dashboard/roles/page.tsx:81-89 | opening fills the form from the role to edit, or clears it, and opens the dialog |
| Roles.RolesPage.Delete | src/app/dashboard/roles/page.tsx:91-93 | every role with the id is removed, and the rest keep their order |
| Roles.RolesPage.ChangeName | src/app/dashboard/roles/page.tsx:247 | the name input sets the form's name |
| Roles.RolesPage.PermissionChange | src/app/dashboard/roles/page.tsx:95-122 | a checkbox click sets the permissions to the toggled list, keeping normal form and collapsed form |
| Roles.RolesPage.Submit | src/app/dashboard/roles/page.tsx:124-140 | the role list becomes the saved list (same length on edit, one longer on create), and the dialog closes |
| Inventory.GetStatus | src/app/dashboard/inventory/page.tsx:113-119 | out of stock exactly at zero, low stock below ten otherwise (negative counts included), in stock from ten |
| Inventory.InitialProductsConsistent | src/app/dashboard/inventory/page.tsx:64-105 | the seed skus are distinct, and each seed status agrees with its quantity |
| Inventory.FormOf | src/app/dashboard/inventory/page.tsx:136-143 | the edit form copies name, sku, category and quantity, and holds the price read back from its text |
| Inventory.Submitted | src/app/dashboard/inventory/page.tsx:156-163 | the product takes the form's fields; its sku is "PROD-<now>" when new; its price is the parsed price rewritten (NaN as "R$NaN"); its status agrees with its quantity |
| Inventory.Saved | src/app/dashboard/inventory/page.tsx:165-171 | an edit replaces the entries with the edited sku and keeps length and order; a new product is prepended |
| Inventory.EditRoundTrip | src/app/dashboard/inventory/page.tsx:142-162 | opening a product whose price the page itself wrote, and saving it untouched, gives that product back |
| Inventory.ResubmitUnchanged | src/app/dashboard/inventory/page.tsx:154-173 | with distinct skus, saving a page-written product untouched leaves the list as it was |
| Inventory.SeedEditReprices | src/app/dashboard/inventory/page.tsx:70 | opening the seed Laptop Pro and saving it untouched rewrites "R$7500.00" as "R$750000,00" |
| Inventory.InventoryPage.constructor | src/app/dashboard/inventory/page.tsx:122-132 | the page starts with the seed products, the dialog closed and a blank form |
| Inventory.InventoryPage.OpenDialog | src/app/dashboard/inventory/page.tsx:134-148 | opening fills the form from the product, or blanks it, and opens the dialog |
| Inventory.InventoryPage.ChangeName | src/app/dashboard/inventory/page.tsx:175-178 | the name input changes only the form's name |
| Inventory.InventoryPage.ChangeSku | src/app/dashboard/inventory/page.tsx:175-178 | the sku input changes only the form's sku |
| Inventory.InventoryPage.ChangeCategory | src/app/dashboard/inventory/page.tsx:180-182 | the category select changes only the form's category |
| Inventory.InventoryPage.ChangeQuantity | src/app/dashboard/inventory/page.tsx:175-178 | the quantity input changes only the form's quantity |
| Inventory.InventoryPage.ChangePrice | src/app/dashboard/inventory/page.tsx:175-178 | the price input changes only the form's price |
| Inventory.InventoryPage.Delete | src/app/dashboard/inventory/page.tsx:150-152 | every product with the sku is removed, and the rest keep their order |
| Inventory.InventoryPage.Submit | src/app/dashboard/inventory/page.tsx:154-173 | the list becomes the saved list; a create prepends a "PROD-<now>" product; the dialog closes |
| Orders.AddLine | src/app/dashboard/orders/page.tsx:119-124 | one empty line (no product, quantity 1) is appended, and nothing before it changes |
| Orders.RemoveLine | src/app/dashboard/orders/page.tsx:126-131 | the line at the index is dropped and the others shift down in order; an index out of range changes nothing |
| Orders.RemoveAfterAdd | src/app/dashboard/orders/page.tsx:119-131 | removing the line just added restores the form |
| Orders.Edited | src/app/dashboard/orders/page.tsx:133-139 | a product edit sets the line's sku and keeps its quantity; a quantity edit does the reverse |
| Lists.Find | src/app/dashboard/orders/page.tsx:158 | `find` gives an entry exactly when some entry has the key, and then the first such entry |
| Orders.BuildLines | src/app/dashboard/orders/page.tsx:145-152 | the mapping succeeds exactly when every line's sku is listed; each line then takes its name and price from the first entry with its sku |
| Orders.TotalAppend | src/app/dashboard/orders/page.tsx:154 | the reduce total of two concatenated line lists is the sum of their totals |
| Orders.TotalNonNegative | src/app/dashboard/orders/page.tsx:154 | lines with non-negative prices and quantities have a non-negative total |
| Orders.Place | src/app/dashboard/orders/page.tsx:141-174 | a submit is ignored exactly when no customer is chosen or a line lacks a product, and crashes exactly when a chosen sku is not listed; a placed order carries the mapped lines, the timestamp id, the form's status, the looked-up customer name and the ISO date, and the generator gets those lines, that name and their price-times-quantity total, which the order writes as its total |
| Orders.PlacedTotalReadsBack | src/app/dashboard/orders/page.tsx:161-172 | the order's written total reads back as exactly the amount handed to the document generator |
| Orders.PlacedOnIsoDate | src/app/dashboard/orders/page.tsx:159 | an order placed on "dd/mm/yyyy" is dated "yyyy-mm-dd" |
| Orders.CatalogDistinct | src/app/dashboard/orders/page.tsx:69-75 | the catalog's skus are distinct |
| Orders.LinePricedFromItem | src/app/dashboard/orders/page.tsx:145-152 | with distinct skus, a line is priced and named from the catalog entry it chose |
| Orders.OrdersPage.constructor | src/app/dashboard/orders/page.tsx:97-112 | the page starts with the seed orders, catalog and customers, both dialogs closed and no document |
| Orders.OrdersPage.OpenForm | src/app/dashboard/orders/page.tsx:114-117 | opening resets the form to a fresh one and opens the form dialog |
| Orders.OrdersPage.ChooseCustomer | src/app/dashboard/orders/page.tsx:191-193 | the customer select changes only the form's customer |
| Orders.OrdersPage.ChooseStatus | src/app/dashboard/orders/page.tsx:191-193 | the status select changes only the form's status |
| Orders.OrdersPage.AddProductField | src/app/dashboard/orders/page.tsx:119-124 | the form gains one empty line at the end |
| Orders.OrdersPage.RemoveProductField | src/app/dashboard/orders/page.tsx:126-131 | the form loses the line at the index |
| Orders.OrdersPage.ProductChange | src/app/dashboard/orders/page.tsx:133-139 | the line at the index is edited, and every other line, the customer and the status are kept |
| Orders.OrdersPage.Show | src/app/dashboard/orders/page.tsx:165-188 | a placed order is prepended, the form closes, the document dialog opens on the order, and it ends showing the generated text or the error message, no longer loading |
| Orders.OrdersPage.Submit | src/app/dashboard/orders/page.tsx:141-189 | a placed order updates the page as above; an ignored or crashed submit changes nothing |
| Directory.CustomerName | src/app/dashboard/orders/page.tsx:158 | the name is the one of a customer with the id, or "Cliente Desconhecido" when no customer has it; it is never empty |
| Directory.KnownCustomer | src/app/dashboard/orders/page.tsx:158 | with distinct ids, a listed customer with a name is found by its id |
| Directory.InitialCustomersDistinct | src/app/dashboard/orders/page.tsx:61-67 | the seed customers have distinct ids and non-empty names |
| Directory.LastThreeDigits | src/app/dashboard/orders/page.tsx:157 | the id suffix is one to three decimal digits |
| Directory.LastThreeDigitsValue | src/app/dashboard/orders/page.tsx:157 | the suffix's value is the timestamp modulo one thousand |
| Directory.LastThreeDigitsCollide | src/app/dashboard/sales/page.tsx:115 | any two timestamps 1000 ms apart, from 100 on, get the same suffix, so their ids collide |
| Finance.Insert | src/app/dashboard/finance/page.tsx:93 | inserting one transaction adds it to the multiset of the list |
| Finance.InsertNewestFirst | src/app/dashboard/finance/page.tsx:93 | inserting into a newest-first list keeps it newest-first |
| Finance.SortNewestFirst | src/app/dashboard/finance/page.tsx:93 | the sort returns a newest-first permutation of the seed list |
| Finance.SortKeepsSorted | src/app/dashboard/finance/page.tsx:93 | a list already newest-first is returned unchanged, ties included |
| Finance.InitialTransactionsInSourceOrder | src/app/dashboard/finance/page.tsx:52-93 | the seed transactions, sorted, are in the order they are written |
| Finance.Options | src/app/dashboard/finance/page.tsx:112-113 | the options are "all", then each value other than "N/A" that occurs, once each |
| Finance.OptionsInFirstAppearanceOrder | src/app/dashboard/finance/page.tsx:112-113 | the options after "all" appear in the order of each value's first appearance |
| Finance.CustomerOptions | src/app/dashboard/finance/page.tsx:112 | the customer filter offers "all", then each customer other than "N/A" that a transaction names, each once, in the order of the first transaction naming it, and every such customer is offered |
| Finance.ProductOptions | src/app/dashboard/finance/page.tsx:113 | the product filter offers "all", then each product other than "N/A" that a transaction names, each once, in the order of the first transaction naming it, and every such product is offered |
| Finance.NoStartPassesAll | src/app/dashboard/finance/page.tsx:118-120 | without a start date every transaction passes the date test |
| Finance.StartOnly | src/app/dashboard/finance/page.tsx:118-120 | with only a start date, a date passes exactly when it is not before it |
| Finance.BothEndsIgnoreStart | src/app/dashboard/finance/page.tsx:118-120 | with both ends set, a date passes exactly when it is not after the end, whatever the start |
| Finance.EarlyDatePasses | src/app/dashboard/finance/page.tsx:118-120 | a date two days before the start of a picked range passes |
| Finance.Filtered | src/app/dashboard/finance/page.tsx:115-127 | the filtered list holds exactly the transactions that pass the date, customer and product tests |
| Finance.FilteredIsSubsequence | src/app/dashboard/finance/page.tsx:115-127 | filtering keeps the list's order |
| Finance.NoFilterKeepsAll | src/app/dashboard/finance/page.tsx:108-127 | with the initial filters (no range, "all", "all") every transaction is kept |
| Finance.OtherMonthsAddNothing | src/app/dashboard/finance/page.tsx:137-146 | transactions outside a month add nothing to its income or expense |
| Finance.BucketsSplit | src/app/dashboard/finance/page.tsx:137-146 | a month's income and expense over two concatenated lists are the sums over each |
| Finance.ZeroBuckets | src/app/dashboard/finance/page.tsx:133-135 | the loop creates one zero bucket per distinct month, keyed in first-insertion order |
| Finance.AddTransactions | src/app/dashboard/finance/page.tsx:137-146 | the loop leaves each listed month holding its income and the absolute value of its expenses; no month is added |
| Finance.Values | src/app/dashboard/finance/page.tsx:147 | the buckets come out in key insertion order |
| Finance.ChartData | src/app/dashboard/finance/page.tsx:129-148 | one bucket per distinct month, in order, each with that month's income and expenses |
| Sales.Amount | src/app/dashboard/sales/page.tsx:112 | the total is the unit price times the quantity, and NaN stays NaN |
| Sales.Record | src/app/dashboard/sales/page.tsx:106-121 | no sale without a listed product or a customer; otherwise id, customer name, ISO date, status and total are those the page writes |
| Sales.RecordedOnlyWhenEnabled | src/app/dashboard/sales/page.tsx:269 | a sale is recorded only from a form whose save button is enabled |
| Sales.WrittenPriceCharged | src/app/dashboard/sales/page.tsx:111-119 | a price in the shape the pages write is read as its value, and its total times the quantity reads back exactly |
| Sales.SeedLaptopChargedHundredfold | src/app/dashboard/sales/page.tsx:111-112 | the seed Laptop Pro "R$7500.00" is read as 750000 reais, so each unit is charged a hundred times its price |
| Sales.SalesPage.constructor | src/app/dashboard/sales/page.tsx:84-94 | the page starts with the seed sales, catalog and customers, the dialog closed and a fresh form |
| Sales.SalesPage.OpenDialog | src/app/dashboard/sales/page.tsx:96-104 | opening resets the form and opens the dialog |
| Sales.SalesPage.ChooseCustomer | src/app/dashboard/sales/page.tsx:125-127 | the customer select changes only the form's customer |
| Sales.SalesPage.ChooseProduct | src/app/dashboard/sales/page.tsx:125-127 | the product select changes only the form's product |
| Sales.SalesPage.ChooseStatus | src/app/dashboard/sales/page.tsx:125-127 | the status select changes only the form's status |
| Sales.SalesPage.ChangeQuantity | src/app/dashboard/sales/page.tsx:129-132 | the quantity input changes only the form's quantity |
| Sales.SalesPage.Submit | src/app/dashboard/sales/page.tsx:106-123 | a recorded sale is prepended and the dialog closes; otherwise nothing changes |
| Customers.FormOf | src/app/dashboard/customers/page.tsx:72-80 | the edit form shows the customer's name, email and phone |
| Lists.SetField | src/app/dashboard/customers/page.tsx:106-109 | an input's change sets its own field and keeps every other field (the categories page's handleFormChange is the same update) |
| Lists.SetFieldsCommute | src/app/dashboard/categories/page.tsx:98-101 | changes to two different fields commute |
| Customers.Submitted | src/app/dashboard/customers/page.tsx:88-94 | the customer takes the form's fields; an edit keeps id and spending; a new one is "CUST-<now>" with "R$0.00" spent |
| Customers.Saved | src/app/dashboard/customers/page.tsx:96-102 | an edit replaces the entries with the id and keeps length and order; a new customer is prepended |
| Customers.EditRoundTrip | src/app/dashboard/customers/page.tsx:72-94 | opening a customer and saving untouched gives that customer back |
| Customers.ResubmitUnchanged | src/app/dashboard/customers/page.tsx:86-104 | with distinct ids, saving an opened customer untouched leaves the list as it was |
| Customers.EditKeepsIdsUnique | src/app/dashboard/customers/page.tsx:96-99 | an edit keeps the ids distinct |
| Customers.CreatedIdsDiffer | src/app/dashboard/customers/page.tsx:89 | customers created at different times get different ids |
| Customers.CustomersPage.constructor | src/app/dashboard/customers/page.tsx:67-70 | the page starts with the seed customers, the dialog closed and a blank form |
| Customers.CustomersPage.OpenDialog | src/app/dashboard/customers/page.tsx:72-80 | opening fills the form from the customer, or blanks it, and opens the dialog |
| Customers.CustomersPage.ChangeField | src/app/dashboard/customers/page.tsx:106-109 | an input changes the form by that field only |
| Customers.CustomersPage.Delete | src/app/dashboard/customers/page.tsx:82-84 | every customer with the id is removed, and the rest keep their order |
| Customers.CustomersPage.Submit | src/app/dashboard/customers/page.tsx:86-104 | the list becomes the saved list (same length on edit, one longer on create), and the dialog closes |
| Categories.FormOf | src/app/dashboard/categories/page.tsx:67-75 | the edit form shows the category's name |
| Categories.Submitted | src/app/dashboard/categories/page.tsx:83-86 | the category takes the form's name; an edit keeps the id and a new one is "CAT-<now>" |
| Categories.Saved | src/app/dashboard/categories/page.tsx:88-94 | an edit replaces the entries with the id and keeps length and order; a new category is prepended |
| Categories.ResubmitUnchanged | src/app/dashboard/categories/page.tsx:81-96 | with distinct ids, saving an opened category untouched leaves the list as it was |
| Categories.RenameOnlyThatId | src/app/dashboard/categories/page.tsx:88-91 | renaming changes the names of the entries with that id only, and no id |
| Categories.CategoriesPage.constructor | src/app/dashboard/categories/page.tsx:62-65 | the page starts with the seed categories, the dialog closed and a blank form |
| Categories.CategoriesPage.OpenDialog | src/app/dashboard/categories/page.tsx:67-75 | opening fills the form from the category, or blanks it, and opens the dialog |
| Categories.CategoriesPage.ChangeField | src/app/dashboard/categories/page.tsx:98-101 | an input changes the form by that field only |
| Categories.CategoriesPage.Delete | src/app/dashboard/categories/page.tsx:77-79 | every category with the id is removed, and the rest keep their order |
| Categories.CategoriesPage.Submit | src/app/dashboard/categories/page.tsx:81-96 | the list becomes the saved list (same length on edit, one longer on create), and the dialog closes |
| Documents.RowIssues | src/app/dashboard/documents/page.tsx:16-20 | a product row gets no message exactly when it is valid |
| Documents.RowsIssuesEmpty | src/app/dashboard/documents/page.tsx:22-26 | the rows get no message exactly when every row is valid |
| Documents.NoIssuesIffValid | src/app/dashboard/documents/page.tsx:22-26 | the schema reports no message exactly when the form is valid |
| Documents.DefaultsInvalid | src/app/dashboard/documents/page.tsx:37-41 | the default row and form are rejected, the row with the name and price messages in declaration order |
| Documents.TotalAtLeastRows | src/app/dashboard/documents/page.tsx:54 | valid rows total at least one cent each |
| Documents.ValidFormTotalPositive | src/app/dashboard/documents/page.tsx:54 | a form that passes validation has a positive total |
| Documents.AppendProduct | src/app/dashboard/documents/page.tsx:166 | the add button appends a default row and keeps the others |
| Documents.RemoveProduct | src/app/dashboard/documents/page.tsx:157 | the remove button drops exactly the row at the index, the others keeping their order; an index out of range changes nothing |
| Documents.RowsNeverDropBelowOne | src/app/dashboard/documents/page.tsx:155-166 | through the offered buttons the form never has fewer than one row |
| Documents.RequestOf | src/app/dashboard/documents/page.tsx:54-61 | the generator's request carries the form's names and rows and their total |
| Documents.AfterSubmit | src/app/dashboard/documents/page.tsx:49-69 | an invalid form leaves the panel alone; a valid one ends not loading, with either the generated text or the error message |
| Settings.Added | src/app/dashboard/settings/page.tsx:45-51 | the member list gains one member at its end, "user-<now>" with the form's fields, and the rest is kept |
| Settings.AddKeepsIdsUnique | src/app/dashboard/settings/page.tsx:47-51 | ids stay distinct when "user-<now>" is not yet taken |
| Settings.SeedIdsTakenOnlyByOneAndTwo | src/app/dashboard/settings/page.tsx:35-38 | against the seed members, only the timestamps 1 and 2 reuse a taken id |
| Settings.NewIdsDiffer | src/app/dashboard/settings/page.tsx:48 | members added at different times get different ids |
| Settings.SettingsPage.constructor | src/app/dashboard/settings/page.tsx:41-43 | the page starts with the seed members, the dialog closed and a blank form with role "Membro" |
| Settings.SettingsPage.OpenDialog | src/app/dashboard/settings/page.tsx:103 | the add button opens the dialog |
| Settings.SettingsPage.ChangeName | src/app/dashboard/settings/page.tsx:159 | the name input changes only the form's name |
| Settings.SettingsPage.ChangeEmail | src/app/dashboard/settings/page.tsx:172 | the email input changes only the form's email |
| Settings.SettingsPage.ChangeRole | src/app/dashboard/settings/page.tsx:183 | the role select changes only the form's role |
| Settings.SettingsPage.AddMember | src/app/dashboard/settings/page.tsx:45-54 | the member is appended, the dialog closes and the form is reset |
| Signup.AddUser | functions/src/index.ts:8-58 | an incomplete request fails with "Missing data…" and writes nothing; a failed commit writes nothing and wraps the error; otherwise the company and the Admin profile are written at one time |
| Signup.AllOrNothing | functions/src/index.ts:21-56 | a call succeeds exactly when the request is complete and the commit succeeds; a failure leaves the database unchanged; a success wrote both documents |
| Signup.RecordsLinked | functions/src/index.ts:26-41 | on success the profile points at the company, the company at its owner, the role is Admin and both share the timestamp |
| Signup.OthersUntouched | functions/src/index.ts:18-43 | documents other than the two written keep their contents |
| Signup.EmptyFieldRejected | functions/src/index.ts:11-14 | an empty string field is rejected exactly like a missing one |
| Text.IndexFrom | src/app/dashboard/inventory/page.tsx:142 | the search finds the first position at or after the start where the pattern occurs, or reports there is none |
| Text.ReplaceFirstAt | src/app/dashboard/inventory/page.tsx:142 | a string-pattern replace changes exactly the first occurrence |
| Text.UnformatFormatPrice | src/app/dashboard/inventory/page.tsx:142 | reading back a price the pages wrote gives its toFixed(2) text |
| Text.ParseToFixed2 | src/app/dashboard/inventory/page.tsx:161 | parseFloat of an amount's toFixed(2) text is that amount |
| Text.PriceRoundTrip | src/app/dashboard/inventory/page.tsx:142-161 | a written price read back and parsed gives the amount it was written from |
| Text.DottedPriceReadsHundredfold | src/app/dashboard/sales/page.tsx:111 | a price written with a dot for the decimal point is read as one hundred times its value |
| Text.SeedPriceReadBack | src/app/dashboard/inventory/page.tsx:70 | "R$7500.00" reads back as 750000 reais and is rewritten "R$750000,00" |
| Text.NatToStringInjective | src/app/dashboard/inventory/page.tsx:158 | different timestamps give different decimal texts |
| Text.PrefixedIdInjective | src/app/dashboard/customers/page.tsx:89 | ids built from one prefix and different timestamps differ |
| Text.IsoDateOfLocal | src/app/dashboard/orders/page.tsx:159 | split on "/", reverse and join with "-" turns "dd/mm/yyyy" into "yyyy-mm-dd" |

## Left out

- `Text.ParseCents`: parseFloat is modelled only on `[-]digits[.d[d]]`. Any other text, including leading spaces, exponents, more than two decimals or trailing junk, is treated as NaN. Float rounding of the original is not modelled.
- `Inventory.InventoryPage.ChangeQuantity`, `Sales.SalesPage.ChangeQuantity`: the input's text is modelled as the whole number that `Number(...)` or the multiplication would make of it. NaN quantities and non-integer quantities are not modelled.
- `Documents.ProductValid`, `Documents.TotalAmount`: document quantities are whole numbers. The schema's `z.coerce.number().min(1)` also accepts fractional quantities such as 1.5, which the total would then multiply by; the model does not represent them.
- `Orders.OrdersPage.ProductChange`, `Orders.Edited`: the quantity is the whole number `parseInt` reads from the input. The NaN that `parseInt` gives for an empty or non-numeric input is not modelled.
- `Roles.RolesPage.Submit`, `Inventory.InventoryPage.Submit`, `Customers.CustomersPage.Submit`, `Categories.CategoriesPage.Submit`, `Settings.SettingsPage.AddMember`, `Sales.SalesPage.Submit`, `Orders.OrdersPage.Submit`: the browser's own form validation is not modelled. The inputs marked `required` (and the quantity inputs' `min="1"`) keep the browser from submitting a form with an empty name, sku, email or quantity below one; these methods accept such forms.
- `Orders.OrdersPage.ProductChange`: requires the index to be in range. The page only calls it with the index of a rendered line.
- Clock and locale are parameters of the operations that use them: `now` for `Date.now()`, `localDate` and `docDate` for `toLocaleDateString('pt-BR')`, and `months` for the six `format(..., 'MMM')` labels of the finance chart.
- `Finance.ChartData`: a transaction's month key is its month number. The ptBR three-letter name is not modelled, and the year is ignored as in the source.
- The UTC parsing of "yyyy-mm-dd" dates by `new Date(...)` is not modelled. Date comparisons and months use the calendar date as written.
- `Finance.Values`: `Object.values` is modelled as key insertion order. This holds for the non-numeric month labels the page uses.
- The informative-document AI flow (`generateInformativeDocument`) is a parameter `generated`. `None` stands for a rejected call. The flow itself is not part of this model.
- The Firestore batch in `Signup.AddUser` is all-or-nothing by assumption. The commit's outcome is the parameter `commitError`, and the auto-generated company document id is the parameter `companyId`. Logging is left out.
- `Signup.AddUser`: a request field that is present but not a string is not modelled. Fields are strings or absent.
- Rendering, printing, the WhatsApp share link, navigation, the dashboard home page's random figures, toasts and the ordering of React's asynchronous state updates are left out. A handler's updates are applied in the order written.
- The orders catalog and the document form hold prices in cents, so fractions of a cent are not represented.
- `Finance.SortNewestFirst`: `Array.prototype.sort` is modelled as a stable insertion sort. Only its result on the seed list is relied on (`Finance.InitialTransactionsInSourceOrder`).
- Id collisions are not prevented by the source: "ORD"/"SALE" plus three digits, and several records created in one millisecond. Lemmas that need unique ids take them as a precondition.
- Login, signup pages, the layout and the UI component library are not part of this model.
