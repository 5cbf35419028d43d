/**
 * The categories page: a list of product categories edited through a dialog
 * whose form holds the name input, keyed by the input's id.
 */
module Categories {
  import opened Wrappers
  import opened Lists
  import opened Text

  datatype Category = Category(id: string, name: string)

  function CategoryId(c: Category): string {
    c.id
  }

  const InitialCategories: seq<Category> := [
    Category("CAT001", "Eletrônicos"),
    Category("CAT002", "Periféricos"),
    Category("CAT003", "Acessórios")
  ]

  /** The form state: input id to typed value. */
  type Form = map<string, string>

  predicate HasFields(form: Form) {
    "name" in form
  }

  const BlankForm: Form := map["name" := ""]

  /** `handleOpenDialog(category)`: the form shows the category's name. */
  function FormOf(c: Category): (f: Form)
    ensures HasFields(f) && f["name"] == c.name
  {
    map["name" := c.name]
  }

  /** The category `handleSubmit` builds: an edit keeps the id, a new category gets `CAT-<now>`. */
  function Submitted(form: Form, editing: Option<Category>, now: nat): (c: Category)
    requires HasFields(form)
    ensures c.name == form["name"]
    ensures editing.Some? ==> c.id == editing.value.id
    ensures editing.None? ==> c.id == "CAT-" + NatToString(now)
  {
    Category(if editing.Some? then editing.value.id else "CAT-" + NatToString(now), form["name"])
  }

  /** The category list after `handleSubmit`. */
  function Saved(categories: seq<Category>, editing: Option<Category>, form: Form, now: nat): (r: seq<Category>)
    requires HasFields(form)
    ensures editing.Some? ==> |r| == |categories| && forall i :: 0 <= i < |categories| ==>
              r[i] == if categories[i].id == editing.value.id then Submitted(form, editing, now) else categories[i]
    ensures editing.None? ==> r == [Submitted(form, editing, now)] + categories
  {
    var c := Submitted(form, editing, now);
    if editing.Some? then ReplaceKey(categories, CategoryId, editing.value.id, c) else [c] + categories
  }

  /** Saving an opened category untouched leaves the list as it was. */
  lemma ResubmitUnchanged(categories: seq<Category>, c: Category, now: nat)
    requires DistinctKeys(categories, CategoryId) && c in categories
    ensures Saved(categories, Some(c), FormOf(c), now) == categories
  {
    assert Submitted(FormOf(c), Some(c), now) == c;
    ReplaceWithSelf(categories, CategoryId, c);
  }

  /** Renaming a category renames exactly the entries with its id. */
  lemma RenameOnlyThatId(categories: seq<Category>, c: Category, name: string, now: nat)
    ensures var r := Saved(categories, Some(c), map["name" := name], now);
            forall i :: 0 <= i < |categories| ==>
              (r[i].id == categories[i].id) &&
              (r[i].name == if categories[i].id == c.id then name else categories[i].name)
  {
  }

  class CategoriesPage {
    var categories: seq<Category>
    var dialogOpen: bool
    var editing: Option<Category>
    var form: Form

    predicate Valid()
      reads this
    {
      HasFields(form)
    }

    constructor ()
      ensures Valid()
      ensures categories == InitialCategories && !dialogOpen && editing == None && form == BlankForm
    {
      categories := InitialCategories;
      dialogOpen := false;
      editing := None;
      form := BlankForm;
    }

    /** `handleOpenDialog`: a category to edit fills the form from it; none clears the form. */
    method OpenDialog(category: Option<Category>)
      modifies this
      ensures Valid()
      ensures categories == old(categories) && editing == category && dialogOpen
      ensures category.Some? ==> form == FormOf(category.value)
      ensures category.None? ==> form == BlankForm
    {
      editing := category;
      form := if category.Some? then FormOf(category.value) else BlankForm;
      dialogOpen := true;
    }

    /** `handleFormChange` for the input with the given id. */
    method ChangeField(id: string, value: string)
      requires Valid()
      modifies this`form
      ensures Valid()
      ensures form == SetField(old(form), id, value)
    {
      form := SetField(form, id, value);
    }

    /** `handleDelete`: every category with the id goes, the rest keep their order. */
    method Delete(id: string)
      modifies this`categories
      ensures categories == RemoveKey(old(categories), CategoryId, id)
      ensures forall i :: 0 <= i < |categories| ==> categories[i].id != id
      ensures IsSubsequence(categories, old(categories))
    {
      RemoveKeyIsSubsequence(categories, CategoryId, id);
      categories := RemoveKey(categories, CategoryId, id);
    }

    /** `handleSubmit`. */
    method Submit(now: nat)
      requires Valid()
      modifies this`categories, this`dialogOpen
      ensures Valid()
      ensures categories == Saved(old(categories), editing, form, now)
      ensures editing.Some? ==> |categories| == |old(categories)|
      ensures editing.None? ==> |categories| == |old(categories)| + 1
      ensures !dialogOpen
    {
      categories := Saved(categories, editing, form, now);
      dialogOpen := false;
    }
  }
}
