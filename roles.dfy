/**
 * The roles page (src/app/dashboard/roles/page.tsx): a list of roles, each
 * holding either the sentinel permission list ['all'] or an explicit list of
 * page slugs, and the dialog that edits one role's permissions with nine
 * checkboxes plus a "full access" box.
 */
module Roles {
  import opened Wrappers
  import opened Lists
  import Text

  /** The sentinel meaning "every page". */
  const All: string := "all"

  const AdminName: string := "Admin"

  /** The nine page slugs, in the order their checkboxes are listed (`allPermissions`). */
  const PageIds: seq<string> :=
    ["dashboard", "sales", "orders", "inventory", "categories", "customers", "finance", "roles", "settings"]

  datatype Role = Role(id: string, name: string, permissions: seq<string>)

  function RoleId(r: Role): string {
    r.id
  }

  const InitialRoles: seq<Role> := [
    Role("role-1", "Admin", [All]),
    Role("role-2", "Vendedor", ["dashboard", "sales", "orders", "inventory", "categories", "customers"])
  ]

  lemma PageIdsDistinct()
    ensures Distinct(PageIds) && All !in PageIds && |PageIds| == 9
  {
  }

  // ---------------------------------------------------------------------------
  // Effective access and the two normal forms

  /** Whether a page's checkbox shows as ticked: `includes('all') || includes(id)`. */
  predicate Grants(perms: seq<string>, page: string) {
    All in perms || page in perms
  }

  /** Every one of the nine pages is granted. */
  predicate FullAccess(perms: seq<string>) {
    forall i :: 0 <= i < |PageIds| ==> Grants(perms, PageIds[i])
  }

  /** The sentinel alone, or distinct page slugs (never the two mixed, never a duplicate). */
  predicate WellFormed(perms: seq<string>) {
    perms == [All] || (Distinct(perms) && forall i :: 0 <= i < |perms| ==> perms[i] in PageIds)
  }

  /** The form a click actually leaves: normal form, and an explicit list never holds all nine slugs. */
  predicate Collapsed(perms: seq<string>) {
    WellFormed(perms) && (perms != [All] ==> |perms| < |PageIds|)
  }

  lemma InitialRolesWellFormed()
    ensures forall r :: r in InitialRoles ==> WellFormed(r.permissions)
    ensures forall r :: r in InitialRoles ==> Collapsed(r.permissions)
  {
    var vendedor := InitialRoles[1].permissions;
    assert Distinct(vendedor);
    assert forall i :: 0 <= i < |vendedor| ==> vendedor[i] == PageIds[i];
  }

  // ---------------------------------------------------------------------------
  // One click on a checkbox (`handlePermissionChange`)

  /** `areAllSelected`: the sentinel is held or the list is as long as the page list. */
  predicate AllSelected(perms: seq<string>) {
    All in perms || |perms| == |PageIds|
  }

  /** With the sentinel held, the list is first expanded to the nine explicit slugs. */
  function Expand(perms: seq<string>): seq<string> {
    if All in perms then PageIds else perms
  }

  /** `perms.filter(p => p !== page && p !== 'all')`. */
  function Discard(perms: seq<string>, page: string): (r: seq<string>)
    ensures forall p :: p in r <==> p in perms && p != page && p != All
    ensures |r| <= |perms|
    ensures page in perms ==> |r| < |perms|
    ensures page !in perms && All !in perms ==> r == perms
  {
    if perms == [] then []
    else
      var rest := Discard(perms[1..], page);
      assert forall p :: p in perms <==> p == perms[0] || p in perms[1..] by {
        assert perms == [perms[0]] + perms[1..];
      }
      if perms[0] != page && perms[0] != All then [perms[0]] + rest else rest
  }

  lemma {:induction false} DiscardDistinct(perms: seq<string>, page: string)
    requires Distinct(perms)
    ensures Distinct(Discard(perms, page))
    ensures All !in perms && page in perms ==> |Discard(perms, page)| == |perms| - 1
  {
    if perms != [] {
      DiscardDistinct(perms[1..], page);
      var rest := Discard(perms[1..], page);
      if perms[0] != page && perms[0] != All {
        var r := [perms[0]] + rest;
        assert perms[0] !in perms[1..];
        forall i, j | 0 <= i < j < |r| ensures r[i] != r[j] {
          assert r[j] == rest[j - 1];
          if i > 0 {
            assert r[i] == rest[i - 1];
          } else {
            assert r[j] in rest;
          }
        }
      } else if All !in perms && page in perms {
        assert perms[0] == page;
        assert page !in perms[1..];
      }
    }
  }

  /** Removes a held slug (every copy of it, and the sentinel); appends one not held. */
  function Flip(perms: seq<string>, page: string): seq<string> {
    if page in perms then Discard(perms, page) else perms + [page]
  }

  /** A list as long as the page list collapses to the sentinel. */
  function Collapse(perms: seq<string>): seq<string> {
    if |perms| == |PageIds| then [All] else perms
  }

  /** The permission list after one click on the checkbox for `page`. */
  function Toggled(perms: seq<string>, page: string): seq<string> {
    if page == All then (if AllSelected(perms) then [] else [All])
    else Collapse(Flip(Expand(perms), page))
  }

  /** The updater handed to `setFormState`, step by step as the page writes it. */
  method NextPermissions(prev: seq<string>, page: string) returns (next: seq<string>)
    ensures next == Toggled(prev, page)
  {
    if page == All {
      var areAllSelected := All in prev || |prev| == |PageIds|;
      next := if areAllSelected then [] else [All];
      return;
    }
    next := prev;
    if All in next {
      next := PageIds;
    }
    if page in next {
      next := Discard(next, page);
    } else {
      next := next + [page];
    }
    if |next| == |PageIds| {
      next := [All];
    }
  }

  /** Under the normal forms, "all selected" is exactly full access. */
  lemma AllSelectedIsFullAccess(perms: seq<string>)
    requires WellFormed(perms)
    ensures AllSelected(perms) <==> FullAccess(perms)
  {
    PageIdsDistinct();
    if perms != [All] {
      if |perms| == |PageIds| {
        Pigeonhole(perms, PageIds);
      }
      if FullAccess(perms) {
        Covers(perms, PageIds);
        DrawnFrom(perms, PageIds);
      }
    }
  }

  /** Clicking "full access" clears every page when all were granted and grants every page otherwise. */
  lemma ToggleAll(perms: seq<string>)
    requires WellFormed(perms)
    ensures Toggled(perms, All) == (if FullAccess(perms) then [] else [All])
    ensures WellFormed(Toggled(perms, All))
    ensures forall q :: q in PageIds ==> Grants(Toggled(perms, All), q) == !FullAccess(perms)
  {
    AllSelectedIsFullAccess(perms);
  }

  /** Clicking a page while the sentinel is held leaves exactly the other eight, explicitly. */
  lemma ToggleFromAll(perms: seq<string>, page: string)
    requires All in perms && page in PageIds
    ensures Toggled(perms, page) == Discard(PageIds, page)
    ensures |Toggled(perms, page)| == |PageIds| - 1
    ensures forall q :: q in Toggled(perms, page) <==> q in PageIds && q != page
  {
    PageIdsDistinct();
    DiscardDistinct(PageIds, page);
  }

  /** Without the sentinel, a slug not held is appended at the end and a held one is removed everywhere. */
  lemma ToggleExplicit(perms: seq<string>, page: string)
    requires page != All && All !in perms
    ensures page !in perms && |perms| + 1 != |PageIds| ==> Toggled(perms, page) == perms + [page]
    ensures page in perms && Toggled(perms, page) != [All] ==>
              forall q :: q in Toggled(perms, page) <==> q in perms && q != page
  {
  }

  /** No click ever leaves a list as long as the page list: nine entries collapse to the sentinel. */
  lemma NeverNineEntries(perms: seq<string>, page: string)
    ensures |Toggled(perms, page)| != |PageIds|
  {
  }

  /** Clicking any checkbox keeps the two normal forms. */
  lemma ToggleKeepsWellFormed(perms: seq<string>, page: string)
    requires WellFormed(perms) && (page == All || page in PageIds)
    ensures WellFormed(Toggled(perms, page))
  {
    PageIdsDistinct();
    if page != All {
      var e := Expand(perms);
      assert Distinct(e) && forall i :: 0 <= i < |e| ==> e[i] in PageIds;
      DiscardDistinct(e, page);
      var f := Flip(e, page);
      assert forall i :: 0 <= i < |f| ==> f[i] in PageIds by {
        if page in e {
          forall i | 0 <= i < |f| ensures f[i] in PageIds {
            assert f[i] in f;
          }
        }
      }
      assert Distinct(f);
    }
  }

  /** Every click on a listed checkbox keeps the collapsed form. */
  lemma ToggleKeepsCollapsed(perms: seq<string>, page: string)
    requires Collapsed(perms) && (page == All || page in PageIds)
    ensures Collapsed(Toggled(perms, page))
  {
    ToggleKeepsWellFormed(perms, page);
    NeverNineEntries(perms, page);
    var r := Toggled(perms, page);
    if r != [All] {
      DrawnFrom(r, PageIds);
    }
  }

  /** In collapsed form, the "all" checkbox (`includes('all')`) is ticked exactly when every page is granted. */
  lemma AllBoxIsFullAccess(perms: seq<string>)
    requires Collapsed(perms)
    ensures All in perms <==> FullAccess(perms)
  {
    AllSelectedIsFullAccess(perms);
  }

  /** Clicking a page flips that page's effective access and leaves every other page's as it was. */
  lemma ToggleFlipsOne(perms: seq<string>, page: string)
    requires WellFormed(perms) && page in PageIds
    ensures forall q :: q in PageIds ==>
              Grants(Toggled(perms, page), q) == (if q == page then !Grants(perms, q) else Grants(perms, q))
  {
    PageIdsDistinct();
    var r := Toggled(perms, page);
    if All in perms {
      ToggleFromAll(perms, page);
    } else if page in perms {
      DiscardDistinct(perms, page);
      DrawnFrom(perms, PageIds);
      assert r == Discard(perms, page);
    } else {
      var f := perms + [page];
      if |f| == |PageIds| {
        assert Distinct(f);
        Pigeonhole(f, PageIds);
        forall q | q in PageIds && q != page ensures q in perms {
          assert q in f;
        }
      }
    }
  }

  /** Clicking the same page twice restores every page's effective access. */
  lemma ToggleTwice(perms: seq<string>, page: string)
    requires WellFormed(perms) && page in PageIds
    ensures forall q :: q in PageIds ==> Grants(Toggled(Toggled(perms, page), page), q) == Grants(perms, q)
  {
    ToggleFlipsOne(perms, page);
    ToggleKeepsWellFormed(perms, page);
    ToggleFlipsOne(Toggled(perms, page), page);
  }

  // ---------------------------------------------------------------------------
  // The role list

  /** The list `handleSubmit` stores: the edited role replaced by id, or a new role prepended. */
  function Saved(roles: seq<Role>, editing: Option<Role>, name: string, perms: seq<string>, now: nat): (r: seq<Role>)
    ensures editing.Some? ==> |r| == |roles| && forall i :: 0 <= i < |roles| ==>
              r[i] == if roles[i].id == editing.value.id then Role(editing.value.id, name, perms) else roles[i]
    ensures editing.None? ==> r == [Role("role-" + Text.NatToString(now), name, perms)] + roles
  {
    var id := if editing.Some? then editing.value.id else "role-" + Text.NatToString(now);
    var newRole := Role(id, name, perms);
    if editing.Some? then ReplaceKey(roles, RoleId, editing.value.id, newRole) else [newRole] + roles
  }

  /** The delete control is disabled on the role named Admin. */
  predicate DeleteEnabled(role: Role) {
    role.name != AdminName
  }

  /** The save button (and every checkbox) is disabled while the Admin role is open for editing. */
  predicate SaveEnabled(editing: Option<Role>) {
    !(editing.Some? && editing.value.name == AdminName)
  }

  /** A page checkbox is disabled while the sentinel is held, and while Admin is open. */
  predicate PageCheckboxEnabled(editing: Option<Role>, perms: seq<string>) {
    All !in perms && SaveEnabled(editing)
  }

  /** Through the enabled controls a page click never takes the expanding branch. */
  lemma EnabledPageClickIsExplicit(editing: Option<Role>, perms: seq<string>, page: string)
    requires PageCheckboxEnabled(editing, perms)
    ensures Expand(perms) == perms
  {
  }

  /** When ids are unique, an enabled delete leaves every role named Admin in place. */
  lemma DeleteKeepsAdmin(roles: seq<Role>, target: Role)
    requires DistinctKeys(roles, RoleId) && target in roles && DeleteEnabled(target)
    ensures forall r :: r in roles && r.name == AdminName ==> r in RemoveKey(roles, RoleId, target.id)
  {
    forall r | r in roles && r.name == AdminName ensures r in RemoveKey(roles, RoleId, target.id) {
      var i :| 0 <= i < |roles| && roles[i] == r;
      var j :| 0 <= j < |roles| && roles[j] == target;
      if r.id == target.id {
        SameKeySameEntry(roles, RoleId, i, j);
      }
    }
  }

  /** When ids are unique, an enabled save leaves every role named Admin in place. */
  lemma SaveKeepsAdmin(roles: seq<Role>, editing: Option<Role>, name: string, perms: seq<string>, now: nat)
    requires DistinctKeys(roles, RoleId) && SaveEnabled(editing)
    requires editing.Some? ==> editing.value in roles
    ensures forall r :: r in roles && r.name == AdminName ==> r in Saved(roles, editing, name, perms, now)
  {
    var s := Saved(roles, editing, name, perms, now);
    forall r | r in roles && r.name == AdminName ensures r in s {
      var i :| 0 <= i < |roles| && roles[i] == r;
      if editing.Some? {
        var j :| 0 <= j < |roles| && roles[j] == editing.value;
        if r.id == editing.value.id {
          SameKeySameEntry(roles, RoleId, i, j);
        }
        assert s[i] == r;
      } else {
        assert s[i + 1] == r;
      }
    }
  }

  /** Resubmitting a role unchanged leaves the list as it was. */
  lemma ResubmitUnchanged(roles: seq<Role>, role: Role, now: nat)
    requires DistinctKeys(roles, RoleId) && role in roles
    ensures Saved(roles, Some(role), role.name, role.permissions, now) == roles
  {
    ReplaceWithSelf(roles, RoleId, role);
  }

  /** The page's state: the role list and the edit dialog. */
  class RolesPage {
    var roles: seq<Role>
    var dialogOpen: bool
    var editing: Option<Role>
    var formName: string
    var formPermissions: seq<string>

    constructor ()
      ensures roles == InitialRoles && !dialogOpen && editing == None
      ensures formName == "" && formPermissions == []
    {
      roles := InitialRoles;
      dialogOpen := false;
      editing := None;
      formName := "";
      formPermissions := [];
    }

    /** `handleOpenDialog`: a role to edit fills the form from it; none clears the form. */
    method OpenDialog(role: Option<Role>)
      modifies this
      ensures roles == old(roles) && editing == role && dialogOpen
      ensures role.Some? ==> formName == role.value.name && formPermissions == role.value.permissions
      ensures role.None? ==> formName == "" && formPermissions == []
    {
      editing := role;
      if role.Some? {
        formName, formPermissions := role.value.name, role.value.permissions;
      } else {
        formName, formPermissions := "", [];
      }
      dialogOpen := true;
    }

    /** `handleDelete`: every role with the id goes, the rest keep their order. */
    method Delete(id: string)
      modifies this`roles
      ensures roles == RemoveKey(old(roles), RoleId, id)
      ensures forall i :: 0 <= i < |roles| ==> roles[i].id != id
      ensures IsSubsequence(roles, old(roles))
    {
      RemoveKeyIsSubsequence(roles, RoleId, id);
      roles := RemoveKey(roles, RoleId, id);
    }

    /** The name input's `onChange`. */
    method ChangeName(name: string)
      modifies this`formName
      ensures formName == name
    {
      formName := name;
    }

    /** `handlePermissionChange`. */
    method PermissionChange(page: string)
      modifies this`formPermissions
      ensures formPermissions == Toggled(old(formPermissions), page)
      ensures WellFormed(old(formPermissions)) && (page == All || page in PageIds) ==> WellFormed(formPermissions)
      ensures Collapsed(old(formPermissions)) && (page == All || page in PageIds) ==> Collapsed(formPermissions)
    {
      if WellFormed(formPermissions) && (page == All || page in PageIds) {
        ToggleKeepsWellFormed(formPermissions, page);
      }
      if Collapsed(formPermissions) && (page == All || page in PageIds) {
        ToggleKeepsCollapsed(formPermissions, page);
      }
      formPermissions := NextPermissions(formPermissions, page);
    }

    /** `handleSubmit`: an edit keeps the role's id; a new role gets `role-<now>` and goes first. */
    method Submit(now: nat)
      modifies this`roles, this`dialogOpen
      ensures roles == Saved(old(roles), editing, formName, formPermissions, now)
      ensures editing.Some? ==> |roles| == |old(roles)|
      ensures editing.None? ==> |roles| == |old(roles)| + 1
      ensures !dialogOpen
    {
      roles := Saved(roles, editing, formName, formPermissions, now);
      dialogOpen := false;
    }
  }
}
