/**
 * The settings page's team section: the member list and the dialog that adds
 * a member at the end of it.
 */
module Settings {
  import opened Lists
  import opened Text

  /** The two roles the select offers. */
  datatype MemberRole = Admin | Member

  function RoleLabel(r: MemberRole): string {
    match r
    case Admin => "Admin"
    case Member => "Membro"
  }

  datatype TeamMember = TeamMember(id: string, name: string, email: string, role: MemberRole)

  function MemberId(m: TeamMember): string {
    m.id
  }

  const InitialMembers: seq<TeamMember> := [
    TeamMember("user-1", "John Doe", "john.doe@example.com", Admin),
    TeamMember("user-2", "Jane Smith", "jane.smith@example.com", Member)
  ]

  /** The dialog's fields. */
  datatype MemberForm = MemberForm(name: string, email: string, role: MemberRole)

  const BlankMember := MemberForm("", "", Member)

  function NewMemberId(now: nat): string {
    "user-" + NatToString(now)
  }

  /** `[...members, { id: 'user-<now>', ...newMember }]`. */
  function Added(members: seq<TeamMember>, form: MemberForm, now: nat): (r: seq<TeamMember>)
    ensures |r| == |members| + 1
    ensures forall i :: 0 <= i < |members| ==> r[i] == members[i]
    ensures r[|members|].id == NewMemberId(now)
    ensures r[|members|].name == form.name && r[|members|].email == form.email && r[|members|].role == form.role
  {
    members + [TeamMember(NewMemberId(now), form.name, form.email, form.role)]
  }

  /** Ids stay unique when the timestamp's id is not taken yet. */
  lemma AddKeepsIdsUnique(members: seq<TeamMember>, form: MemberForm, now: nat)
    requires DistinctKeys(members, MemberId)
    requires forall i :: 0 <= i < |members| ==> members[i].id != NewMemberId(now)
    ensures DistinctKeys(Added(members, form, now), MemberId)
  {
  }

  /** Against the seed list, only the timestamps 1 and 2 reuse a taken id. */
  lemma SeedIdsTakenOnlyByOneAndTwo(now: nat)
    ensures (exists i :: 0 <= i < |InitialMembers| && InitialMembers[i].id == NewMemberId(now)) <==> now == 1 || now == 2
  {
    assert NatToString(1) == "1" && NatToString(2) == "2";
    assert InitialMembers[0].id == NewMemberId(1);
    assert InitialMembers[1].id == NewMemberId(2);
    if NewMemberId(now) == NewMemberId(1) {
      PrefixedIdInjective("user-", now, 1);
    }
    if NewMemberId(now) == NewMemberId(2) {
      PrefixedIdInjective("user-", now, 2);
    }
  }

  /** Members added at different times get different ids. */
  lemma NewIdsDiffer(now: nat, later: nat)
    requires now != later
    ensures NewMemberId(now) != NewMemberId(later)
  {
    if NewMemberId(now) == NewMemberId(later) {
      PrefixedIdInjective("user-", now, later);
    }
  }

  class SettingsPage {
    var members: seq<TeamMember>
    var dialogOpen: bool
    var newMember: MemberForm

    constructor ()
      ensures members == InitialMembers && !dialogOpen && newMember == BlankMember
    {
      members := InitialMembers;
      dialogOpen := false;
      newMember := BlankMember;
    }

    method OpenDialog()
      modifies this`dialogOpen
      ensures dialogOpen
    {
      dialogOpen := true;
    }

    /** The name input's `onChange`. */
    method ChangeName(name: string)
      modifies this`newMember
      ensures newMember == old(newMember).(name := name)
    {
      newMember := newMember.(name := name);
    }

    /** The email input's `onChange`. */
    method ChangeEmail(email: string)
      modifies this`newMember
      ensures newMember == old(newMember).(email := email)
    {
      newMember := newMember.(email := email);
    }

    /** The role select's `onValueChange`. */
    method ChangeRole(role: MemberRole)
      modifies this`newMember
      ensures newMember == old(newMember).(role := role)
    {
      newMember := newMember.(role := role);
    }

    /** `handleAddMember`: append the member, close the dialog, reset the form. */
    method AddMember(now: nat)
      modifies this
      ensures members == Added(old(members), old(newMember), now)
      ensures !dialogOpen && newMember == BlankMember
    {
      members := Added(members, newMember, now);
      dialogOpen := false;
      newMember := BlankMember;
    }
  }
}
