/**
 * The client's Team page: an admin-only list of users with one form that
 * either registers a new user or updates an existing one, the roles chosen
 * through one checkbox per known role.
 */
module TeamPage {
  import opened Wrappers
  import opened Seqs
  import opened ClientAuth
  import opened ClientLists
  import opened FormRules
  import Schema
  import Text

  /** The roles a checkbox is offered for, in the order the form lists them. */
  const Roles: seq<string> := ["admin", "writer", "manager"]

  // ------------------------------------------------------------ access

  datatype TeamView = AccessDenied | Management

  /**
   * Only an admin gets the management view; everyone else, signed in or
   * not, sees "Access Denied: Admins Only".
   */
  function View(user: Option<SessionUser>): (v: TeamView)
    ensures v == Management <==> user.Some? && IsAdmin(user.value)
  {
    if user.Some? && IsAdmin(user.value) then Management else AccessDenied
  }

  /** The effect that loads the user list runs under the same test as the view. */
  function FetchesUsers(user: Option<SessionUser>): (b: bool)
    ensures b <==> View(user) == Management
  {
    user.Some? && IsAdmin(user.value)
  }

  /** For a signed-in user the page lets in exactly whom an admin-only route guard would. */
  lemma ViewIsAdminGuard(u: SessionUser)
    ensures View(Some(u)) == Management <==> RoleRoute(Some(u), ["admin"]) == Render
  {
    if IsAdmin(u) {
      assert ["admin"][0] in u.roles;
    }
  }

  // ------------------------------------------------------------ roles

  /** `formData[role]` for a checkbox: set and true. */
  predicate Ticked(checked: map<string, bool>, role: string) {
    role in checked && checked[role]
  }

  function TickedIn(checked: map<string, bool>): string -> bool {
    r => Ticked(checked, r)
  }

  /**
   * `ROLES.filter(role => formData[role])`: the known roles whose box is
   * ticked, each once and in the fixed order, and each a role the user
   * schema accepts.
   */
  function SelectedRoles(checked: map<string, bool>): (rs: seq<string>)
    ensures IsSubseq(rs, Roles)
    ensures NoDup(rs)
    ensures forall r :: r in rs <==> r in Roles && Ticked(checked, r)
    ensures forall i :: 0 <= i < |rs| ==> Schema.ParseRole(rs[i]).Some?
  {
    FilterIsSubseq(TickedIn(checked), Roles);
    FilterNoDup(TickedIn(checked), Roles);
    Filter(TickedIn(checked), Roles)
  }

  /** The boxes `onEdit` sets: each known role, ticked iff the user holds it. */
  function EditChecks(u: UserItem): map<string, bool> {
    map r | r in Roles :: HasRole(u, r)
  }

  /**
   * Editing a user and submitting the boxes untouched sends the user's roles
   * restricted to the known roles, without repetitions and in the fixed
   * order; a user whose roles already are such a list gets them back as
   * they were, and a user without a roles list gets none.
   */
  lemma {:induction false} EditedRolesRoundTrip(u: UserItem)
    ensures forall r :: r in SelectedRoles(EditChecks(u)) <==> r in Roles && HasRole(u, r)
    ensures u.roles.None? ==> SelectedRoles(EditChecks(u)) == []
    ensures u.roles.Some? && IsSubseq(u.roles.value, Roles) ==> SelectedRoles(EditChecks(u)) == u.roles.value
  {
    if u.roles.Some? && IsSubseq(u.roles.value, Roles) {
      forall r | r in Roles ensures TickedIn(EditChecks(u))(r) == In(u.roles.value)(r) {
      }
      FilterExt(TickedIn(EditChecks(u)), In(u.roles.value), Roles);
      FilterInSubseq(u.roles.value, Roles);
    }
  }

  // ------------------------------------------------------------ submitting

  datatype FormMode = AddMode | EditMode

  /** The body sent; `password` is `None` when the key is absent. */
  datatype UserPayload = UserPayload(name: Option<string>, email: Option<string>, roles: seq<string>, password: Option<string>)

  datatype Submission =
    | NoRequest
    | Rejected(messages: seq<string>)
    | Registration(payload: UserPayload)
    | ProfileUpdate(id: string, payload: UserPayload)

  /**
   * The messages the form shows instead of submitting: name required, the
   * e-mail rules, and, in add mode only, the password required.
   */
  function Problems(mode: FormMode, name: Option<string>, email: Option<string>, password: Option<string>): (ms: seq<string>)
    ensures ms == [] <==> Filled(name) && Filled(email) && Text.EmailShape(email.value) && (mode == AddMode ==> Filled(password))
    ensures !Filled(name) ==> "Name is required" in ms
    ensures mode == AddMode && !Filled(password) ==> "Password is required" in ms
    ensures mode == EditMode ==> "Password is required" !in ms
  {
    var es := if mode == AddMode then [NameError(name), EmailError(email), RequiredError(password, "Password is required")]
      else [NameError(name), EmailError(email)];
    assert es[0] == NameError(name) && es[1] == EmailError(email);
    assert mode == AddMode ==> es[2] == RequiredError(password, "Password is required");
    assert mode == EditMode ==> forall i :: 0 <= i < |es| && es[i].Some? ==> es[i].value != "Password is required";
    Messages(es)
  }

  /**
   * What pressing the submit button does: nothing while no form is open;
   * the messages when a rule fails; otherwise a registration carrying the
   * password in add mode, and an update of the user being edited that
   * carries no password in edit mode.
   */
  function SubmitSpec(mode: Option<FormMode>, editingId: Option<string>, name: Option<string>, email: Option<string>,
                      password: Option<string>, checked: map<string, bool>): (s: Submission)
    requires mode == Some(EditMode) ==> editingId.Some?
    ensures s == NoRequest <==> mode.None?
    ensures s.Rejected? <==> mode.Some? && Problems(mode.value, name, email, password) != []
    ensures s.Registration? <==> mode == Some(AddMode) && Problems(AddMode, name, email, password) == []
    ensures s.ProfileUpdate? <==> mode == Some(EditMode) && Problems(EditMode, name, email, password) == []
    ensures s.Registration? ==> s.payload == UserPayload(name, email, SelectedRoles(checked), password) && Filled(password)
    ensures s.ProfileUpdate? ==> s.id == editingId.value && s.payload == UserPayload(name, email, SelectedRoles(checked), None)
    ensures s.Registration? || s.ProfileUpdate? ==> Filled(s.payload.name) && Filled(s.payload.email) && Text.EmailShape(s.payload.email.value)
  {
    if mode.None? then NoRequest
    else if Problems(mode.value, name, email, password) != [] then Rejected(Problems(mode.value, name, email, password))
    else if mode.value == AddMode then Registration(UserPayload(name, email, SelectedRoles(checked), password))
    else ProfileUpdate(editingId.value, UserPayload(name, email, SelectedRoles(checked), None))
  }

  /**
   * Opening a user for editing and submitting at once updates that user
   * with their own name, e-mail and roles (as the round trip above gives
   * them), provided the stored name and e-mail pass the rules.
   */
  lemma EditThenSubmitSendsUserBack(u: UserItem)
    requires Filled(u.name) && Filled(u.email) && Text.EmailShape(u.email.value)
    ensures SubmitSpec(Some(EditMode), Some(u.id), u.name, u.email, None, EditChecks(u))
      == ProfileUpdate(u.id, UserPayload(u.name, u.email, SelectedRoles(EditChecks(u)), None))
  {
  }

  /** What the user types or ticks. */
  datatype FieldInput =
    | EnterName(name: string)
    | EnterEmail(email: string)
    | EnterPassword(password: string)
    | Tick(role: string, on: bool)

  /** The page's form state: which form is open, for whom, and the field values. */
  class TeamForm {
    var formMode: Option<FormMode>
    var editingUserId: Option<string>
    var name: Option<string>
    var email: Option<string>
    var password: Option<string>
    var checked: map<string, bool>

    /** The edit form is only ever open for a user. */
    predicate Valid()
      reads this
    {
      formMode == Some(EditMode) ==> editingUserId.Some?
    }

    constructor()
      ensures Valid()
      ensures formMode.None? && editingUserId.None?
      ensures name.None? && email.None? && password.None? && checked == map[]
    {
      formMode := None;
      editingUserId := None;
      name, email, password := None, None, None;
      checked := map[];
    }

    /** `reset()`: every field back to unset. */
    method Reset()
      modifies this
      ensures name.None? && email.None? && password.None? && checked == map[]
      ensures formMode == old(formMode) && editingUserId == old(editingUserId)
    {
      name, email, password := None, None, None;
      checked := map[];
    }

    /** `openAddUserForm`: a blank add form; the id of an earlier edit is left as it was. */
    method OpenAdd()
      modifies this
      ensures Valid()
      ensures formMode == Some(AddMode) && editingUserId == old(editingUserId)
      ensures name.None? && email.None? && password.None? && checked == map[]
    {
      Reset();
      formMode := Some(AddMode);
    }

    /** `onEdit`: the edit form for `u`, filled with its name, e-mail and one box per known role. */
    method OnEdit(u: UserItem)
      modifies this
      ensures Valid()
      ensures formMode == Some(EditMode) && editingUserId == Some(u.id)
      ensures name == u.name && email == u.email && password.None?
      ensures checked == EditChecks(u)
    {
      editingUserId := Some(u.id);
      formMode := Some(EditMode);
      Reset();
      name := u.name;
      email := u.email;
      var i := 0;
      while i < |Roles|
        invariant 0 <= i <= |Roles|
        invariant formMode == Some(EditMode) && editingUserId == Some(u.id)
        invariant name == u.name && email == u.email && password.None?
        invariant checked == map r | r in Roles[..i] :: HasRole(u, r)
      {
        assert Roles[..i + 1] == Roles[..i] + [Roles[i]];
        checked := checked[Roles[i] := HasRole(u, Roles[i])];
        i := i + 1;
      }
      assert Roles[..i] == Roles;
    }

    /** `cancelForm`: no form open, nobody being edited, every field unset. */
    method Cancel()
      modifies this
      ensures Valid()
      ensures formMode.None? && editingUserId.None?
      ensures name.None? && email.None? && password.None? && checked == map[]
    {
      editingUserId := None;
      formMode := None;
      Reset();
    }

    /** Typing into a field or ticking a box changes that field alone. */
    method Enter(c: FieldInput)
      requires Valid()
      modifies this
      ensures Valid()
      ensures formMode == old(formMode) && editingUserId == old(editingUserId)
      ensures name == (if c.EnterName? then Some(c.name) else old(name))
      ensures email == (if c.EnterEmail? then Some(c.email) else old(email))
      ensures password == (if c.EnterPassword? then Some(c.password) else old(password))
      ensures checked == (if c.Tick? then old(checked)[c.role := c.on] else old(checked))
    {
      match c
      case EnterName(s) => name := Some(s);
      case EnterEmail(s) => email := Some(s);
      case EnterPassword(s) => password := Some(s);
      case Tick(r, on) => checked := checked[r := on];
    }

    /**
     * The submit button. `accepted` is whether the HTTP client resolved the request (a 2xx reply);
     * after an accepted request the form closes, and otherwise it stays as
     * it was.
     */
    method OnSubmit(accepted: bool) returns (s: Submission)
      requires Valid()
      modifies this
      ensures Valid()
      ensures s == SubmitSpec(old(formMode), old(editingUserId), old(name), old(email), old(password), old(checked))
      ensures (s.Registration? || s.ProfileUpdate?) && accepted ==>
        formMode.None? && editingUserId.None? && name.None? && email.None? && password.None? && checked == map[]
      ensures !((s.Registration? || s.ProfileUpdate?) && accepted) ==>
        formMode == old(formMode) && editingUserId == old(editingUserId) && name == old(name) &&
        email == old(email) && password == old(password) && checked == old(checked)
    {
      if formMode.None? {
        return NoRequest;
      }
      var problems := Problems(formMode.value, name, email, password);
      if problems != [] {
        return Rejected(problems);
      }
      var roles := SelectedRoles(checked);
      if formMode.value == AddMode {
        s := Registration(UserPayload(name, email, roles, password));
      } else {
        s := ProfileUpdate(editingUserId.value, UserPayload(name, email, roles, None));
      }
      if accepted {
        Cancel();
      }
    }
  }
}
