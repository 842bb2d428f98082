/**
 * The client's Projects page: which projects a user sees, the project form
 * and its transitions (the private switch governs the writer), the select
 * options, what a submit sends, and the status toggle.
 */
module ProjectsPage {
  import opened Wrappers
  import opened Seqs
  import opened ClientAuth
  import opened ClientLists
  import Schema
  import PC = ProjectController

  /** The writer every public project gets. */
  const PublicWriter := "68c24f01384b81a2c17349e3"

  // ------------------------------------------------------------ which projects a user sees

  /**
   * A manager who is not an admin sees, in list order, exactly the projects
   * whose manager is them; everyone else sees the whole list.
   */
  function VisibleProjects(u: SessionUser, projects: seq<ProjectItem>): (r: seq<ProjectItem>)
    ensures IsSubseq(r, projects)
    ensures !(IsManager(u) && !IsAdmin(u)) ==> r == projects
    ensures IsManager(u) && !IsAdmin(u) ==>
      (forall i :: 0 <= i < |r| ==> ManagesProject(u, r[i])) &&
      (forall i :: 0 <= i < |projects| && ManagesProject(u, projects[i]) ==> projects[i] in r)
  {
    if IsManager(u) && !IsAdmin(u) then
      FilterIsSubseq(p => ManagesProject(u, p), projects);
      Filter(p => ManagesProject(u, p), projects)
    else
      SubseqRefl(projects);
      projects
  }

  // ------------------------------------------------------------ the form

  datatype ProjectForm = ProjectForm(name: string, word: int, private: bool, writer: string, manager: string)

  const InitialForm := ProjectForm("", 0, true, "", "")

  /** One `handleChange(field, value)`, with the value of the field's own type. */
  datatype Change = SetName(name: string) | SetWord(word: int) | SetPrivate(private: bool)
                  | SetWriter(writer: string) | SetManager(manager: string)

  /**
   * Switching to private clears the writer and switching to public sets it
   * to the public writer; every other change sets its own field. Nothing
   * else in the form changes.
   */
  function HandleChange(f: ProjectForm, c: Change): (r: ProjectForm)
    ensures c.SetPrivate? ==> r.private == c.private && r.name == f.name && r.word == f.word && r.manager == f.manager
    ensures c.SetPrivate? && c.private ==> r.writer == ""
    ensures c.SetPrivate? && !c.private ==> r.writer == PublicWriter
    ensures c.SetName? ==> r == f.(name := c.name)
    ensures c.SetWord? ==> r == f.(word := c.word)
    ensures c.SetWriter? ==> r == f.(writer := c.writer)
    ensures c.SetManager? ==> r == f.(manager := c.manager)
  {
    match c
    case SetPrivate(value) => f.(private := value, writer := if value then "" else PublicWriter)
    case SetName(value) => f.(name := value)
    case SetWord(value) => f.(word := value)
    case SetWriter(value) => f.(writer := value)
    case SetManager(value) => f.(manager := value)
  }

  /**
   * The writer follows the last position of the private switch, whatever was
   * chosen before, and setting the same position again changes nothing.
   */
  lemma PrivateSwitchDecidesWriter(f: ProjectForm, b: bool)
    ensures HandleChange(HandleChange(f, SetPrivate(b)), SetPrivate(!b)).writer == (if !b then "" else PublicWriter)
    ensures HandleChange(HandleChange(f, SetPrivate(b)), SetPrivate(b)) == HandleChange(f, SetPrivate(b))
  {
  }

  // ------------------------------------------------------------ select options

  /** The writer options: writers only, and for a private project not the public writer. */
  function WriterOptions(users: seq<UserItem>, private: bool): (r: seq<UserItem>)
    ensures IsSubseq(r, users)
    ensures forall i :: 0 <= i < |r| ==> HasRole(r[i], "writer") && (private ==> r[i].id != PublicWriter)
    ensures forall i :: 0 <= i < |users| && HasRole(users[i], "writer") && (private ==> users[i].id != PublicWriter) ==>
      users[i] in r
  {
    FilterIsSubseq((u: UserItem) => HasRole(u, "writer") && (private ==> u.id != PublicWriter), users);
    Filter((u: UserItem) => HasRole(u, "writer") && (private ==> u.id != PublicWriter), users)
  }

  /** The manager options: managers only. */
  function ManagerOptions(users: seq<UserItem>): (r: seq<UserItem>)
    ensures IsSubseq(r, users)
    ensures forall i :: 0 <= i < |r| ==> HasRole(r[i], "manager")
    ensures forall i :: 0 <= i < |users| && HasRole(users[i], "manager") ==> users[i] in r
  {
    FilterIsSubseq((u: UserItem) => HasRole(u, "manager"), users);
    Filter((u: UserItem) => HasRole(u, "manager"), users)
  }

  /** A private project's writer options are the public ones less the public writer. */
  lemma PrivateOptionsNarrowPublic(users: seq<UserItem>)
    ensures |WriterOptions(users, true)| <= |WriterOptions(users, false)|
    ensures forall i :: 0 <= i < |WriterOptions(users, true)| ==> WriterOptions(users, true)[i] in WriterOptions(users, false)
  {
    CountMono((u: UserItem) => HasRole(u, "writer") && (true ==> u.id != PublicWriter),
              (u: UserItem) => HasRole(u, "writer") && (false ==> u.id != PublicWriter), users);
  }

  // ------------------------------------------------------------ submitting

  /** The submitted body: an empty writer or manager is left out. */
  datatype ProjectPayload = ProjectPayload(name: string, word: int, private: bool, writer: Option<string>, manager: Option<string>)

  function OrUndefined(s: string): (r: Option<string>)
    ensures r.None? <==> s == ""
    ensures r.Some? ==> r.value == s
  {
    if s != "" then Some(s) else None
  }

  function Payload(f: ProjectForm): (p: ProjectPayload)
    ensures p.name == f.name && p.word == f.word && p.private == f.private
    ensures p.writer.None? <==> f.writer == ""
    ensures p.writer.Some? ==> p.writer.value == f.writer
    ensures p.manager.None? <==> f.manager == ""
    ensures p.manager.Some? ==> p.manager.value == f.manager
  {
    ProjectPayload(f.name, f.word, f.private, OrUndefined(f.writer), OrUndefined(f.manager))
  }

  datatype ProjectRequest =
    | AddProjectRequest(body: ProjectPayload)
    | UpdateProjectRequest(id: string, body: ProjectPayload)
    | StatusRequest(id: string, status: string)

  /** A submit updates the project being edited, or adds one when none is. */
  function SubmitRequest(f: ProjectForm, editingId: Option<string>): (r: ProjectRequest)
    ensures Schema.Truthy(editingId) ==> r == UpdateProjectRequest(editingId.value, Payload(f))
    ensures !Schema.Truthy(editingId) ==> r == AddProjectRequest(Payload(f))
  {
    if Schema.Truthy(editingId) then UpdateProjectRequest(editingId.value, Payload(f)) else AddProjectRequest(Payload(f))
  }

  /** `p.field?._id || p.field || ''`, with "" for a missing or dangling reference (ids are never empty). */
  function EditRef(r: UserRef): string {
    if r.Populated? then r.id else ""
  }

  /** The form handleEdit fills: missing name and word become "" and 0, a missing private flag true. */
  function EditForm(p: ProjectItem): (f: ProjectForm)
    ensures p.name.None? ==> f.name == ""
    ensures p.word.None? ==> f.word == 0
    ensures p.private.None? ==> f.private
    ensures p.private.Some? ==> f.private == p.private.value
    ensures p.writer.Populated? ==> f.writer == p.writer.id
    ensures p.manager.Populated? ==> f.manager == p.manager.id
  {
    ProjectForm(if p.name.Some? then p.name.value else "",
                if p.word.Some? then p.word.value else 0,
                p.private.GetOr(true), EditRef(p.writer), EditRef(p.manager))
  }

  /** The project state of the page: the form and the id of the project being edited. */
  class ProjectsForm {
    var form: ProjectForm
    var editingId: Option<string>

    constructor ()
      ensures form == InitialForm && editingId == None
    {
      form := InitialForm;
      editingId := None;
    }

    method Change(c: Change)
      modifies this
      ensures form == HandleChange(old(form), c) && editingId == old(editingId)
    {
      match c {
        case SetPrivate(value) =>
          form := form.(private := value, writer := if value then "" else PublicWriter);
        case SetName(value) => form := form.(name := value);
        case SetWord(value) => form := form.(word := value);
        case SetWriter(value) => form := form.(writer := value);
        case SetManager(value) => form := form.(manager := value);
      }
    }

    /**
     * `accepted` says whether the HTTP client resolved the request, that is
     * whether the reply's status was 2xx; only then is the form reset. The
     * project handlers answer 200 even on failure, so a refused add or
     * update resets the form as well.
     */
    method HandleSubmit(accepted: bool) returns (request: ProjectRequest)
      modifies this
      ensures request == SubmitRequest(old(form), old(editingId))
      ensures accepted ==> form == InitialForm && editingId == None
      ensures !accepted ==> form == old(form) && editingId == old(editingId)
    {
      var payload := ProjectPayload(form.name, form.word, form.private, OrUndefined(form.writer), OrUndefined(form.manager));
      if Schema.Truthy(editingId) {
        request := UpdateProjectRequest(editingId.value, payload);
      } else {
        request := AddProjectRequest(payload);
      }
      if accepted {
        form := InitialForm;
        editingId := None;
      }
    }

    method HandleEdit(p: ProjectItem)
      modifies this
      ensures editingId == Some(p.id) && form == EditForm(p)
    {
      editingId := Some(p.id);
      form := EditForm(p);
    }

    /** The Cancel button. */
    method Cancel()
      modifies this
      ensures form == InitialForm && editingId == None
    {
      form := InitialForm;
      editingId := None;
    }
  }

  /**
   * Opening a project for editing and submitting it unchanged sends back its
   * own name, word count, flag, writer and manager.
   */
  lemma EditThenSubmitSendsProjectBack(p: ProjectItem)
    requires p.id != "" && p.name.Some? && p.word.Some? && p.private.Some?
    requires p.writer.Populated? && p.writer.id != "" && p.manager.Populated? && p.manager.id != ""
    ensures SubmitRequest(EditForm(p), Some(p.id))
         == UpdateProjectRequest(p.id, ProjectPayload(p.name.value, p.word.value, p.private.value,
                                                      Some(p.writer.id), Some(p.manager.id)))
  {
  }

  /**
   * The body the backend reads from a submitted payload: every key the
   * payload has, and no status or creator, which the form never sends.
   */
  function ToBody(p: ProjectPayload): (b: Schema.ProjectBody)
    ensures b.name == Some(p.name) && b.word == Some(p.word) && b.private == Some(p.private)
    ensures b.writer == p.writer && b.manager == p.manager
    ensures b.status.None? && b.createdBy.None?
  {
    Schema.ProjectBody(Some(p.name), Some(p.word), Some(p.private), None, p.writer, p.manager, None)
  }

  /**
   * A project added from the form is created exactly when it has a name; it
   * is private as the form says, and a public one always has the public
   * writer when the switch was last set to public.
   */
  lemma AddedFromForm(f: ProjectForm, projects: map<Schema.Id, Schema.Project>, users: seq<Schema.User>,
                      email: string, newId: Schema.Id)
    requires newId !in projects
    ensures var r := PC.AddProjectSpec(projects, users, ToBody(Payload(f)), email, newId);
      (r.reply.Success? <==> f.name != "") &&
      (r.reply.Success? ==> r.projects[newId].private == f.private && r.projects[newId].name == f.name &&
                            r.projects[newId].writer == OrUndefined(f.writer))
    ensures var g := HandleChange(f, SetPrivate(false));
      var r := PC.AddProjectSpec(projects, users, ToBody(Payload(g)), email, newId);
      r.reply.Success? ==> r.projects[newId].writer == Some(PublicWriter) && !r.projects[newId].private
  {
    var r := PC.AddProjectSpec(projects, users, ToBody(Payload(f)), email, newId);
    assert r.reply.Success? ==> Some(r.projects[newId]) == Schema.CreateProject(ToBody(Payload(f)).(createdBy := Some(email)));
    var g := HandleChange(f, SetPrivate(false));
    var rg := PC.AddProjectSpec(projects, users, ToBody(Payload(g)), email, newId);
    assert rg.reply.Success? ==> Some(rg.projects[newId]) == Schema.CreateProject(ToBody(Payload(g)).(createdBy := Some(email)));
  }

  // ------------------------------------------------------------ the status toggle

  /** `currentStatus === 'paused' ? 'ongoing' : 'paused'`. */
  function Toggle(status: Option<string>): (r: string)
    ensures status == Some("paused") ==> r == "ongoing"
    ensures status != Some("paused") ==> r == "paused"
  {
    if status == Some("paused") then "ongoing" else "paused"
  }

  /** Toggling twice restores an ongoing or paused project, and two toggles in a row never send the same status. */
  lemma ToggleTwice(status: Option<string>)
    ensures status == Some("ongoing") || status == Some("paused") ==> Toggle(Some(Toggle(status))) == status.value
    ensures Toggle(Some(Toggle(status))) != Toggle(status)
  {
  }

  function ToggleRequest(p: ProjectItem): (r: ProjectRequest)
    ensures r.StatusRequest? && r.id == p.id
    ensures r.status == "ongoing" || r.status == "paused"
    ensures r.status == "ongoing" <==> p.status == Some("paused")
  {
    StatusRequest(p.id, Toggle(p.status))
  }

  /**
   * The toggle's update, applied by the backend, changes the stored
   * project's status and nothing else.
   */
  lemma ToggleChangesOnlyStatus(stored: Schema.Project, item: ProjectItem)
    requires item.status == Some(stored.status)
    ensures PC.ApplyProjectBody(stored, Schema.ProjectBody(None, None, None, Some(Toggle(item.status)), None, None, None))
        == stored.(status := Toggle(item.status))
    ensures Toggle(item.status) == (if stored.status == "paused" then "ongoing" else "paused")
    ensures Schema.ParseProjectStatus(Toggle(item.status)).Some?
  {
  }
}
