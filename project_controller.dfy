/**
 * The project handlers of the backend and the notification they trigger:
 * which subject and text an action gets and to whom it goes. Sending is not
 * modelled; a handler returns the mails it would send, in order.
 */
module ProjectController {
  import opened Wrappers
  import opened Schema
  import Text

  /** One notification: recipient address, subject, text. */
  datatype Mail = Mail(to: string, subject: string, text: string)

  /** A project as the handlers load it, with the writer and manager references populated to their e-mails. */
  datatype Populated = Populated(name: string, writerEmail: Option<string>, managerEmail: Option<string>)

  /** The e-mail a populated user reference carries: none for no reference or a dangling one. */
  function RefEmail(users: seq<User>, ref: Option<Id>): (r: Option<string>)
    ensures ref.None? ==> r.None?
    ensures ref.Some? && FindUserById(users, ref.value).None? ==> r.None?
    ensures ref.Some? && FindUserById(users, ref.value).Some? ==> r == FindUserById(users, ref.value).value.email
  {
    if ref.None? then None
    else match FindUserById(users, ref.value)
      case None => None
      case Some(u) => u.email
  }

  function Populate(p: Project, users: seq<User>): (q: Populated)
    ensures q.name == p.name
    ensures p.writer.None? ==> q.writerEmail.None?
    ensures p.manager.None? ==> q.managerEmail.None?
    ensures q.writerEmail == RefEmail(users, p.writer) && q.managerEmail == RefEmail(users, p.manager)
    ensures p.writer.Some? && FindUserById(users, p.writer.value).Some? ==>
      q.writerEmail == FindUserById(users, p.writer.value).value.email
    ensures p.manager.Some? && FindUserById(users, p.manager.value).Some? ==>
      q.managerEmail == FindUserById(users, p.manager.value).value.email
  {
    Populated(p.name, RefEmail(users, p.writer), RefEmail(users, p.manager))
  }

  /**
   * The subject and text for an action. Exactly the three actions "added",
   * "updated" and "deleted" have a message, each with its own subject, and
   * every text quotes the project name.
   */
  function Message(action: string, name: string): (r: Option<(string, string)>)
    ensures r.Some? <==> action == "added" || action == "updated" || action == "deleted"
    ensures action == "added" ==> r.value.0 == "New Project Assigned"
    ensures action == "updated" ==> r.value.0 == "Project Updated"
    ensures action == "deleted" ==> r.value.0 == "Project Deleted"
    ensures r.Some? ==> Text.Includes(r.value.1, "\"" + name + "\"")
  {
    var quoted := "\"" + name + "\"";
    if action == "added" then
      Text.IncludesSplice("A new project titled ", quoted, " has been added to the system.");
      Some(("New Project Assigned", "A new project titled " + quoted + " has been added to the system."))
    else if action == "updated" then
      Text.IncludesSplice("The project titled ", quoted, " has been updated.");
      Some(("Project Updated", "The project titled " + quoted + " has been updated."))
    else if action == "deleted" then
      Text.IncludesSplice("The project titled ", quoted, " has been deleted from the system.");
      Some(("Project Deleted", "The project titled " + quoted + " has been deleted from the system."))
    else None
  }

  /**
   * The mails one notification sends: none for an unknown action; otherwise
   * one to the writer and then one to the manager, each only if that address
   * is present and non-empty, all with the action's subject and text.
   */
  function Notification(action: string, p: Populated): (mails: seq<Mail>)
    ensures Message(action, p.name).None? ==> mails == []
    ensures Message(action, p.name).Some? ==>
      |mails| == (if Truthy(p.writerEmail) then 1 else 0) + (if Truthy(p.managerEmail) then 1 else 0)
    ensures forall i :: 0 <= i < |mails| ==>
      Message(action, p.name).Some? &&
      mails[i].subject == Message(action, p.name).value.0 && mails[i].text == Message(action, p.name).value.1
    ensures forall i :: 0 <= i < |mails| ==>
      (Truthy(p.writerEmail) && mails[i].to == p.writerEmail.value) ||
      (Truthy(p.managerEmail) && mails[i].to == p.managerEmail.value)
    ensures Truthy(p.writerEmail) && mails != [] ==> mails[0].to == p.writerEmail.value
    ensures Truthy(p.managerEmail) && mails != [] ==> mails[|mails| - 1].to == p.managerEmail.value
  {
    match Message(action, p.name)
    case None => []
    case Some((subject, text)) =>
      (if Truthy(p.writerEmail) then [Mail(p.writerEmail.value, subject, text)] else []) +
      (if Truthy(p.managerEmail) then [Mail(p.managerEmail.value, subject, text)] else [])
  }

  /**
   * Applying an update body: every key present replaces that field, every
   * absent key keeps it. `updateOne` runs no validators, so a status label
   * outside the enumeration and an empty name are stored as sent.
   */
  function ApplyProjectBody(p: Project, b: ProjectBody): (r: Project)
    ensures b.name.Some? ==> r.name == b.name.value
    ensures b.name.None? ==> r.name == p.name
    ensures b.word.Some? ==> r.word == b.word
    ensures b.word.None? ==> r.word == p.word
    ensures b.private.Some? ==> r.private == b.private.value
    ensures b.private.None? ==> r.private == p.private
    ensures b.status.Some? ==> r.status == b.status.value
    ensures b.status.None? ==> r.status == p.status
    ensures b.createdBy.Some? ==> r.createdBy == b.createdBy
    ensures b.createdBy.None? ==> r.createdBy == p.createdBy
    ensures b.writer.Some? ==> r.writer == b.writer
    ensures b.writer.None? ==> r.writer == p.writer
    ensures b.manager.Some? ==> r.manager == b.manager
    ensures b.manager.None? ==> r.manager == p.manager
    ensures b == ProjectBody(None, None, None, None, None, None, None) ==> r == p
  {
    Project(b.name.GetOr(p.name),
            if b.word.Some? then b.word else p.word,
            b.private.GetOr(p.private),
            b.status.GetOr(p.status),
            if b.writer.Some? then b.writer else p.writer,
            if b.manager.Some? then b.manager else p.manager,
            if b.createdBy.Some? then b.createdBy else p.createdBy)
  }

  /** What a project handler answers, together with the mails it sends. */
  datatype Outcome = Outcome(reply: Reply, projects: map<Id, Project>, mails: seq<Mail>)

  /**
   * addProject: the creator is stamped from the header, then the project is
   * created under the fresh id `newId`. A failed validation (no name, or a
   * status outside the enumeration) or an id clash is a library error,
   * answered with status 200 and no mail.
   */
  function AddProjectSpec(projects: map<Id, Project>, users: seq<User>, body: ProjectBody, email: string, newId: Id)
    : (r: Outcome)
    ensures r.reply.Success? <==> newId !in projects && body.name.Some? && body.name.value != "" &&
                                  (body.status.None? || body.status.value == "ongoing" || body.status.value == "paused")
    ensures r.reply.Success? ==>
      && newId in r.projects && r.projects == projects[newId := r.projects[newId]]
      && r.projects[newId].createdBy == Some(email)
      && r.projects[newId].name == body.name.value
      && r.projects[newId].status == body.status.GetOr("ongoing")
      && r.projects[newId].private == (body.private == Some(true))
      && r.projects[newId].word == body.word
      && r.projects[newId].writer == body.writer && r.projects[newId].manager == body.manager
      && r.mails == Notification("added", Populate(r.projects[newId], users))
    ensures !r.reply.Success? ==> r == Outcome(Crashed(200), projects, [])
  {
    var reqBody := body.(createdBy := Some(email));
    if newId in projects then Outcome(Crashed(200), projects, [])
    else match CreateProject(reqBody)
      case None => Outcome(Crashed(200), projects, [])
      case Some(p) => Outcome(Success("Project Added"), projects[newId := p], Notification("added", Populate(p, users)))
  }

  /**
   * updateProject: the body is applied to the project with that id (nothing
   * happens if there is none), and the project is loaded again; the
   * notification describes that reloaded project. With an unknown id the
   * reload yields nothing, the notification fails on it and the answer is a
   * library error.
   */
  function UpdateProjectSpec(projects: map<Id, Project>, users: seq<User>, id: Id, body: ProjectBody): (r: Outcome)
    ensures id !in projects ==> r == Outcome(Crashed(200), projects, [])
    ensures id in projects ==>
      && r.reply == Success("Project Updated")
      && r.projects == projects[id := ApplyProjectBody(projects[id], body)]
      && r.mails == Notification("updated", Populate(r.projects[id], users))
  {
    if id !in projects then Outcome(Crashed(200), projects, [])
    else
      var updated := ApplyProjectBody(projects[id], body);
      Outcome(Success("Project Updated"), projects[id := updated], Notification("updated", Populate(updated, users)))
  }

  /**
   * deleteProject: an unknown id answers "Project not found", deletes nothing
   * and mails no one; otherwise the project is removed and the notification
   * describes it as it was before removal.
   */
  function DeleteProjectSpec(projects: map<Id, Project>, users: seq<User>, id: Id): (r: Outcome)
    ensures id !in projects ==> r == Outcome(Failed(200, "Project not found"), projects, [])
    ensures id in projects ==>
      r == Outcome(Success("Project Deleted"), projects - {id}, Notification("deleted", Populate(projects[id], users)))
  {
    if id !in projects then Outcome(Failed(200, "Project not found"), projects, [])
    else Outcome(Success("Project Deleted"), projects - {id}, Notification("deleted", Populate(projects[id], users)))
  }

  /** The project collection, changed in place by the handlers, and the users its references point to. */
  class ProjectStore {
    var projects: map<Id, Project>
    var users: seq<User>

    constructor (projects: map<Id, Project>, users: seq<User>)
      ensures this.projects == projects && this.users == users
    {
      this.projects := projects;
      this.users := users;
    }

    /** The notification step: subject and text by a switch on the action, then the writer, then the manager. */
    method SendProjectNotification(action: string, project: Populated) returns (mails: seq<Mail>)
      ensures mails == Notification(action, project)
    {
      var subject, text;
      var quoted := "\"" + project.name + "\"";
      if action == "added" {
        subject := "New Project Assigned";
        text := "A new project titled " + quoted + " has been added to the system.";
      } else if action == "updated" {
        subject := "Project Updated";
        text := "The project titled " + quoted + " has been updated.";
      } else if action == "deleted" {
        subject := "Project Deleted";
        text := "The project titled " + quoted + " has been deleted from the system.";
      } else {
        return [];
      }
      mails := [];
      if Truthy(project.writerEmail) {
        mails := mails + [Mail(project.writerEmail.value, subject, text)];
      }
      if Truthy(project.managerEmail) {
        mails := mails + [Mail(project.managerEmail.value, subject, text)];
      }
      assert Message(action, project.name) == Some((subject, text));
    }

    /** POST /addProject; `newId` is the id the driver generates. */
    method AddProject(body: ProjectBody, email: string, newId: Id) returns (reply: Reply, mails: seq<Mail>)
      modifies this
      ensures users == old(users)
      ensures Outcome(reply, projects, mails) == AddProjectSpec(old(projects), old(users), body, email, newId)
    {
      var reqBody := body.(createdBy := Some(email));
      var created := CreateProject(reqBody);
      if created.None? || newId in projects {
        return Crashed(200), [];
      }
      projects := projects[newId := created.value];
      mails := SendProjectNotification("added", Populate(projects[newId], users));
      reply := Success("Project Added");
    }

    /** PUT /updateProject/:id. */
    method UpdateProject(id: Id, body: ProjectBody) returns (reply: Reply, mails: seq<Mail>)
      modifies this
      ensures users == old(users)
      ensures Outcome(reply, projects, mails) == UpdateProjectSpec(old(projects), old(users), id, body)
    {
      if id in projects {
        projects := projects[id := ApplyProjectBody(projects[id], body)];
      }
      if id !in projects {
        return Crashed(200), [];
      }
      var updated := projects[id];
      mails := SendProjectNotification("updated", Populate(updated, users));
      reply := Success("Project Updated");
    }

    /** DELETE /deleteProject/:id. */
    method DeleteProject(id: Id) returns (reply: Reply, mails: seq<Mail>)
      modifies this
      ensures users == old(users)
      ensures Outcome(reply, projects, mails) == DeleteProjectSpec(old(projects), old(users), id)
    {
      if id !in projects {
        return Failed(200, "Project not found"), [];
      }
      var projectToDelete := projects[id];
      projects := projects - {id};
      mails := SendProjectNotification("deleted", Populate(projectToDelete, users));
      reply := Success("Project Deleted");
    }
  }

  // ------------------------------------------------------------ properties

  /** A project with neither a writer nor a manager is created, updated and deleted without any mail. */
  lemma UnassignedProjectsSendNothing(projects: map<Id, Project>, users: seq<User>, id: Id, body: ProjectBody)
    requires id in projects && projects[id].writer.None? && projects[id].manager.None?
    requires body.writer.None? && body.manager.None?
    ensures UpdateProjectSpec(projects, users, id, body).mails == []
    ensures DeleteProjectSpec(projects, users, id).mails == []
  {
  }

  /** An add whose status is not one of the two labels inserts nothing, while an update stores it as sent. */
  lemma UnlistedProjectStatusRefusedOnlyByAdd(projects: map<Id, Project>, users: seq<User>, body: ProjectBody,
                                              email: string, id: Id)
    requires body.status == Some("archived")
    ensures AddProjectSpec(projects, users, body, email, id) == Outcome(Crashed(200), projects, [])
    ensures id in projects ==> UpdateProjectSpec(projects, users, id, body).projects[id].status == "archived"
  {
  }

  /**
   * Every project handler answers with status 200, failures included, so the
   * client resolves each of its requests: a refused add (here, one without a
   * name) is accepted like a success.
   */
  lemma ProjectRepliesAlwaysAccepted(projects: map<Id, Project>, users: seq<User>, body: ProjectBody,
                                     email: string, id: Id)
    ensures ClientAccepts(AddProjectSpec(projects, users, body, email, id).reply)
    ensures ClientAccepts(UpdateProjectSpec(projects, users, id, body).reply)
    ensures ClientAccepts(DeleteProjectSpec(projects, users, id).reply)
    ensures body.name.None? ==>
      !AddProjectSpec(projects, users, body, email, id).reply.Success? &&
      ClientAccepts(AddProjectSpec(projects, users, body, email, id).reply)
  {
  }

  /** The update notification names the project as the update left it. */
  lemma UpdateNotifiesNewName(projects: map<Id, Project>, users: seq<User>, id: Id, body: ProjectBody, name: string)
    requires id in projects && body.name == Some(name)
    ensures forall i :: 0 <= i < |UpdateProjectSpec(projects, users, id, body).mails| ==>
      Text.Includes(UpdateProjectSpec(projects, users, id, body).mails[i].text, "\"" + name + "\"")
  {
  }
}
