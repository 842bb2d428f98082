/**
 * The four document kinds of the store (User, Project, Topic, Article) with
 * their enumerations and defaults, and the reply shape every controller
 * answers with.
 */
module Schema {
  import opened Wrappers

  /** A document id (an ObjectId, as text). */
  type Id = string

  /** An instant; clock readings are opaque and only compared for equality. */
  type Stamp = nat

  // ---------------------------------------------------------------- roles

  datatype Role = Admin | Writer | Manager {
    function Label(): string {
      match this
      case Admin => "admin"
      case Writer => "writer"
      case Manager => "manager"
    }
  }

  function ParseRole(s: string): (r: Option<Role>)
    ensures r.Some? ==> r.value.Label() == s
    ensures r.None? ==> s != "admin" && s != "writer" && s != "manager"
  {
    if s == "admin" then Some(Admin)
    else if s == "writer" then Some(Writer)
    else if s == "manager" then Some(Manager)
    else None
  }

  lemma RoleLabelRoundTrip(r: Role)
    ensures ParseRole(r.Label()) == Some(r)
  {
  }

  // ---------------------------------------------------------------- users

  /**
   * A user document. Every entry of `roles` is one of the three roles (the
   * enumeration), a user may hold several at once, and no field is required
   * or has a default.
   */
  datatype User = User(
    id: Id,
    name: Option<string>,
    email: Option<string>,
    password: Option<string>,
    roles: seq<Role>)

  /** The unique index on `email`: no two user documents share one. */
  predicate EmailsUnique(users: seq<User>) {
    forall i, j :: 0 <= i < j < |users| && users[i].email.Some? ==> users[i].email != users[j].email
  }

  /** `findOne({ email })`: the first user document with that e-mail. */
  function FindUserByEmail(users: seq<User>, email: string): (r: Option<User>)
    ensures r.Some? ==> r.value in users && r.value.email == Some(email)
    ensures r.None? ==> forall k :: 0 <= k < |users| ==> users[k].email != Some(email)
  {
    if users == [] then None
    else if users[0].email == Some(email) then Some(users[0])
    else FindUserByEmail(users[1..], email)
  }

  /** `findById` on the users collection (also what `populate` does for a user reference). */
  function FindUserById(users: seq<User>, id: Id): (r: Option<User>)
    ensures r.Some? ==> r.value in users && r.value.id == id
    ensures r.None? ==> forall k :: 0 <= k < |users| ==> users[k].id != id
  {
    if users == [] then None
    else if users[0].id == id then Some(users[0])
    else FindUserById(users[1..], id)
  }

  /** With unique e-mails the lookup finds the one document that has the address. */
  lemma {:induction false} FindUserByEmailUnique(users: seq<User>, email: string, k: nat)
    requires EmailsUnique(users)
    requires k < |users| && users[k].email == Some(email)
    ensures FindUserByEmail(users, email) == Some(users[k])
    decreases k
  {
    if k > 0 {
      assert users[0].email != Some(email);
      assert EmailsUnique(users[1..]) by {
        forall i, j | 0 <= i < j < |users| - 1 && users[1..][i].email.Some?
          ensures users[1..][i].email != users[1..][j].email
        {
          assert users[1..][i] == users[i + 1] && users[1..][j] == users[j + 1];
        }
      }
      FindUserByEmailUnique(users[1..], email, k - 1);
    }
  }

  // ---------------------------------------------------------------- projects

  datatype ProjectStatus = Ongoing | Paused {
    function Label(): string {
      match this
      case Ongoing => "ongoing"
      case Paused => "paused"
    }
  }

  const DefaultProjectStatus: ProjectStatus := Ongoing

  /** The enum validator of a project's status: exactly the two labels parse. */
  function ParseProjectStatus(s: string): (r: Option<ProjectStatus>)
    ensures r.Some? <==> s == "ongoing" || s == "paused"
    ensures r.Some? ==> r.value.Label() == s
  {
    if s == "ongoing" then Some(Ongoing) else if s == "paused" then Some(Paused) else None
  }

  lemma ProjectStatusRoundTrip(st: ProjectStatus)
    ensures ParseProjectStatus(st.Label()) == Some(st)
  {
  }

  /**
   * A project document: `name` is required, `private` defaults to false,
   * `status` to ongoing; writer and manager are optional user references and
   * `word` (the number of pieces to produce) an optional number. The status
   * is the label as stored: `create` checks it against the enumeration,
   * `updateOne` does not.
   */
  datatype Project = Project(
    name: string,
    word: Option<int>,
    private: bool,
    status: string,
    writer: Option<Id>,
    manager: Option<Id>,
    createdBy: Option<string>)

  /** The body of an add- or update-project request; the fields a client may leave out are options. */
  datatype ProjectBody = ProjectBody(
    name: Option<string>,
    word: Option<int>,
    private: Option<bool>,
    status: Option<string>,
    writer: Option<Id>,
    manager: Option<Id>,
    createdBy: Option<string>)

  /** The validators `create` runs: a non-empty name, and a status, when given, from the enumeration. */
  predicate ProjectBodyValid(b: ProjectBody) {
    b.name.Some? && b.name.value != "" && (b.status.None? || ParseProjectStatus(b.status.value).Some?)
  }

  /**
   * Creating a project from a body: the required-name validator refuses a
   * missing or empty name and the enum validator a status outside the
   * enumeration; absent fields take the schema defaults.
   */
  function CreateProject(b: ProjectBody): (r: Option<Project>)
    ensures r.None? <==> b.name.None? || b.name == Some("") ||
                         (b.status.Some? && b.status.value != "ongoing" && b.status.value != "paused")
    ensures r.Some? ==> r.value.name == b.name.value && r.value.name != ""
    ensures r.Some? ==> r.value.private == (b.private == Some(true))
    ensures r.Some? && b.status.None? ==> r.value.status == "ongoing"
    ensures r.Some? && b.status.Some? ==> r.value.status == b.status.value
    ensures r.Some? ==> ParseProjectStatus(r.value.status).Some?
    ensures r.Some? ==> r.value.writer == b.writer && r.value.manager == b.manager && r.value.word == b.word
    ensures r.Some? ==> r.value.createdBy == b.createdBy
  {
    if !ProjectBodyValid(b) then None
    else Some(Project(b.name.value, b.word, b.private.GetOr(false), b.status.GetOr(DefaultProjectStatus.Label()),
                      b.writer, b.manager, b.createdBy))
  }

  // ---------------------------------------------------------------- topics

  /** The twelve month labels the Topic schema admits, in the schema's order. */
  datatype Month = Jan26 | Feb26 | Mar26 | Apr26 | May26 | Jun26
                 | Jul25 | Aug25 | Sep25 | Oct25 | Nov25 | Dec25
  {
    function Label(): string {
      match this
      case Jan26 => "Jan-26" case Feb26 => "Feb-26" case Mar26 => "Mar-26"
      case Apr26 => "Apr-26" case May26 => "May-26" case Jun26 => "Jun-26"
      case Jul25 => "Jul-25" case Aug25 => "Aug-25" case Sep25 => "Sep-25"
      case Oct25 => "Oct-25" case Nov25 => "Nov-25" case Dec25 => "Dec-25"
    }
  }

  const MonthLabels: seq<string> :=
    ["Jan-26", "Feb-26", "Mar-26", "Apr-26", "May-26", "Jun-26",
     "Jul-25", "Aug-25", "Sep-25", "Oct-25", "Nov-25", "Dec-25"]

  /** The enum validator: a label is admitted iff it is one of the twelve. */
  function ParseMonth(s: string): (r: Option<Month>)
    ensures r.Some? <==> s in MonthLabels
    ensures r.Some? ==> r.value.Label() == s
  {
    if s == "Jan-26" then Some(Jan26) else if s == "Feb-26" then Some(Feb26)
    else if s == "Mar-26" then Some(Mar26) else if s == "Apr-26" then Some(Apr26)
    else if s == "May-26" then Some(May26) else if s == "Jun-26" then Some(Jun26)
    else if s == "Jul-25" then Some(Jul25) else if s == "Aug-25" then Some(Aug25)
    else if s == "Sep-25" then Some(Sep25) else if s == "Oct-25" then Some(Oct25)
    else if s == "Nov-25" then Some(Nov25) else if s == "Dec-25" then Some(Dec25)
    else None
  }

  lemma MonthLabelRoundTrip(m: Month)
    ensures m.Label() in MonthLabels && ParseMonth(m.Label()) == Some(m)
  {
  }

  datatype TopicStatus = Pending | TopicAssigned | Completed {
    function Label(): string {
      match this
      case Pending => "pending"
      case TopicAssigned => "assigned"
      case Completed => "completed"
    }
  }

  const DefaultTopicStatus: TopicStatus := TopicAssigned

  /** The status enum of the Topic schema: a label is admitted iff it is one of the three. */
  function ParseTopicStatus(s: string): (r: Option<TopicStatus>)
    ensures r.Some? <==> s in ["pending", "assigned", "completed"]
    ensures r.Some? ==> r.value.Label() == s
  {
    if s == "pending" then Some(Pending)
    else if s == "assigned" then Some(TopicAssigned)
    else if s == "completed" then Some(Completed)
    else None
  }

  lemma TopicStatusRoundTrip(st: TopicStatus)
    ensures ParseTopicStatus(st.Label()) == Some(st)
  {
  }

  /**
   * A topic document. `project` is an optional project reference, `createdBy`
   * a plain string (the creator's e-mail); `createdAt`/`updatedAt` come from
   * the timestamps option. There is no `writerAssignedAt` field. Month and
   * status are kept as the stored strings: the enums are checked when a
   * topic is created, but an update stores whatever label it is given.
   */
  datatype Topic = Topic(
    title: Option<string>,
    keyword: Option<string>,
    instructions: Option<string>,
    month: Option<string>,
    project: Option<Id>,
    status: string,
    createdBy: Option<string>,
    createdAt: Stamp,
    updatedAt: Stamp)

  // ---------------------------------------------------------------- articles

  datatype ArticleStatus = Revision | Submitted | Published | Assigned {
    function Label(): string {
      match this
      case Revision => "revision"
      case Submitted => "submitted"
      case Published => "published"
      case Assigned => "assigned"
    }
  }

  function ParseArticleStatus(s: string): (r: Option<ArticleStatus>)
    ensures r.Some? ==> r.value.Label() == s
    ensures r.None? ==> s !in ["revision", "submitted", "published", "assigned"]
  {
    if s == "revision" then Some(Revision)
    else if s == "submitted" then Some(Submitted)
    else if s == "published" then Some(Published)
    else if s == "assigned" then Some(Assigned)
    else None
  }

  lemma ArticleStatusRoundTrip(st: ArticleStatus)
    ensures ParseArticleStatus(st.Label()) == Some(st)
  {
  }

  const DefaultArticleStatus: ArticleStatus := Assigned

  /**
   * An article document. The schema declares topic, writerSubmittedAt,
   * publishedAt, contentLink, publishLink and status (none required; status
   * one of four values, default assigned) plus the timestamps. `publisher` is
   * written by the update handler and `writer` read by the delete handler
   * although the schema declares neither; both are carried as written.
   */
  datatype Article = Article(
    topic: Option<Id>,
    writerSubmittedAt: Option<Stamp>,
    publishedAt: Option<Stamp>,
    contentLink: Option<string>,
    publishLink: Option<string>,
    status: ArticleStatus,
    publisher: Option<string>,
    writer: Option<string>,
    createdAt: Stamp,
    updatedAt: Stamp)

  /** `new Article({ topic, status? })`: every other field absent, status defaulted. */
  function NewArticle(topic: Id, status: Option<ArticleStatus>, now: Stamp): (a: Article)
    ensures a.topic == Some(topic)
    ensures status.None? ==> a.status == Assigned
    ensures status.Some? ==> a.status == status.value
    ensures a.writerSubmittedAt.None? && a.publishedAt.None? && a.publisher.None? && a.writer.None?
    ensures a.contentLink.None? && a.publishLink.None?
    ensures a.createdAt == now && a.updatedAt == now
  {
    Article(Some(topic), None, None, None, None, status.GetOr(DefaultArticleStatus), None, None, now, now)
  }

  // ---------------------------------------------------------------- replies

  /**
   * What a handler answers: `{status: "Success", message}`, `{status:
   * "Failed", message}` with an HTTP code, or a caught library exception whose
   * message text is the library's own.
   */
  datatype Reply = Success(message: string) | Failed(code: nat, message: string) | Crashed(code: nat)

  /** The HTTP status a reply goes out with; a success is sent with `res.json`, that is with 200. */
  function HttpStatus(r: Reply): nat {
    match r
    case Success(_) => 200
    case Failed(code, _) => code
    case Crashed(code) => code
  }

  /** The HTTP client resolves a request iff its status is 2xx, and rejects it otherwise, whatever the body says. */
  predicate ClientAccepts(r: Reply) {
    200 <= HttpStatus(r) < 300
  }

  /** JavaScript truthiness of an optional string field: present and non-empty. */
  predicate Truthy(o: Option<string>) {
    o.Some? && o.value != ""
  }
}
