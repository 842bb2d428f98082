/**
 * The project and user lists as the client receives them: projects with
 * writer and manager populated to the user's id, name and e-mail, users
 * with their roles; and the JavaScript values the pages compare when they
 * look at those references.
 */
module ClientLists {
  import opened Wrappers
  import opened ClientAuth
  import Seqs

  /** What an expression over a listed project evaluates to, as far as the pages compare it. */
  datatype JsValue = Undefined | Null | Str(s: string) | Obj

  /** `String(v)`. */
  function JsString(v: JsValue): (s: string)
    ensures v.Str? ==> s == v.s
    ensures v == Obj ==> s == "[object Object]"
  {
    match v
    case Undefined => "undefined"
    case Null => "null"
    case Str(s) => s
    case Obj => "[object Object]"
  }

  /** An optional string field as a value: undefined when absent. */
  function OfOption(o: Option<string>): JsValue {
    if o.Some? then Str(o.value) else Undefined
  }

  /**
   * A user reference of a listed project: missing, dangling (the referenced
   * user is gone, so population yields null), or populated.
   */
  datatype UserRef = Unset | Dangling | Populated(id: string, name: Option<string>, email: Option<string>)

  /** The reference itself as a value: a populated one is an object. */
  function RefValue(r: UserRef): JsValue {
    match r
    case Unset => Undefined
    case Dangling => Null
    case Populated(_, _, _) => Obj
  }

  /** `ref?._id || ref`: the id of a populated reference, otherwise the reference itself. */
  function RefId(r: UserRef): (v: JsValue)
    ensures r.Populated? && r.id != "" ==> v == Str(r.id)
    ensures !r.Populated? ==> v == RefValue(r)
    ensures v != Obj ==> v == Undefined || v == Null || (r.Populated? && v == Str(r.id))
  {
    match r
    case Populated(id, _, _) => if id != "" then Str(id) else Obj
    case _ => RefValue(r)
  }

  datatype ProjectItem = ProjectItem(
    id: string,
    name: Option<string>,
    word: Option<int>,
    private: Option<bool>,
    status: Option<string>,
    writer: UserRef,
    manager: UserRef)

  /**
   * Whether a listed project is managed by the session's user, with the
   * manager's id compared as `(p.manager?._id || p.manager) === user.id`.
   */
  predicate ManagesProject(u: SessionUser, p: ProjectItem) {
    RefId(p.manager) == OfOption(u.id)
  }

  /** `projects.find(p => p._id === id)`: the first project with that id, if any. */
  function FindProject(projects: seq<ProjectItem>, id: string): (r: Option<ProjectItem>)
    ensures r.None? <==> forall k :: 0 <= k < |projects| ==> projects[k].id != id
    ensures r.Some? ==> r.value.id == id
    ensures r.Some? ==>
      exists k :: 0 <= k < |projects| && projects[k] == r.value && (forall j :: 0 <= j < k ==> projects[j].id != id)
  {
    Seqs.FindFirst((p: ProjectItem) => p.id == id, projects)
  }

  /** A user of the user list; `roles` may be missing. */
  datatype UserItem = UserItem(id: string, name: Option<string>, email: Option<string>, roles: Option<seq<string>>)

  /** `u.roles?.includes(role)`. */
  predicate HasRole(u: UserItem, role: string) {
    u.roles.Some? && role in u.roles.value
  }
}
