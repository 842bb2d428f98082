/**
 * The route table of the backend: for every endpoint, whether the
 * authentication step runs before the handler and which roles, if any, the
 * role check admits. The two middleware functions are not part of this
 * model; the role check is read as "the caller holds at least one listed
 * role" and authentication as "the request carries a valid session".
 */
module Routes {
  import opened Wrappers
  import opened Schema

  datatype Endpoint =
    | Registration | Login
    | ProfileUpdate | ProfileDelete | ProfileDetails
    | ViewUserList | GetUserByEmail
    | AddProject | ViewProjectList | UpdateProject | DeleteProject
    | AddTopic | ViewTopicList | UpdateTopic | DeleteTopic
    | ViewArticleList | ViewPublishedArticles | UpdateArticle | DeleteArticle
    | GetDashboardData

  /** The middleware in front of a handler: the authentication step, then an optional role allow-list. */
  datatype Guard = Guard(authenticated: bool, allowList: Option<seq<Role>>)

  const AllRoles: seq<Role> := [Admin, Manager, Writer]

  /** Every role-checked route is authenticated first. */
  function GuardOf(e: Endpoint): (g: Guard)
    ensures g.allowList.Some? ==> g.authenticated && g.allowList.value != []
  {
    match e
    case Registration => Guard(false, None)
    case Login => Guard(false, None)
    case ProfileUpdate => Guard(true, None)
    case ProfileDelete => Guard(true, None)
    case ProfileDetails => Guard(true, None)
    case ViewUserList => Guard(true, Some([Admin, Manager, Writer]))
    case GetUserByEmail => Guard(true, None)
    case AddProject => Guard(true, Some([Admin]))
    case ViewProjectList => Guard(true, Some([Admin, Manager, Writer]))
    case UpdateProject => Guard(true, Some([Admin]))
    case DeleteProject => Guard(true, Some([Admin]))
    case AddTopic => Guard(true, Some([Admin, Manager]))
    case ViewTopicList => Guard(true, Some([Admin, Manager, Writer]))
    case UpdateTopic => Guard(true, Some([Admin, Manager]))
    case DeleteTopic => Guard(true, Some([Admin, Manager]))
    case ViewArticleList => Guard(true, Some([Admin, Writer, Manager]))
    case ViewPublishedArticles => Guard(true, Some([Admin]))
    case UpdateArticle => Guard(true, Some([Admin, Writer, Manager]))
    case DeleteArticle => Guard(true, Some([Admin, Manager]))
    case GetDashboardData => Guard(true, Some([Admin, Writer, Manager]))
  }

  /**
   * Whether a request reaches the handler. `session` is the caller's roles
   * when the request is authenticated and `None` when it is not.
   */
  predicate Admits(g: Guard, session: Option<seq<Role>>) {
    (!g.authenticated || session.Some?) &&
    (g.allowList.None? || (session.Some? && exists r :: r in g.allowList.value && r in session.value))
  }

  /** Only registration and login are reachable without a session. */
  lemma PublicEndpoints(e: Endpoint)
    ensures Admits(GuardOf(e), None) <==> e == Registration || e == Login
  {
  }

  /** The profile routes and the user lookup need a session but no particular role. */
  lemma SessionOnlyEndpoints(e: Endpoint)
    ensures (GuardOf(e).authenticated && GuardOf(e).allowList.None?) <==>
      e in [ProfileUpdate, ProfileDelete, ProfileDetails, GetUserByEmail]
  {
  }

  /** Changing a project is for admins: a caller reaches those handlers iff it holds the admin role. */
  lemma ProjectChangesAdminOnly(e: Endpoint, roles: seq<Role>)
    requires e == AddProject || e == UpdateProject || e == DeleteProject || e == ViewPublishedArticles
    ensures Admits(GuardOf(e), Some(roles)) <==> Admin in roles
  {
    if Admin in roles {
      assert Admin in GuardOf(e).allowList.value;
    }
  }

  /** Changing topics and deleting articles is for admins and managers; a writer-only caller is stopped. */
  lemma TopicChangesAdminOrManager(e: Endpoint, roles: seq<Role>)
    requires e == AddTopic || e == UpdateTopic || e == DeleteTopic || e == DeleteArticle
    ensures Admits(GuardOf(e), Some(roles)) <==> Admin in roles || Manager in roles
  {
    if Admin in roles {
      assert Admin in GuardOf(e).allowList.value;
    } else if Manager in roles {
      assert Manager in GuardOf(e).allowList.value;
    }
  }

  /** The viewing routes, the article update and the dashboard admit any caller holding at least one role. */
  lemma AnyRoleEndpoints(e: Endpoint, roles: seq<Role>)
    requires e in [ViewUserList, ViewProjectList, ViewTopicList, ViewArticleList, UpdateArticle, GetDashboardData]
    ensures Admits(GuardOf(e), Some(roles)) <==> roles != []
  {
    if roles != [] {
      var r := roles[0];
      assert r in GuardOf(e).allowList.value by {
        assert r == Admin || r == Manager || r == Writer;
      }
    }
  }

  /** A route's guard admits more callers the more roles they hold. */
  lemma AdmitsMonotone(g: Guard, roles: seq<Role>, more: seq<Role>)
    requires forall r :: r in roles ==> r in more
    requires Admits(g, Some(roles))
    ensures Admits(g, Some(more))
  {
  }
}
