/**
 * The dashboard handler of the backend: one row per topic, joined to the
 * topic's project (with the writer's and manager's names) and to the
 * article of that topic, plus the number of projects the caller manages.
 */
module DashboardController {
  import opened Wrappers
  import opened Schema
  import Seqs

  /** A stored topic with its id, in the order the collection returns them. */
  datatype TopicDoc = TopicDoc(id: Id, topic: Topic)

  /**
   * One dashboard row as the handler sends it. Dates are the stored instants
   * (the handler cuts them to their day when it formats them).
   */
  datatype Row = Row(
    project: string,
    projectType: string,
    managerName: string,
    writerName: string,
    topic: Option<string>,
    month: Option<string>,
    status: Option<string>,
    writerAssignedAt: Option<Stamp>,
    writerSubmittedAt: Option<Stamp>,
    publishedAt: Option<Stamp>)

  datatype DashboardReply =
    | DashboardFailed(code: nat, message: string)
    | DashboardData(rows: seq<Row>, projectsAssignedCount: nat)

  // ------------------------------------------------------------ the article map

  /**
   * The article the map holds for topic `t` once every article has been
   * stored under its topic's id in list order: the last one with that topic.
   */
  function LatestFor(articles: seq<Article>, t: Id): (r: Option<Article>)
    ensures r.None? <==> forall k :: 0 <= k < |articles| ==> articles[k].topic != Some(t)
    ensures r.Some? ==> r.value.topic == Some(t)
    ensures r.Some? ==>
      exists k :: 0 <= k < |articles| && articles[k] == r.value &&
        forall j :: k < j < |articles| ==> articles[j].topic != Some(t)
    decreases |articles|
  {
    if articles == [] then None
    else
      var init, last := articles[..|articles| - 1], articles[|articles| - 1];
      if last.topic == Some(t) then Some(last)
      else
        var r := LatestFor(init, t);
        assert forall k :: 0 <= k < |init| ==> init[k] == articles[k];
        r
  }

  /** When two articles share a topic, the later one in the list is the one matched. */
  lemma {:induction false} LaterArticleWins(before: seq<Article>, a: Article, after: seq<Article>, t: Id)
    requires a.topic == Some(t)
    requires forall k :: 0 <= k < |after| ==> after[k].topic != Some(t)
    ensures LatestFor(before + [a] + after, t) == Some(a)
    decreases |after|
  {
    if after == [] {
      assert before + [a] + after == before + [a];
    } else {
      var s := before + [a] + after;
      assert s[..|s| - 1] == before + [a] + after[..|after| - 1];
      assert s[|s| - 1] == after[|after| - 1];
      LaterArticleWins(before, a, after[..|after| - 1], t);
    }
  }

  /** Storing one more article changes the entry of its own topic only. */
  lemma LatestForSnoc(articles: seq<Article>, a: Article, t: Id)
    ensures LatestFor(articles + [a], t) == (if a.topic == Some(t) then Some(a) else LatestFor(articles, t))
  {
    assert (articles + [a])[..|articles|] == articles;
  }

  /** The loop that fills the article map, keyed by each article's topic id. */
  method BuildArticleMap(articles: seq<Article>) returns (m: map<Id, Article>)
    requires forall k :: 0 <= k < |articles| ==> articles[k].topic.Some?
    ensures forall t :: LatestFor(articles, t) == (if t in m then Some(m[t]) else None)
  {
    m := map[];
    var i := 0;
    while i < |articles|
      invariant 0 <= i <= |articles|
      invariant forall t :: LatestFor(articles[..i], t) == (if t in m then Some(m[t]) else None)
    {
      var article := articles[i];
      assert articles[..i + 1] == articles[..i] + [article];
      var next := m[article.topic.value := article];
      forall t ensures LatestFor(articles[..i + 1], t) == (if t in next then Some(next[t]) else None) {
        LatestForSnoc(articles[..i], article, t);
      }
      m := next;
      i := i + 1;
    }
    assert articles[..i] == articles;
  }

  // ------------------------------------------------------------ one row

  /** The populated project of a topic: none when the topic has no project or it no longer exists. */
  function ProjectOf(t: Topic, projects: map<Id, Project>): Option<Project> {
    if t.project.Some? && t.project.value in projects then Some(projects[t.project.value]) else None
  }

  /** `user.name || 'N/A'` for a populated user reference. */
  function NameOrNA(users: seq<User>, ref: Option<Id>): (r: string)
    ensures r != ""
    ensures ref.None? ==> r == "N/A"
    ensures ref.Some? && FindUserById(users, ref.value).Some? && Truthy(FindUserById(users, ref.value).value.name) ==>
      r == FindUserById(users, ref.value).value.name.value
    ensures ref.Some? && (FindUserById(users, ref.value).None? || !Truthy(FindUserById(users, ref.value).value.name)) ==>
      r == "N/A"
  {
    if ref.None? then "N/A"
    else match FindUserById(users, ref.value)
      case None => "N/A"
      case Some(u) => if Truthy(u.name) then u.name.value else "N/A"
  }

  /**
   * The row of one topic given the article matched to it. Missing names
   * become "N/A"; the project type is "Private" exactly when there is a
   * project and it is private; the assignment date is the topic's creation
   * time; the two article dates are absent when there is no article or the
   * article lacks them.
   */
  function DashboardRow(t: Topic, projects: map<Id, Project>, users: seq<User>, article: Option<Article>): (r: Row)
    ensures r.project != "" && r.managerName != "" && r.writerName != ""
    ensures ProjectOf(t, projects).None? ==> r.project == "N/A" && r.managerName == "N/A" && r.writerName == "N/A"
    ensures ProjectOf(t, projects).Some? && ProjectOf(t, projects).value.name != "" ==>
      r.project == ProjectOf(t, projects).value.name
    ensures ProjectOf(t, projects).Some? && ProjectOf(t, projects).value.name == "" ==> r.project == "N/A"
    ensures ProjectOf(t, projects).Some? ==>
      r.managerName == NameOrNA(users, ProjectOf(t, projects).value.manager) &&
      r.writerName == NameOrNA(users, ProjectOf(t, projects).value.writer)
    ensures r.projectType == "Private" <==> ProjectOf(t, projects).Some? && ProjectOf(t, projects).value.private
    ensures r.projectType == "Private" || r.projectType == "Public"
    ensures r.topic == t.title
    ensures r.month == t.month
    ensures r.writerAssignedAt == Some(t.createdAt)
    ensures article.None? ==> r.status.None? && r.writerSubmittedAt.None? && r.publishedAt.None?
    ensures article.Some? ==>
      r.status == Some(article.value.status.Label()) &&
      r.writerSubmittedAt == article.value.writerSubmittedAt && r.publishedAt == article.value.publishedAt
  {
    var project := ProjectOf(t, projects);
    Row(
      if project.Some? && project.value.name != "" then project.value.name else "N/A",
      if project.Some? && project.value.private then "Private" else "Public",
      if project.Some? then NameOrNA(users, project.value.manager) else "N/A",
      if project.Some? then NameOrNA(users, project.value.writer) else "N/A",
      t.title,
      t.month,
      if article.Some? then Some(article.value.status.Label()) else None,
      Some(t.createdAt),
      if article.Some? then article.value.writerSubmittedAt else None,
      if article.Some? then article.value.publishedAt else None)
  }

  // ------------------------------------------------------------ the handler

  function TopicIds(topics: seq<TopicDoc>): (ids: seq<Id>)
    ensures |ids| == |topics| && forall i :: 0 <= i < |topics| ==> ids[i] == topics[i].id
  {
    seq(|topics|, i requires 0 <= i < |topics| => topics[i].id)
  }

  /** The article query's condition: the article's topic is one of the loaded topics. */
  function InTopics(topics: seq<TopicDoc>): Article -> bool {
    var ids := TopicIds(topics);
    (a: Article) => a.topic.Some? && a.topic.value in ids
  }

  /** The article query: those whose topic is one of the loaded topics, in list order. */
  function RelevantArticles(articles: seq<Article>, topics: seq<TopicDoc>): (r: seq<Article>)
    ensures Seqs.IsSubseq(r, articles)
    ensures forall k :: 0 <= k < |r| ==> r[k].topic.Some? && r[k].topic.value in TopicIds(topics)
    ensures forall k :: 0 <= k < |articles| && articles[k].topic.Some? && articles[k].topic.value in TopicIds(topics) ==>
      articles[k] in r
  {
    Seqs.FilterIsSubseq(InTopics(topics), articles);
    Seqs.Filter(InTopics(topics), articles)
  }

  /** Filtering the articles by a condition every article of topic `t` meets leaves `t`'s match unchanged. */
  lemma {:induction false} LatestForFilter(p: Article -> bool, articles: seq<Article>, t: Id)
    requires forall k :: 0 <= k < |articles| && articles[k].topic == Some(t) ==> p(articles[k])
    ensures LatestFor(Seqs.Filter(p, articles), t) == LatestFor(articles, t)
    decreases |articles|
  {
    if articles != [] {
      var init, last := articles[..|articles| - 1], articles[|articles| - 1];
      assert articles == init + [last];
      assert forall k :: 0 <= k < |init| ==> init[k] == articles[k];
      LatestForFilter(p, init, t);
      var f := Seqs.Filter(p, init);
      Seqs.FilterSnoc(p, init, last);
      LatestForSnoc(init, last, t);
      if p(last) {
        LatestForSnoc(f, last, t);
      } else {
        assert Seqs.Filter(p, articles) == f;
      }
    }
  }

  /**
   * The query loses nothing the map needs: for a loaded topic, the article
   * matched among the queried articles is the one matched among all of them.
   */
  lemma RelevantKeepsMatch(articles: seq<Article>, topics: seq<TopicDoc>, t: Id)
    requires t in TopicIds(topics)
    ensures LatestFor(RelevantArticles(articles, topics), t) == LatestFor(articles, t)
  {
    LatestForFilter(InTopics(topics), articles, t);
  }

  /** `countDocuments({ manager })`. */
  function ManagedCount(projects: map<Id, Project>, manager: Id): (n: nat)
    ensures n <= |projects|
    ensures n == 0 <==> forall k :: k in projects ==> projects[k].manager != Some(manager)
    ensures (forall k :: k in projects ==> projects[k].manager == Some(manager)) ==> n == |projects|
  {
    var managed := set k | k in projects && projects[k].manager == Some(manager);
    SubsetNoLarger(managed, projects.Keys);
    assert forall k :: k in projects && projects[k].manager == Some(manager) ==> k in managed;
    assert (forall k :: k in projects ==> projects[k].manager != Some(manager)) ==> managed == {};
    assert (forall k :: k in projects ==> projects[k].manager == Some(manager)) ==> managed == projects.Keys;
    |managed|
  }

  /** A subset has no more elements than the set it is drawn from. */
  lemma {:induction false} SubsetNoLarger<K>(a: set<K>, b: set<K>)
    requires a <= b
    ensures |a| <= |b|
    decreases |b|
  {
    if a != {} {
      var x :| x in a;
      SubsetNoLarger(a - {x}, b - {x});
    }
  }

  /**
   * The whole request. An unknown caller gets 404 and no data. Otherwise
   * there is exactly one row per topic, in topic order, whatever the caller's
   * roles, each built from the last relevant article of its topic; the
   * project count is that of the projects the caller manages when the caller
   * is a manager and 0 otherwise.
   */
  function DashboardSpec(users: seq<User>, topics: seq<TopicDoc>, articles: seq<Article>,
                         projects: map<Id, Project>, email: string): (r: DashboardReply)
    ensures FindUserByEmail(users, email).None? <==> r == DashboardFailed(404, "User not found")
    ensures r.DashboardData? ==>
      && |r.rows| == |topics|
      && (forall i :: 0 <= i < |topics| ==>
            r.rows[i] == DashboardRow(topics[i].topic, projects, users,
                                      LatestFor(RelevantArticles(articles, topics), topics[i].id)))
      && (Manager !in FindUserByEmail(users, email).value.roles ==> r.projectsAssignedCount == 0)
      && (Manager in FindUserByEmail(users, email).value.roles ==>
            r.projectsAssignedCount == ManagedCount(projects, FindUserByEmail(users, email).value.id))
  {
    match FindUserByEmail(users, email)
    case None => DashboardFailed(404, "User not found")
    case Some(u) =>
      DashboardData(RowsOf(topics, projects, users, RelevantArticles(articles, topics)),
        if Manager in u.roles then ManagedCount(projects, u.id) else 0)
  }

  /** One row per topic, in topic order, each joined to the last of the given articles for that topic. */
  function RowsOf(topics: seq<TopicDoc>, projects: map<Id, Project>, users: seq<User>, relevant: seq<Article>)
    : (rows: seq<Row>)
    ensures |rows| == |topics|
    ensures forall i :: 0 <= i < |topics| ==>
      rows[i] == DashboardRow(topics[i].topic, projects, users, LatestFor(relevant, topics[i].id))
  {
    seq(|topics|, i requires 0 <= i < |topics| =>
      DashboardRow(topics[i].topic, projects, users, LatestFor(relevant, topics[i].id)))
  }

  /** GET /getDashboardData, as the handler runs it: look up the caller, query, fill the map, count, map the topics. */
  method GetDashboardData(users: seq<User>, topics: seq<TopicDoc>, articles: seq<Article>,
                          projects: map<Id, Project>, email: string) returns (r: DashboardReply)
    ensures r == DashboardSpec(users, topics, articles, projects, email)
  {
    var user := FindUserByEmail(users, email);
    if user.None? {
      return DashboardFailed(404, "User not found");
    }
    var relevant := RelevantArticles(articles, topics);
    var articleMap := BuildArticleMap(relevant);
    var projectsAssignedCount := 0;
    if Manager in user.value.roles {
      projectsAssignedCount := ManagedCount(projects, user.value.id);
    }
    var rows := seq(|topics|, i requires 0 <= i < |topics| =>
      DashboardRow(topics[i].topic, projects, users,
                   if topics[i].id in articleMap then Some(articleMap[topics[i].id]) else None));
    assert rows == RowsOf(topics, projects, users, relevant) by {
      forall i | 0 <= i < |topics| ensures rows[i] == RowsOf(topics, projects, users, relevant)[i] {
        assert (if topics[i].id in articleMap then Some(articleMap[topics[i].id]) else None) == LatestFor(relevant, topics[i].id);
      }
    }
    return DashboardData(rows, projectsAssignedCount);
  }

  // ------------------------------------------------------------ properties

  /** The rows do not depend on who asks: any two known callers get the same rows. */
  lemma RowsIndependentOfCaller(users: seq<User>, topics: seq<TopicDoc>, articles: seq<Article>,
                                projects: map<Id, Project>, e1: string, e2: string)
    requires FindUserByEmail(users, e1).Some? && FindUserByEmail(users, e2).Some?
    ensures DashboardSpec(users, topics, articles, projects, e1).rows
         == DashboardSpec(users, topics, articles, projects, e2).rows
  {
  }

  /** A topic no article points to gets a row with no status and no article dates. */
  lemma TopicWithoutArticle(users: seq<User>, topics: seq<TopicDoc>, articles: seq<Article>,
                            projects: map<Id, Project>, email: string, i: nat)
    requires FindUserByEmail(users, email).Some?
    requires i < |topics|
    requires forall k :: 0 <= k < |articles| ==> articles[k].topic != Some(topics[i].id)
    ensures var row := DashboardSpec(users, topics, articles, projects, email).rows[i];
      row.status.None? && row.writerSubmittedAt.None? && row.publishedAt.None? &&
      row.writerAssignedAt == Some(topics[i].topic.createdAt)
  {
    var relevant := RelevantArticles(articles, topics);
    forall k | 0 <= k < |relevant| ensures relevant[k].topic != Some(topics[i].id) {
      assert relevant[k] in articles;
    }
  }
}
