/**
 * The decision logic of the client's Articles page: which articles a user
 * sees, how the search box and the five filters narrow the list, what the
 * link inputs store, what a save or a revision request sends to the
 * backend, which actions a row offers, and the status badge.
 */
module ArticlesPage {
  import opened Wrappers
  import opened Text
  import opened Seqs
  import opened ClientAuth
  import opened Awaited
  import Schema
  import AC = ArticleController
  import TC = TopicController

  /** The project of a topic as the topic list sends it: writer and manager are plain ids. */
  datatype ProjectRef = ProjectRef(name: Option<string>, writer: Option<string>, manager: Option<string>)

  datatype TopicRef = TopicRef(id: Option<string>, title: Option<string>, month: Option<string>,
                               instructions: Option<string>, project: Option<ProjectRef>)

  /** An article of the page's list, with its topic replaced by the full topic record when one is known. */
  datatype ArticleItem = ArticleItem(id: string, topic: Option<TopicRef>, status: Option<string>,
                                     contentLink: Option<string>, publishLink: Option<string>)

  function ProjectOf(a: ArticleItem): Option<ProjectRef> {
    if a.topic.Some? then a.topic.value.project else None
  }

  /** `a.topic?.project?.writer`. */
  function ProjWriter(a: ArticleItem): Option<string> {
    if ProjectOf(a).Some? then ProjectOf(a).value.writer else None
  }

  /** `a.topic?.project?.manager`. */
  function ProjManager(a: ArticleItem): Option<string> {
    if ProjectOf(a).Some? then ProjectOf(a).value.manager else None
  }

  function ProjName(a: ArticleItem): Option<string> {
    if ProjectOf(a).Some? then ProjectOf(a).value.name else None
  }

  function TopicTitle(a: ArticleItem): Option<string> {
    if a.topic.Some? then a.topic.value.title else None
  }

  function TopicMonth(a: ArticleItem): Option<string> {
    if a.topic.Some? then a.topic.value.month else None
  }

  // ------------------------------------------------------------ which articles a user sees

  predicate WrittenBy(u: SessionUser, a: ArticleItem) { ProjWriter(a) == u.id }
  predicate ManagedBy(u: SessionUser, a: ArticleItem) { ProjManager(a) == u.id }

  /**
   * Role precedence: an admin sees every article; otherwise a writer sees
   * the articles of the projects they write, even when also a manager;
   * otherwise a manager sees those of the projects they manage; a user with
   * none of the roles sees nothing. The result keeps the list's order.
   */
  function FilterByRole(u: SessionUser, arr: seq<ArticleItem>): (r: seq<ArticleItem>)
    ensures IsAdmin(u) ==> r == arr
    ensures !IsAdmin(u) && IsWriter(u) ==>
      (forall i :: 0 <= i < |r| ==> WrittenBy(u, r[i])) &&
      (forall i :: 0 <= i < |arr| && WrittenBy(u, arr[i]) ==> arr[i] in r)
    ensures !IsAdmin(u) && !IsWriter(u) && IsManager(u) ==>
      (forall i :: 0 <= i < |r| ==> ManagedBy(u, r[i])) &&
      (forall i :: 0 <= i < |arr| && ManagedBy(u, arr[i]) ==> arr[i] in r)
    ensures !IsAdmin(u) && !IsWriter(u) && !IsManager(u) ==> r == []
    ensures IsSubseq(r, arr)
  {
    if IsAdmin(u) then
      SubseqRefl(arr);
      arr
    else if IsWriter(u) then
      FilterIsSubseq(a => WrittenBy(u, a), arr);
      Filter(a => WrittenBy(u, a), arr)
    else if IsManager(u) then
      FilterIsSubseq(a => ManagedBy(u, a), arr);
      Filter(a => ManagedBy(u, a), arr)
    else []
  }

  /** A writer who also manages does not see an article of a project they manage but do not write. */
  lemma WriterRoleWinsOverManager(u: SessionUser, arr: seq<ArticleItem>, a: ArticleItem)
    requires !IsAdmin(u) && IsWriter(u) && IsManager(u)
    requires ManagedBy(u, a) && !WrittenBy(u, a)
    ensures a !in FilterByRole(u, arr)
  {
    var r := FilterByRole(u, arr);
    forall i | 0 <= i < |r| ensures r[i] != a {
      assert WrittenBy(u, r[i]);
    }
  }

  // ------------------------------------------------------------ search and filters

  /** The five drop-down filters; the empty string means "any". */
  datatype Filters = Filters(project: string, month: string, status: string, writer: string, manager: string)

  predicate TitleMatches(st: string, a: ArticleItem) {
    TopicTitle(a).Some? && Includes(Lower(TopicTitle(a).value), st)
  }

  function TitleHas(st: string): ArticleItem -> bool { a => TitleMatches(st, a) }
  function ProjectIs(name: string): ArticleItem -> bool { a => ProjName(a) == Some(name) }
  function MonthIs(month: string): ArticleItem -> bool { a => TopicMonth(a) == Some(month) }
  function StatusIs(status: string): ArticleItem -> bool { (a: ArticleItem) => a.status == Some(status) }
  function WriterIs(writer: string): ArticleItem -> bool { a => ProjWriter(a) == Some(writer) }
  function ManagerIs(manager: string): ArticleItem -> bool { a => ProjManager(a) == Some(manager) }

  /** The search box and the project and month filters. */
  predicate PassesTopicFilters(search: string, f: Filters, a: ArticleItem) {
    && (Trim(search) != "" ==> TitleMatches(Lower(Trim(search)), a))
    && (f.project != "" ==> ProjName(a) == Some(f.project))
    && (f.month != "" ==> TopicMonth(a) == Some(f.month))
  }

  /** The status, writer and manager filters. */
  predicate PassesArticleFilters(f: Filters, a: ArticleItem) {
    && (f.status != "" ==> a.status == Some(f.status))
    && (f.writer != "" ==> ProjWriter(a) == Some(f.writer))
    && (f.manager != "" ==> ProjManager(a) == Some(f.manager))
  }

  /** Every active filter, together. */
  predicate PassesFilters(search: string, f: Filters, a: ArticleItem) {
    PassesTopicFilters(search, f, a) && PassesArticleFilters(f, a)
  }

  function TopicFilterChain(search: string, f: Filters, arr: seq<ArticleItem>): seq<ArticleItem> {
    var arr := FilterIf(Trim(search) != "", TitleHas(Lower(Trim(search))), arr);
    var arr := FilterIf(f.project != "", ProjectIs(f.project), arr);
    FilterIf(f.month != "", MonthIs(f.month), arr)
  }

  function ArticleFilterChain(f: Filters, arr: seq<ArticleItem>): seq<ArticleItem> {
    var arr := FilterIf(f.status != "", StatusIs(f.status), arr);
    var arr := FilterIf(f.writer != "", WriterIs(f.writer), arr);
    FilterIf(f.manager != "", ManagerIs(f.manager), arr)
  }

  /** The role filter, then the search and each set filter in turn. */
  function GetFilteredArticles(u: SessionUser, articles: seq<ArticleItem>, search: string, f: Filters)
    : seq<ArticleItem>
  {
    ArticleFilterChain(f, TopicFilterChain(search, f, FilterByRole(u, articles)))
  }

  lemma TopicChainIsFilter(search: string, f: Filters, s: seq<ArticleItem>)
    ensures TopicFilterChain(search, f, s) == Filter(a => PassesTopicFilters(search, f, a), s)
  {
    var k0 := (a: ArticleItem) => true;
    var k1 := a => k0(a) && (Trim(search) == "" || TitleHas(Lower(Trim(search)))(a));
    var k2 := a => k1(a) && (f.project == "" || ProjectIs(f.project)(a));
    var k3 := a => k2(a) && (f.month == "" || MonthIs(f.month)(a));
    FilterKeepsAll(k0, s);
    FilterIfFusion(Trim(search) != "", TitleHas(Lower(Trim(search))), k0, k1, s);
    FilterIfFusion(f.project != "", ProjectIs(f.project), k1, k2, s);
    FilterIfFusion(f.month != "", MonthIs(f.month), k2, k3, s);
    FilterExt(k3, a => PassesTopicFilters(search, f, a), s);
  }

  lemma ArticleChainIsFilter(f: Filters, q: ArticleItem -> bool, s: seq<ArticleItem>)
    ensures ArticleFilterChain(f, Filter(q, s)) == Filter(a => q(a) && PassesArticleFilters(f, a), s)
  {
    var k4 := a => q(a) && (f.status == "" || StatusIs(f.status)(a));
    var k5 := a => k4(a) && (f.writer == "" || WriterIs(f.writer)(a));
    var k6 := a => k5(a) && (f.manager == "" || ManagerIs(f.manager)(a));
    FilterIfFusion(f.status != "", StatusIs(f.status), q, k4, s);
    FilterIfFusion(f.writer != "", WriterIs(f.writer), k4, k5, s);
    FilterIfFusion(f.manager != "", ManagerIs(f.manager), k5, k6, s);
    FilterExt(k6, a => q(a) && PassesArticleFilters(f, a), s);
  }

  /**
   * The chain of filters is one filter on the conjunction of the active
   * conditions, applied to what the role filter kept: so the result keeps
   * the order, is a subsequence of the role-filtered list, and is that list
   * itself when no filter is set.
   */
  lemma FilteredArticlesAreConjunction(u: SessionUser, articles: seq<ArticleItem>, search: string, f: Filters)
    ensures GetFilteredArticles(u, articles, search, f)
         == Filter(a => PassesFilters(search, f, a), FilterByRole(u, articles))
    ensures IsSubseq(GetFilteredArticles(u, articles, search, f), FilterByRole(u, articles))
    ensures Trim(search) == "" && f == Filters("", "", "", "", "") ==>
      GetFilteredArticles(u, articles, search, f) == FilterByRole(u, articles)
  {
    var s := FilterByRole(u, articles);
    var q := a => PassesTopicFilters(search, f, a);
    TopicChainIsFilter(search, f, s);
    ArticleChainIsFilter(f, q, s);
    FilterExt(a => q(a) && PassesArticleFilters(f, a), a => PassesFilters(search, f, a), s);
    FilterIsSubseq(a => PassesFilters(search, f, a), s);
    if Trim(search) == "" && f == Filters("", "", "", "", "") {
      FilterKeepsAll(a => PassesFilters(search, f, a), s);
    }
  }

  // ------------------------------------------------------------ the link inputs

  /** What the edit form stores for an input, as handleEditChange computes it. */
  function Sanitize(field: string, value: string): string {
    if (field == "contentLink" || field == "publishLink") && value != "" then
      var t := Trim(value);
      if StartsWith(t, "http://") || StartsWith(t, "https://") then t else "https://" + t
    else value
  }

  /**
   * A non-empty content or publish link is stored trimmed and starting with
   * "http://" or "https://" ("https://" is put in front when it has
   * neither); every other field, and an empty value, is stored as typed.
   */
  lemma SanitizeShape(field: string, value: string)
    ensures (field == "contentLink" || field == "publishLink") && value != "" ==>
      var r := Sanitize(field, value);
      (StartsWith(r, "http://") || StartsWith(r, "https://")) && Trim(r) == r &&
      (StartsWith(Trim(value), "http://") || StartsWith(Trim(value), "https://") ==> r == Trim(value))
    ensures !((field == "contentLink" || field == "publishLink") && value != "") ==> Sanitize(field, value) == value
  {
    if (field == "contentLink" || field == "publishLink") && value != "" {
      var t := Trim(value);
      if StartsWith(t, "http://") || StartsWith(t, "https://") {
        TrimIdempotent(value);
      } else {
        var r := "https://" + t;
        assert r[0] == 'h';
        assert r[|r| - 1] == (if t == [] then '/' else t[|t| - 1]);
        TrimUnchanged(r);
      }
    }
  }

  /** Sanitising a stored value again changes nothing. */
  lemma SanitizeIdempotent(field: string, value: string)
    ensures Sanitize(field, Sanitize(field, value)) == Sanitize(field, value)
  {
    var r := Sanitize(field, value);
    if (field == "contentLink" || field == "publishLink") && value != "" {
      SanitizeShape(field, value);
      SanitizeFixed(field, r);
    }
  }

  /** A trimmed link that already has its scheme is a fixed point. */
  lemma SanitizeFixed(field: string, r: string)
    requires field == "contentLink" || field == "publishLink"
    requires Trim(r) == r && (StartsWith(r, "http://") || StartsWith(r, "https://"))
    ensures Sanitize(field, r) == r
  {
  }

  /** handleEditChange: the one field is replaced by its sanitised value, the rest of the form stays. */
  method HandleEditChange(editData: map<string, string>, field: string, value: string)
    returns (next: map<string, string>)
    ensures next == editData[field := Sanitize(field, value)]
  {
    var sanitizedValue := value;
    if (field == "contentLink" || field == "publishLink") && sanitizedValue != "" {
      sanitizedValue := Trim(sanitizedValue);
      if !StartsWith(sanitizedValue, "http://") && !StartsWith(sanitizedValue, "https://") {
        sanitizedValue := "https://" + sanitizedValue;
      }
    }
    next := editData[field := sanitizedValue];
  }

  /** startEdit: the form starts from the article's links and status, missing ones as "". */
  function StartEdit(a: ArticleItem): (editData: map<string, string>)
    ensures editData.Keys == {"contentLink", "publishLink", "status"}
    ensures a.contentLink.Some? ==> editData["contentLink"] == a.contentLink.value
    ensures a.contentLink.None? ==> editData["contentLink"] == ""
    ensures a.publishLink.Some? ==> editData["publishLink"] == a.publishLink.value
    ensures a.publishLink.None? ==> editData["publishLink"] == ""
    ensures a.status.Some? ==> editData["status"] == a.status.value
    ensures editData["status"] == "" <==> !Schema.Truthy(a.status)
  {
    map["contentLink" := a.contentLink.GetOr(""), "publishLink" := a.publishLink.GetOr(""),
        "status" := a.status.GetOr("")]
  }

  /** `editData[field]` read as an optional string. */
  function Field(editData: map<string, string>, field: string): Option<string> {
    if field in editData then Some(editData[field]) else None
  }

  // ------------------------------------------------------------ what a save sends

  predicate SendsContent(u: SessionUser, editData: map<string, string>) {
    (IsWriter(u) || IsAdmin(u)) && Schema.Truthy(Field(editData, "contentLink"))
  }

  predicate SendsPublish(u: SessionUser, editData: map<string, string>) {
    (IsManager(u) || IsAdmin(u)) && Schema.Truthy(Field(editData, "publishLink"))
  }

  /**
   * The update a save sends for an article. A writer or admin with a content
   * link sends it with a submission date, and asks for "submitted" only when
   * the article has no status or is in revision; a manager or admin with a
   * publish link sends it, and asks for "published" only when the form's
   * status is empty, which then replaces "submitted". A user with neither
   * sends an empty update.
   */
  function BuildUpdates(u: SessionUser, a: ArticleItem, editData: map<string, string>, now: Schema.Stamp)
    : (b: AC.UpdateBody)
    ensures SendsContent(u, editData) ==>
      b.contentLink == Field(editData, "contentLink") && b.writerSubmittedAt == Some(AC.DateValue(now))
    ensures !SendsContent(u, editData) ==> b.contentLink.None? && b.writerSubmittedAt.None?
    ensures SendsPublish(u, editData) ==> b.publishLink == Field(editData, "publishLink")
    ensures !SendsPublish(u, editData) ==> b.publishLink.None?
    ensures b.status == Some("published") <==> SendsPublish(u, editData) && !Schema.Truthy(Field(editData, "status"))
    ensures b.status == Some("submitted") <==>
      SendsContent(u, editData) && (!Schema.Truthy(a.status) || a.status == Some("revision")) &&
      !(SendsPublish(u, editData) && !Schema.Truthy(Field(editData, "status")))
    ensures b.status.None? || b.status == Some("published") || b.status == Some("submitted")
    ensures !IsWriter(u) && !IsManager(u) && !IsAdmin(u) ==> b == AC.UpdateBody(None, None, None, None)
  {
    var b := AC.UpdateBody(None, None, None, None);
    var b := if SendsContent(u, editData) then
      b.(contentLink := Field(editData, "contentLink"),
         status := if !Schema.Truthy(a.status) || a.status == Some("revision") then Some("submitted") else b.status,
         writerSubmittedAt := Some(AC.DateValue(now)))
      else b;
    var b := if SendsPublish(u, editData) then
      b.(publishLink := Field(editData, "publishLink"),
         status := if !Schema.Truthy(Field(editData, "status")) then Some("published") else b.status)
      else b;
    b
  }

  /** `articles.find(a => a._id === id)`. */
  function FindArticle(articles: seq<ArticleItem>, id: string): (r: Option<ArticleItem>)
    ensures r.None? <==> forall k :: 0 <= k < |articles| ==> articles[k].id != id
    ensures r.Some? ==> r.value.id == id
    ensures r.Some? ==>
      exists k :: 0 <= k < |articles| && articles[k] == r.value && (forall j :: 0 <= j < k ==> articles[j].id != id)
  {
    FindFirst((a: ArticleItem) => a.id == id, articles)
  }

  /**
   * saveChanges: nothing is sent for an id not in the list; otherwise the
   * update object is filled by successive assignments and sent.
   */
  method SaveChanges(u: SessionUser, articles: seq<ArticleItem>, articleId: string,
                     editData: map<string, string>, now: Schema.Stamp) returns (sent: Option<AC.UpdateBody>)
    ensures FindArticle(articles, articleId).None? ==> sent.None?
    ensures FindArticle(articles, articleId).Some? ==>
      sent == Some(BuildUpdates(u, FindArticle(articles, articleId).value, editData, now))
  {
    var found := FindArticle(articles, articleId);
    if found.None? {
      return None;
    }
    var article := found.value;
    var updates := AC.UpdateBody(None, None, None, None);
    if (IsWriter(u) || IsAdmin(u)) && Schema.Truthy(Field(editData, "contentLink")) {
      updates := updates.(contentLink := Field(editData, "contentLink"));
      if !Schema.Truthy(article.status) || article.status == Some("revision") {
        updates := updates.(status := Some("submitted"));
      }
      updates := updates.(writerSubmittedAt := Some(AC.DateValue(now)));
    }
    if (IsManager(u) || IsAdmin(u)) && Schema.Truthy(Field(editData, "publishLink")) {
      updates := updates.(publishLink := Field(editData, "publishLink"));
      if !Schema.Truthy(Field(editData, "status")) {
        updates := updates.(status := Some("published"));
      }
    }
    return Some(updates);
  }

  /**
   * Opening an article for editing and saving at once sends its own links
   * back: its content link when the user may send one and it is set, and
   * its publish link likewise; "published" is asked for only when the
   * article has no status.
   */
  lemma StartEditThenSaveSendsLinksBack(u: SessionUser, a: ArticleItem, now: Schema.Stamp)
    ensures var b := BuildUpdates(u, a, StartEdit(a), now);
      && ((IsWriter(u) || IsAdmin(u)) && Schema.Truthy(a.contentLink) ==> b.contentLink == a.contentLink)
      && (!Schema.Truthy(a.contentLink) ==> b.contentLink.None?)
      && ((IsManager(u) || IsAdmin(u)) && Schema.Truthy(a.publishLink) ==> b.publishLink == a.publishLink)
      && (!Schema.Truthy(a.publishLink) ==> b.publishLink.None?)
      && (b.status == Some("published") <==>
            (IsManager(u) || IsAdmin(u)) && Schema.Truthy(a.publishLink) && !Schema.Truthy(a.status))
  {
    var e := StartEdit(a);
    assert Field(e, "contentLink") == Some(e["contentLink"]);
    assert Field(e, "publishLink") == Some(e["publishLink"]);
    assert Field(e, "status") == Some(e["status"]);
  }

  // ------------------------------------------------------------ revision requests

  /** A request the page sends to the backend. */
  datatype Request =
    | UpdateTopicRequest(topicId: string, topicBody: TC.TopicBody)
    | UpdateArticleRequest(articleId: string, articleBody: AC.UpdateBody)

  /** The revision form: the article, its topic (when known) and the instructions typed. */
  datatype RevisionModal = RevisionModal(articleId: string, topicId: Option<string>, instructions: string)

  /**
   * handleRevisionSubmit's requests: the topic's instructions first, when the
   * topic id is known, then the article's status "revision" and an empty content link.
   */
  function RevisionRequests(m: RevisionModal): (rs: seq<Request>)
    ensures |rs| == (if Schema.Truthy(m.topicId) then 2 else 1)
    ensures rs[|rs| - 1] == UpdateArticleRequest(m.articleId, AC.UpdateBody(Some(""), None, Some("revision"), Some(AC.BlankDate)))
    ensures Schema.Truthy(m.topicId) ==>
      rs[0] == UpdateTopicRequest(m.topicId.value, TC.TopicBody(None, None, Some(m.instructions), None, None, None, None))
  {
    var article := UpdateArticleRequest(m.articleId, AC.UpdateBody(Some(""), None, Some("revision"), Some(AC.BlankDate)));
    if Schema.Truthy(m.topicId) then
      [UpdateTopicRequest(m.topicId.value, TC.TopicBody(None, None, Some(m.instructions), None, None, None, None)), article]
    else [article]
  }

  /** What handleRevisionSubmit did: the requests sent, and whether the modal was closed. */
  datatype RevisionResult = RevisionResult(sent: seq<Request>, closed: bool)

  /**
   * handleRevisionSubmit against the backend's answers. The requests are
   * awaited in order inside one `try`: a rejected topic update means the
   * article update is never sent, and the modal closes only when every
   * request was accepted.
   */
  function RevisionSubmit(m: RevisionModal, answers: seq<bool>): (r: RevisionResult)
    ensures r.closed ==> r.sent == RevisionRequests(m)
    ensures r.closed <==> Accepted(answers, 0) && (Schema.Truthy(m.topicId) ==> Accepted(answers, 1))
  {
    var rs := RevisionRequests(m);
    RevisionResult(SentUntilRejected(rs, answers), AllAccepted(answers, |rs|))
  }

  /**
   * The article update is sent exactly when there is no topic update before
   * it or that update was accepted; a rejected topic update is the only
   * request sent.
   */
  lemma RejectedTopicUpdateStopsRevision(m: RevisionModal, answers: seq<bool>)
    ensures var rs := RevisionRequests(m);
      rs[|rs| - 1] in RevisionSubmit(m, answers).sent <==> !Schema.Truthy(m.topicId) || Accepted(answers, 0)
    ensures Schema.Truthy(m.topicId) && !Accepted(answers, 0) ==>
      RevisionSubmit(m, answers).sent == [RevisionRequests(m)[0]]
  {
    var rs := RevisionRequests(m);
    if Schema.Truthy(m.topicId) {
      if !Accepted(answers, 0) {
        SentUntilFirstRejection(rs, answers, 0);
        assert rs[..1] == [rs[0]];
        assert rs[0] != rs[1];
      } else if !Accepted(answers, 1) {
        SentUntilFirstRejection(rs, answers, 1);
        assert rs[..2] == rs;
      }
    } else {
      OneRequestIsSent(rs[0], answers);
      assert rs == [rs[0]];
    }
  }

  // ------------------------------------------------------------ row actions and badge

  predicate CanEditContent(u: SessionUser, a: ArticleItem) {
    (IsWriter(u) && WrittenBy(u, a)) || IsAdmin(u)
  }

  predicate CanEditPublish(u: SessionUser, a: ArticleItem) {
    (IsManager(u) && ManagedBy(u, a)) || IsAdmin(u)
  }

  function CanRequestRevision(u: SessionUser, a: ArticleItem): (b: bool)
    ensures b ==> a.status == Some("submitted")
    ensures b ==> IsAdmin(u) || (IsManager(u) && ManagedBy(u, a))
    ensures IsAdmin(u) && a.status == Some("submitted") ==> b
    ensures IsManager(u) && ManagedBy(u, a) && a.status == Some("submitted") ==> b
  {
    CanEditPublish(u, a) && a.status == Some("submitted")
  }

  /**
   * The edit rights agree with the role filter on every row shown: an admin
   * may edit both links, a writer the content link of every article they
   * see, and a manager who is not a writer the publish link of every article
   * they see. A writer who also manages may edit the publish link of a row
   * only when they manage that row's project too.
   */
  lemma EditRightsOnVisibleRows(u: SessionUser, arr: seq<ArticleItem>, i: nat)
    requires i < |FilterByRole(u, arr)|
    ensures var a := FilterByRole(u, arr)[i];
      && (IsAdmin(u) ==> CanEditContent(u, a) && CanEditPublish(u, a))
      && (IsWriter(u) ==> CanEditContent(u, a))
      && (!IsWriter(u) && IsManager(u) ==> CanEditPublish(u, a) && (CanEditContent(u, a) <==> IsAdmin(u)))
      && (!IsAdmin(u) && IsWriter(u) ==> (CanEditPublish(u, a) <==> IsManager(u) && ManagedBy(u, a)))
  {
  }

  function StatusBadge(status: Option<string>): (badge: string)
    ensures status == Some("published") ==> badge == "success"
    ensures status == Some("submitted") ==> badge == "info"
    ensures status == Some("revision") ==> badge == "warning"
    ensures status == Some("approved") ==> badge == "primary"
    ensures status.None? || status.value !in ["published", "submitted", "revision", "approved"] ==> badge == "secondary"
  {
    if status == Some("published") then "success"
    else if status == Some("submitted") then "info"
    else if status == Some("revision") then "warning"
    else if status == Some("approved") then "primary"
    else "secondary"
  }

  /** "approved" is not an article status, so no stored article ever shows the primary badge. */
  lemma NoArticleIsApproved(st: Schema.ArticleStatus)
    ensures StatusBadge(Some(st.Label())) != "primary"
    ensures st == Schema.Assigned ==> StatusBadge(Some(st.Label())) == "secondary"
  {
  }

  // ------------------------------------------------------------ client and backend together

  /**
   * A writer saving a content link for an article in revision makes the
   * backend, seeing a writer-only caller, submit it with that link.
   */
  lemma WriterResubmitsRevision(u: SessionUser, item: ArticleItem, editData: map<string, string>,
                                stored: Schema.Article, email: string, now: Schema.Stamp)
    requires IsWriter(u) && !IsAdmin(u)
    requires Schema.Truthy(Field(editData, "contentLink"))
    requires item.status == Some("revision") && stored.status == Schema.Revision
    ensures var body := BuildUpdates(u, item, editData, now);
      var r := AC.Workflow(stored, AC.Caps(true, false, false), email, body, now);
      r.Pass? && r.article.status == Schema.Submitted && r.article.contentLink == Field(editData, "contentLink")
  {
  }

  /**
   * Requesting a revision of a submitted article as its manager ends, on the
   * backend, in status revision with an empty content link; the submission
   * time sent as "" is not read, so the stored one stays.
   */
  lemma RevisionRequestReachesBackend(m: RevisionModal, stored: Schema.Article, email: string, now: Schema.Stamp)
    requires stored.status == Schema.Submitted
    ensures var rs := RevisionRequests(m);
      var r := AC.Workflow(stored, AC.Caps(false, true, false), email, rs[|rs| - 1].articleBody, now);
      r.Pass? && r.article.status == Schema.Revision && r.article.contentLink == Some("") &&
      r.article.writerSubmittedAt == stored.writerSubmittedAt
  {
  }
}
