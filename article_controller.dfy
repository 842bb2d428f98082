/**
 * The article workflow of the backend: the update handler that moves an
 * article between assigned, submitted, published and revision according to
 * the caller's roles, and the delete handler.
 *
 * The update handler runs three role-gated blocks in a fixed order over one
 * loaded record (content link, publish link, revision), any of which may end
 * the request early with 400, and saves once at the end. Each block is a
 * function below; `UpdateArticleSpec` composes them, and the store method
 * `ArticleStore.UpdateArticle`, written as the handler is (one local record
 * changed field by field, early returns), is proved to agree with it.
 */
module ArticleController {
  import opened Wrappers
  import opened Schema

  /** A date in a request body (an ISO string or the empty string); the handler never reads it. */
  datatype BodyDate = DateValue(at: Stamp) | BlankDate

  /** The JSON body of an update request, as far as the handler could read it. */
  datatype UpdateBody = UpdateBody(
    contentLink: Option<string>,
    publishLink: Option<string>,
    status: Option<string>,
    writerSubmittedAt: Option<BodyDate>)

  /** Which of the three roles the caller's role list includes. */
  datatype Caps = Caps(writer: bool, manager: bool, admin: bool)

  function CapsOf(u: User): Caps {
    Caps(Writer in u.roles, Manager in u.roles, Admin in u.roles)
  }

  /** The result of one block: the record as it leaves the block, or an early error reply. */
  datatype Step = Pass(article: Article) | Reject(code: nat, message: string)

  predicate ContentGuard(c: Caps, body: UpdateBody) {
    (c.writer || c.admin) && Truthy(body.contentLink)
  }

  predicate PublishGuard(c: Caps, body: UpdateBody) {
    (c.manager || c.admin) && Truthy(body.publishLink)
  }

  predicate RevisionGuard(c: Caps, body: UpdateBody) {
    (c.manager || c.admin) && body.status == Some("revision")
  }

  /**
   * The content-link block. A writer or admin sending a non-empty link submits
   * the article: the link is stored, the status becomes submitted, and the
   * submission time is stamped only if none was recorded. A non-admin may not
   * touch a published article.
   */
  function ContentBlock(a: Article, c: Caps, body: UpdateBody, now: Stamp): (r: Step)
    ensures !ContentGuard(c, body) ==> r == Pass(a)
    ensures r.Reject? <==> ContentGuard(c, body) && !c.admin && a.status == Published
    ensures r.Reject? ==> r.code == 400
    ensures r.Pass? && ContentGuard(c, body) ==>
      && r.article.status == Submitted
      && r.article.contentLink == body.contentLink
      && r.article.writerSubmittedAt.Some?
      && (a.writerSubmittedAt.Some? ==> r.article.writerSubmittedAt == a.writerSubmittedAt)
      && (a.writerSubmittedAt.None? ==> r.article.writerSubmittedAt == Some(now))
      && r.article.(status := a.status, contentLink := a.contentLink, writerSubmittedAt := a.writerSubmittedAt) == a
  {
    if !ContentGuard(c, body) then Pass(a)
    else if !c.admin && a.status == Published then Reject(400, "Cannot update a published article.")
    else Pass(a.(contentLink := body.contentLink, status := Submitted,
                 writerSubmittedAt := Some(a.writerSubmittedAt.GetOr(now))))
  }

  /**
   * The publish-link block. A manager or admin sending a non-empty link
   * publishes the article: link, status and publication time are set every
   * time, the publisher only if none is recorded. A non-admin may publish only
   * an article whose status, at that point of the request, is submitted.
   */
  function PublishBlock(a: Article, c: Caps, email: string, body: UpdateBody, now: Stamp): (r: Step)
    ensures !PublishGuard(c, body) ==> r == Pass(a)
    ensures r.Reject? <==> PublishGuard(c, body) && !c.admin && a.status != Submitted
    ensures r.Reject? ==> r.code == 400
    ensures r.Pass? && PublishGuard(c, body) ==>
      && r.article.status == Published
      && r.article.publishLink == body.publishLink
      && r.article.publishedAt == Some(now)
      && (Truthy(a.publisher) ==> r.article.publisher == a.publisher)
      && (!Truthy(a.publisher) ==> r.article.publisher == Some(email))
      && r.article.(status := a.status, publishLink := a.publishLink, publishedAt := a.publishedAt,
                    publisher := a.publisher) == a
  {
    if !PublishGuard(c, body) then Pass(a)
    else if !c.admin && a.status != Submitted then Reject(400, "Only submitted articles can be published.")
    else Pass(a.(publishLink := body.publishLink, status := Published,
                 publisher := if Truthy(a.publisher) then a.publisher else Some(email),
                 publishedAt := Some(now)))
  }

  /**
   * The revision block: a manager or admin asking for status "revision" sends
   * the article back, clearing its content link and nothing else.
   */
  function RevisionBlock(a: Article, c: Caps, body: UpdateBody): (r: Article)
    ensures !RevisionGuard(c, body) ==> r == a
    ensures RevisionGuard(c, body) ==>
      r.status == Revision && r.contentLink == Some("") &&
      r.(status := a.status, contentLink := a.contentLink) == a
  {
    if RevisionGuard(c, body) then a.(status := Revision, contentLink := Some("")) else a
  }

  /**
   * The three blocks in their order; a later block sees what an earlier one
   * wrote. Stated here: an error is always 400; the submission time is written
   * once and the publisher too; a revision request wins over any status set
   * earlier in the request; a caller who is neither manager nor admin cannot
   * change a published article; only a manager or admin ever changes the
   * publish link; the topic reference and the undeclared writer never change.
   */
  function Workflow(a: Article, c: Caps, email: string, body: UpdateBody, now: Stamp): (r: Step)
    ensures r.Reject? ==> r.code == 400
    ensures r.Pass? && a.writerSubmittedAt.Some? ==> r.article.writerSubmittedAt == a.writerSubmittedAt
    ensures r.Pass? && Truthy(a.publisher) ==> r.article.publisher == a.publisher
    ensures r.Pass? && RevisionGuard(c, body) ==> r.article.status == Revision && r.article.contentLink == Some("")
    ensures r.Pass? && !RevisionGuard(c, body) && PublishGuard(c, body) ==> r.article.status == Published
    ensures !c.admin && !c.manager && a.status == Published ==> r.Reject? || r == Pass(a)
    ensures r.Pass? && r.article.publishLink != a.publishLink ==> c.manager || c.admin
    ensures r.Pass? ==> r.article.topic == a.topic && r.article.writer == a.writer && r.article.createdAt == a.createdAt
  {
    match ContentBlock(a, c, body, now)
    case Reject(code, msg) => Reject(code, msg)
    case Pass(a1) =>
      match PublishBlock(a1, c, email, body, now)
      case Reject(code, msg) => Reject(code, msg)
      case Pass(a2) => Pass(RevisionBlock(a2, c, body))
  }

  /** `save()`: the update time moves only when the record changed. */
  function Saved(before: Article, after: Article, now: Stamp): (r: Article)
    ensures after == before ==> r == before
    ensures after != before ==> r == after.(updatedAt := now)
  {
    if after == before then before else after.(updatedAt := now)
  }

  /**
   * The whole update request against the article collection and the users.
   * An unknown article is 404 before the caller is looked up; an unknown
   * caller is 403; a rejected block answers 400; in all three nothing is
   * saved. Otherwise only the requested article is replaced.
   */
  function UpdateArticleSpec(articles: map<Id, Article>, users: seq<User>, id: Id, email: string,
                             body: UpdateBody, now: Stamp): (r: (Reply, map<Id, Article>))
    ensures id !in articles ==> r == (Failed(404, "Article not found"), articles)
    ensures id in articles && FindUserByEmail(users, email).None? ==> r == (Failed(403, "User not found"), articles)
    ensures r.0.Failed? ==> r.1 == articles
    ensures !r.0.Crashed?
    ensures r.0.Success? <==>
      id in articles && FindUserByEmail(users, email).Some? &&
      Workflow(articles[id], CapsOf(FindUserByEmail(users, email).value), email, body, now).Pass?
    ensures r.0.Success? ==>
      (r.1.Keys == articles.Keys && forall k :: k in articles && k != id ==> r.1[k] == articles[k])
    ensures r.0.Success? ==>
      r.1[id] == Saved(articles[id], Workflow(articles[id], CapsOf(FindUserByEmail(users, email).value), email, body, now).article, now)
  {
    if id !in articles then (Failed(404, "Article not found"), articles)
    else match FindUserByEmail(users, email)
      case None => (Failed(403, "User not found"), articles)
      case Some(u) =>
        match Workflow(articles[id], CapsOf(u), email, body, now)
        case Reject(code, msg) => (Failed(code, msg), articles)
        case Pass(a) => (Success("Article updated"), articles[id := Saved(articles[id], a, now)])
  }

  /**
   * The delete request. The caller is looked up first (403), then the article
   * (404); it is removed only if the caller is an admin or the article's
   * writer field holds the caller's e-mail, and otherwise the answer is 403
   * and nothing is removed.
   */
  function DeleteArticleSpec(articles: map<Id, Article>, users: seq<User>, id: Id, email: string)
    : (r: (Reply, map<Id, Article>))
    ensures FindUserByEmail(users, email).None? ==> r == (Failed(403, "User not found"), articles)
    ensures FindUserByEmail(users, email).Some? && id !in articles ==> r == (Failed(404, "Article not found"), articles)
    ensures r.0.Success? <==>
      FindUserByEmail(users, email).Some? && id in articles &&
      (Admin in FindUserByEmail(users, email).value.roles || articles[id].writer == Some(email))
    ensures r.0.Success? ==> r.1 == articles - {id}
    ensures !r.0.Success? ==> r.1 == articles && r.0.Failed?
  {
    match FindUserByEmail(users, email)
    case None => (Failed(403, "User not found"), articles)
    case Some(u) =>
      if id !in articles then (Failed(404, "Article not found"), articles)
      else if articles[id].writer != Some(email) && Admin !in u.roles then (Failed(403, "Unauthorized"), articles)
      else (Success("Article Deleted"), articles - {id})
  }

  /**
   * The article handlers answer every failure with 400, 403 or 404, so the
   * client resolves an update or a delete exactly when it succeeded.
   */
  lemma ArticleRepliesAcceptedIffSuccess(articles: map<Id, Article>, users: seq<User>, id: Id, email: string,
                                         body: UpdateBody, now: Stamp)
    ensures var r := UpdateArticleSpec(articles, users, id, email, body, now).0;
      ClientAccepts(r) <==> r.Success?
    ensures var r := DeleteArticleSpec(articles, users, id, email).0;
      ClientAccepts(r) <==> r.Success?
  {
  }

  /** The article collection and the users it consults, changed in place by the handlers. */
  class ArticleStore {
    var articles: map<Id, Article>
    var users: seq<User>

    constructor (articles: map<Id, Article>, users: seq<User>)
      ensures this.articles == articles && this.users == users
    {
      this.articles := articles;
      this.users := users;
    }

    /** PUT /updateArticle/:id. */
    method UpdateArticle(id: Id, email: string, body: UpdateBody, now: Stamp) returns (reply: Reply)
      modifies this
      ensures users == old(users)
      ensures (reply, articles) == UpdateArticleSpec(old(articles), old(users), id, email, body, now)
    {
      if id !in articles {
        return Failed(404, "Article not found");
      }
      var article := articles[id];
      var found := FindUserByEmail(users, email);
      if found.None? {
        return Failed(403, "User not found");
      }
      var user := found.value;
      var c := CapsOf(user);
      var isWriter, isManager, isAdmin := Writer in user.roles, Manager in user.roles, Admin in user.roles;
      var loaded := article;

      if (isWriter || isAdmin) && Truthy(body.contentLink) {
        if !isAdmin && article.status == Published {
          return Failed(400, "Cannot update a published article.");
        }
        article := article.(contentLink := body.contentLink);
        article := article.(status := Submitted);
        article := article.(writerSubmittedAt := Some(article.writerSubmittedAt.GetOr(now)));
      }
      assert ContentBlock(loaded, c, body, now) == Pass(article);
      ghost var afterContent := article;

      if (isManager || isAdmin) && Truthy(body.publishLink) {
        if !isAdmin && article.status != Submitted {
          return Failed(400, "Only submitted articles can be published.");
        }
        article := article.(publishLink := body.publishLink);
        article := article.(status := Published);
        article := article.(publisher := if Truthy(article.publisher) then article.publisher else Some(email));
        article := article.(publishedAt := Some(now));
      }
      assert PublishBlock(afterContent, c, email, body, now) == Pass(article);

      if (isManager || isAdmin) && body.status == Some("revision") {
        article := article.(status := Revision);
        article := article.(contentLink := Some(""));
      }

      articles := articles[id := Saved(loaded, article, now)];
      return Success("Article updated");
    }

    /** DELETE /deleteArticle/:id. */
    method DeleteArticle(id: Id, email: string) returns (reply: Reply)
      modifies this
      ensures users == old(users)
      ensures (reply, articles) == DeleteArticleSpec(old(articles), old(users), id, email)
    {
      var found := FindUserByEmail(users, email);
      if found.None? {
        return Failed(403, "User not found");
      }
      if id !in articles {
        return Failed(404, "Article not found");
      }
      var article := articles[id];
      var isWriter := article.writer == Some(email);
      var isAdmin := Admin in found.value.roles;
      if !isWriter && !isAdmin {
        return Failed(403, "Unauthorized");
      }
      articles := articles - {id};
      return Success("Article Deleted");
    }
  }

  // ------------------------------------------------------------ properties

  /** No field of the body other than the two links and the status is ever read: the date is ignored. */
  lemma BodyDateIgnored(articles: map<Id, Article>, users: seq<User>, id: Id, email: string,
                        body: UpdateBody, d: Option<BodyDate>, now: Stamp)
    ensures UpdateArticleSpec(articles, users, id, email, body, now)
         == UpdateArticleSpec(articles, users, id, email, body.(writerSubmittedAt := d), now)
  {
    if id in articles && FindUserByEmail(users, email).Some? {
      WorkflowIgnoresDate(articles[id], CapsOf(FindUserByEmail(users, email).value), email, body, d, now);
    }
  }

  /** The workflow's blocks read the links and the status of the body, never its date. */
  lemma WorkflowIgnoresDate(a: Article, c: Caps, email: string, body: UpdateBody, d: Option<BodyDate>, now: Stamp)
    ensures Workflow(a, c, email, body, now) == Workflow(a, c, email, body.(writerSubmittedAt := d), now)
  {
  }

  /** For a caller who is a writer only, a publish link and a status in the body are silently ignored. */
  lemma WriterOnlyIgnoresPublishAndStatus(a: Article, email: string, body: UpdateBody, now: Stamp)
    ensures Workflow(a, Caps(true, false, false), email, body, now)
         == Workflow(a, Caps(true, false, false), email, body.(publishLink := None, status := None), now)
  {
  }

  /** The status in the body matters only when it is "revision": any other value, or none, has the same effect. */
  lemma StatusOnlyReadAsRevision(a: Article, c: Caps, email: string, body: UpdateBody, s: string, now: Stamp)
    requires s != "revision"
    ensures Workflow(a, c, email, body.(status := Some(s)), now) == Workflow(a, c, email, body.(status := None), now)
  {
  }

  /**
   * Order matters: for a writer who is also a manager, the content block's
   * "submitted" makes the same request's publish link acceptable, while a
   * manager without the writer role is refused.
   */
  lemma SubmitThenPublishInOneRequest(a: Article, email: string, body: UpdateBody, now: Stamp)
    requires a.status == Assigned
    requires Truthy(body.contentLink) && Truthy(body.publishLink) && body.status != Some("revision")
    ensures Workflow(a, Caps(true, true, false), email, body, now).Pass?
    ensures Workflow(a, Caps(true, true, false), email, body, now).article.status == Published
    ensures Workflow(a, Caps(true, true, false), email, body, now).article.writerSubmittedAt.Some?
    ensures Workflow(a, Caps(false, true, false), email, body, now) == Reject(400, "Only submitted articles can be published.")
  {
  }

  /**
   * A revision request runs last: even when the same request publishes, the
   * article ends in revision with an empty content link, while the publish
   * link and time written by the earlier block stay.
   */
  lemma RevisionOverridesPublish(a: Article, email: string, body: UpdateBody, now: Stamp)
    requires a.status == Submitted
    requires Truthy(body.publishLink) && body.status == Some("revision")
    ensures var r := Workflow(a, Caps(false, true, false), email, body, now);
      r.Pass? && r.article.status == Revision && r.article.contentLink == Some("") &&
      r.article.publishLink == body.publishLink && r.article.publishedAt == Some(now) &&
      r.article.writerSubmittedAt == a.writerSubmittedAt
  {
  }

  /**
   * An article created with the topic has no writer field, so only an admin
   * can delete it: for anyone else the request is refused and the collection
   * stays as it was.
   */
  lemma OnlyAdminsDeleteUnclaimedArticles(articles: map<Id, Article>, users: seq<User>, id: Id, email: string)
    requires id in articles && articles[id].writer.None?
    requires FindUserByEmail(users, email).Some? && Admin !in FindUserByEmail(users, email).value.roles
    ensures DeleteArticleSpec(articles, users, id, email) == (Failed(403, "Unauthorized"), articles)
  {
  }
}
