/**
 * The topic handlers of the backend over the topic and article collections:
 * adding a topic (which also creates its article), updating a topic by id,
 * and deleting a topic the caller created.
 */
module TopicController {
  import opened Wrappers
  import opened Schema

  /** The JSON body of an add or update request; an absent key is `None`. */
  datatype TopicBody = TopicBody(
    title: Option<string>,
    keyword: Option<string>,
    instructions: Option<string>,
    month: Option<string>,
    project: Option<Id>,
    status: Option<string>,
    createdBy: Option<string>)

  /**
   * The schema's enum validators, which `create` runs and `updateOne` does
   * not: a month or a status the body carries must be one of the schema's
   * labels.
   */
  predicate PassesEnums(body: TopicBody) {
    && (body.month.None? || ParseMonth(body.month.value).Some?)
    && (body.status.None? || ParseTopicStatus(body.status.value).Some?)
  }

  /**
   * The topic `create` builds from an add request: the body's fields, the
   * caller's e-mail as creator whatever the body says, the default status
   * when none is given, and both timestamps at `now`. A body that passes the
   * enum validators gives a topic whose month and status are schema labels.
   */
  function NewTopic(body: TopicBody, email: string, now: Stamp): (t: Topic)
    ensures t.createdBy == Some(email)
    ensures t.title == body.title && t.keyword == body.keyword && t.instructions == body.instructions
    ensures t.month == body.month && t.project == body.project
    ensures body.status.None? ==> t.status == "assigned"
    ensures body.status.Some? ==> t.status == body.status.value
    ensures t.createdAt == now && t.updatedAt == now
    ensures PassesEnums(body) ==>
      (t.month.None? || t.month.value in MonthLabels) && ParseTopicStatus(t.status).Some?
  {
    Topic(body.title, body.keyword, body.instructions, body.month, body.project,
          body.status.GetOr(DefaultTopicStatus.Label()), Some(email), now, now)
  }

  /** The creator always comes from the header: a `createdBy` in the body has no effect. */
  lemma CreatorFromHeader(body: TopicBody, email: string, forged: Option<string>, now: Stamp)
    ensures NewTopic(body.(createdBy := forged), email, now) == NewTopic(body, email, now)
  {
  }

  /**
   * Applying an update body: every key present replaces that field, every
   * other field (the creation time included) stays. The update time is
   * handled separately by `UpdateTopicSpec`.
   */
  function Patch(t: Topic, body: TopicBody): (r: Topic)
    ensures body.title.Some? ==> r.title == body.title
    ensures body.title.None? ==> r.title == t.title
    ensures body.keyword.Some? ==> r.keyword == body.keyword
    ensures body.keyword.None? ==> r.keyword == t.keyword
    ensures body.instructions.Some? ==> r.instructions == body.instructions
    ensures body.instructions.None? ==> r.instructions == t.instructions
    ensures body.createdBy.Some? ==> r.createdBy == body.createdBy
    ensures body.createdBy.None? ==> r.createdBy == t.createdBy
    ensures body.month.Some? ==> r.month == body.month
    ensures body.month.None? ==> r.month == t.month
    ensures body.project.Some? ==> r.project == body.project
    ensures body.project.None? ==> r.project == t.project
    ensures body.status.Some? ==> r.status == body.status.value
    ensures body.status.None? ==> r.status == t.status
    ensures r.createdAt == t.createdAt && r.updatedAt == t.updatedAt
  {
    t.(title := Over(body.title, t.title), keyword := Over(body.keyword, t.keyword),
       instructions := Over(body.instructions, t.instructions), month := Over(body.month, t.month),
       project := Over(body.project, t.project), status := body.status.GetOr(t.status),
       createdBy := Over(body.createdBy, t.createdBy))
  }

  /** A key present in the body wins over the stored field. */
  function Over<T>(given: Option<T>, stored: Option<T>): Option<T> {
    if given.Some? then given else stored
  }

  /** A body without keys leaves the topic as it was. */
  lemma EmptyPatchKeepsTopic(t: Topic)
    ensures Patch(t, TopicBody(None, None, None, None, None, None, None)) == t
  {
  }

  lemma PatchIdempotent(t: Topic, body: TopicBody)
    ensures Patch(Patch(t, body), body) == Patch(t, body)
  {
  }

  /**
   * addTopic. `create` validates the body first: a month or status outside
   * the schema's enums is a validation error (500) and nothing is inserted.
   * Otherwise the topic is inserted under the fresh id `topicId`, then an
   * article for it with status assigned under `articleId`. A clash of either
   * id is a library failure (500); when only the article's id clashes the
   * topic has already been inserted and stays.
   */
  function AddTopicSpec(topics: map<Id, Topic>, articles: map<Id, Article>, body: TopicBody, email: string,
                        topicId: Id, articleId: Id, now: Stamp): (r: (Reply, map<Id, Topic>, map<Id, Article>))
    ensures !PassesEnums(body) || topicId in topics ==> r == (Crashed(500), topics, articles)
    ensures r.0.Success? <==> PassesEnums(body) && topicId !in topics && articleId !in articles
    ensures r.0.Success? ==>
      && r.0.message == "Topic and Article Added"
      && r.1 == topics[topicId := NewTopic(body, email, now)]
      && r.2 == articles[articleId := NewArticle(topicId, Some(Assigned), now)]
      && |r.1| == |topics| + 1 && |r.2| == |articles| + 1
    ensures !r.0.Success? ==> r.0 == Crashed(500) && r.2 == articles
    ensures PassesEnums(body) && topicId !in topics && articleId in articles ==>
      r == (Crashed(500), topics[topicId := NewTopic(body, email, now)], articles)
  {
    if !PassesEnums(body) || topicId in topics then (Crashed(500), topics, articles)
    else
      var topics' := topics[topicId := NewTopic(body, email, now)];
      if articleId in articles then (Crashed(500), topics', articles)
      else (Success("Topic and Article Added"), topics', articles[articleId := NewArticle(topicId, Some(Assigned), now)])
  }

  /**
   * updateTopic. Anyone reaching the handler may update any topic (the
   * function has no caller argument), and `updateOne` runs no validators,
   * so any month or status label is stored as given. The answer is 404 exactly when no
   * document was modified: the id is unknown, or the patched record, with
   * the update time the timestamps option sets to `now`, equals the stored one.
   */
  function UpdateTopicSpec(topics: map<Id, Topic>, id: Id, body: TopicBody, now: Stamp)
    : (r: (Reply, map<Id, Topic>))
    ensures id !in topics ==> r == (Failed(404, "Topic not found or no changes made"), topics)
    ensures r.0.Failed? ==> r.1 == topics && r.0 == Failed(404, "Topic not found or no changes made")
    ensures r.0.Success? <==> id in topics && Patch(topics[id], body).(updatedAt := now) != topics[id]
    ensures r.0.Success? ==> r.1 == topics[id := Patch(topics[id], body).(updatedAt := now)]
    ensures !r.0.Crashed?
  {
    if id !in topics then (Failed(404, "Topic not found or no changes made"), topics)
    else
      var t := Patch(topics[id], body).(updatedAt := now);
      if t == topics[id] then (Failed(404, "Topic not found or no changes made"), topics)
      else (Success("Topic updated successfully"), topics[id := t])
  }

  /**
   * deleteTopic. The topic goes only if it exists and its creator is the
   * caller; the answer is Success either way, and the article collection is
   * never touched.
   */
  function DeleteTopicSpec(topics: map<Id, Topic>, id: Id, email: string): (r: (Reply, map<Id, Topic>))
    ensures r.0 == Success("Topic Deleted")
    ensures id in topics && topics[id].createdBy == Some(email) ==> r.1 == topics - {id}
    ensures !(id in topics && topics[id].createdBy == Some(email)) ==> r.1 == topics
  {
    if id in topics && topics[id].createdBy == Some(email) then (Success("Topic Deleted"), topics - {id})
    else (Success("Topic Deleted"), topics)
  }

  /**
   * The topic handlers answer every failure with 404 or 500, so the client
   * resolves an add or an update exactly when it succeeded.
   */
  lemma TopicRepliesAcceptedIffSuccess(topics: map<Id, Topic>, articles: map<Id, Article>, body: TopicBody,
                                       email: string, topicId: Id, articleId: Id, id: Id, now: Stamp)
    ensures var r := AddTopicSpec(topics, articles, body, email, topicId, articleId, now).0;
      ClientAccepts(r) <==> r.Success?
    ensures var r := UpdateTopicSpec(topics, id, body, now).0;
      ClientAccepts(r) <==> r.Success?
  {
  }

  /** The topic and article collections, changed in place by the handlers. */
  class TopicStore {
    var topics: map<Id, Topic>
    var articles: map<Id, Article>

    constructor (topics: map<Id, Topic>, articles: map<Id, Article>)
      ensures this.topics == topics && this.articles == articles
    {
      this.topics := topics;
      this.articles := articles;
    }

    /** POST /addTopic; `topicId` and `articleId` are the ids the driver generates. */
    method AddTopic(body: TopicBody, email: string, topicId: Id, articleId: Id, now: Stamp) returns (reply: Reply)
      modifies this
      ensures (reply, topics, articles) == AddTopicSpec(old(topics), old(articles), body, email, topicId, articleId, now)
    {
      var reqBody := body.(createdBy := Some(email));
      if !PassesEnums(reqBody) || topicId in topics {
        return Crashed(500);
      }
      var created := Topic(reqBody.title, reqBody.keyword, reqBody.instructions, reqBody.month, reqBody.project,
                           reqBody.status.GetOr(DefaultTopicStatus.Label()), reqBody.createdBy, now, now);
      topics := topics[topicId := created];
      var newArticle := NewArticle(topicId, Some(Assigned), now);
      if articleId in articles {
        return Crashed(500);
      }
      articles := articles[articleId := newArticle];
      return Success("Topic and Article Added");
    }

    /** PUT /updateTopic/:id. */
    method UpdateTopic(id: Id, body: TopicBody, now: Stamp) returns (reply: Reply)
      modifies this
      ensures articles == old(articles)
      ensures (reply, topics) == UpdateTopicSpec(old(topics), id, body, now)
    {
      var modified := false;
      if id in topics {
        var updated := Patch(topics[id], body).(updatedAt := now);
        if updated != topics[id] {
          topics := topics[id := updated];
          modified := true;
        }
      }
      if !modified {
        return Failed(404, "Topic not found or no changes made");
      }
      return Success("Topic updated successfully");
    }

    /** DELETE /deleteTopic/:id. */
    method DeleteTopic(id: Id, email: string) returns (reply: Reply)
      modifies this
      ensures articles == old(articles)
      ensures (reply, topics) == DeleteTopicSpec(old(topics), id, email)
    {
      if id in topics && topics[id].createdBy == Some(email) {
        topics := topics - {id};
      }
      return Success("Topic Deleted");
    }
  }

  // ------------------------------------------------------------ properties

  /**
   * The article created with a topic points to it and is found, assigned,
   * under its own id; as the new topic's id is fresh and no earlier article
   * refers to it, that article is the only one pointing at the topic.
   */
  lemma AddedArticleLinksTopic(topics: map<Id, Topic>, articles: map<Id, Article>, body: TopicBody, email: string,
                               topicId: Id, articleId: Id, now: Stamp)
    requires PassesEnums(body) && topicId !in topics && articleId !in articles
    requires forall k :: k in articles ==> articles[k].topic != Some(topicId)
    ensures var r := AddTopicSpec(topics, articles, body, email, topicId, articleId, now);
      topicId in r.1 && articleId in r.2 && r.2[articleId].topic == Some(topicId) &&
      r.2[articleId].status == Assigned && r.1[topicId].createdBy == Some(email)
    ensures var r := AddTopicSpec(topics, articles, body, email, topicId, articleId, now);
      forall k :: k in r.2 && r.2[k].topic == Some(topicId) ==> k == articleId
  {
  }

  /**
   * A month label outside the schema's twelve, such as "Jul-26", makes the
   * add fail with a validation error: no topic and no article.
   */
  lemma UnlistedMonthAddFails(topics: map<Id, Topic>, articles: map<Id, Article>, body: TopicBody, email: string,
                              topicId: Id, articleId: Id, now: Stamp)
    requires body.month.Some? && body.month.value !in MonthLabels
    ensures AddTopicSpec(topics, articles, body, email, topicId, articleId, now) == (Crashed(500), topics, articles)
  {
  }

  /**
   * The same label is stored by an update: once the clock has moved, an
   * update of an existing topic carrying any month succeeds and stores it.
   */
  lemma UpdateStoresAnyMonth(topics: map<Id, Topic>, id: Id, body: TopicBody, now: Stamp)
    requires id in topics && body.month.Some? && now != topics[id].updatedAt
    ensures var r := UpdateTopicSpec(topics, id, body, now);
      r.0.Success? && r.1[id].month == body.month
  {
  }

  /**
   * Repeating the same update at the same instant modifies nothing the
   * second time and so answers 404.
   */
  lemma RepeatedUpdateIsNotFound(topics: map<Id, Topic>, id: Id, body: TopicBody, now: Stamp)
    ensures var (_, once) := UpdateTopicSpec(topics, id, body, now);
      UpdateTopicSpec(once, id, body, now).0 == Failed(404, "Topic not found or no changes made")
  {
    var (_, once) := UpdateTopicSpec(topics, id, body, now);
    if id in topics && id in once {
      PatchIdempotent(topics[id], body);
      assert Patch(once[id], body) == Patch(Patch(topics[id], body), body).(updatedAt := once[id].updatedAt);
    }
  }

  /**
   * An update whose body is empty still modifies the document when the
   * clock has moved, because the update time is set on every update.
   */
  lemma EmptyUpdateTouchesTime(topics: map<Id, Topic>, id: Id, now: Stamp)
    requires id in topics
    ensures UpdateTopicSpec(topics, id, TopicBody(None, None, None, None, None, None, None), now).0.Success?
        <==> now != topics[id].updatedAt
  {
  }

  /** Deleting someone else's topic reports success and changes nothing. */
  lemma DeleteOthersTopicIsSilentNoOp(topics: map<Id, Topic>, id: Id, email: string)
    requires id in topics && topics[id].createdBy != Some(email)
    ensures DeleteTopicSpec(topics, id, email) == (Success("Topic Deleted"), topics)
  {
  }
}
