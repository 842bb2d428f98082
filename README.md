# Content-production tracker: workflow, stores, guards and client logic

This project models a role-based content-production tracker. It has an
Express/Mongoose backend and a React client. Projects hold topics, and each
topic has one article. The article moves through the workflow
assigned → submitted → published, and a revision side-channel sends it back
to the writer. Three roles act on it: admin, manager and writer.

The model covers:

- **The article workflow** (`ArticleController`). `updateArticle` runs
  three role-gated blocks in a fixed order on one record: content, publish,
  then revision. It has early 404/403/400 exits, write-once timestamps, and a
  later block can override what an earlier one wrote. `deleteArticle` has
  its own authorisation rule. The store is a class holding the article and
  user collections, and its methods are proved against pure specification
  functions.
- **The schemas** (`Schema`): the user, project, topic and article records.
  This includes their enumerations and defaults, the role labels, the month
  labels, the article statuses, and e-mail uniqueness.
- **The topic and project controllers** (`TopicController`,
  `ProjectController`):
  - adding a topic also creates its article;
  - updating reports "not found" when nothing was modified;
  - a delete by someone other than the creator silently does nothing;
  - the notification for a project is chosen (subject, text, recipients);
  - add, update and delete follow the controllers' control flow.
- **The dashboard join** (`DashboardController`): one row per topic,
  left-joined to the last article of that topic, with "N/A" and
  Private/Public defaults.
- **The route table** (`Routes`): each endpoint with whether it needs a
  session and its role allow-list. The client's any-of guard is `ClientAuth`.
- **The client pages**, one module each:
  - `ArticlesPage`: role narrowing, filters, link normalisation, the
    update payload, revision requests and the status badge;
  - `DashboardPage`: the admin, writer and manager counters, the role
    narrowing and the card links;
  - `ReportPage`: the filters, counters and option lists;
  - `TopicsPage`: loading by role, the assignment form and saving, edit
    rights and the month filter;
  - `ProjectsPage`: the project form, options, payload and status toggle;
  - `TeamPage`: access, role checkboxes, add and edit submissions;
  - `ProfilePage`: loading and submitting one's own profile.

  Each page's mutable form state is a class, and its handlers are methods
  proved against the page's specification functions.

Shared helpers:

- `Wrappers` (Option);
- `Seqs` (filter, count, subsequence, de-duplication);
- `Text` (JavaScript whitespace, trimming, ASCII lower-casing, `includes`,
  the e-mail regular expression);
- `ClientLists` (the lists as the client receives them, and `String(...)`
  of the values the pages compare);
- `FormRules` (the form library's `required` and `pattern` rules).
- `Awaited` (which of several requests awaited in one `try` are sent).

Modelling conventions:

- Ids are strings. A fresh database id is a parameter.
- The current time is an opaque natural `now`. Absent dates are `None`.
- The calendar month test of the admin dashboard is a predicate parameter.
- A request the client sends is returned as a value. The HTTP client
  rejects a reply iff its HTTP status is not 2xx (`Schema.ClientAccepts` of
  the reply, with `Schema.HttpStatus` giving the status). Whether it
  accepted a handler's single request is a boolean parameter `accepted`. A
  handler that awaits several requests in one `try` gets `answers`, one
  boolean per request in sending order (`Awaited`). The requests after the
  first rejected one are never sent.
- The project handlers answer with `res.json`, that is with status 200,
  even when they fail, so every project reply is accepted
  (`ProjectController.ProjectRepliesAlwaysAccepted`). The Projects page
  therefore resets its form after a refused add as well. The topic and
  article handlers answer failures with 400, 403, 404 or 500, so their
  replies are accepted exactly when they succeed
  (`TopicController.TopicRepliesAcceptedIffSuccess`,
  `ArticleController.ArticleRepliesAcceptedIffSuccess`).
- A library failure of the database layer is the reply `Crashed(code)`.

Facts about the code the model relies on:

- The counters "assigned", "submitted" and "published" of the report are
  not pairwise disjoint: an admin can publish an article that was never
  submitted (`ArticleController.PublishBlock`). `ReportPage.Stats`
  therefore proves assigned + submitted ≤ total and submitted + published ≤
  total, but no bound on assigned + published.
- The dashboard rows carry no writer or manager e-mail, so the client's
  e-mail comparisons never match. They are modelled as absent.
- The session e-mail is a string or null, never undefined.
- A topic's month and status are the labels as sent. `create` checks them
  against the schema's enumerations, and a label outside them is a
  validation error (500) with nothing inserted. `updateOne` runs no
  validators, so an update stores any label. The Topics page offers the
  next three calendar months, so from June 2026 on it offers months such
  as "Jul-26" that the twelve-month enumeration (Jul-25 … Jun-26) refuses.
- A project's status is likewise the label as sent: `create` refuses one
  other than "ongoing" or "paused" (a reply with status 200 and nothing
  inserted), `updateOne` stores any label.

## Model

| member | source | states |
|---|---|---|
| ArticleController.ContentBlock | src/controller/articleController.js:38-47 | Only a writer or admin with a non-empty contentLink touches content. A non-admin editing a published article gets 400. Otherwise contentLink is set, status becomes submitted, and writerSubmittedAt is stamped only when unset. |
| ArticleController.PublishBlock | src/controller/articleController.js:49-59 | Only a manager or admin with a non-empty publishLink publishes. A non-admin needs status submitted at that moment, otherwise 400. Publishing sets publishLink, status published and publishedAt := now. The publisher is set only if unset. |
| ArticleController.RevisionBlock | src/controller/articleController.js:61-65 | A manager or admin sending status revision gets status revision and an empty contentLink. The submission date and publishLink stay as they were. |
| ArticleController.Workflow | src/controller/articleController.js:34-65 | The three blocks in order, with 400 the only rejection. An existing submission date and publisher survive. A revision request ends in revision with an empty content link, and otherwise a publish ends in published. Without manager or admin, a published article is rejected or left as it was, and publishLink never changes. Topic, writer and creation time are kept. |
| ArticleController.Saved | src/controller/articleController.js:67 | An unchanged record is saved as it was. A changed one gets updatedAt := now. |
| ArticleController.UpdateArticleSpec | src/controller/articleController.js:18-74 | An unknown article gives 404 before the caller is looked up. An unknown caller gives 403. A 400 saves nothing. Success holds iff the workflow passes; it stores at the id exactly the workflow's result as saved (updatedAt := now only when it changed), and changes no other article. |
| ArticleController.DeleteArticleSpec | src/controller/articleController.js:76-104 | The caller is looked up first (403), then the article (404). Only an admin or the article's writer deletes, and any other caller gets 403 with nothing removed. |
| ArticleController.ArticleRepliesAcceptedIffSuccess | src/controller/articleController.js:18-104 | The client accepts an update or delete reply iff it is a success, since failures go out as 400, 403 or 404. |
| ArticleController.ArticleStore.UpdateArticle | src/controller/articleController.js:18-74 | The imperative handler mutates the loaded record block by block and returns exactly UpdateArticleSpec's reply and new store. |
| ArticleController.ArticleStore.DeleteArticle | src/controller/articleController.js:76-104 | The imperative handler returns exactly DeleteArticleSpec's reply and new store. |
| ArticleController.BodyDateIgnored | src/controller/articleController.js:39-68 | A writerSubmittedAt in the body never influences the outcome. |
| ArticleController.WorkflowIgnoresDate | src/controller/articleController.js:39-68 | The workflow's outcome is the same whatever date the body carries. |
| ArticleController.WriterOnlyIgnoresPublishAndStatus | src/controller/articleController.js:34-65 | For a writer who is neither manager nor admin, publishLink and status in the body are ignored and the request still succeeds. |
| ArticleController.StatusOnlyReadAsRevision | src/controller/articleController.js:62 | A status other than revision in the body never changes anything. |
| ArticleController.SubmitThenPublishInOneRequest | src/controller/articleController.js:39-59 | A writer-and-manager who sends both links to an unsubmitted article submits and publishes in one request, because the publish check sees the status just written. |
| ArticleController.RevisionOverridesPublish | src/controller/articleController.js:49-65 | When a request both publishes and asks for a revision, the article ends in revision with an empty contentLink, and the publish fields stay written. |
| ArticleController.OnlyAdminsDeleteUnclaimedArticles | src/controller/articleController.js:91-96 | An article without a writer, which is every article created by addTopic, can be deleted by admins only. |
| Schema.ParseRole | src/model/User.js:7-9 | Exactly the three labels admin, writer and manager parse as roles. |
| Schema.RoleLabelRoundTrip | src/model/User.js:9 | Parsing a role's label gives the role back. |
| Schema.FindUserByEmail | src/controller/articleController.js:29 | The user found has the e-mail asked for. None means no user has it. |
| Schema.FindUserById | src/controller/projectController.js:58-60 | The user found has the id asked for. None means no user has it. |
| Schema.FindUserByEmailUnique | src/model/User.js:5 | Under e-mail uniqueness, the lookup finds exactly the user holding that e-mail. |
| Schema.CreateProject | src/model/Project.js:3-11 | A project is refused iff its name is missing or empty or its status is given and is neither ongoing nor paused. Otherwise private is true only when the body says so, the status is the one sent or ongoing by default, and name, word, writer, manager and createdBy come from the body. The stored status always parses. |
| Schema.ParseProjectStatus | src/model/Project.js:7 | Exactly ongoing and paused parse as project statuses, and the parsed status has the label parsed. |
| Schema.ProjectStatusRoundTrip | src/model/Project.js:7 | Parsing a project status's label gives the status back. |
| Schema.ParseMonth | src/model/Topic.js:7 | Exactly the twelve labels Jul-25 … Jun-26 parse as months. |
| Schema.MonthLabelRoundTrip | src/model/Topic.js:7 | Parsing a month's label gives the month back. |
| Schema.ParseArticleStatus | src/model/Article.js:9 | Exactly revision, submitted, published and assigned parse as article statuses. |
| Schema.ArticleStatusRoundTrip | src/model/Article.js:9 | Parsing a status label gives the status back. |
| Schema.ParseTopicStatus | src/model/Topic.js:9 | Exactly pending, assigned and completed parse as topic statuses, and the parsed status has the label parsed. |
| Schema.TopicStatusRoundTrip | src/model/Topic.js:9 | Parsing a topic status's label gives the status back. |
| Schema.NewArticle | src/model/Article.js:3-10 | A new article has the given topic, status assigned unless one is given, no links, dates, writer or publisher, and createdAt = updatedAt = now. |
| TopicController.NewTopic | src/controller/topicController.js:8-14 | The stored topic takes the body's title, keyword, instructions, month and project as sent. Status is the body's label, or assigned when absent. createdBy is the header e-mail, and both timestamps are now. A body that passes the enumerations gives a listed month (or none) and a known status. |
| TopicController.CreatorFromHeader | src/controller/topicController.js:9-10 | The creator is the header's e-mail whatever the body says. |
| TopicController.Patch | src/controller/topicController.js:47-49 | Field by field, each of title, keyword, instructions, month, project, status and createdBy present in the body replaces the topic's, and each absent one keeps the topic's; a month or status label is stored as sent. The timestamps are kept, for the caller to set. |
| TopicController.EmptyPatchKeepsTopic | src/controller/topicController.js:47-49 | A body with no field leaves the topic as it was. |
| TopicController.PatchIdempotent | src/controller/topicController.js:49 | Applying the same body twice is the same as applying it once. |
| TopicController.AddTopicSpec | src/controller/topicController.js:6-29 | The add succeeds iff the body's month and status pass the schema's enumerations and both ids are fresh. A failed enumeration or a clashing topic id is a 500 with nothing inserted. A clashing article id is a 500 after the topic was inserted: the topics gain exactly the new topic and the articles stay as they were. No failure inserts an article. A success inserts exactly the new topic and one article for it with status assigned. |
| TopicController.UpdateTopicSpec | src/controller/topicController.js:44-62 | Any caller may update any topic, and no label is validated. The reply is 404 iff the id is unknown or the patched topic, stamped now, equals the stored one, and the store then stays as it was. A success stores exactly that patched topic. It never crashes. |
| TopicController.TopicRepliesAcceptedIffSuccess | src/controller/topicController.js:24-60 | The client accepts an add or update reply iff it is a success, since failures go out as 404 or 500. |
| TopicController.DeleteTopicSpec | src/controller/topicController.js:65-74 | The topic is removed only when both id and creator match. The reply is Success either way, and articles stay in the store. |
| TopicController.TopicStore.AddTopic | src/controller/topicController.js:6-29 | The imperative handler returns AddTopicSpec's reply and collections. |
| TopicController.TopicStore.UpdateTopic | src/controller/topicController.js:44-62 | The imperative handler returns UpdateTopicSpec's reply and topics. |
| TopicController.TopicStore.DeleteTopic | src/controller/topicController.js:65-74 | The imperative handler returns DeleteTopicSpec's reply and topics. |
| TopicController.AddedArticleLinksTopic | src/controller/topicController.js:14-22 | For a body that passes the enumerations, fresh ids and a store where no article points at the new topic yet, the new article points at the new topic with status assigned, and it is the only article that does. |
| TopicController.UnlistedMonthAddFails | src/controller/topicController.js:14 | An add whose month is not one of the twelve labels, such as "Jul-26", answers 500 and inserts no topic and no article. |
| TopicController.UpdateStoresAnyMonth | src/controller/topicController.js:49 | Once the clock has moved, updating an existing topic with any month succeeds and stores that month. |
| TopicController.RepeatedUpdateIsNotFound | src/controller/topicController.js:49-55 | Sending the same update again at the same time answers 404. |
| TopicController.EmptyUpdateTouchesTime | src/controller/topicController.js:49-55 | An empty body at a new time still modifies the topic's updatedAt, so it succeeds. |
| TopicController.DeleteOthersTopicIsSilentNoOp | src/controller/topicController.js:69-70 | Deleting someone else's topic answers Success and removes nothing. |
| ProjectController.RefEmail | src/controller/projectController.js:58-60 | A reference to a found user gives that user's e-mail. No reference, or one no user has, gives none. |
| ProjectController.Populate | src/controller/projectController.js:58-60 | The name is kept. The writer's and manager's e-mails are those of the users their references find, and none when the reference is missing or dangling. |
| ProjectController.Message | src/controller/projectController.js:8-26 | added, updated and deleted give their three subjects, and every text embeds the name in double quotes. Any other action gives no message. |
| ProjectController.Notification | src/controller/projectController.js:5-47 | One mail per present writer or manager e-mail, the writer's first and the manager's last, each with the action's subject and text. Without a message there are no mails. |
| ProjectController.ApplyProjectBody | src/controller/projectController.js:89 | Field by field, each of name, word, private, status, writer, manager and createdBy present in the body replaces the project's, and each absent one keeps the project's. An empty body changes nothing. No validator runs, so any status label is stored. |
| ProjectController.AddProjectSpec | src/controller/projectController.js:50-68 | The call succeeds iff the id is new, the name is non-empty and the status, if given, is ongoing or paused. A success inserts exactly the new project, with the header e-mail as createdBy, the status sent or ongoing, private only when sent true, and the body's name, word, writer and manager, and notifies with "added". A failure is a status-200 reply that changes nothing and mails no one. |
| ProjectController.UpdateProjectSpec | src/controller/projectController.js:84-101 | An unknown id fails with no change and no mail. Otherwise the body is applied to that project alone, and the notification uses the updated project. |
| ProjectController.DeleteProjectSpec | src/controller/projectController.js:104-124 | A missing id gives "Project not found", with no delete and no notification. Otherwise exactly that project is removed and "deleted" is notified. |
| ProjectController.ProjectStore.SendProjectNotification | src/controller/projectController.js:5-47 | The recipient loop appends exactly Notification's mails to the outbox. |
| ProjectController.ProjectStore.AddProject | src/controller/projectController.js:50-68 | The imperative handler matches AddProjectSpec. |
| ProjectController.ProjectStore.UpdateProject | src/controller/projectController.js:84-101 | The imperative handler matches UpdateProjectSpec. |
| ProjectController.ProjectStore.DeleteProject | src/controller/projectController.js:104-124 | The imperative handler matches DeleteProjectSpec. |
| ProjectController.UnassignedProjectsSendNothing | src/controller/projectController.js:30-43 | A project with neither writer nor manager sends no mail. |
| ProjectController.UpdateNotifiesNewName | src/controller/projectController.js:91-95 | A rename is announced under the new name. |
| ProjectController.UnlistedProjectStatusRefusedOnlyByAdd | src/controller/projectController.js:56-89 | An add with status "archived" inserts nothing and mails no one, while an update of an existing project stores "archived". |
| ProjectController.ProjectRepliesAlwaysAccepted | src/controller/projectController.js:64-66 | Every add, update and delete reply has HTTP status 200, so the client accepts it. A refused add without a name is accepted too. |
| DashboardController.LatestFor | src/controller/dashboardController.js:33-36 | The article kept for a topic is the last in list order whose topic is that topic, and None when there is none. |
| DashboardController.LatestForSnoc | src/controller/dashboardController.js:34-36 | Storing one more article replaces the entry for its own topic and leaves every other topic's entry unchanged. |
| DashboardController.LaterArticleWins | src/controller/dashboardController.js:33-36 | An article later in the list for the same topic replaces an earlier one. |
| DashboardController.BuildArticleMap | src/controller/dashboardController.js:33-36 | The loop's map holds exactly LatestFor for every topic that has an article. |
| DashboardController.NameOrNA | src/controller/dashboardController.js:54-55 | A missing reference, a user that is not found and a user with a missing or empty name all give "N/A". A found user's non-empty name is kept. |
| DashboardController.DashboardRow | src/controller/dashboardController.js:45-68 | Without a project all three names are "N/A". With one, the project name is kept when non-empty and is "N/A" when empty, and the manager and writer names are NameOrNA of its references. Private iff the project exists and is private. Topic and month are the topic's, writerAssignedAt is its createdAt, and the status and dates come from the article, or are None without one. |
| DashboardController.TopicIds | src/controller/dashboardController.js:29 | One id per topic, in topic order. |
| DashboardController.RelevantArticles | src/controller/dashboardController.js:29-30 | The articles whose topic is one of the listed topics, all of them, in list order. |
| DashboardController.LatestForFilter | src/controller/dashboardController.js:29-36 | Filtering the articles by a condition that every article of topic t meets leaves the article matched to t unchanged. |
| DashboardController.RelevantKeepsMatch | src/controller/dashboardController.js:29-36 | For a listed topic, the article matched among the queried articles is the one matched among all articles. |
| DashboardController.ManagedCount | src/controller/dashboardController.js:41 | The number of projects the manager manages: at most the number of projects, 0 iff they manage none, and all of them when they manage every one. |
| DashboardController.DashboardSpec | src/controller/dashboardController.js:6-71 | An unknown caller gets 404. Otherwise there is one row per topic, in topic order, joined to the topic's latest article. The project count is the caller's managed projects for a manager and 0 otherwise. |
| DashboardController.GetDashboardData | src/controller/dashboardController.js:6-71 | The handler, which fills the article map, returns exactly DashboardSpec. |
| DashboardController.RowsOf | src/controller/dashboardController.js:45-67 | One row per topic, in topic order, each built from that topic and its latest relevant article. |
| DashboardController.RowsIndependentOfCaller | src/controller/dashboardController.js:17-69 | Any two known callers get the same rows. |
| DashboardController.TopicWithoutArticle | src/controller/dashboardController.js:46-67 | A topic without an article gets a row with no submitted or published date. |
| ClientAuth.AnyIn | client/src/auth/RoleRoute.jsx:13 | True iff some required role is among the user's roles. |
| ClientAuth.RoleRoute | client/src/auth/RoleRoute.jsx:6-16 | No user gives a redirect to /login. No required roles admits everyone. Otherwise access is granted iff some required role is held, and a denial redirects to /. |
| ClientAuth.RoleRouteMonotone | client/src/auth/RoleRoute.jsx:13-15 | Adding roles to a user never turns a grant into a redirect. |
| Routes.GuardOf | src/route/api.js:42-79 | Each endpoint's guard. Every route with an allow-list needs a session, and the list is never empty. |
| Routes.PublicEndpoints | src/route/api.js:42-43 | /registration and /login need no session. |
| Routes.SessionOnlyEndpoints | src/route/api.js:45-51 | The profile routes and getUserByEmail need a session and no role. |
| Routes.ProjectChangesAdminOnly | src/route/api.js:55-72 | Adding, updating and deleting projects, and viewPublishedArticles, admit a session iff it holds admin. |
| Routes.TopicChangesAdminOrManager | src/route/api.js:63-74 | Topic changes and deleteArticle admit a session iff it holds admin or manager, so a writer may only view topics. |
| Routes.AnyRoleEndpoints | src/route/api.js:50-79 | The list views, updateArticle and getDashboardData admit any session holding at least one role. |
| Routes.AdmitsMonotone | src/route/api.js:50-79 | A session with more roles is never admitted to fewer routes. |
| ArticlesPage.FilterByRole | client/src/pages/Articles.jsx:119-124 | An admin sees all. Otherwise a writer sees the articles of projects they write, then a manager those of projects they manage, and no role sees nothing. The result is always a subsequence. |
| ArticlesPage.WriterRoleWinsOverManager | client/src/pages/Articles.jsx:121-122 | A writer-and-manager who is not an admin gets the writer's narrowing. |
| ArticlesPage.TopicChainIsFilter | client/src/pages/Articles.jsx:250-260 | The chained topic filters equal one filter by their conjunction. |
| ArticlesPage.ArticleChainIsFilter | client/src/pages/Articles.jsx:261-269 | The chained article filters equal one filter by their conjunction. |
| ArticlesPage.FilteredArticlesAreConjunction | client/src/pages/Articles.jsx:247-272 | GetFilteredArticles, the filtered list, is an order-preserving subsequence of the role-narrowed list. It keeps exactly the articles passing every active filter, and equals the narrowed list when none is active. |
| ArticlesPage.EditRightsOnVisibleRows | client/src/pages/Articles.jsx:560-561 | On every row the role filter shows, an admin may edit both links, a writer the content link, and a manager who is not a writer the publish link. A non-admin writer may edit the publish link iff they are a manager and manage that project. |
| ArticlesPage.SanitizeShape | client/src/pages/Articles.jsx:170-179 | Sanitize, the value the edit form stores: a non-empty link becomes its trimmed value with an http:// or https:// prefix, adding https:// if missing. Other fields and empty values pass through. |
| ArticlesPage.SanitizeIdempotent | client/src/pages/Articles.jsx:170-179 | Sanitising twice equals sanitising once. |
| ArticlesPage.SanitizeFixed | client/src/pages/Articles.jsx:172-176 | A trimmed link that already has a prefix is left unchanged. |
| ArticlesPage.HandleEditChange | client/src/pages/Articles.jsx:170-179 | Only the edited field of the edit state changes, to its sanitised value. |
| ArticlesPage.StartEdit | client/src/pages/Articles.jsx:156-163 | The edit state has exactly the keys contentLink, publishLink and status. Each holds the article's value, or "" when it has none, and the status is "" iff the article has none. |
| ArticlesPage.BuildUpdates | client/src/pages/Articles.jsx:215-233 | A writer or admin with a content link sends it and the submission date, and status submitted only when the status is empty or revision. A manager or admin with a publish link sends it, and status published only when the edit status is empty. Neither role sends nothing. |
| ArticlesPage.FindArticle | client/src/pages/Articles.jsx:216 | Seqs.FindFirst on the id. None iff no article has the id. Otherwise an article of the list with that id, and no earlier article has it. |
| Seqs.FindFirst | client/src/pages/Articles.jsx:216 | `find`: None iff no element meets the condition. Otherwise an element of the list that meets it, and no earlier element does. |
| ArticlesPage.SaveChanges | client/src/pages/Articles.jsx:215-236 | Nothing is sent for an id not in the list. Otherwise the fields assigned one by one give exactly BuildUpdates' payload for that article. |
| ArticlesPage.StartEditThenSaveSendsLinksBack | client/src/pages/Articles.jsx:156-233 | Opening an article for editing and saving at once sends its own content link when the user may send one and it is set, and its publish link likewise. No link is sent that the article lacks. Published is asked for iff the user may publish, the article has a publish link and has no status. |
| ArticlesPage.RevisionRequests | client/src/pages/Articles.jsx:194-205 | When the topic is known, its instructions update comes first. The article update always comes last and sets status revision, an empty content link and a blank submission date. |
| ArticlesPage.RevisionSubmit | client/src/pages/Articles.jsx:194-214 | The modal closes iff every planned request is accepted, and then all of them were sent. |
| ArticlesPage.RejectedTopicUpdateStopsRevision | client/src/pages/Articles.jsx:196-205 | The article update is sent iff there is no topic update or it was accepted. A rejected topic update is the only request sent. |
| ArticlesPage.CanRequestRevision | client/src/pages/Articles.jsx:562 | Only a submitted article qualifies, and then exactly for an admin or for a manager who manages its project. |
| ArticlesPage.StatusBadge | client/src/pages/Articles.jsx:136-144 | published→success, submitted→info, revision→warning, approved→primary, and anything else→secondary. |
| ArticlesPage.NoArticleIsApproved | client/src/pages/Articles.jsx:141 | No stored article status gives the primary badge. |
| ArticlesPage.WriterResubmitsRevision | client/src/pages/Articles.jsx:220-226 | A writer resubmitting an article in revision sends status submitted with the link. |
| ArticlesPage.RevisionRequestReachesBackend | client/src/pages/Articles.jsx:201-205 | The revision payload, sent by a manager or admin, leaves the stored article in revision with an empty content link. |
| DashboardPage.AdminCountsSnoc | client/src/pages/Dashboard.jsx:55-82 | The counters over rows + [d] are the counters over rows plus d's own contribution. |
| DashboardPage.CountRow | client/src/pages/Dashboard.jsx:56-81 | One row adds its own contribution to the counters. Due, received-not-published and published together go up by at most 1, as do assigned-this-month and received. The private and public splits never go up by more than their totals. |
| DashboardPage.GetAdminStats | client/src/pages/Dashboard.jsx:38-85 | The counting loop returns exactly the fold of CountRow over the rows. |
| DashboardPage.AdminCountsBounds | client/src/pages/Dashboard.jsx:60-81 | due + received-not-published + published ≤ rows, private + public assigned ≤ assigned this month, private + public received ≤ received, and received-not-published ≤ received. |
| DashboardPage.HandlerRowsArePrivateOrPublic | src/controller/dashboardController.js:53 | Rows built by the backend are all Private or Public, so the splits become equalities. |
| DashboardPage.GetWriterStats | client/src/pages/Dashboard.jsx:88-98 | submitted + due ≤ total assigned and for-revision ≤ submitted. |
| DashboardPage.ProjectNames | client/src/pages/Dashboard.jsx:105 | One project name per row, in order. |
| DashboardPage.GetManagerStats | client/src/pages/Dashboard.jsx:101-112 | projectsAssigned is the server count when non-zero, and otherwise the number of distinct project names among the manager's rows. |
| DashboardPage.KeptProjectCount | client/src/pages/Dashboard.jsx:224-226 | A manager keeps the server's count of projects. Anyone else keeps the initial 0. |
| DashboardPage.GetFilteredData | client/src/pages/Dashboard.jsx:115-133 | An admin gets every row. A manager-only or writer-only user gets the rows matching their name, both roles get the union, and no role gets nothing. The result is always a subsequence. |
| DashboardPage.BothRolesSeeAtLeastEither | client/src/pages/Dashboard.jsx:126-130 | A writer-and-manager who is not an admin sees, in order, every row either role alone would see, so neither count exceeds theirs. |
| DashboardPage.GetCardLink | client/src/pages/Dashboard.jsx:136-156 | "Projects Assigned"→/projects, "Total Content Assigned"→/topics, and every other label→/articles. |
| ReportPage.ReportView | client/src/pages/Report.jsx:10-14 | Only an admin sees the report, and everyone else is sent home. |
| ReportPage.ReportViewIsAdminGuard | client/src/pages/Report.jsx:12-14 | The page's test is the admin-only route guard. |
| ReportPage.ClearFilters | client/src/pages/Report.jsx:122-130 | After clearing, no filter is active. |
| ReportPage.ActiveIffNotCleared | client/src/pages/Report.jsx:122-132 | Filters are active iff they differ from the cleared state. |
| ReportPage.FilteredData | client/src/pages/Report.jsx:49-63 | This is the corrected status test. A row survives iff each non-empty select equals its field and it is in the selected status band. The result is an order-preserving subsequence. |
| ReportPage.FilteredAsWritten | client/src/pages/Report.jsx:49-63 | This is the status test as written. A row survives iff each non-empty select equals its field and, for a status, the row has that status's own date. The result is an order-preserving subsequence. |
| ReportPage.NoFiltersShowAll | client/src/pages/Report.jsx:49-63 | With every select empty all rows are shown. |
| ReportPage.NarrowingNeverGrows | client/src/pages/Report.jsx:50-60 | Setting more selects never shows more rows. |
| ReportPage.Stats | client/src/pages/Report.jsx:66-73 | Each counter is at most total, assigned + submitted ≤ total, and submitted + published ≤ total. |
| ReportPage.AssignedMatchesCounter | client/src/pages/Report.jsx:56-69 | With the corrected filter, choosing "Assigned (Not Submitted)" alone shows exactly as many rows as the assigned counter counts. |
| ReportPage.SubmittedMatchesCounter | client/src/pages/Report.jsx:56-70 | The same holds for "Submitted (Not Published)" and the submitted counter. |
| ReportPage.PublishedMatchesCounter | client/src/pages/Report.jsx:56-71 | The same holds for "Published" and the published counter. |
| ReportPage.AsWrittenStatusKeepsLaterRows | client/src/pages/Report.jsx:56-60 | As written, the assigned and submitted options keep rows already submitted or published. |
| ReportPage.AsWrittenAssignedIsNoOp | client/src/pages/Report.jsx:57 | As written, "assigned" changes nothing on rows the backend builds. |
| ReportPage.PresentValues | client/src/pages/Report.jsx:90-91 | Exactly the non-empty values of the column. |
| ReportPage.Unique | client/src/pages/Report.jsx:90-91 | Each non-empty value of the column exactly once. |
| ReportPage.UniqueInFirstAppearanceOrder | client/src/pages/Report.jsx:90-91 | The options keep the order in which their values first occur in the data, since a Set iterates in insertion order. |
| ReportPage.OfferedOptionShowsARow | client/src/pages/Report.jsx:90-91 | Choosing any offered option of any select alone shows at least one row. |
| TopicsPage.ManagerGetsNoProjectsAsWritten | client/src/pages/Topics.jsx:51 | As written, a manager whose id is a database id gets no project at all. |
| TopicsPage.LoadAsWritten | client/src/pages/Topics.jsx:35-66 | This is the manager comparison as written, by String. Something loads iff there is a user who is a manager or a writer. A manager gets, in order, exactly the projects that pass the String comparison and the topics of projects they manage. A writer who is not a manager gets no projects and the topics of projects they write. |
| TopicsPage.Load | client/src/pages/Topics.jsx:35-66 | This is the corrected manager comparison, by id. A manager, writer or not, gets exactly the projects they manage and the topics of projects they manage, in order. A writer who is not a manager gets no projects and the topics of projects they write. No user or no role loads nothing. |
| TopicsPage.ManagerGetsOwnProjects | client/src/pages/Topics.jsx:50-53 | With the id comparison, each project listed as managed by the manager is loaded. |
| TopicsPage.Set | client/src/pages/Topics.jsx:102 | Only the named field takes the value. |
| TopicsPage.BlogCount | client/src/pages/Topics.jsx:82-83 | The project's word count when it is positive. 0 when the project is not found, or when it is found with no count or a count that is not positive. |
| TopicsPage.BlankInputs | client/src/pages/Topics.jsx:88-96 | Exactly n blank inputs, each with the given month. |
| TopicsPage.SetField | client/src/pages/Topics.jsx:100-104 | Only the given field of the given input changes. An index outside the list changes nothing. |
| TopicsPage.SetFieldLastWins | client/src/pages/Topics.jsx:100-104 | Of two edits of one field the later wins, and retyping the current value changes nothing. |
| TopicsPage.SaveSpec | client/src/pages/Topics.jsx:106-137 | The plan of a save. It alerts and plans nothing without a project, without inputs, or with an input whose title trims to "" or whose month is empty. While editing it plans one update from the first input. Otherwise it plans one add per input, in order, with status assigned. |
| TopicsPage.EditInput | client/src/pages/Topics.jsx:152-161 | The edit input takes the topic's title, keyword, instructions and month, each "" when missing. |
| TopicsPage.AllComplete | client/src/pages/Topics.jsx:112-117 | True iff every input has a non-blank title and a month. |
| TopicsPage.CompleteIsTrimTest | client/src/pages/Topics.jsx:112-117 | An input counts as complete exactly when its title trims to a non-empty string and its month is non-empty. |
| TopicsPage.SendAdds | client/src/pages/Topics.jsx:128-137 | The add loop sends the planned adds up to and including the first rejected one, and reports success iff every add was accepted. |
| TopicsPage.AddRequestsOf | client/src/pages/Topics.jsx:129-136 | As many add requests as inputs; the k-th carries the k-th input's title and month, the project, the creator's e-mail and status assigned. |
| TopicsPage.TopicsForm.HandleProjectChange | client/src/pages/Topics.jsx:74-98 | The empty project clears selection, inputs and editing id. Another project gets BlankInputs(BlogCount). |
| TopicsPage.TopicsForm.HandleInputChange | client/src/pages/Topics.jsx:100-104 | The inputs become SetField of the old inputs, and nothing else changes. |
| TopicsPage.TopicsForm.HandleSave | client/src/pages/Topics.jsx:106-150 | An alert of SaveSpec is returned as it is. Otherwise the requests sent are SaveSpec's up to the first rejected one. The form resets iff every planned request was accepted, and otherwise stays as it was. |
| TopicsPage.TopicsForm.HandleEdit | client/src/pages/Topics.jsx:152-161 | Editing a topic selects its project and fills one input from it. |
| TopicsPage.EditThenSaveSendsTopicBack | client/src/pages/Topics.jsx:121-126 | Saving a topic just opened for editing sends its own fields back in one update. |
| TopicsPage.AddedTopicsAreAssigned | client/src/pages/Topics.jsx:129-136 | Every topic the backend creates from a save is assigned, belongs to the selected project, is credited to the header e-mail, and has its input's title and month. |
| TopicsPage.AddNeedsListedMonth | client/src/pages/Topics.jsx:129-136 | The backend creates the topic of a planned add iff its month is one of the schema's twelve labels and the ids are fresh. Any other month gives a 500 with nothing inserted. |
| TopicsPage.RejectedAddStopsSave | client/src/pages/Topics.jsx:128-137 | When the k-th add is the first rejected one, exactly the first k + 1 adds, those of the first k + 1 inputs, are sent. |
| TopicsPage.ToBody | client/src/pages/Topics.jsx:121-136 | The backend reads every key the page sends as it is sent: title, keyword, instructions, month, status and creator, and the project when one is selected. |
| TopicsPage.CanEditIffBackendDeletes | client/src/pages/Topics.jsx:385 | For a manager, CanEdit (edit and delete offered) holds on exactly the topics the backend's delete, sent with the session e-mail, would remove. |
| TopicsPage.MonthFilter | client/src/pages/Topics.jsx:212-214 | No month keeps all topics, and a month keeps exactly that month's topics, in order. |
| TopicsPage.PresentMonths | client/src/pages/Topics.jsx:180 | Exactly the non-empty months of the topics. |
| TopicsPage.UniqueMonths | client/src/pages/Topics.jsx:179-182 | Each non-empty month of the topics exactly once. |
| TopicsPage.OfferedMonthKeepsATopic | client/src/pages/Topics.jsx:179-214 | Every offered month keeps at least one topic. |
| ProjectsPage.VisibleProjects | client/src/pages/Projects.jsx:39-44 | A manager who is not an admin sees exactly the projects whose manager id is theirs, in order. Everyone else sees all. |
| ProjectsPage.HandleChange | client/src/pages/Projects.jsx:69-82 | Private clears the writer, public sets the fixed public writer, and any other change sets its own field. Nothing else changes. |
| ProjectsPage.PrivateSwitchDecidesWriter | client/src/pages/Projects.jsx:70-75 | The writer follows the switch's last position, and repeating a position changes nothing. |
| ProjectsPage.WriterOptions | client/src/pages/Projects.jsx:215-216 | Exactly the writer-role users, in order, without the public writer when the project is private. |
| ProjectsPage.ManagerOptions | client/src/pages/Projects.jsx:225-240 | Exactly the manager-role users, in order. |
| ProjectsPage.PrivateOptionsNarrowPublic | client/src/pages/Projects.jsx:216 | The private options are among the public ones and no more of them. |
| ProjectsPage.OrUndefined | client/src/pages/Projects.jsx:92-93 | An empty string becomes absent. |
| ProjectsPage.Payload | client/src/pages/Projects.jsx:88-94 | Name, word and flag are copied, and an empty writer or manager is absent. |
| ProjectsPage.ToBody | client/src/pages/Projects.jsx:88-103 | The backend reads the payload's name, word, flag, writer and manager, and no status or creator. |
| ProjectsPage.SubmitRequest | client/src/pages/Projects.jsx:96-103 | An update of the project being edited, otherwise an add. |
| ProjectsPage.EditForm | client/src/pages/Projects.jsx:115-124 | Missing name and word become "" and 0, a missing flag becomes true, and the references become their ids. |
| ProjectsPage.ProjectsForm.Change | client/src/pages/Projects.jsx:69-82 | The form becomes HandleChange of the old form. |
| ProjectsPage.ProjectsForm.HandleSubmit | client/src/pages/Projects.jsx:84-113 | The request is SubmitRequest of the old state. An accepted submit, that is one answered with a 2xx status, resets to the initial form, and a rejected one changes nothing. Project replies are always 200, so a refused add resets the form too. |
| ProjectsPage.ProjectsForm.HandleEdit | client/src/pages/Projects.jsx:115-124 | The form becomes EditForm of the project, which is now being edited. |
| ProjectsPage.ProjectsForm.Cancel | client/src/pages/Projects.jsx:11-18 | Back to the initial form, editing nothing. |
| ProjectsPage.EditThenSubmitSendsProjectBack | client/src/pages/Projects.jsx:88-124 | Editing a project and submitting it unchanged sends its own fields back. |
| ProjectsPage.AddedFromForm | client/src/pages/Projects.jsx:88-103 | The backend creates the project iff it has a name, and it is private as the form says. After a last switch to public, the writer is the public writer. |
| ProjectsPage.Toggle | client/src/pages/Projects.jsx:139-140 | paused→ongoing, anything else→paused. |
| ProjectsPage.ToggleTwice | client/src/pages/Projects.jsx:139-140 | Two toggles restore ongoing or paused, and consecutive toggles never send the same status. |
| ProjectsPage.ToggleRequest | client/src/pages/Projects.jsx:138-147 | The project's own id with status ongoing iff its status was paused, otherwise paused. |
| ProjectsPage.ToggleChangesOnlyStatus | client/src/pages/Projects.jsx:145-147 | The toggle's update changes only the stored project's status, to ongoing if it was paused and to paused otherwise, and that status is one the schema admits. |
| TeamPage.View | client/src/pages/Team.jsx:106-112 | The management view iff the user is an admin, and Access Denied otherwise. |
| TeamPage.FetchesUsers | client/src/pages/Team.jsx:24-27 | The user list is fetched iff the view is shown. |
| TeamPage.ViewIsAdminGuard | client/src/pages/Team.jsx:25 | The page admits exactly whom an admin-only route guard admits. |
| TeamPage.SelectedRoles | client/src/pages/Team.jsx:63 | The ticked known roles, each once, in the fixed order, each accepted by the schema. |
| TeamPage.EditedRolesRoundTrip | client/src/pages/Team.jsx:47-63 | Editing then submitting gives the user's roles restricted to the known ones. A user whose roles are already such a list gets them back unchanged, and no roles give none. |
| TeamPage.Problems | client/src/pages/Team.jsx:139-166 | No message iff the name is filled, the e-mail is filled and well-formed, and in add mode the password is filled. The password message appears only in add mode. |
| TeamPage.SubmitSpec | client/src/pages/Team.jsx:62-92 | No form means no request, and problems mean rejection. Add registers with the password. Edit updates the edited id without a password. A sent payload always has the name and a well-formed e-mail. |
| TeamPage.EditThenSubmitSendsUserBack | client/src/pages/Team.jsx:47-83 | Editing a valid user and submitting at once updates them with their own name, e-mail and roles. |
| TeamPage.TeamForm.Reset | client/src/pages/Team.jsx:50 | Every field is unset, and the mode and id are kept. |
| TeamPage.TeamForm.OpenAdd | client/src/pages/Team.jsx:42-45 | A blank add form. |
| TeamPage.TeamForm.OnEdit | client/src/pages/Team.jsx:47-54 | The edit form for the user, with name, e-mail and one box per known role ticked iff held. |
| TeamPage.TeamForm.Cancel | client/src/pages/Team.jsx:56-60 | No form, nobody edited, every field unset. |
| TeamPage.TeamForm.Enter | client/src/pages/Team.jsx:138-186 | Typing or ticking changes that field alone. |
| TeamPage.TeamForm.OnSubmit | client/src/pages/Team.jsx:62-92 | The submission is SubmitSpec of the old state. The form closes only when a request was sent and accepted. |
| ProfilePage.Problems | client/src/pages/Profile.jsx:82-100 | No message iff the name is filled and the e-mail is filled and well-formed, and each failing rule has its message. |
| ProfilePage.SubmitSpec | client/src/pages/Profile.jsx:37-50 | If a rule fails, the messages. Otherwise an update that always carries name and e-mail, and the password iff it is non-empty. |
| ProfilePage.ProfileForm.Load | client/src/pages/Profile.jsx:12-35 | The first record fills id, name, e-mail and the password or "". Without a record only loading stops. |
| ProfilePage.ProfileForm.Enter | client/src/pages/Profile.jsx:82-116 | Typing changes that field alone. |
| ProfilePage.ProfileForm.OnSubmit | client/src/pages/Profile.jsx:37-50 | The submission is SubmitSpec of the current state. |
| ProfilePage.LoadThenSubmit | client/src/pages/Profile.jsx:24-47 | Loading then submitting unchanged resends any non-empty password the details carried. |
| FormRules.NameError | client/src/pages/Team.jsx:139 | An error iff the name is not filled, with "Name is required". |
| FormRules.RequiredError | client/src/pages/Team.jsx:166 | An error iff the field is not filled, with the given message. |
| FormRules.EmailError | client/src/pages/Team.jsx:149-155 | "Email is required" when empty, "Invalid email format" when not of the form, and none iff filled and the shape holds. |
| FormRules.Messages | client/src/pages/Team.jsx:135 | Exactly the messages present, and none iff every field passes. A single field gives its own message or none. |
| FormRules.MessagesAppend | client/src/pages/Team.jsx:135 | The messages of two lists of fields are those of the first list followed by those of the second, so the messages keep field order and multiplicity. |
| Awaited.FirstRejection | client/src/pages/Topics.jsx:128-137 | The first rejected position among the first n requests, or n when all n were accepted. |
| Awaited.SentUntilRejected | client/src/pages/Topics.jsx:120-149 | The requests sent form a prefix of the plan in which all but the last were accepted. It is the whole plan when everything is accepted, and otherwise ends with a rejected request. |
| Awaited.SentUntilFirstRejection | client/src/pages/Articles.jsx:194-214 | When the k-th request is the first rejected one, exactly the first k + 1 are sent. |
| Awaited.OneRequestIsSent | client/src/pages/Topics.jsx:121-126 | A single awaited request is always sent. |
| ClientLists.JsString | client/src/pages/Topics.jsx:51 | String(v): a string is itself, and an object is "[object Object]". |
| ClientLists.RefId | client/src/pages/Projects.jsx:41 | `ref?._id ∥ ref`: a populated reference's id, and otherwise the reference itself. |
| ClientLists.FindProject | client/src/pages/Topics.jsx:82 | Seqs.FindFirst on the id. None iff no project has it. Otherwise a project of the list with that id, and no earlier project has it. |
| Text.TrimStart | client/src/pages/Articles.jsx:173 | Leading JavaScript whitespace is dropped. |
| Text.TrimEnd | client/src/pages/Articles.jsx:173 | Trailing JavaScript whitespace is dropped. |
| Text.Trim | client/src/pages/Articles.jsx:173 | The result neither starts nor ends with whitespace. |
| Text.TrimIsSlice | client/src/pages/Articles.jsx:173 | What trim keeps is a slice of the string, and only whitespace is cut off on either side. |
| Text.TrimEmptyIffOnlySpace | client/src/pages/Topics.jsx:113 | Trim gives the empty string exactly when every character is whitespace. |
| Text.TrimUnchanged | client/src/pages/Topics.jsx:113 | A string with no whitespace at either end is its own trim. |
| Text.TrimIdempotent | client/src/pages/Articles.jsx:173 | Trimming twice equals trimming once. |
| Text.IncludesSplice | src/controller/projectController.js:14 | The text built around the quoted name includes the name. |
| Text.Lower | client/src/pages/Articles.jsx:251 | Each ASCII upper-case letter becomes its lower-case letter and every other character is kept, so no ASCII upper-case letter remains. The length is kept. |
| Text.LowerIdempotent | client/src/pages/Articles.jsx:251 | Lowering a lowered string changes nothing. |
| Text.EmailPatternMeansShape | client/src/pages/Team.jsx:152 | The pattern matches iff there is no whitespace and there are non-empty parts before "@", between "@" and a later ".", and after it. |
| Text.PatternGivesShape | client/src/pages/Team.jsx:152 | A string the pattern accepts is three non-empty, blank-free parts joined by "@" and ".". |
| Text.ShapeGivesPattern | client/src/pages/Team.jsx:152 | Three non-empty, blank-free parts joined by "@" and "." pass the pattern. |

## Left out

- Persistence: find, populate, save, updateOne, deleteOne and the unique index are map and sequence operations. Mongoose's strict-mode field dropping and its error texts are not modelled, and a library failure is `Crashed(code)`.
- The Authentication and checkRole middleware are assumed to be the session test and the role allow-list. userController (registration, profileUpdate, profileDetails, profileDelete) is not part of this model.
- E-mail sending (sendEmail.js) and the caught send errors: only the recipients, subjects and texts are modelled.
- The Cloudinary upload, handleContentUpload, and every XLSX and CSV export: these are file and network I/O.
- Date formatting (formatDate, formatReadableDate, formatDateWithDiff), getMonths and getDashboardTitle are clock and floating-point code. The first offered month is a parameter, and the calendar month test is a predicate.
- The ISO day truncation in dashboardController.js: dates are opaque naturals.
- The two clock reads of one request are one `now`.
- JWT decoding, AuthContext, localStorage and the axios client: the session user is a parameter.
- API failures are the parameters `accepted` and `answers`; the error message an alert shows is not modelled. Loading spinners and the isUpdating, saving and submitting flags are transient UI state.
- Team.jsx onDelete and the delete handlers of the Topics and Projects pages: window.confirm plus a request that the backend models already cover.
- Articles.jsx option lists (lines 314-324), getUserName and every JSX rendering: display only.
- Aliasing of the shallow copy in Topics.jsx handleInputChange: the copied list shares its input objects with the old state. The model updates a value, so the mutation of the previous state is not captured.
- Keys of the dashboard's article map are topic ids. Object prototype keys such as "__proto__" are not modelled.
- Text.Lower: lowers only the ASCII letters. `toLowerCase` also folds non-ASCII letters ("É" to "é"), and a string model without Unicode case tables cannot state that, so the Articles page search is modelled for ASCII titles and search text only.
- The CastError of a malformed id: every id is a string, and a malformed one is simply not found.
- Concurrency: each handler call is one atomic step.
- Schema.CreateProject: `word` is an optional integer and `private` an optional boolean, so a value Mongoose cannot cast (a word that is not a number), which `create` refuses, cannot be sent; only the name and status validators are modelled.
- ProjectController.AddProjectSpec: for the same reason its refusals are those of a missing or empty name, an unlisted status and a clashing id.
- DashboardPage.GetFilteredData: the e-mail comparisons are left out because the backend rows never carry writerEmail or managerEmail.

## Findings

| source | as written | input that shows it | evidently intended | confidence | as-written member | corrected member |
|---|---|---|---|---|---|---|
| client/src/pages/Topics.jsx:51 | `String(p.manager) === String(user.id)` on a project list whose manager is populated to an object | a manager whose id is a 24-digit database id, with a project they manage: `String` gives "[object Object]", so no project loads | compare the manager's id, as Projects.jsx:41 does with `p.manager?._id \|\| p.manager` | not executed | TopicsPage.ManagerGetsNoProjectsAsWritten | TopicsPage.ManagerGetsOwnProjects |
| client/src/pages/Report.jsx:56-60 | the status filter "assigned" keeps rows with writerAssignedAt and "submitted" keeps rows with writerSubmittedAt | rows the backend builds always have writerAssignedAt, so "Assigned (Not Submitted)" (line 330) shows submitted and published rows too, and "Submitted (Not Published)" shows published rows | each option keeps exactly the rows its label and its counter (lines 69-71) describe | not executed | ReportPage.AsWrittenStatusKeepsLaterRows | ReportPage.AssignedMatchesCounter |
