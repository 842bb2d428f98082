/**
 * The client's Topics page: which projects and topics a user's roles load,
 * the form a manager fills in to assign topics of a project (one input per
 * piece the project's word count asks for), what a save sends, which topics
 * may be edited, and the month filter.
 */
module TopicsPage {
  import opened Wrappers
  import opened Seqs
  import opened ClientAuth
  import opened ClientLists
  import opened Awaited
  import Text
  import Schema
  import TC = TopicController

  /** The project of a listed topic, populated with name, word, writer and manager; writer and manager stay plain ids. */
  datatype TopicProject = TopicProject(id: string, name: Option<string>, word: Option<int>,
                                       writer: Option<string>, manager: Option<string>)

  /** A topic of the topic list; a topic whose project is gone has none. */
  datatype TopicItem = TopicItem(id: string, title: Option<string>, keyword: Option<string>,
                                 instructions: Option<string>, month: Option<string>,
                                 project: Option<TopicProject>, createdBy: Option<string>)

  // ------------------------------------------------------------ what a user loads

  datatype Loaded = Loaded(projects: seq<ProjectItem>, topics: seq<TopicItem>)

  /** `String(p.manager) === String(user.id)`, on a manager the list has populated. */
  predicate ManagesAsWritten(u: SessionUser, p: ProjectItem) {
    JsString(RefValue(p.manager)) == JsString(OfOption(u.id))
  }

  /** `t.project && String(t.project.manager) === String(user.id)`. */
  predicate TopicManagedBy(u: SessionUser, t: TopicItem) {
    t.project.Some? && JsString(OfOption(t.project.value.manager)) == JsString(OfOption(u.id))
  }

  predicate TopicWrittenBy(u: SessionUser, t: TopicItem) {
    t.project.Some? && JsString(OfOption(t.project.value.writer)) == JsString(OfOption(u.id))
  }

  /**
   * Loading as written. Without a user nothing is loaded; a manager gets the
   * projects that pass the string comparison and the topics of projects they
   * manage; a writer who is not a manager gets no projects and the topics of
   * projects they write; anyone else loads nothing (the lists keep their
   * previous contents).
   */
  function LoadAsWritten(user: Option<SessionUser>, projects: seq<ProjectItem>, topics: seq<TopicItem>)
    : (r: Option<Loaded>)
    ensures r.Some? <==> user.Some? && (IsManager(user.value) || IsWriter(user.value))
    ensures r.Some? && IsManager(user.value) ==>
      && IsSubseq(r.value.projects, projects)
      && (forall i :: 0 <= i < |r.value.projects| ==> ManagesAsWritten(user.value, r.value.projects[i]))
      && (forall i :: 0 <= i < |projects| && ManagesAsWritten(user.value, projects[i]) ==> projects[i] in r.value.projects)
      && r.value.topics == Filter(t => TopicManagedBy(user.value, t), topics)
    ensures r.Some? && !IsManager(user.value) ==>
      r.value.projects == [] && r.value.topics == Filter(t => TopicWrittenBy(user.value, t), topics)
  {
    if user.None? then None
    else if IsManager(user.value) then
      FilterIsSubseq(p => ManagesAsWritten(user.value, p), projects);
      Some(Loaded(Filter(p => ManagesAsWritten(user.value, p), projects), Filter(t => TopicManagedBy(user.value, t), topics)))
    else if IsWriter(user.value) then Some(Loaded([], Filter(t => TopicWrittenBy(user.value, t), topics)))
    else None
  }

  /** An id as the database issues them: 24 hexadecimal digits. */
  predicate IsObjectId(s: string) {
    |s| == 24 && forall i :: 0 <= i < |s| ==> s[i] in "0123456789abcdef"
  }

  /**
   * As written, a manager whose id is a database id never gets a project:
   * the listed manager is an object, which turns into "[object Object]",
   * and an absent or dangling manager into "undefined" or "null".
   */
  lemma ManagerGetsNoProjectsAsWritten(u: SessionUser, projects: seq<ProjectItem>, topics: seq<TopicItem>)
    requires IsManager(u) && u.id.Some? && IsObjectId(u.id.value)
    ensures LoadAsWritten(Some(u), projects, topics).Some?
    ensures LoadAsWritten(Some(u), projects, topics).value.projects == []
  {
    forall p | p in projects ensures !ManagesAsWritten(u, p) {
      assert |JsString(RefValue(p.manager))| != 24 by {
        match p.manager
        case Unset => assert JsString(Undefined) == "undefined";
        case Dangling => assert JsString(Null) == "null";
        case Populated(_, _, _) => assert JsString(Obj) == "[object Object]";
      }
    }
    FilterKeepsNone(p => ManagesAsWritten(u, p), projects);
  }

  /**
   * Loading with the manager compared by id. Without a user nothing is
   * loaded. A manager gets, in list order, exactly the projects whose
   * manager is them and the topics of projects they manage, whether or not
   * they also write; a writer who is not a manager gets no projects and the
   * topics of projects they write; anyone else loads nothing.
   */
  function Load(user: Option<SessionUser>, projects: seq<ProjectItem>, topics: seq<TopicItem>): (r: Option<Loaded>)
    ensures r.Some? <==> user.Some? && (IsManager(user.value) || IsWriter(user.value))
    ensures r.Some? && IsManager(user.value) ==>
      && IsSubseq(r.value.projects, projects) && IsSubseq(r.value.topics, topics)
      && (forall i :: 0 <= i < |r.value.projects| ==> ManagesProject(user.value, r.value.projects[i]))
      && (forall i :: 0 <= i < |projects| && ManagesProject(user.value, projects[i]) ==> projects[i] in r.value.projects)
      && (forall i :: 0 <= i < |r.value.topics| ==> TopicManagedBy(user.value, r.value.topics[i]))
      && (forall i :: 0 <= i < |topics| && TopicManagedBy(user.value, topics[i]) ==> topics[i] in r.value.topics)
    ensures r.Some? && !IsManager(user.value) ==>
      && r.value.projects == [] && IsSubseq(r.value.topics, topics)
      && (forall i :: 0 <= i < |r.value.topics| ==> TopicWrittenBy(user.value, r.value.topics[i]))
      && (forall i :: 0 <= i < |topics| && TopicWrittenBy(user.value, topics[i]) ==> topics[i] in r.value.topics)
  {
    if user.None? then None
    else if IsManager(user.value) then
      FilterIsSubseq(p => ManagesProject(user.value, p), projects);
      FilterIsSubseq(t => TopicManagedBy(user.value, t), topics);
      Some(Loaded(Filter(p => ManagesProject(user.value, p), projects), Filter(t => TopicManagedBy(user.value, t), topics)))
    else if IsWriter(user.value) then
      FilterIsSubseq(t => TopicWrittenBy(user.value, t), topics);
      Some(Loaded([], Filter(t => TopicWrittenBy(user.value, t), topics)))
    else None
  }

  /** With the id comparison a manager gets every project the list shows them as managing. */
  lemma ManagerGetsOwnProjects(u: SessionUser, projects: seq<ProjectItem>, topics: seq<TopicItem>, k: nat)
    requires IsManager(u) && u.id.Some? && IsObjectId(u.id.value)
    requires k < |projects| && projects[k].manager.Populated? && projects[k].manager.id == u.id.value
    ensures projects[k] in Load(Some(u), projects, topics).value.projects
  {
  }

  // ------------------------------------------------------------ the assignment form

  /** One topic input of the form. */
  datatype BlogInput = BlogInput(title: string, keyword: string, instructions: string, month: string)

  datatype InputField = TitleField | KeywordField | InstructionsField | MonthField

  function Get(b: BlogInput, f: InputField): string {
    match f
    case TitleField => b.title
    case KeywordField => b.keyword
    case InstructionsField => b.instructions
    case MonthField => b.month
  }

  /** `input[field] = value`: that field takes the value, the other three keep theirs. */
  function Set(b: BlogInput, f: InputField, v: string): (r: BlogInput)
    ensures Get(r, f) == v
    ensures forall g :: g != f ==> Get(r, g) == Get(b, g)
  {
    match f
    case TitleField => b.(title := v)
    case KeywordField => b.(keyword := v)
    case InstructionsField => b.(instructions := v)
    case MonthField => b.(month := v)
  }

  /**
   * `project?.word || 0` as the bound of the input loop: the project's word
   * count, or none when the project is not in the list, has no count, or has
   * one that is not positive.
   */
  function BlogCount(projects: seq<ProjectItem>, projectId: string): (n: nat)
    ensures FindProject(projects, projectId).None? ==> n == 0
    ensures FindProject(projects, projectId).Some? && FindProject(projects, projectId).value.word.Some? &&
            FindProject(projects, projectId).value.word.value > 0 ==>
      n == FindProject(projects, projectId).value.word.value
    ensures FindProject(projects, projectId).Some? &&
            (FindProject(projects, projectId).value.word.None? || FindProject(projects, projectId).value.word.value <= 0) ==>
      n == 0
  {
    var project := FindProject(projects, projectId);
    if project.Some? && project.value.word.Some? && project.value.word.value > 0 then project.value.word.value else 0
  }

  /** `n` blank inputs, each with the given month selected. */
  function BlankInputs(n: nat, month: string): (r: seq<BlogInput>)
    ensures |r| == n
    ensures forall i :: 0 <= i < n ==> r[i] == BlogInput("", "", "", month)
  {
    seq(n, i => BlogInput("", "", "", month))
  }

  /**
   * handleInputChange on a list of inputs: the one field of the one input
   * changes and nothing else does. An index outside the list throws before
   * the state is set, so the list stays as it was.
   */
  function SetField(inputs: seq<BlogInput>, index: int, f: InputField, v: string): (r: seq<BlogInput>)
    ensures |r| == |inputs|
    ensures forall j :: 0 <= j < |inputs| && j != index ==> r[j] == inputs[j]
    ensures 0 <= index < |inputs| ==> Get(r[index], f) == v
    ensures 0 <= index < |inputs| ==> forall g :: g != f ==> Get(r[index], g) == Get(inputs[index], g)
    ensures !(0 <= index < |inputs|) ==> r == inputs
  {
    if 0 <= index < |inputs| then inputs[index := Set(inputs[index], f, v)] else inputs
  }

  /** Typing a field's current value again changes nothing; of two edits of one field the later wins. */
  lemma SetFieldLastWins(inputs: seq<BlogInput>, index: int, f: InputField, v: string, w: string)
    ensures SetField(SetField(inputs, index, f, v), index, f, w) == SetField(inputs, index, f, w)
    ensures 0 <= index < |inputs| ==> SetField(inputs, index, f, Get(inputs[index], f)) == inputs
  {
    if 0 <= index < |inputs| {
      var b := inputs[index];
      assert Set(Set(b, f, v), f, w) == Set(b, f, w) by {
        assert forall g :: Get(Set(Set(b, f, v), f, w), g) == Get(Set(b, f, w), g);
        FieldsDetermine(Set(Set(b, f, v), f, w), Set(b, f, w));
      }
      FieldsDetermine(Set(b, f, Get(b, f)), b);
      assert SetField(inputs, index, f, Get(inputs[index], f)) == inputs[index := b];
    }
  }

  lemma FieldsDetermine(a: BlogInput, b: BlogInput)
    requires forall g :: Get(a, g) == Get(b, g)
    ensures a == b
  {
    assert Get(a, TitleField) == Get(b, TitleField);
    assert Get(a, KeywordField) == Get(b, KeywordField);
    assert Get(a, InstructionsField) == Get(b, InstructionsField);
    assert Get(a, MonthField) == Get(b, MonthField);
  }

  // ------------------------------------------------------------ what a save sends

  /** The body of an add or update request; `status` is absent from an update. */
  datatype TopicPayload = TopicPayload(title: string, keyword: string, instructions: string, month: string,
                                       project: string, createdBy: Option<string>, status: Option<string>)

  datatype TopicRequest = AddTopicRequest(body: TopicPayload) | UpdateTopicRequest(id: string, body: TopicPayload)

  datatype SaveOutcome = Alerted(message: string) | Sent(requests: seq<TopicRequest>)

  const NoInputs := "Please select a project and fill in the blog details"
  const Incomplete := "Please fill in title and month for all blogs"

  /** An input may be saved when its title is not blank after trimming and a month is chosen. */
  predicate Complete(b: BlogInput) { !Text.OnlySpace(b.title) && b.month != "" }

  /** The test as the page writes it, `!blog.title.trim() || !blog.month`, rejects exactly the incomplete inputs. */
  lemma CompleteIsTrimTest(b: BlogInput)
    ensures Complete(b) <==> Text.Trim(b.title) != "" && b.month != ""
  {
    Text.TrimEmptyIffOnlySpace(b.title);
  }

  function AddPayload(b: BlogInput, project: string, email: Option<string>): TopicPayload {
    TopicPayload(b.title, b.keyword, b.instructions, b.month, project, email, Some("assigned"))
  }

  function UpdatePayload(b: BlogInput, project: string, email: Option<string>): TopicPayload {
    TopicPayload(b.title, b.keyword, b.instructions, b.month, project, email, None)
  }

  /**
   * handleSave. It alerts, and sends nothing, when no project is selected,
   * there is no input, or some input is incomplete. Otherwise, when a topic
   * is being edited, it sends one update of that topic built from the first
   * input alone; when not, one add per input, in order, each with status
   * "assigned", the selected project and the session's e-mail.
   */
  function SaveSpec(selected: string, inputs: seq<BlogInput>, editing: Option<string>, email: Option<string>)
    : (r: SaveOutcome)
    ensures r == Alerted(NoInputs) <==> selected == "" || inputs == []
    ensures r.Alerted? <==> selected == "" || inputs == [] || !AllInputsComplete(inputs)
    ensures r.Alerted? ==> r.message == NoInputs || r.message == Incomplete
    ensures r.Sent? && Schema.Truthy(editing) ==>
      r.requests == [UpdateTopicRequest(editing.value, UpdatePayload(inputs[0], selected, email))]
    ensures r.Sent? && !Schema.Truthy(editing) ==>
      |r.requests| == |inputs| &&
      forall i :: 0 <= i < |inputs| ==> r.requests[i] == AddTopicRequest(AddPayload(inputs[i], selected, email))
  {
    if selected == "" || inputs == [] then Alerted(NoInputs)
    else if !AllInputsComplete(inputs) then Alerted(Incomplete)
    else if Schema.Truthy(editing) then Sent([UpdateTopicRequest(editing.value, UpdatePayload(inputs[0], selected, email))])
    else Sent(AddRequestsOf(inputs, selected, email))
  }

  /** Every input may be saved. */
  predicate AllInputsComplete(inputs: seq<BlogInput>) {
    forall i :: 0 <= i < |inputs| ==> Complete(inputs[i])
  }

  /** One add per input, in order. */
  function AddRequestsOf(inputs: seq<BlogInput>, project: string, email: Option<string>): (rs: seq<TopicRequest>)
    ensures |rs| == |inputs|
    ensures forall i :: 0 <= i < |inputs| ==> rs[i] == AddTopicRequest(AddPayload(inputs[i], project, email))
  {
    seq(|inputs|, i requires 0 <= i < |inputs| => AddTopicRequest(AddPayload(inputs[i], project, email)))
  }

  /** `topic.field || ''`. */
  function OrEmpty(o: Option<string>): string { if o.Some? then o.value else "" }

  /** The single input handleEdit fills from a listed topic. */
  function EditInput(t: TopicItem): (b: BlogInput)
    ensures t.title.Some? ==> b.title == t.title.value
    ensures t.title.None? ==> b.title == ""
    ensures t.keyword.Some? ==> b.keyword == t.keyword.value
    ensures t.keyword.None? ==> b.keyword == ""
    ensures t.instructions.Some? ==> b.instructions == t.instructions.value
    ensures t.instructions.None? ==> b.instructions == ""
    ensures t.month.Some? ==> b.month == t.month.value
    ensures t.month.None? ==> b.month == ""
  {
    BlogInput(OrEmpty(t.title), OrEmpty(t.keyword), OrEmpty(t.instructions), OrEmpty(t.month))
  }

  /** `topic.project?._id || topic.project`, with "" for a topic without project (ids are never empty). */
  function EditProject(t: TopicItem): string {
    if t.project.Some? then t.project.value.id else ""
  }

  /** The validation loop of handleSave. */
  method AllComplete(inputs: seq<BlogInput>) returns (ok: bool)
    ensures ok <==> AllInputsComplete(inputs)
  {
    var i := 0;
    while i < |inputs|
      invariant 0 <= i <= |inputs|
      invariant forall j :: 0 <= j < i ==> Complete(inputs[j])
    {
      if !Complete(inputs[i]) {
        return false;
      }
      i := i + 1;
    }
    return true;
  }

  /**
   * The add loop of handleSave: one awaited request per input, in order.
   * A rejected add throws, so the adds after it are never sent; `ok` says
   * whether every add was accepted.
   */
  method SendAdds(inputs: seq<BlogInput>, project: string, email: Option<string>, answers: seq<bool>)
    returns (sent: seq<TopicRequest>, ok: bool)
    ensures sent == SentUntilRejected(AddRequestsOf(inputs, project, email), answers)
    ensures ok <==> AllAccepted(answers, |inputs|)
  {
    ghost var plan := AddRequestsOf(inputs, project, email);
    sent := [];
    var k := 0;
    while k < |inputs|
      invariant 0 <= k <= |inputs|
      invariant sent == plan[..k]
      invariant AllAccepted(answers, k)
    {
      sent := sent + [AddTopicRequest(AddPayload(inputs[k], project, email))];
      assert sent == plan[..k + 1];
      if !Accepted(answers, k) {
        SentUntilFirstRejection(plan, answers, k);
        return sent, false;
      }
      k := k + 1;
    }
    assert plan[..k] == plan;
    return sent, true;
  }

  /**
   * The last three pieces of the page state and the handlers that change
   * them. The project and topic lists and the month selection are separate.
   */
  class TopicsForm {
    var selectedProjectId: string
    var blogInputs: seq<BlogInput>
    var editingTopicId: Option<string>

    constructor ()
      ensures selectedProjectId == "" && blogInputs == [] && editingTopicId == None
    {
      selectedProjectId := "";
      blogInputs := [];
      editingTopicId := None;
    }

    /** `firstMonth` is the first of the three months the page offers, which depends on the current date. */
    method HandleProjectChange(projects: seq<ProjectItem>, projectId: string, firstMonth: string)
      modifies this
      ensures projectId == "" ==> selectedProjectId == "" && blogInputs == [] && editingTopicId == None
      ensures projectId != "" ==>
        && selectedProjectId == projectId && editingTopicId == None
        && blogInputs == BlankInputs(BlogCount(projects, projectId), firstMonth)
    {
      if projectId == "" {
        selectedProjectId := "";
        blogInputs := [];
        editingTopicId := None;
        return;
      }
      var project := FindProject(projects, projectId);
      var blogCount: int := if project.Some? && project.value.word.Some? && project.value.word.value != 0
                            then project.value.word.value else 0;
      selectedProjectId := projectId;
      editingTopicId := None;
      var newInputs: seq<BlogInput> := [];
      var i := 0;
      while i < blogCount
        invariant 0 <= i && (blogCount >= 0 ==> i <= blogCount) && (blogCount < 0 ==> i == 0)
        invariant newInputs == BlankInputs(i, firstMonth)
        decreases blogCount - i
      {
        newInputs := newInputs + [BlogInput("", "", "", firstMonth)];
        i := i + 1;
      }
      assert i == BlogCount(projects, projectId);
      blogInputs := newInputs;
    }

    method HandleInputChange(index: int, field: InputField, value: string)
      modifies this
      ensures blogInputs == SetField(old(blogInputs), index, field, value)
      ensures selectedProjectId == old(selectedProjectId) && editingTopicId == old(editingTopicId)
    {
      if 0 <= index < |blogInputs| {
        var newInputs := blogInputs;
        newInputs := newInputs[index := Set(newInputs[index], field, value)];
        blogInputs := newInputs;
      }
    }

    /**
     * `email` is the session's e-mail and `answers` the backend's answers to
     * the requests in the order they are sent. The save sends the planned
     * requests up to the first rejected one, and resets the form only when
     * every one of them was accepted.
     */
    method HandleSave(email: Option<string>, answers: seq<bool>) returns (outcome: SaveOutcome)
      modifies this
      ensures var plan := SaveSpec(old(selectedProjectId), old(blogInputs), old(editingTopicId), email);
        outcome == (if plan.Alerted? then plan else Sent(SentUntilRejected(plan.requests, answers)))
      ensures var plan := SaveSpec(old(selectedProjectId), old(blogInputs), old(editingTopicId), email);
        plan.Sent? && AllAccepted(answers, |plan.requests|) ==>
          selectedProjectId == "" && blogInputs == [] && editingTopicId == None
      ensures var plan := SaveSpec(old(selectedProjectId), old(blogInputs), old(editingTopicId), email);
        !(plan.Sent? && AllAccepted(answers, |plan.requests|)) ==>
          selectedProjectId == old(selectedProjectId) && blogInputs == old(blogInputs) &&
          editingTopicId == old(editingTopicId)
    {
      if selectedProjectId == "" || |blogInputs| == 0 {
        return Alerted(NoInputs);
      }
      var complete := AllComplete(blogInputs);
      if !complete {
        return Alerted(Incomplete);
      }
      var sent: seq<TopicRequest>;
      var ok: bool;
      if Schema.Truthy(editingTopicId) {
        var update := UpdateTopicRequest(editingTopicId.value, UpdatePayload(blogInputs[0], selectedProjectId, email));
        OneRequestIsSent(update, answers);
        sent, ok := [update], Accepted(answers, 0);
      } else {
        sent, ok := SendAdds(blogInputs, selectedProjectId, email, answers);
      }
      outcome := Sent(sent);
      if ok {
        selectedProjectId := "";
        blogInputs := [];
        editingTopicId := None;
      }
    }

    method HandleEdit(t: TopicItem)
      modifies this
      ensures editingTopicId == Some(t.id) && selectedProjectId == EditProject(t) && blogInputs == [EditInput(t)]
    {
      editingTopicId := Some(t.id);
      selectedProjectId := EditProject(t);
      blogInputs := [EditInput(t)];
    }
  }

  /**
   * Saving a topic just opened for editing sends back its own title,
   * keyword, instructions and month in a single update, provided it has a
   * project, a title and a month.
   */
  lemma EditThenSaveSendsTopicBack(t: TopicItem, email: Option<string>)
    requires t.id != "" && t.project.Some? && t.project.value.id != ""
    requires t.title.Some? && Text.Trim(t.title.value) != "" && t.month.Some? && t.month.value != ""
    ensures SaveSpec(EditProject(t), [EditInput(t)], Some(t.id), email)
         == Sent([UpdateTopicRequest(t.id, TopicPayload(t.title.value, OrEmpty(t.keyword), OrEmpty(t.instructions),
                                                        t.month.value, t.project.value.id, email, None))])
  {
    CompleteIsTrimTest(EditInput(t));
  }

  /** The body the backend reads from a request of the page: every key the page sends, as sent. */
  function ToBody(p: TopicPayload): (b: TC.TopicBody)
    ensures b.title == Some(p.title) && b.keyword == Some(p.keyword) && b.instructions == Some(p.instructions)
    ensures b.month == Some(p.month) && b.status == p.status && b.createdBy == p.createdBy
    ensures p.project != "" ==> b.project == Some(p.project)
    ensures p.project == "" ==> b.project.None?
  {
    TC.TopicBody(Some(p.title), Some(p.keyword), Some(p.instructions), Some(p.month),
                 if p.project != "" then Some(p.project) else None,
                 p.status, p.createdBy)
  }

  /**
   * Every topic the adds of a save create is assigned, belongs to the
   * selected project and is credited to the sender's header e-mail, whatever
   * e-mail the page put in the body.
   */
  lemma AddedTopicsAreAssigned(selected: string, inputs: seq<BlogInput>, email: Option<string>,
                               header: string, now: Schema.Stamp, i: nat)
    requires SaveSpec(selected, inputs, None, email).Sent? && i < |inputs|
    ensures var r := SaveSpec(selected, inputs, None, email).requests[i];
      r.AddTopicRequest? &&
      var t := TC.NewTopic(ToBody(r.body), header, now);
      t.status == "assigned" && t.project == Some(selected) && t.createdBy == Some(header) &&
      t.title == Some(inputs[i].title) && t.month == Some(inputs[i].month)
  {
  }

  /**
   * A save that gets a rejection stops there: the inputs after the first
   * rejected add are never sent, and the form keeps them.
   */
  lemma RejectedAddStopsSave(selected: string, inputs: seq<BlogInput>, email: Option<string>,
                             answers: seq<bool>, k: nat)
    requires SaveSpec(selected, inputs, None, email).Sent?
    requires k < |inputs| && AllAccepted(answers, k) && !Accepted(answers, k)
    ensures var sent := SentUntilRejected(SaveSpec(selected, inputs, None, email).requests, answers);
      |sent| == k + 1 && forall i :: 0 <= i < |sent| ==> sent[i] == AddTopicRequest(AddPayload(inputs[i], selected, email))
  {
    SentUntilFirstRejection(SaveSpec(selected, inputs, None, email).requests, answers, k);
  }

  /**
   * The backend creates the topic of an add only when its month is one of
   * the schema's twelve labels; any other month the page offers, such as
   * "Jul-26", ends in a validation error with nothing inserted.
   */
  lemma AddNeedsListedMonth(selected: string, inputs: seq<BlogInput>, email: Option<string>, i: nat,
                            topics: map<Schema.Id, Schema.Topic>, articles: map<Schema.Id, Schema.Article>,
                            header: string, topicId: Schema.Id, articleId: Schema.Id, now: Schema.Stamp)
    requires SaveSpec(selected, inputs, None, email).Sent? && i < |inputs|
    ensures var r := SaveSpec(selected, inputs, None, email).requests[i];
      var out := TC.AddTopicSpec(topics, articles, ToBody(r.body), header, topicId, articleId, now);
      (out.0.Success? <==> inputs[i].month in Schema.MonthLabels && topicId !in topics && articleId !in articles) &&
      (inputs[i].month !in Schema.MonthLabels ==> out == (Schema.Crashed(500), topics, articles))
  {
    var r := SaveSpec(selected, inputs, None, email).requests[i];
    assert ToBody(r.body).status == Some("assigned");
  }

  // ------------------------------------------------------------ edit rights and the month filter

  /** `isManager && topic.createdBy === user.email`; a session without e-mail holds null, which no creator equals. */
  predicate CanEdit(u: SessionUser, t: TopicItem) {
    IsManager(u) && u.email.Some? && t.createdBy == u.email
  }

  /**
   * For a manager, the page offers edit and delete on exactly the topics
   * the backend's delete, sent with the session's e-mail, removes.
   */
  lemma CanEditIffBackendDeletes(u: SessionUser, t: TopicItem, topics: map<Schema.Id, Schema.Topic>)
    requires IsManager(u) && u.email.Some?
    requires t.id in topics && topics[t.id].createdBy == t.createdBy
    ensures CanEdit(u, t) <==> TC.DeleteTopicSpec(topics, t.id, u.email.value).1 == topics - {t.id}
  {
    if !CanEdit(u, t) {
      assert t.id in topics && t.id !in topics - {t.id};
    }
  }

  function MonthIs(month: string): TopicItem -> bool { (t: TopicItem) => t.month == Some(month) }

  /** The month selection: none keeps every topic; a month keeps, in order, exactly the topics of that month. */
  function MonthFilter(topics: seq<TopicItem>, selectedMonth: string): (r: seq<TopicItem>)
    ensures selectedMonth == "" ==> r == topics
    ensures IsSubseq(r, topics)
    ensures selectedMonth != "" ==>
      (forall i :: 0 <= i < |r| ==> r[i].month == Some(selectedMonth)) &&
      (forall i :: 0 <= i < |topics| && topics[i].month == Some(selectedMonth) ==> topics[i] in r)
  {
    if selectedMonth == "" then
      SubseqRefl(topics);
      topics
    else
      FilterIsSubseq(MonthIs(selectedMonth), topics);
      Filter(MonthIs(selectedMonth), topics)
  }

  function PresentMonths(topics: seq<TopicItem>): (ms: seq<string>)
    ensures forall m :: m in ms <==> m != "" && exists i :: 0 <= i < |topics| && topics[i].month == Some(m)
    decreases |topics|
  {
    if topics == [] then []
    else
      var rest := PresentMonths(topics[1..]);
      assert forall i :: 0 <= i < |topics| - 1 ==> topics[1..][i] == topics[i + 1];
      if topics[0].month.Some? && topics[0].month.value != "" then [topics[0].month.value] + rest else rest
  }

  /** The months the filter offers: each non-empty month of the topics once, in order of first appearance. */
  function UniqueMonths(topics: seq<TopicItem>): (ms: seq<string>)
    ensures NoDup(ms)
    ensures forall m :: m in ms <==> m != "" && exists i :: 0 <= i < |topics| && topics[i].month == Some(m)
  {
    Dedup(PresentMonths(topics))
  }

  /** Every month offered keeps at least one topic. */
  lemma OfferedMonthKeepsATopic(topics: seq<TopicItem>, m: string)
    requires m in UniqueMonths(topics)
    ensures MonthFilter(topics, m) != []
  {
    var i :| 0 <= i < |topics| && topics[i].month == Some(m);
    assert topics[i] in MonthFilter(topics, m);
  }
}
