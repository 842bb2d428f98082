/**
 * The decision logic of the client's Dashboard page over the rows the
 * dashboard handler sends: the admin counters (one pass over the rows), the
 * writer and manager counters, which rows a user's roles select, and where
 * each card links.
 *
 * The rows never carry `writerEmail` or `managerEmail`, and the session's
 * e-mail is a string or null, never undefined, so the page's comparisons of
 * those absent fields with the e-mail never hold and do not appear below.
 */
module DashboardPage {
  import opened Wrappers
  import opened Seqs
  import opened ClientAuth
  import opened DashboardController
  import Schema

  // ------------------------------------------------------------ admin counters

  datatype AdminStats = AdminStats(
    assignedThisMonth: nat, privateAssigned: nat, publicAssigned: nat,
    received: nat, privateReceived: nat, publicReceived: nat,
    published: nat, dueContent: nat, receivedNotPublished: nat)

  /** `inThisMonth` tells whether an instant falls in the current month and year of the browser's clock. */
  predicate AssignedThisMonth(inThisMonth: Schema.Stamp -> bool, d: Row) {
    d.writerAssignedAt.Some? && inThisMonth(d.writerAssignedAt.value)
  }
  predicate IsPrivate(d: Row) { d.projectType == "Private" }
  predicate IsPublic(d: Row) { d.projectType == "Public" }
  predicate Received(d: Row) { d.writerSubmittedAt.Some? }
  predicate IsPublished(d: Row) { d.publishedAt.Some? }
  predicate Due(d: Row) { d.writerAssignedAt.Some? && d.writerSubmittedAt.None? && d.publishedAt.None? }
  predicate ReceivedNotPublished(d: Row) { d.writerSubmittedAt.Some? && d.publishedAt.None? }

  /** Each admin counter is the number of rows with its property. */
  function AdminCounts(inThisMonth: Schema.Stamp -> bool, data: seq<Row>): AdminStats {
    AdminStats(
      |Filter(d => AssignedThisMonth(inThisMonth, d), data)|,
      |Filter(d => AssignedThisMonth(inThisMonth, d) && IsPrivate(d), data)|,
      |Filter(d => AssignedThisMonth(inThisMonth, d) && IsPublic(d), data)|,
      |Filter(Received, data)|,
      |Filter(d => Received(d) && IsPrivate(d), data)|,
      |Filter(d => Received(d) && IsPublic(d), data)|,
      |Filter(IsPublished, data)|,
      |Filter(Due, data)|,
      |Filter(ReceivedNotPublished, data)|)
  }

  function Bump(b: bool, n: nat): nat { if b then n + 1 else n }

  /** The counters after one more row: each whose property the row has goes up by one. */
  function Tally(inThisMonth: Schema.Stamp -> bool, a: AdminStats, x: Row): AdminStats {
    var m := AssignedThisMonth(inThisMonth, x);
    AdminStats(
      Bump(m, a.assignedThisMonth), Bump(m && IsPrivate(x), a.privateAssigned), Bump(m && IsPublic(x), a.publicAssigned),
      Bump(Received(x), a.received), Bump(Received(x) && IsPrivate(x), a.privateReceived),
      Bump(Received(x) && IsPublic(x), a.publicReceived), Bump(IsPublished(x), a.published),
      Bump(Due(x), a.dueContent), Bump(ReceivedNotPublished(x), a.receivedNotPublished))
  }

  lemma AdminCountsSnoc(inThisMonth: Schema.Stamp -> bool, s: seq<Row>, x: Row)
    ensures AdminCounts(inThisMonth, s + [x]) == Tally(inThisMonth, AdminCounts(inThisMonth, s), x)
  {
    FilterSnoc(d => AssignedThisMonth(inThisMonth, d), s, x);
    FilterSnoc(d => AssignedThisMonth(inThisMonth, d) && IsPrivate(d), s, x);
    FilterSnoc(d => AssignedThisMonth(inThisMonth, d) && IsPublic(d), s, x);
    FilterSnoc(Received, s, x);
    FilterSnoc(d => Received(d) && IsPrivate(d), s, x);
    FilterSnoc(d => Received(d) && IsPublic(d), s, x);
    FilterSnoc(IsPublished, s, x);
    FilterSnoc(Due, s, x);
    FilterSnoc(ReceivedNotPublished, s, x);
  }

  /** The body of the `forEach` in getAdminStats for one row. */
  method CountRow(inThisMonth: Schema.Stamp -> bool, stats: AdminStats, item: Row) returns (next: AdminStats)
    ensures next == Tally(inThisMonth, stats, item)
    ensures next.dueContent + next.receivedNotPublished + next.published
         <= stats.dueContent + stats.receivedNotPublished + stats.published + 1
    ensures next.privateAssigned + next.publicAssigned + stats.assignedThisMonth
         <= stats.privateAssigned + stats.publicAssigned + next.assignedThisMonth
    ensures next.privateReceived + next.publicReceived + stats.received
         <= stats.privateReceived + stats.publicReceived + next.received
    ensures next.assignedThisMonth <= stats.assignedThisMonth + 1 && next.received <= stats.received + 1
  {
    next := stats;
    var isThisMonthAssigned := item.writerAssignedAt.Some? && inThisMonth(item.writerAssignedAt.value);
    var isPrivate := item.projectType == "Private";
    var isPublic := item.projectType == "Public";
    if isThisMonthAssigned {
      next := next.(assignedThisMonth := next.assignedThisMonth + 1);
      if isPrivate { next := next.(privateAssigned := next.privateAssigned + 1); }
      if isPublic { next := next.(publicAssigned := next.publicAssigned + 1); }
    }
    if item.writerSubmittedAt.Some? {
      next := next.(received := next.received + 1);
      if isPrivate { next := next.(privateReceived := next.privateReceived + 1); }
      if isPublic { next := next.(publicReceived := next.publicReceived + 1); }
    }
    if item.publishedAt.Some? {
      next := next.(published := next.published + 1);
    }
    if item.writerAssignedAt.Some? && item.writerSubmittedAt.None? && item.publishedAt.None? {
      next := next.(dueContent := next.dueContent + 1);
    }
    if item.writerSubmittedAt.Some? && item.publishedAt.None? {
      next := next.(receivedNotPublished := next.receivedNotPublished + 1);
    }
  }

  /** getAdminStats: nine counters, all zero at first, updated row by row. */
  method GetAdminStats(inThisMonth: Schema.Stamp -> bool, data: seq<Row>) returns (stats: AdminStats)
    ensures stats == AdminCounts(inThisMonth, data)
  {
    stats := AdminStats(0, 0, 0, 0, 0, 0, 0, 0, 0);
    var i := 0;
    while i < |data|
      invariant 0 <= i <= |data|
      invariant stats == AdminCounts(inThisMonth, data[..i])
    {
      stats := CountRow(inThisMonth, stats, data[i]);
      AdminCountsSnoc(inThisMonth, data[..i], data[i]);
      assert data[..i + 1] == data[..i] + [data[i]];
      i := i + 1;
    }
    assert data[..i] == data;
  }

  /**
   * The relations between the admin counters: due, received-not-published
   * and published never overlap; the private and public parts never exceed
   * their totals and make them up exactly when every row is private or
   * public; what is received and not published is part of what is received.
   */
  lemma AdminCountsBounds(inThisMonth: Schema.Stamp -> bool, data: seq<Row>)
    ensures var a := AdminCounts(inThisMonth, data);
      && a.dueContent + a.receivedNotPublished + a.published <= |data|
      && a.privateAssigned + a.publicAssigned <= a.assignedThisMonth
      && a.privateReceived + a.publicReceived <= a.received
      && a.receivedNotPublished <= a.received
      && a.assignedThisMonth <= |data|
    ensures (forall i :: 0 <= i < |data| ==> IsPrivate(data[i]) || IsPublic(data[i])) ==>
      var a := AdminCounts(inThisMonth, data);
      a.privateAssigned + a.publicAssigned == a.assignedThisMonth &&
      a.privateReceived + a.publicReceived == a.received
  {
    CountDisjoint3(Due, ReceivedNotPublished, IsPublished, data);
    CountSplit(d => AssignedThisMonth(inThisMonth, d) && IsPrivate(d), d => AssignedThisMonth(inThisMonth, d) && IsPublic(d),
               d => AssignedThisMonth(inThisMonth, d) && (IsPrivate(d) || IsPublic(d)), data);
    CountMono(d => AssignedThisMonth(inThisMonth, d) && (IsPrivate(d) || IsPublic(d)),
              d => AssignedThisMonth(inThisMonth, d), data);
    CountSplit(d => Received(d) && IsPrivate(d), d => Received(d) && IsPublic(d),
               d => Received(d) && (IsPrivate(d) || IsPublic(d)), data);
    CountMono(d => Received(d) && (IsPrivate(d) || IsPublic(d)), Received, data);
    CountMono(ReceivedNotPublished, Received, data);
    if forall i :: 0 <= i < |data| ==> IsPrivate(data[i]) || IsPublic(data[i]) {
      FilterExt(d => AssignedThisMonth(inThisMonth, d) && (IsPrivate(d) || IsPublic(d)),
                d => AssignedThisMonth(inThisMonth, d), data);
      FilterExt(d => Received(d) && (IsPrivate(d) || IsPublic(d)), Received, data);
    }
  }

  /** Rows from the dashboard handler are always private or public, so the splits are exact for them. */
  lemma HandlerRowsArePrivateOrPublic(t: Schema.Topic, projects: map<Schema.Id, Schema.Project>,
                                      users: seq<Schema.User>, a: Option<Schema.Article>)
    ensures IsPrivate(DashboardRow(t, projects, users, a)) || IsPublic(DashboardRow(t, projects, users, a))
  {
  }

  // ------------------------------------------------------------ writer and manager counters

  /** `item.writerName === user.email || item.writerName === user.name`. */
  predicate MineAsWriter(u: SessionUser, d: Row) { u.email == Some(d.writerName) || u.name == Some(d.writerName) }
  predicate MineAsManager(u: SessionUser, d: Row) { u.email == Some(d.managerName) || u.name == Some(d.managerName) }

  datatype WriterStats = WriterStats(totalAssigned: nat, submitted: nat, dueContent: nat, forRevision: nat)

  predicate Submitted(d: Row) { d.writerSubmittedAt.Some? }
  predicate Pending(d: Row) { d.writerAssignedAt.Some? && d.writerSubmittedAt.None? }
  predicate ForRevision(d: Row) { d.writerSubmittedAt.Some? && d.status == Some("revision") }

  /**
   * getWriterStats over the writer's rows: submitted and due never overlap
   * and so never exceed the rows assigned, and a revision is counted only
   * among submitted rows.
   */
  function GetWriterStats(u: SessionUser, data: seq<Row>): (r: WriterStats)
    ensures r.submitted + r.dueContent <= r.totalAssigned
    ensures r.forRevision <= r.submitted
    ensures r.totalAssigned <= |data|
  {
    var writerData := Filter(d => MineAsWriter(u, d), data);
    CountDisjoint2(Submitted, Pending, writerData);
    CountMono(ForRevision, Submitted, writerData);
    WriterStats(|writerData|, |Filter(Submitted, writerData)|, |Filter(Pending, writerData)|,
                |Filter(ForRevision, writerData)|)
  }

  datatype ManagerStats = ManagerStats(projectsAssigned: nat, totalContentAssigned: nat, contentReceived: nat, dueContent: nat)

  /** The count the page keeps: the server's, when the user is a manager and it is non-zero; 0 otherwise. */
  function KeptProjectCount(u: SessionUser, serverCount: nat): (kept: nat)
    ensures IsManager(u) ==> kept == serverCount
    ensures !IsManager(u) ==> kept == 0
  {
    if IsManager(u) && serverCount != 0 then serverCount else 0
  }

  function ProjectNames(rows: seq<Row>): (names: seq<string>)
    ensures |names| == |rows| && forall i :: 0 <= i < |rows| ==> names[i] == rows[i].project
  {
    seq(|rows|, i requires 0 <= i < |rows| => rows[i].project)
  }

  /**
   * getManagerStats over the manager's rows. The projects count is the kept
   * server count when it is non-zero and otherwise the number of distinct
   * project names among those rows, which is at most the number of rows.
   */
  function GetManagerStats(u: SessionUser, data: seq<Row>, kept: nat): (r: ManagerStats)
    ensures kept != 0 ==> r.projectsAssigned == kept
    ensures kept == 0 ==>
      r.projectsAssigned == |Dedup(ProjectNames(Filter(d => MineAsManager(u, d), data)))| &&
      r.projectsAssigned <= r.totalContentAssigned
    ensures r.contentReceived + r.dueContent <= r.totalContentAssigned
    ensures r.totalContentAssigned <= |data|
  {
    var managerData := Filter(d => MineAsManager(u, d), data);
    var projects := Dedup(ProjectNames(managerData));
    CountDisjoint2(Submitted, Pending, managerData);
    ManagerStats(if kept != 0 then kept else |projects|, |managerData|,
                 |Filter(Submitted, managerData)|, |Filter(Pending, managerData)|)
  }

  // ------------------------------------------------------------ rows a user sees

  /**
   * getFilteredData. Admins get every row; a manager who is not a writer the
   * rows naming them as manager; a writer who is not a manager those naming
   * them as writer; someone with both roles the rows naming them either way;
   * a user with neither role nothing. The order of the rows is kept.
   */
  function GetFilteredData(u: SessionUser, data: seq<Row>): (r: seq<Row>)
    ensures IsAdmin(u) ==> r == data
    ensures IsSubseq(r, data)
    ensures !IsAdmin(u) && IsManager(u) && !IsWriter(u) ==>
      (forall i :: 0 <= i < |r| ==> MineAsManager(u, r[i])) &&
      (forall i :: 0 <= i < |data| && MineAsManager(u, data[i]) ==> data[i] in r)
    ensures !IsAdmin(u) && IsWriter(u) && !IsManager(u) ==>
      (forall i :: 0 <= i < |r| ==> MineAsWriter(u, r[i])) &&
      (forall i :: 0 <= i < |data| && MineAsWriter(u, data[i]) ==> data[i] in r)
    ensures !IsAdmin(u) && IsWriter(u) && IsManager(u) ==>
      (forall i :: 0 <= i < |r| ==> MineAsManager(u, r[i]) || MineAsWriter(u, r[i])) &&
      (forall i :: 0 <= i < |data| && (MineAsManager(u, data[i]) || MineAsWriter(u, data[i])) ==> data[i] in r)
    ensures !IsAdmin(u) && !IsWriter(u) && !IsManager(u) ==> r == []
  {
    if IsAdmin(u) then
      SubseqRefl(data);
      data
    else if IsManager(u) && !IsWriter(u) then
      FilterIsSubseq(d => MineAsManager(u, d), data);
      Filter(d => MineAsManager(u, d), data)
    else if IsWriter(u) && !IsManager(u) then
      FilterIsSubseq(d => MineAsWriter(u, d), data);
      Filter(d => MineAsWriter(u, d), data)
    else if IsManager(u) && IsWriter(u) then
      FilterIsSubseq(d => MineAsManager(u, d) || MineAsWriter(u, d), data);
      Filter(d => MineAsManager(u, d) || MineAsWriter(u, d), data)
    else []
  }

  /**
   * Holding both roles selects at least the rows either role alone would:
   * the rows a manager alone sees, and those a writer alone sees, appear
   * among them in the same order.
   */
  lemma BothRolesSeeAtLeastEither(u: SessionUser, data: seq<Row>)
    requires !IsAdmin(u) && IsWriter(u) && IsManager(u)
    ensures IsSubseq(Filter(d => MineAsManager(u, d), data), GetFilteredData(u, data))
    ensures IsSubseq(Filter(d => MineAsWriter(u, d), data), GetFilteredData(u, data))
    ensures |Filter(d => MineAsManager(u, d), data)| <= |GetFilteredData(u, data)|
    ensures |Filter(d => MineAsWriter(u, d), data)| <= |GetFilteredData(u, data)|
  {
    FilterMonoSubseq(d => MineAsManager(u, d), d => MineAsManager(u, d) || MineAsWriter(u, d), data);
    FilterMonoSubseq(d => MineAsWriter(u, d), d => MineAsManager(u, d) || MineAsWriter(u, d), data);
    CountMono(d => MineAsManager(u, d), d => MineAsManager(u, d) || MineAsWriter(u, d), data);
    CountMono(d => MineAsWriter(u, d), d => MineAsManager(u, d) || MineAsWriter(u, d), data);
  }

  // ------------------------------------------------------------ card links

  /** The manager's two overview cards lead to projects and topics; every other card to the articles. */
  function GetCardLink(card: string): (path: string)
    ensures card == "Projects Assigned" ==> path == "/projects"
    ensures card == "Total Content Assigned" ==> path == "/topics"
    ensures card != "Projects Assigned" && card != "Total Content Assigned" ==> path == "/articles"
  {
    if card == "Projects Assigned" then "/projects"
    else if card == "Total Content Assigned" then "/topics"
    else "/articles"
  }
}
