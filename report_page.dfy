/**
 * The client's Report page: an admin-only view of every dashboard row, with
 * five select filters, four counters over the filtered rows and the options
 * each select offers.
 */
module ReportPage {
  import opened Wrappers
  import opened Seqs
  import opened ClientAuth
  import opened DashboardController

  /** The page is shown to admins only; anyone else is sent to the home page. */
  function ReportView(user: Option<SessionUser>): (r: Outcome)
    ensures r == Render <==> user.Some? && IsAdmin(user.value)
    ensures r != Render ==> r == RedirectHome
  {
    if user.Some? && IsAdmin(user.value) then Render else RedirectHome
  }

  /** What an admin gets is what the route guard would grant an admin-only page. */
  lemma ReportViewIsAdminGuard(u: SessionUser)
    ensures ReportView(Some(u)) == RoleRoute(Some(u), ["admin"])
  {
    if IsAdmin(u) {
      assert ["admin"][0] in u.roles;
    }
  }

  // ------------------------------------------------------------ filters

  /** The five selects; "" is "All". */
  datatype ReportFilters = ReportFilters(project: string, manager: string, writer: string, month: string, status: string)

  const NoFilters := ReportFilters("", "", "", "", "")

  /** `Object.values(filters).some(f => f !== '')`. */
  predicate HasActiveFilters(f: ReportFilters) {
    f.project != "" || f.manager != "" || f.writer != "" || f.month != "" || f.status != ""
  }

  /** The Clear button's state. */
  function ClearFilters(): (f: ReportFilters)
    ensures !HasActiveFilters(f)
  {
    ReportFilters("", "", "", "", "")
  }

  lemma ActiveIffNotCleared(f: ReportFilters)
    ensures HasActiveFilters(f) <==> f != ClearFilters()
  {
  }

  /** The three per-row conditions the counters count, and which the status options name. */
  predicate AssignedOnly(d: Row) { d.writerAssignedAt.Some? && d.writerSubmittedAt.None? }
  predicate SubmittedOnly(d: Row) { d.writerSubmittedAt.Some? && d.publishedAt.None? }
  predicate PublishedRow(d: Row) { d.publishedAt.Some? }

  /**
   * The row test as the page writes it: each non-empty select must match
   * the row's value; a status only asks for the presence of its own date.
   */
  predicate KeepAsWritten(f: ReportFilters, d: Row) {
    if f.project != "" && d.project != f.project then false
    else if f.manager != "" && d.managerName != f.manager then false
    else if f.writer != "" && d.writerName != f.writer then false
    else if f.month != "" && d.month != Some(f.month) then false
    else if f.status == "assigned" && d.writerAssignedAt.None? then false
    else if f.status == "submitted" && d.writerSubmittedAt.None? then false
    else if f.status == "published" && d.publishedAt.None? then false
    else true
  }

  /**
   * The row test with each status meaning what its option says ("Assigned
   * (Not Submitted)", "Submitted (Not Published)", "Published"), that is,
   * the same condition as the counter of that name.
   */
  predicate Keep(f: ReportFilters, d: Row) {
    if f.project != "" && d.project != f.project then false
    else if f.manager != "" && d.managerName != f.manager then false
    else if f.writer != "" && d.writerName != f.writer then false
    else if f.month != "" && d.month != Some(f.month) then false
    else if f.status == "assigned" && !AssignedOnly(d) then false
    else if f.status == "submitted" && !SubmittedOnly(d) then false
    else if f.status == "published" && !PublishedRow(d) then false
    else true
  }

  function KeepsAsWritten(f: ReportFilters): Row -> bool { d => KeepAsWritten(f, d) }
  function Keeps(f: ReportFilters): Row -> bool { d => Keep(f, d) }

  /**
   * The rows shown as written: in their order, exactly those matching every
   * non-empty select, where a status only asks for its own date.
   */
  function FilteredAsWritten(f: ReportFilters, data: seq<Row>): (r: seq<Row>)
    ensures IsSubseq(r, data)
    ensures forall i :: 0 <= i < |r| ==>
      && (f.project != "" ==> r[i].project == f.project)
      && (f.manager != "" ==> r[i].managerName == f.manager)
      && (f.writer != "" ==> r[i].writerName == f.writer)
      && (f.month != "" ==> r[i].month == Some(f.month))
      && (f.status == "assigned" ==> r[i].writerAssignedAt.Some?)
      && (f.status == "submitted" ==> r[i].writerSubmittedAt.Some?)
      && (f.status == "published" ==> r[i].publishedAt.Some?)
    ensures forall i :: 0 <= i < |data| ==>
      (f.project == "" || data[i].project == f.project) &&
      (f.manager == "" || data[i].managerName == f.manager) &&
      (f.writer == "" || data[i].writerName == f.writer) &&
      (f.month == "" || data[i].month == Some(f.month)) &&
      (f.status != "assigned" || data[i].writerAssignedAt.Some?) &&
      (f.status != "submitted" || data[i].writerSubmittedAt.Some?) &&
      (f.status != "published" || data[i].publishedAt.Some?)
      ==> data[i] in r
  {
    FilterIsSubseq(KeepsAsWritten(f), data);
    Filter(KeepsAsWritten(f), data)
  }

  /**
   * The rows shown: in their order, exactly those matching every non-empty
   * select. An unknown status value imposes nothing.
   */
  function FilteredData(f: ReportFilters, data: seq<Row>): (r: seq<Row>)
    ensures IsSubseq(r, data)
    ensures forall i :: 0 <= i < |r| ==>
      && (f.project != "" ==> r[i].project == f.project)
      && (f.manager != "" ==> r[i].managerName == f.manager)
      && (f.writer != "" ==> r[i].writerName == f.writer)
      && (f.month != "" ==> r[i].month == Some(f.month))
      && (f.status == "assigned" ==> AssignedOnly(r[i]))
      && (f.status == "submitted" ==> SubmittedOnly(r[i]))
      && (f.status == "published" ==> PublishedRow(r[i]))
    ensures forall i :: 0 <= i < |data| ==>
      (f.project == "" || data[i].project == f.project) &&
      (f.manager == "" || data[i].managerName == f.manager) &&
      (f.writer == "" || data[i].writerName == f.writer) &&
      (f.month == "" || data[i].month == Some(f.month)) &&
      (f.status != "assigned" || AssignedOnly(data[i])) &&
      (f.status != "submitted" || SubmittedOnly(data[i])) &&
      (f.status != "published" || PublishedRow(data[i]))
      ==> data[i] in r
  {
    FilterIsSubseq(Keeps(f), data);
    Filter(Keeps(f), data)
  }

  /** Without an active select every row is shown. */
  lemma NoFiltersShowAll(f: ReportFilters, data: seq<Row>)
    requires !HasActiveFilters(f)
    ensures FilteredData(f, data) == data
  {
    FilterKeepsAll(Keeps(f), data);
  }

  /** `f2` selects at least what `f1` selects (every select `f1` sets, `f2` sets the same way). */
  predicate Narrows(f2: ReportFilters, f1: ReportFilters) {
    && (f1.project == "" || f2.project == f1.project)
    && (f1.manager == "" || f2.manager == f1.manager)
    && (f1.writer == "" || f2.writer == f1.writer)
    && (f1.month == "" || f2.month == f1.month)
    && (f1.status == "" || f2.status == f1.status)
  }

  /** Choosing more never shows more rows. */
  lemma NarrowingNeverGrows(f1: ReportFilters, f2: ReportFilters, data: seq<Row>)
    requires Narrows(f2, f1)
    ensures |FilteredData(f2, data)| <= |FilteredData(f1, data)|
  {
    CountMono(Keeps(f2), Keeps(f1), data);
  }

  // ------------------------------------------------------------ counters

  datatype ReportStats = ReportStats(total: nat, assignedCount: nat, submittedCount: nat, publishedCount: nat)

  /**
   * The counters over the shown rows. Assigned-and-not-submitted and
   * submitted-and-not-published never overlap, nor do the latter and
   * published, so neither pair exceeds the total. (An admin may publish an
   * article nobody submitted, so the first and the last can overlap.)
   */
  function Stats(rows: seq<Row>): (s: ReportStats)
    ensures s.total == |rows|
    ensures s.assignedCount + s.submittedCount <= s.total
    ensures s.submittedCount + s.publishedCount <= s.total
  {
    CountDisjoint2(AssignedOnly, SubmittedOnly, rows);
    CountDisjoint2(SubmittedOnly, PublishedRow, rows);
    ReportStats(|rows|, |Filter(AssignedOnly, rows)|, |Filter(SubmittedOnly, rows)|, |Filter(PublishedRow, rows)|)
  }

  /** Choosing a status shows exactly the rows its counter counts, under the same other selects. */
  lemma AssignedMatchesCounter(f: ReportFilters, data: seq<Row>)
    ensures |FilteredData(f.(status := "assigned"), data)| == Stats(FilteredData(f.(status := ""), data)).assignedCount
  {
    FilterFusion(AssignedOnly, Keeps(f.(status := "")), Keeps(f.(status := "assigned")), data);
  }

  lemma SubmittedMatchesCounter(f: ReportFilters, data: seq<Row>)
    ensures |FilteredData(f.(status := "submitted"), data)| == Stats(FilteredData(f.(status := ""), data)).submittedCount
  {
    FilterFusion(SubmittedOnly, Keeps(f.(status := "")), Keeps(f.(status := "submitted")), data);
  }

  lemma PublishedMatchesCounter(f: ReportFilters, data: seq<Row>)
    ensures |FilteredData(f.(status := "published"), data)| == Stats(FilteredData(f.(status := ""), data)).publishedCount
  {
    FilterFusion(PublishedRow, Keeps(f.(status := "")), Keeps(f.(status := "published")), data);
  }

  /**
   * As written, "Assigned (Not Submitted)" keeps a row that has been
   * submitted, and "Submitted (Not Published)" one that has been published.
   */
  lemma AsWrittenStatusKeepsLaterRows(d: Row)
    requires d.writerAssignedAt.Some? && d.writerSubmittedAt.Some? && d.publishedAt.Some?
    ensures KeepAsWritten(NoFilters.(status := "assigned"), d) && !AssignedOnly(d)
    ensures KeepAsWritten(NoFilters.(status := "submitted"), d) && !SubmittedOnly(d)
    ensures !Keep(NoFilters.(status := "assigned"), d) && !Keep(NoFilters.(status := "submitted"), d)
  {
  }

  /**
   * Every dashboard row carries its assignment date, so as written the
   * "assigned" status changes nothing at all.
   */
  lemma AsWrittenAssignedIsNoOp(f: ReportFilters, data: seq<Row>)
    requires forall i :: 0 <= i < |data| ==> data[i].writerAssignedAt.Some?
    ensures FilteredAsWritten(f.(status := "assigned"), data) == FilteredAsWritten(f.(status := ""), data)
  {
    forall x | x in data ensures KeepAsWritten(f.(status := "assigned"), x) == KeepAsWritten(f.(status := ""), x) {
      var i :| 0 <= i < |data| && data[i] == x;
    }
    FilterExt(KeepsAsWritten(f.(status := "assigned")), KeepsAsWritten(f.(status := "")), data);
  }

  // ------------------------------------------------------------ options

  datatype Column = ProjectColumn | ManagerColumn | WriterColumn | MonthColumn

  function ValueOf(d: Row, c: Column): Option<string> {
    match c
    case ProjectColumn => Some(d.project)
    case ManagerColumn => Some(d.managerName)
    case WriterColumn => Some(d.writerName)
    case MonthColumn => d.month
  }

  function WithColumn(f: ReportFilters, c: Column, v: string): ReportFilters {
    match c
    case ProjectColumn => f.(project := v)
    case ManagerColumn => f.(manager := v)
    case WriterColumn => f.(writer := v)
    case MonthColumn => f.(month := v)
  }

  function PresentValues(data: seq<Row>, c: Column): (vs: seq<string>)
    ensures forall v :: v in vs <==> exists i :: 0 <= i < |data| && ValueOf(data[i], c) == Some(v) && v != ""
    decreases |data|
  {
    if data == [] then []
    else
      var rest := PresentValues(data[1..], c);
      assert forall i :: 0 <= i < |data| - 1 ==> data[1..][i] == data[i + 1];
      var v := ValueOf(data[0], c);
      if v.Some? && v.value != "" then [v.value] + rest else rest
  }

  /**
   * `unique(key)`: the non-empty values of a column, each once, in the order
   * they first appear.
   */
  function Unique(data: seq<Row>, c: Column): (vs: seq<string>)
    ensures NoDup(vs)
    ensures forall v :: v in vs <==> v != "" && exists i :: 0 <= i < |data| && ValueOf(data[i], c) == Some(v)
  {
    Dedup(PresentValues(data, c))
  }

  /** The options come in the order in which their values first occur in the data. */
  lemma UniqueInFirstAppearanceOrder(data: seq<Row>, c: Column)
    ensures forall i, j :: 0 <= i < j < |Unique(data, c)| ==>
      FirstIndex(PresentValues(data, c), Unique(data, c)[i]) < FirstIndex(PresentValues(data, c), Unique(data, c)[j])
  {
    DedupFirstOccurrenceOrder(PresentValues(data, c));
  }

  /** Each option a select offers, chosen alone, shows at least one row. */
  lemma OfferedOptionShowsARow(data: seq<Row>, c: Column, v: string)
    requires v in Unique(data, c)
    ensures FilteredData(WithColumn(NoFilters, c, v), data) != []
  {
    var i :| 0 <= i < |data| && ValueOf(data[i], c) == Some(v);
    assert Keep(WithColumn(NoFilters, c, v), data[i]);
  }
}
