/**
 * The appointments page (src/pages/Appointments.tsx): the columns of the
 * table and the text each cell is searched by, the global search, the
 * status-driven action and colour rules, the page request and the
 * "Showing X–Y of N" label, and the table state the page keeps.
 * Formatting a date (`format(parseISO(raw), 'EEE dd MMM')`) is not part of this
 * model: it is the parameter `dateLabel`, `None` where date-fns throws.
 */
module Appointments {
  import opened Wrappers
  import opened Text
  import opened Clock

  /** The row type `AppointmentData`. */
  datatype AppointmentData = AppointmentData(
    id: nat, date: string, startTime: string, endTime: string, status: string, doctorFullName: string)

  // Status rules

  /** The class of the status cell. */
  function StatusColor(status: string): (color: string)
    ensures color == "text-green-600" <==> status == "COMPLETED"
    ensures color == "text-red-600" <==> status == "CANCELLED"
    ensures color == "text-yellow-600" <==> status != "COMPLETED" && status != "CANCELLED"
  {
    if status == "COMPLETED" then "text-green-600"
    else if status == "CANCELLED" then "text-red-600"
    else "text-yellow-600"
  }

  /** The two `disabled` flags of the actions cell. */
  datatype ActionState = ActionState(disableOpenMenu: bool, disableCancel: bool)

  function ActionsFor(status: string): (a: ActionState)
    ensures a.disableOpenMenu <==> status == "COMPLETED"
    ensures a.disableCancel <==> status == "CANCELLED"
  {
    ActionState(status == "COMPLETED", status == "CANCELLED")
  }

  /** Never both: a cancelled appointment keeps its menu (and its pay item); a completed one keeps nothing. */
  lemma ActionRules(status: string)
    ensures !(ActionsFor(status).disableOpenMenu && ActionsFor(status).disableCancel)
    ensures status != "COMPLETED" && status != "CANCELLED" ==> ActionsFor(status) == ActionState(false, false)
  {
  }

  // Columns and visibility

  datatype ColumnId = IdCol | DateCol | StartTimeCol | EndTimeCol | DoctorCol | StatusCol | ActionsCol

  /** `columns`, in display order. */
  const Columns: seq<ColumnId> := [IdCol, DateCol, StartTimeCol, EndTimeCol, DoctorCol, StatusCol, ActionsCol]

  /** `enableHiding: false` on `id` and `actions`: the Columns menu lists only the others. */
  predicate CanHide(c: ColumnId) {
    c != IdCol && c != ActionsCol
  }

  /** Every column but `actions` has an accessor, so a value to search. */
  predicate HasAccessor(c: ColumnId) {
    c != ActionsCol
  }

  /** `VisibilityState`: a column is visible unless it is mapped to `false`. */
  predicate IsVisible(visibility: map<ColumnId, bool>, c: ColumnId) {
    c !in visibility || visibility[c]
  }

  const InitialVisibility: map<ColumnId, bool> := map[IdCol := false]

  function VisibleAmong(cols: seq<ColumnId>, visibility: map<ColumnId, bool>): (r: seq<ColumnId>)
    ensures forall c :: c in r <==> c in cols && IsVisible(visibility, c)
  {
    if cols == [] then []
    else (if IsVisible(visibility, cols[0]) then [cols[0]] else []) + VisibleAmong(cols[1..], visibility)
  }

  /** `row.getVisibleCells()`, by column. */
  function VisibleColumns(visibility: map<ColumnId, bool>): seq<ColumnId> {
    VisibleAmong(Columns, visibility)
  }

  /** Ids are not searched by default, and `actions` is always searched. */
  lemma {:induction false} VisibleColumnsIff(visibility: map<ColumnId, bool>, c: ColumnId)
    ensures c in VisibleColumns(visibility) <==> IsVisible(visibility, c)
  {
    AllColumns(c);
  }

  lemma InitialColumns(c: ColumnId)
    ensures IsVisible(InitialVisibility, c) <==> c != IdCol
  {
  }

  lemma AllColumns(c: ColumnId)
    ensures c in Columns
  {
    match c
    case IdCol => assert Columns[0] == c;
    case DateCol => assert Columns[1] == c;
    case StartTimeCol => assert Columns[2] == c;
    case EndTimeCol => assert Columns[3] == c;
    case DoctorCol => assert Columns[4] == c;
    case StatusCol => assert Columns[5] == c;
    case ActionsCol => assert Columns[6] == c;
  }

  // Global search

  /** `format(parse(raw, 'HH:mm:ss', new Date()), 'hh:mm a').toLowerCase()`; `None` where `format` throws. */
  function TimeText(raw: string): (r: Option<string>)
    ensures r.Some? <==> ParseHms(raw).Some?
    ensures r.Some? ==> |r.value| == 8
  {
    match ParseHms(raw)
    case Some(t) => Some(ToLower(Format12(t)))
    case None => None
  }

  /** The text a cell is searched by; `actions` has no value, and `String(undefined)` is "undefined". */
  function CellText(row: AppointmentData, c: ColumnId, dateLabel: string -> Option<string>): Option<string> {
    match c
    case IdCol => Some(NatToString(row.id))
    case DateCol =>
      (match dateLabel(row.date)
       case Some(s) => Some(ToLower(s))
       case None => None)
    case StartTimeCol => TimeText(row.startTime)
    case EndTimeCol => TimeText(row.endTime)
    case DoctorCol => Some(ToLower(row.doctorFullName))
    case StatusCol => Some(ToLower(row.status))
    case ActionsCol => Some("undefined")
  }

  /**
   * `cells.some(...)` from left to right: `Some(true)` at the first cell whose
   * text contains `search`; `None` when a cell reached before that throws.
   */
  function SomeCellMatches(row: AppointmentData, cols: seq<ColumnId>, search: string, dateLabel: string -> Option<string>): Option<bool> {
    if cols == [] then Some(false)
    else
      match CellText(row, cols[0], dateLabel)
      case None => None
      case Some(text) => if Contains(text, search) then Some(true) else SomeCellMatches(row, cols[1..], search, dateLabel)
  }

  /** `globalFilterFn`. */
  function GlobalFilterFn(row: AppointmentData, visibility: map<ColumnId, bool>, filterValue: string, dateLabel: string -> Option<string>): Option<bool> {
    SomeCellMatches(row, VisibleColumns(visibility), ToLower(filterValue), dateLabel)
  }

  /** When no cell throws, a row matches exactly when some searched cell's text contains the search. */
  lemma {:induction false} MatchesIff(row: AppointmentData, cols: seq<ColumnId>, search: string, dateLabel: string -> Option<string>)
    requires forall c :: c in cols ==> CellText(row, c, dateLabel).Some?
    ensures SomeCellMatches(row, cols, search, dateLabel)
         == Some(exists c :: c in cols && Contains(CellText(row, c, dateLabel).value, search))
  {
    if cols != [] {
      MatchesIff(row, cols[1..], search, dateLabel);
      assert forall c :: c in cols <==> c == cols[0] || c in cols[1..];
    }
  }

  lemma {:induction false} LowerCharIdempotent(c: char)
    ensures LowerChar(LowerChar(c)) == LowerChar(c)
  {
  }

  /** Accented capitals are lower-cased too: searching `é` finds `JOSÉ`. */
  lemma AccentedNameFound()
    ensures ToLower("JOSÉ") == "josé" && ToLower("é") == "é"
    ensures Contains(ToLower("JOSÉ"), ToLower("é"))
  {
    assert ToLower("JOSÉ") == "josé";
    assert OccursAt("josé", "é", 3);
  }

  /** Upper and lower case of the search do not matter. */
  lemma {:induction false} SearchIgnoresCase(row: AppointmentData, visibility: map<ColumnId, bool>, filterValue: string, dateLabel: string -> Option<string>)
    ensures GlobalFilterFn(row, visibility, filterValue, dateLabel) == GlobalFilterFn(row, visibility, ToLower(filterValue), dateLabel)
  {
    forall i | 0 <= i < |filterValue|
      ensures ToLower(ToLower(filterValue))[i] == ToLower(filterValue)[i]
    {
      LowerCharIdempotent(filterValue[i]);
    }
    assert ToLower(ToLower(filterValue)) == ToLower(filterValue);
  }

  lemma {:induction false} ContainsChar(hay: string, c: char)
    ensures Contains(hay, [c]) <==> c in hay
  {
    if c in hay {
      var i :| 0 <= i < |hay| && hay[i] == c;
      assert OccursAt(hay, [c], i);
    }
    if Contains(hay, [c]) {
      var i :| 0 <= i <= |hay| - 1 && OccursAt(hay, [c], i);
      assert hay[i] == hay[i..i + 1][0];
    }
  }

  /**
   * The `actions` cell is always visible and always reads "undefined": any search
   * that is part of that word matches every row, whatever the row holds.
   */
  lemma {:induction false} UndefinedMatchesEveryRow(row: AppointmentData, visibility: map<ColumnId, bool>, filterValue: string, dateLabel: string -> Option<string>)
    requires IsVisible(visibility, ActionsCol)
    requires forall c :: CellText(row, c, dateLabel).Some?
    requires Contains("undefined", ToLower(filterValue))
    ensures GlobalFilterFn(row, visibility, filterValue, dateLabel) == Some(true)
  {
    MatchesIff(row, VisibleColumns(visibility), ToLower(filterValue), dateLabel);
    VisibleColumnsIff(visibility, ActionsCol);
  }

  /** A row whose data holds no letter "f". */
  const SampleRow: AppointmentData := AppointmentData(7, "2025-07-26", "13:00:00", "13:00:00", "PENDING", "Ann Lee")

  function SampleDateLabel(raw: string): Option<string> {
    Some("Sat 26 Jul")
  }

  /** Lower-casing brings in no "f" that was not there as "f" or "F". */
  lemma {:induction false} LowerHasNoF(s: string)
    requires 'f' !in s && 'F' !in s
    ensures 'f' !in ToLower(s)
  {
    forall i | 0 <= i < |s|
      ensures ToLower(s)[i] != 'f'
    {
      assert s[i] != 'f' && s[i] != 'F';
    }
  }

  /** A 12-hour label is digits, ':', ' ', and the letters of AM and PM. */
  lemma {:induction false} Format12HasNoF(t: TimeOfDay)
    ensures 'f' !in Format12(t) && 'F' !in Format12(t)
  {
    var s := Format12(t);
    assert s[..2] == Pad2(Hour12(HourOf(t))) && s[3..5] == Pad2(MinuteOf(t)) && s[6..] == Meridiem(HourOf(t));
    forall i | 0 <= i < |s|
      ensures s[i] != 'f' && s[i] != 'F'
    {
      if i < 2 {
        assert s[i] == s[..2][i];
      } else if 3 <= i < 5 {
        assert s[i] == s[3..5][i - 3];
      } else if 6 <= i {
        assert s[i] == s[6..][i - 6];
      }
    }
  }

  lemma SampleTimeParses()
    ensures ParseHms("13:00:00") == Some(13 * 3600)
  {
    assert FormatHms(13 * 3600) == "13:00:00";
    ParseFormatHms(13 * 3600);
  }

  lemma {:induction false} SampleCellsLackF(c: ColumnId)
    requires HasAccessor(c)
    ensures CellText(SampleRow, c, SampleDateLabel).Some?
    ensures 'f' !in CellText(SampleRow, c, SampleDateLabel).value
  {
    match c
    case IdCol =>
      assert NatToString(7) == "7";
    case DateCol =>
      LowerHasNoF("Sat 26 Jul");
    case StartTimeCol =>
      SampleTimeParses();
      Format12HasNoF(13 * 3600);
      LowerHasNoF(Format12(13 * 3600));
    case EndTimeCol =>
      SampleTimeParses();
      Format12HasNoF(13 * 3600);
      LowerHasNoF(Format12(13 * 3600));
    case DoctorCol =>
      LowerHasNoF("Ann Lee");
    case StatusCol =>
      LowerHasNoF("PENDING");
  }

  lemma {:induction false} SampleCellsLackFString(c: ColumnId)
    requires HasAccessor(c)
    ensures CellText(SampleRow, c, SampleDateLabel).Some?
    ensures !Contains(CellText(SampleRow, c, SampleDateLabel).value, "f")
  {
    SampleCellsLackF(c);
    ContainsChar(CellText(SampleRow, c, SampleDateLabel).value, 'f');
    assert [ 'f' ] == "f";
  }

  /**
   * Searching "f" lists the sample row although none of its data contains an
   * "f", under any visibility the page allows (`actions` cannot be hidden).
   */
  lemma {:induction false} SearchingFMatchesSampleRow(visibility: map<ColumnId, bool>)
    requires IsVisible(visibility, ActionsCol)
    ensures GlobalFilterFn(SampleRow, visibility, "f", SampleDateLabel) == Some(true)
    ensures forall c :: HasAccessor(c) ==>
      CellText(SampleRow, c, SampleDateLabel).Some? && !Contains(CellText(SampleRow, c, SampleDateLabel).value, "f")
  {
    forall c | HasAccessor(c)
      ensures CellText(SampleRow, c, SampleDateLabel).Some? && !Contains(CellText(SampleRow, c, SampleDateLabel).value, "f")
    {
      SampleCellsLackFString(c);
    }
    assert ToLower("f") == "f";
    assert OccursAt("undefined", "f", 4);
    UndefinedMatchesEveryRow(SampleRow, visibility, "f", SampleDateLabel);
  }

  function DataColumns(cols: seq<ColumnId>): (r: seq<ColumnId>)
    ensures forall c :: c in r <==> c in cols && HasAccessor(c)
  {
    if cols == [] then []
    else (if HasAccessor(cols[0]) then [cols[0]] else []) + DataColumns(cols[1..])
  }

  /** The search as evidently intended: over the visible cells that have a value. */
  function GlobalFilterIntended(row: AppointmentData, visibility: map<ColumnId, bool>, filterValue: string, dateLabel: string -> Option<string>): Option<bool> {
    SomeCellMatches(row, DataColumns(VisibleColumns(visibility)), ToLower(filterValue), dateLabel)
  }

  /** The intended search lists a row only when one of its visible values contains the search. */
  lemma {:induction false} IntendedMatchesData(row: AppointmentData, visibility: map<ColumnId, bool>, filterValue: string, dateLabel: string -> Option<string>)
    requires forall c :: CellText(row, c, dateLabel).Some?
    ensures GlobalFilterIntended(row, visibility, filterValue, dateLabel) == Some(true) <==>
      exists c :: IsVisible(visibility, c) && HasAccessor(c) && Contains(CellText(row, c, dateLabel).value, ToLower(filterValue))
  {
    var cols := DataColumns(VisibleColumns(visibility));
    MatchesIff(row, cols, ToLower(filterValue), dateLabel);
  }

  /** The intended search does not list the sample row for "f", whatever the visibility. */
  lemma {:induction false} IntendedSkipsSampleRow(visibility: map<ColumnId, bool>)
    ensures GlobalFilterIntended(SampleRow, visibility, "f", SampleDateLabel) == Some(false)
  {
    forall c
      ensures CellText(SampleRow, c, SampleDateLabel).Some?
    {
      if HasAccessor(c) {
        SampleCellsLackF(c);
      }
    }
    forall c | HasAccessor(c)
      ensures !Contains(CellText(SampleRow, c, SampleDateLabel).value, "f")
    {
      SampleCellsLackFString(c);
    }
    assert ToLower("f") == "f";
    MatchesIff(SampleRow, DataColumns(VisibleColumns(visibility)), "f", SampleDateLabel);
  }

  // Rows shown

  /**
   * The rows the table shows for the fetched page (`getFilteredRowModel` with
   * manual pagination): every row while the search is empty, otherwise those
   * the search lists, using the corrected search of GlobalFilterIntended;
   * `None` when a cell throws.
   */
  function ShownRows(data: seq<AppointmentData>, visibility: map<ColumnId, bool>, globalFilter: string, dateLabel: string -> Option<string>): (r: Option<seq<AppointmentData>>)
    ensures globalFilter == "" ==> r == Some(data)
    ensures r.Some? ==> |r.value| <= |data|
    ensures r.Some? ==> forall x :: x in r.value ==> x in data
    ensures r.Some? && globalFilter != "" ==> forall x :: x in r.value ==> GlobalFilterIntended(x, visibility, globalFilter, dateLabel) == Some(true)
  {
    if globalFilter == "" || data == [] then Some(data)
    else
      match GlobalFilterIntended(data[0], visibility, globalFilter, dateLabel)
      case None => None
      case Some(keep) =>
        match ShownRows(data[1..], visibility, globalFilter, dateLabel)
        case None => None
        case Some(rest) => Some(if keep then [data[0]] + rest else rest)
  }

  /** The search is empty or one of the row's visible values contains it. */
  ghost predicate PassesSearch(x: AppointmentData, visibility: map<ColumnId, bool>, globalFilter: string, dateLabel: string -> Option<string>)
    requires forall c :: CellText(x, c, dateLabel).Some?
  {
    globalFilter == "" || exists c :: IsVisible(visibility, c) && HasAccessor(c) && Contains(CellText(x, c, dateLabel).value, ToLower(globalFilter))
  }

  /**
   * When every cell can be read, a row is shown exactly when the search is
   * empty or one of its visible values contains it.
   */
  lemma {:induction false} ShownRowsIff(data: seq<AppointmentData>, visibility: map<ColumnId, bool>, globalFilter: string, dateLabel: string -> Option<string>)
    requires forall x, c :: x in data ==> CellText(x, c, dateLabel).Some?
    ensures ShownRows(data, visibility, globalFilter, dateLabel).Some?
    ensures forall x :: x in ShownRows(data, visibility, globalFilter, dateLabel).value <==>
      x in data && PassesSearch(x, visibility, globalFilter, dateLabel)
  {
    if globalFilter != "" && data != [] {
      var rest := data[1..];
      ShownRowsIff(rest, visibility, globalFilter, dateLabel);
      MatchesIff(data[0], DataColumns(VisibleColumns(visibility)), ToLower(globalFilter), dateLabel);
      IntendedMatchesData(data[0], visibility, globalFilter, dateLabel);
      var keep := GlobalFilterIntended(data[0], visibility, globalFilter, dateLabel).value;
      assert keep <==> PassesSearch(data[0], visibility, globalFilter, dateLabel);
      var shownRest := ShownRows(rest, visibility, globalFilter, dateLabel).value;
      var shown := ShownRows(data, visibility, globalFilter, dateLabel).value;
      assert shown == if keep then [data[0]] + shownRest else shownRest;
      forall x
        ensures x in shown <==> x in data && PassesSearch(x, visibility, globalFilter, dateLabel)
      {
        assert x in data <==> x == data[0] || x in rest;
      }
    }
  }

  /** With the corrected search, the sample row is not listed for "f". */
  lemma {:induction false} SampleRowNotShown(visibility: map<ColumnId, bool>)
    ensures ShownRows([SampleRow], visibility, "f", SampleDateLabel) == Some([])
  {
    IntendedSkipsSampleRow(visibility);
    assert [SampleRow][1..] == [];
  }

  // Page request and range label

  const PagePrefix: string := "/appointment?page="
  const LimitKey: string := "limit="

  /** The path the page fetches: pages are counted from 1 on the server. */
  function PageRequestPath(pageIndex: nat, pageSize: nat): string {
    PagePrefix + NatToString(pageIndex + 1) + "&" + LimitKey + NatToString(pageSize)
  }

  /** The server's reading of a page request, as (pageIndex, pageSize). */
  function ReadPageRequest(path: string): (r: Option<(nat, nat)>)
    ensures r.Some? ==> |path| > |PagePrefix| && path[..|PagePrefix|] == PagePrefix
  {
    if |path| < |PagePrefix| || path[..|PagePrefix|] != PagePrefix then None
    else
      var pieces := Split(path[|PagePrefix|..], '&');
      if |pieces| != 2 then None
      else
        var page := pieces[0];
        var limit := pieces[1];
        if |page| == 0 || !AllDigits(page) || DecimalValue(page) == 0 then None
        else if |limit| <= |LimitKey| || limit[..|LimitKey|] != LimitKey || !AllDigits(limit[|LimitKey|..]) then None
        else Some((DecimalValue(page) - 1, DecimalValue(limit[|LimitKey|..])))
  }

  lemma DigitsHaveNoAmpersand(s: string)
    requires AllDigits(s)
    ensures '&' !in s
  {
  }

  /** The path after its fixed prefix: the page number, `&`, then the limit parameter. */
  lemma PathAfterPrefix(pageIndex: nat, pageSize: nat)
    ensures var path := PageRequestPath(pageIndex, pageSize);
      && |path| > |PagePrefix| && path[..|PagePrefix|] == PagePrefix
      && path[|PagePrefix|..] == NatToString(pageIndex + 1) + ['&'] + (LimitKey + NatToString(pageSize))
  {
    var tail := NatToString(pageIndex + 1) + ['&'] + (LimitKey + NatToString(pageSize));
    assert PageRequestPath(pageIndex, pageSize) == PagePrefix + tail;
  }

  /** The part after the prefix splits at `&` into the page number and the limit parameter. */
  lemma {:induction false} PiecesOfRequest(page: string, limit: string)
    requires AllDigits(page) && '&' !in limit
    ensures Split(page + ['&'] + limit, '&') == [page, limit]
  {
    DigitsHaveNoAmpersand(page);
    SplitAfterPiece(page, '&', limit);
    SplitNoSeparator(limit, '&');
  }

  /** The limit parameter carries the page size after its key. */
  lemma LimitParameter(pageSize: nat)
    ensures var limit := LimitKey + NatToString(pageSize);
      && '&' !in limit && |limit| > |LimitKey| && limit[..|LimitKey|] == LimitKey
      && limit[|LimitKey|..] == NatToString(pageSize)
  {
    DigitsHaveNoAmpersand(NatToString(pageSize));
    assert '&' !in LimitKey;
  }

  /** The request names the page being looked at and its size. */
  lemma {:induction false} PageRequestReadsBack(pageIndex: nat, pageSize: nat)
    ensures ReadPageRequest(PageRequestPath(pageIndex, pageSize)) == Some((pageIndex, pageSize))
  {
    PathAfterPrefix(pageIndex, pageSize);
    LimitParameter(pageSize);
    PiecesOfRequest(NatToString(pageIndex + 1), LimitKey + NatToString(pageSize));
  }

  /** The query key: distinct pages and sizes are cached apart. */
  function QueryKey(pageIndex: nat, pageSize: nat): (r: (string, nat, nat))
    ensures r.0 == "appointments" && r.1 >= 1
  {
    ("appointments", pageIndex + 1, pageSize)
  }

  lemma QueryKeyInjective(i: nat, s: nat, j: nat, t: nat)
    ensures QueryKey(i, s) == QueryKey(j, t) <==> i == j && s == t
  {
  }

  /** The first and last ordinal of the "Showing X–Y of N" label. */
  function ShowingRange(pageIndex: nat, pageSize: nat, rowsOnPage: nat): (r: (nat, nat))
    ensures r.1 + 1 - r.0 == rowsOnPage
    ensures r.0 == pageIndex * pageSize + 1
  {
    (pageIndex * pageSize + 1, pageIndex * pageSize + rowsOnPage)
  }

  /** Consecutive full pages number their rows without gap or overlap. */
  lemma {:induction false} FullPagesAreContiguous(pageIndex: nat, pageSize: nat)
    ensures ShowingRange(pageIndex + 1, pageSize, pageSize).0 == ShowingRange(pageIndex, pageSize, pageSize).1 + 1
  {
    assert (pageIndex + 1) * pageSize == pageIndex * pageSize + pageSize;
  }

  /** An empty page reads "Showing k+1–k": the last ordinal is one less than the first. */
  lemma EmptyPageRange(pageIndex: nat, pageSize: nat)
    ensures ShowingRange(pageIndex, pageSize, 0).1 + 1 == ShowingRange(pageIndex, pageSize, 0).0
  {
  }

  /** The footer text: `total` is `None` until the first response arrives. */
  function ShowingLabel(total: Option<nat>, pageIndex: nat, pageSize: nat, rowsOnPage: nat): (s: string)
    ensures total.None? <==> s == "Loading..."
  {
    match total
    case None => "Loading..."
    case Some(n) =>
      var range := ShowingRange(pageIndex, pageSize, rowsOnPage);
      "Showing " + NatToString(range.0) + "\U{2013}" + NatToString(range.1) + " of " + NatToString(n) + " appointments"
  }

  // Table state

  const DefaultPageSize: nat := 10

  /** `table.getPageCount()`: `totalPages` of the last response, 0 before any. */
  function PageCount(totalPages: Option<int>): int {
    totalPages.GetOr(0)
  }

  /** `getCanNextPage`: -1 means an unknown count, 0 no pages. */
  predicate CanNextPage(pageIndex: nat, pageCount: int) {
    if pageCount == -1 then true
    else if pageCount == 0 then false
    else pageIndex < pageCount - 1
  }

  /** `setPageIndex`: the new index is clamped to `[0, pageCount - 1]`, without an upper end for -1. */
  function ClampPageIndex(index: int, pageCount: int): (r: nat)
    ensures pageCount != -1 && pageCount >= 1 ==> r < pageCount
    ensures 0 <= index && (pageCount == -1 || index < pageCount) ==> r == index
  {
    var upper := if pageCount == -1 then index else pageCount - 1;
    var capped := if index < upper then index else upper;
    if capped < 0 then 0 else capped
  }

  /** The state of the appointments table that the page keeps. */
  class AppointmentsTable {
    var pageIndex: nat
    var pageSize: nat
    var globalFilter: string
    var columnVisibility: map<ColumnId, bool>

    /** Ids stay hidden (they cannot be hidden or shown from the menu) and the page size never changes. */
    predicate Valid()
      reads this
    {
      && IdCol in columnVisibility && !columnVisibility[IdCol]
      && ActionsCol !in columnVisibility
      && pageSize == DefaultPageSize
    }

    constructor()
      ensures Valid()
      ensures pageIndex == 0 && pageSize == 10 && globalFilter == ""
      ensures columnVisibility == InitialVisibility
    {
      pageIndex := 0;
      pageSize := DefaultPageSize;
      globalFilter := "";
      columnVisibility := InitialVisibility;
    }

    /** The request the current page sends. */
    function Request(): (path: string)
      reads this
      ensures ReadPageRequest(path) == Some((pageIndex, pageSize))
    {
      PageRequestReadsBack(pageIndex, pageSize);
      PageRequestPath(pageIndex, pageSize)
    }

    /** Typing in the search box: the page is not reset, since pagination is manual. */
    method SetGlobalFilter(value: string)
      requires Valid()
      modifies this
      ensures Valid()
      ensures globalFilter == value
      ensures pageIndex == old(pageIndex) && columnVisibility == old(columnVisibility)
    {
      globalFilter := value;
    }

    /** `column.toggleVisibility(value)`: only hideable columns change. */
    method ToggleVisibility(c: ColumnId, value: bool)
      requires Valid()
      modifies this
      ensures Valid()
      ensures CanHide(c) ==> columnVisibility == old(columnVisibility)[c := value]
      ensures !CanHide(c) ==> columnVisibility == old(columnVisibility)
      ensures forall d :: d != c ==> IsVisible(columnVisibility, d) == IsVisible(old(columnVisibility), d)
      ensures CanHide(c) ==> IsVisible(columnVisibility, c) == value
      ensures pageIndex == old(pageIndex) && globalFilter == old(globalFilter)
    {
      if CanHide(c) {
        columnVisibility := columnVisibility[c := value];
      }
    }

    /** The Next button: disabled unless a next page exists and nothing is loading. */
    method ClickNext(totalPages: Option<int>, isLoading: bool)
      requires Valid()
      modifies this
      ensures Valid()
      ensures !isLoading && CanNextPage(old(pageIndex), PageCount(totalPages)) ==> pageIndex == old(pageIndex) + 1
      ensures isLoading || !CanNextPage(old(pageIndex), PageCount(totalPages)) ==> pageIndex == old(pageIndex)
      ensures globalFilter == old(globalFilter) && columnVisibility == old(columnVisibility)
    {
      var pageCount := PageCount(totalPages);
      if !isLoading && CanNextPage(pageIndex, pageCount) {
        pageIndex := ClampPageIndex(pageIndex + 1, pageCount);
      }
    }

    /** The Previous button: disabled on the first page and while loading. */
    method ClickPrevious(totalPages: Option<int>, isLoading: bool)
      requires Valid()
      modifies this
      ensures Valid()
      ensures !isLoading && old(pageIndex) > 0 && (PageCount(totalPages) == -1 || old(pageIndex) <= PageCount(totalPages))
        ==> pageIndex == old(pageIndex) - 1
      ensures isLoading || old(pageIndex) == 0 ==> pageIndex == old(pageIndex)
      ensures globalFilter == old(globalFilter) && columnVisibility == old(columnVisibility)
    {
      if !isLoading && pageIndex > 0 {
        pageIndex := ClampPageIndex(pageIndex - 1, PageCount(totalPages));
      }
    }
  }

  /** Starting from a fresh table, a click on Next, when enabled, asks the server for page 2. */
  method NextRequestsPageTwo(totalPages: int) returns (before: string, after: string)
    requires totalPages >= 2
    ensures ReadPageRequest(before) == Some((0, 10))
    ensures ReadPageRequest(after) == Some((1, 10))
  {
    var table := new AppointmentsTable();
    before := table.Request();
    table.ClickNext(Some(totalPages), false);
    after := table.Request();
  }
}
