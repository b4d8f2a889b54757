/** app/composables/useTimesheets.ts: the state behind the weekly timesheet page (the
  * organisation, its projects, the week's timesheet and its editable entry rows) and the
  * actions that load it, add a row, save a row and delete a row. Each API call's answer is
  * a parameter; a rejected call is its `Err`/`Fail`, carrying whatever was thrown. */
module Timesheets {
  import opened Wrappers
  import opened Strings
  import opened Entities
  import opened ErrorMessages
  import opened WeekDates
  import TimesheetsApi
  import Http

  const NoOrganizationError := UiError("No organization", "Create an organization first.", None)
  const MissingDetailsError := UiError("Missing details", "Project and work date are required before saving.", None)

  /** A call made to `timesheetEntriesApi`. */
  datatype EntryCall =
    | CreateEntry(organizationId: string, timesheetId: string, payload: EntryFields)
    | UpdateEntry(organizationId: string, timesheetId: string, entryId: string, payload: EntryFields)
    | RemoveEntry(organizationId: string, timesheetId: string, entryId: string)

  /** A row of the entry table: an entry and its editing state. The code never reassigns a
    * row's `id` or `isNew`. */
  class EntryRow {
    const id: string
    const isNew: bool
    var fields: EntryFields
    var isSaving: bool
    var isDeleting: bool
    var error: Option<UiError>

    /** The draft `addEntryRow` builds. */
    constructor Draft(id: string, workDate: string)
      ensures this.id == id && isNew
      ensures fields == EntryFields("", Null, workDate, Null, Null, Null, Null)
      ensures !isSaving && !isDeleting && error.None?
    {
      this.id := id;
      isNew := true;
      fields := EntryFields("", Null, workDate, Null, Null, Null, Null);
      isSaving := false;
      isDeleting := false;
      error := None;
    }

    /** `{ ...entry, error: null }` for an entry the server returned. */
    constructor FromServer(entry: TimesheetEntry)
      ensures ShowsEntry(this, entry)
    {
      id := entry.id;
      isNew := false;
      fields := entry.fields;
      isSaving := false;
      isDeleting := false;
      error := None;
    }
  }

  /** `row` shows the server's `entry`, with no error and no pending action. */
  predicate ShowsEntry(row: EntryRow, entry: TimesheetEntry)
    reads row
  {
    row.id == entry.id && !row.isNew && row.fields == entry.fields &&
    !row.isSaving && !row.isDeleting && row.error.None?
  }

  /** `rows.map((row) => row.id === id ? updated : row)`: every row with the id is replaced,
    * the others stay in place. */
  function ReplaceById(rows: seq<EntryRow>, id: string, updated: EntryRow): (r: seq<EntryRow>)
    ensures |r| == |rows|
    ensures forall i :: 0 <= i < |rows| && rows[i].id != id ==> r[i] == rows[i]
    ensures forall i :: 0 <= i < |rows| && rows[i].id == id ==> r[i] == updated
    decreases |rows|
  {
    if rows == [] then []
    else [if rows[0].id == id then updated else rows[0]] + ReplaceById(rows[1..], id, updated)
  }

  /** `rows.filter((row) => row.id !== id)`: exactly the rows without the id remain. */
  function RemoveById(rows: seq<EntryRow>, id: string): (r: seq<EntryRow>)
    ensures |r| <= |rows|
    ensures forall i :: 0 <= i < |r| ==> r[i] in rows && r[i].id != id
    ensures forall i :: 0 <= i < |rows| && rows[i].id != id ==> rows[i] in r
    ensures (forall i :: 0 <= i < |rows| ==> rows[i].id != id) ==> r == rows
    decreases |rows|
  {
    if rows == [] then []
    else (if rows[0].id == id then [] else [rows[0]]) + RemoveById(rows[1..], id)
  }

  /** Filtering keeps the order of the rows that remain. */
  lemma {:induction false} RemoveByIdAppend(a: seq<EntryRow>, b: seq<EntryRow>, id: string)
    ensures RemoveById(a + b, id) == RemoveById(a, id) + RemoveById(b, id)
    decreases |a|
  {
    if a == [] {
      assert a + b == b;
    } else {
      assert (a + b)[0] == a[0];
      assert (a + b)[1..] == a[1..] + b;
      RemoveByIdAppend(a[1..], b, id);
    }
  }

  /** `value || null` for an optional string. */
  function OrNull(f: Field<string>): Field<string>
  {
    if f.Val? && f.value != "" then f else Null
  }

  /** A payload as `saveEntry` sends it: nothing is left undefined, and the optional text
    * fields are null rather than empty. */
  predicate IsNormalized(p: EntryFields)
  {
    !p.taskId.Undefined? && !p.durationMinutes.Undefined? &&
    p.startTime == OrNull(p.startTime) && p.endTime == OrNull(p.endTime) && p.notes == OrNull(p.notes)
  }

  /** The payload `saveEntry` builds from a row: `taskId ?? null`; `startTime`, `endTime`
    * and `notes` with `|| null`; `durationMinutes` null when null or undefined, else kept
    * (0 included). The result is normalised, keeps every defined non-empty value, and
    * leaves an already normalised payload as it is. */
  function NormalizePayload(f: EntryFields): (p: EntryFields)
    ensures IsNormalized(p)
    ensures p.projectId == f.projectId && p.workDate == f.workDate
    ensures f.taskId.Val? ==> p.taskId == f.taskId
    ensures f.durationMinutes.Val? ==> p.durationMinutes == f.durationMinutes
    ensures f.startTime.Val? && f.startTime.value != "" ==> p.startTime == f.startTime
    ensures f.endTime.Val? && f.endTime.value != "" ==> p.endTime == f.endTime
    ensures f.notes.Val? && f.notes.value != "" ==> p.notes == f.notes
    ensures !f.taskId.Val? ==> p.taskId == Null
    ensures !f.durationMinutes.Val? ==> p.durationMinutes == Null
    ensures IsNormalized(f) <==> p == f
  {
    EntryFields(
      f.projectId,
      if f.taskId.Undefined? then Null else f.taskId,
      f.workDate,
      OrNull(f.startTime),
      OrNull(f.endTime),
      if f.durationMinutes.Val? then f.durationMinutes else Null,
      OrNull(f.notes))
  }

  /** What `ensureTimesheet` made of the week: the timesheet or the error, and the requests
    * it sent. */
  datatype Ensured = Ensured(result: Result<Timesheet, FetchError>, requests: seq<Http.Request<TimesheetsApi.CreateTimesheetRequest>>)

  /** `ensureTimesheet(organizationId, weekStart)`: the week's timesheets are listed; the
    * first is used when there is one, and only when there is none is one created. */
  function EnsureTimesheet(organizationId: string, weekStart: string,
                           listed: Result<Option<seq<Timesheet>>, FetchError>,
                           created: Result<Timesheet, FetchError>): (e: Ensured)
    ensures 1 <= |e.requests| <= 2
    ensures e.requests[0] == TimesheetsApi.ListRequest(organizationId, Some(TimesheetsApi.ListParams(Some(weekStart))))
    ensures |e.requests| == 2 <==> listed.Ok? && (listed.value.None? || listed.value.value == [])
    ensures |e.requests| == 2 ==>
      e.requests[1] == TimesheetsApi.Create(organizationId, TimesheetsApi.CreateTimesheetRequest(weekStart)) &&
      e.result == created
    ensures listed.Err? ==> e.result == Err(listed.error)
    ensures listed.Ok? && listed.value.Some? && listed.value.value != [] ==> e.result == Ok(listed.value.value[0])
  {
    var list := TimesheetsApi.ListRequest(organizationId, Some(TimesheetsApi.ListParams(Some(weekStart))));
    match listed
    case Err(err) => Ensured(Err(err), [list])
    case Ok(existing) =>
      if existing.Some? && existing.value != [] then Ensured(Ok(existing.value[0]), [list])
      else Ensured(created, [list, TimesheetsApi.Create(organizationId, TimesheetsApi.CreateTimesheetRequest(weekStart))])
  }

  /** `loadEntries`: a row, with no error, for each entry listed, in order. */
  method LoadEntries(list: seq<TimesheetEntry>) returns (rows: seq<EntryRow>)
    ensures |rows| == |list|
    ensures forall i :: 0 <= i < |list| ==> fresh(rows[i]) && ShowsEntry(rows[i], list[i])
  {
    rows := [];
    var i := 0;
    while i < |list|
      invariant 0 <= i <= |list| && |rows| == i
      invariant forall k :: 0 <= k < i ==> fresh(rows[k]) && ShowsEntry(rows[k], list[k])
    {
      var row := new EntryRow.FromServer(list[i]);
      rows := rows + [row];
      i := i + 1;
    }
  }

  /** The answers `loadTimesheet` receives, in the order it asks. */
  datatype LoadResponses = LoadResponses(
    organizations: Result<Option<seq<Organization>>, FetchError>,
    projects: Result<seq<Project>, FetchError>,
    existing: Result<Option<seq<Timesheet>>, FetchError>,
    created: Result<Timesheet, FetchError>,
    entries: Result<seq<TimesheetEntry>, FetchError>)

  /** The organisation `loadTimesheet` settles on: the first one listed. */
  function FirstOrganization(r: LoadResponses): (o: Option<Organization>)
    ensures o.Some? <==> r.organizations.Ok? && r.organizations.value.Some? && r.organizations.value.value != []
    ensures o.Some? ==> o.value == r.organizations.value.value[0]
  {
    if r.organizations.Ok? && r.organizations.value.Some? && r.organizations.value.value != []
    then Some(r.organizations.value.value[0])
    else None
  }

  class TimesheetStore {
    var org: Option<Organization>
    var projects: seq<Project>
    var timesheet: Option<Timesheet>
    var entries: seq<EntryRow>
    var loading: bool
    var error: Option<UiError>
    var weekStartDate: string

    /** `useTimesheets()` on a page opened at `now`; `calendar` gives a local day's year,
      * month and day. The week shown is the one holding `now`, named by its Monday. */
    constructor (now: LocalTime, calendar: int -> CivilDate)
      ensures org.None? && projects == [] && timesheet.None? && entries == []
      ensures loading && error.None?
      ensures weekStartDate == FormatDateForInput(calendar(WeekStartDay(now.day)))
    {
      var start := GetWeekStart(now);
      var text := FormatDateForInput(calendar(start.day));
      weekStartDate := text;
      org := None;
      projects := [];
      timesheet := None;
      entries := [];
      loading := true;
      error := None;
    }

    /** `weekLabel`. */
    function WeekLabel(): (text: string)
      reads this
      ensures |text| == 8 + |weekStartDate|
      ensures text[..8] == "Week of " && text[8..] == weekStartDate
    {
      "Week of " + weekStartDate
    }

    /** Both ids `saveEntry` and `deleteEntry` need are loaded. */
    predicate HasIds()
      reads this
    {
      org.Some? && org.value.id != "" && timesheet.Some? && timesheet.value.id != ""
    }

    /** `loadTimesheet()`, with the two calls `Promise.all` runs made one after the other.
      * The first failure, or an empty organisation list, becomes `error`; whatever was
      * loaded before it stays; `loading` is false on every exit. */
    method LoadTimesheet(responses: LoadResponses)
      modifies this
      ensures !loading && weekStartDate == old(weekStartDate)
      ensures responses.organizations.Err? ==>
        error == Some(ToUiError(responses.organizations.error)) &&
        org == old(org) && projects == old(projects) && timesheet == old(timesheet) && entries == old(entries)
      ensures responses.organizations.Ok? && FirstOrganization(responses).None? ==>
        error == Some(NoOrganizationError) &&
        org == old(org) && projects == old(projects) && timesheet == old(timesheet) && entries == old(entries)
      ensures FirstOrganization(responses).Some? ==> org == FirstOrganization(responses)
      ensures FirstOrganization(responses).Some? && org.value.id == "" ==>
        error.None? && projects == old(projects) && timesheet == old(timesheet) && entries == old(entries)
      ensures FirstOrganization(responses).Some? && org.value.id != "" ==>
        var ensured := EnsureTimesheet(org.value.id, weekStartDate, responses.existing, responses.created);
        && (responses.projects.Err? ==>
              error == Some(ToUiError(responses.projects.error)) &&
              projects == old(projects) && timesheet == old(timesheet) && entries == old(entries))
        && (responses.projects.Ok? && ensured.result.Err? ==>
              error == Some(ToUiError(ensured.result.error)) &&
              projects == old(projects) && timesheet == old(timesheet) && entries == old(entries))
        && (responses.projects.Ok? && ensured.result.Ok? ==>
              projects == responses.projects.value && timesheet == Some(ensured.result.value))
        && (responses.projects.Ok? && ensured.result.Ok? && responses.entries.Err? ==>
              error == Some(ToUiError(responses.entries.error)) && entries == old(entries))
        && (responses.projects.Ok? && ensured.result.Ok? && responses.entries.Ok? ==>
              error.None? && |entries| == |responses.entries.value| &&
              forall i :: 0 <= i < |entries| ==> fresh(entries[i]) && ShowsEntry(entries[i], responses.entries.value[i]))
    {
      loading := true;
      error := None;
      match responses.organizations {
        case Err(e) =>
          error := Some(ToUiError(e));
        case Ok(orgs) =>
          if orgs.None? || orgs.value == [] {
            error := Some(NoOrganizationError);
          } else {
            org := Some(orgs.value[0]);
            if org.value.id != "" {
              var ensured := EnsureTimesheet(org.value.id, weekStartDate, responses.existing, responses.created);
              if responses.projects.Err? {
                error := Some(ToUiError(responses.projects.error));
              } else if ensured.result.Err? {
                error := Some(ToUiError(ensured.result.error));
              } else {
                projects := responses.projects.value;
                timesheet := Some(ensured.result.value);
                if responses.entries.Ok? {
                  entries := LoadEntries(responses.entries.value);
                } else {
                  error := Some(ToUiError(responses.entries.error));
                }
              }
            }
          }
      }
      loading := false;
    }

    /** `addEntryRow()` at time `now` (milliseconds): one draft row for the current week is
      * appended, with id `new-{now}`; the earlier rows are kept as they are. */
    method AddEntryRow(now: nat)
      modifies this
      ensures |entries| == |old(entries)| + 1 && entries[..|old(entries)|] == old(entries)
      ensures var row := entries[|entries| - 1];
        fresh(row) && row.isNew && row.id == "new-" + NatToDecimal(now) &&
        row.fields == EntryFields("", Null, weekStartDate, Null, Null, Null, Null) &&
        row.error.None? && !row.isSaving && !row.isDeleting
      ensures org == old(org) && projects == old(projects) && timesheet == old(timesheet)
      ensures loading == old(loading) && error == old(error) && weekStartDate == old(weekStartDate)
    {
      var draft := new EntryRow.Draft("new-" + NatToDecimal(now), weekStartDate);
      entries := entries + [draft];
    }

    /** `saveEntry(entry)`. Without the organisation and timesheet ids it does nothing;
      * without a project or a work date it flags the row and calls nothing. Otherwise it
      * creates a new row or updates an existing one with the normalised payload; on success
      * every row with the entry's id is replaced by the saved entry, on failure the rows
      * stay and the row shows the error; `isSaving` ends false either way. */
    method SaveEntry(entry: EntryRow, response: Result<TimesheetEntry, FetchError>) returns (call: Option<EntryCall>)
      modifies this, entry
      ensures org == old(org) && projects == old(projects) && timesheet == old(timesheet)
      ensures loading == old(loading) && error == old(error) && weekStartDate == old(weekStartDate)
      ensures entry.fields == old(entry.fields) && entry.isDeleting == old(entry.isDeleting)
      ensures !HasIds() ==>
        call.None? && entries == old(entries) && entry.error == old(entry.error) && entry.isSaving == old(entry.isSaving)
      ensures HasIds() && (entry.fields.projectId == "" || entry.fields.workDate == "") ==>
        call.None? && entries == old(entries) && entry.error == Some(MissingDetailsError) &&
        entry.isSaving == old(entry.isSaving)
      ensures HasIds() && entry.fields.projectId != "" && entry.fields.workDate != "" ==>
        && !entry.isSaving
        && call == Some(
             if entry.isNew then CreateEntry(org.value.id, timesheet.value.id, NormalizePayload(entry.fields))
             else UpdateEntry(org.value.id, timesheet.value.id, entry.id, NormalizePayload(entry.fields)))
        && (response.Err? ==> entries == old(entries) && entry.error == Some(ToUiError(response.error)))
        && (response.Ok? ==>
              entry.error.None? && |entries| == |old(entries)| &&
              (forall i :: 0 <= i < |entries| && old(entries)[i].id != entry.id ==> entries[i] == old(entries)[i]) &&
              (forall i :: 0 <= i < |entries| && old(entries)[i].id == entry.id ==>
                 fresh(entries[i]) && ShowsEntry(entries[i], response.value)))
    {
      call := None;
      if !HasIds() {
        return;
      }
      entry.error := None;
      if entry.fields.projectId == "" || entry.fields.workDate == "" {
        entry.error := Some(MissingDetailsError);
        return;
      }
      entry.isSaving := true;
      var payload := NormalizePayload(entry.fields);
      if entry.isNew {
        call := Some(CreateEntry(org.value.id, timesheet.value.id, payload));
      } else {
        call := Some(UpdateEntry(org.value.id, timesheet.value.id, entry.id, payload));
      }
      if response.Ok? {
        var updated := new EntryRow.FromServer(response.value);
        entries := ReplaceById(entries, entry.id, updated);
      } else {
        entry.error := Some(ToUiError(response.error));
      }
      entry.isSaving := false;
    }

    /** `deleteEntry(entry)`. A row already being deleted is left alone. A new row is
      * dropped locally without any call, even with nothing loaded. An existing row needs
      * both ids; it is removed only after the server confirms, and otherwise shows the
      * error; `isDeleting` ends false either way. */
    method DeleteEntry(entry: EntryRow, response: Outcome<FetchError>) returns (call: Option<EntryCall>)
      modifies this, entry
      ensures org == old(org) && projects == old(projects) && timesheet == old(timesheet)
      ensures loading == old(loading) && error == old(error) && weekStartDate == old(weekStartDate)
      ensures entry.fields == old(entry.fields) && entry.isSaving == old(entry.isSaving)
      ensures old(entry.isDeleting) ==>
        call.None? && entries == old(entries) && entry.error == old(entry.error) && entry.isDeleting
      ensures !old(entry.isDeleting) ==> !entry.isDeleting
      ensures !old(entry.isDeleting) && entry.isNew ==>
        call.None? && entries == RemoveById(old(entries), entry.id) && entry.error.None?
      ensures !old(entry.isDeleting) && !entry.isNew && !HasIds() ==>
        call.None? && entries == old(entries) && entry.error.None?
      ensures !old(entry.isDeleting) && !entry.isNew && HasIds() ==>
        && call == Some(RemoveEntry(org.value.id, timesheet.value.id, entry.id))
        && (response.Pass? ==> entries == RemoveById(old(entries), entry.id) && entry.error.None?)
        && (response.Fail? ==> entries == old(entries) && entry.error == Some(ToUiError(response.error)))
    {
      call := None;
      if entry.isDeleting {
        return;
      }
      entry.error := None;
      if entry.isNew {
        entries := RemoveById(entries, entry.id);
        return;
      }
      if !HasIds() {
        return;
      }
      entry.isDeleting := true;
      call := Some(RemoveEntry(org.value.id, timesheet.value.id, entry.id));
      match response {
        case Pass =>
          entries := RemoveById(entries, entry.id);
        case Fail(e) =>
          entry.error := Some(ToUiError(e));
      }
      entry.isDeleting := false;
    }
  }
}
