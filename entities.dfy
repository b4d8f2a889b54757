/** The backend resources the client handles, as the API wrappers type them
  * (app/api/organizationsApi.ts, projectsApi.ts, timesheetsApi.ts, timesheetEntriesApi.ts). */
module Entities {
  import opened Wrappers

  /** A property that may be absent (`undefined`), `null`, or hold a value. */
  datatype Field<+T> = Undefined | Null | Val(value: T)

  datatype Organization = Organization(id: string, name: string)

  datatype Project = Project(id: string, name: string, clientId: Option<string>, isActive: Option<bool>)

  datatype Timesheet = Timesheet(id: string, weekStartDate: string)

  /** The editable part of a timesheet entry. */
  datatype EntryFields = EntryFields(
    projectId: string,
    taskId: Field<string>,
    workDate: string,
    startTime: Field<string>,
    endTime: Field<string>,
    durationMinutes: Field<int>,
    notes: Field<string>)

  datatype TimesheetEntry = TimesheetEntry(id: string, fields: EntryFields)
}
