/** The calendar provider's event record, as far as the import and bulk-delete code read it. */
module CalendarApi {
  import opened Base

  /** An event listed by the calendar provider; every field but the id may be missing. */
  datatype RemoteEvent = RemoteEvent(id: string, summary: Option<string>, startDateTime: Option<string>,
                                     description: Option<string>)

  /** The marker every imported event carries in its description. */
  const CreatedByMarker: string := "#created_by_dp2gc"
}
