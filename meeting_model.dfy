/** The Mongoose `Meeting` schema (backend/src/models/Meeting.js): its fields, which of
    them are required, and the validator that keeps scheduled times in the future.
    The clock reading `new Date()` is the parameter `now`. */
module MeetingModel {
  import opened Common
  import Text

  /** A meeting document. Times are instants in milliseconds; an empty text stands
      for a missing string or reference. */
  datatype Meeting = Meeting(
    title: string,
    description: string,
    scheduledTime: Option<int>,
    organizer: Id,
    participants: seq<Id>,
    zoomMeetingId: string,
    zoomJoinLink: string)

  /** The payload `{ meeting }` of a `meetingNotification`; `None` when the object
      carries no `meeting`. */
  datatype Notice = Notice(meeting: Option<Meeting>)

  const FutureMessage: string := "Scheduled time must be in the future"

  /** The path Mongoose reports for the `i`-th participant. */
  function ParticipantPath(i: nat): string {
    "participants." + Text.Decimal(i)
  }

  /** The errors `validate()` collects. The custom validator on `scheduledTime`
      does not run when the value is missing: only `required` reports then. */
  function Validate(m: Meeting, now: int): (errs: set<FieldError>)
    ensures forall e :: e in errs ==> e.path != "description"
    ensures Required("title") in errs <==> m.title == ""
    ensures Invalid("scheduledTime", FutureMessage) in errs <==>
              m.scheduledTime.Some? && m.scheduledTime.value <= now
    ensures forall i :: 0 <= i < |m.participants| && m.participants[i] == "" ==>
              Required(ParticipantPath(i)) in errs
  {
    (if m.title == "" then {Required("title")} else {})
    + (if m.scheduledTime.None? then {Required("scheduledTime")}
       else if m.scheduledTime.value <= now then {Invalid("scheduledTime", FutureMessage)}
       else {})
    + (if m.organizer == "" then {Required("organizer")} else {})
    + (set i | 0 <= i < |m.participants| && m.participants[i] == "" :: Required(ParticipantPath(i)))
    + (if m.zoomMeetingId == "" then {Required("zoomMeetingId")} else {})
    + (if m.zoomJoinLink == "" then {Required("zoomJoinLink")} else {})
  }

  predicate Valid(m: Meeting, now: int) {
    Validate(m, now) == {}
  }

  /** A meeting saves exactly when its title, organizer, every participant and both
      Zoom fields are present and it is scheduled strictly after `now`. */
  lemma ValidIff(m: Meeting, now: int)
    ensures Valid(m, now) <==>
      && m.title != ""
      && m.scheduledTime.Some? && m.scheduledTime.value > now
      && m.organizer != ""
      && (forall i :: 0 <= i < |m.participants| ==> m.participants[i] != "")
      && m.zoomMeetingId != "" && m.zoomJoinLink != ""
  {
    if i :| 0 <= i < |m.participants| && m.participants[i] == "" {
      assert Required(ParticipantPath(i)) in Validate(m, now);
    }
  }

  /** A time at or before `now` is refused with the schema's own message; a
      missing time is reported only as missing. */
  lemma ScheduledTimeErrors(m: Meeting, now: int)
    ensures m.scheduledTime.Some? && m.scheduledTime.value <= now ==>
              Invalid("scheduledTime", FutureMessage) in Validate(m, now)
    ensures m.scheduledTime.None? ==>
              Required("scheduledTime") in Validate(m, now) &&
              Invalid("scheduledTime", FutureMessage) !in Validate(m, now)
  {
  }

  /** The schema alone accepts a meeting with no participants at all: `required`
      on the array's elements says nothing about its length. */
  lemma NoParticipantsAccepted(m: Meeting, now: int)
    requires m.title != "" && m.organizer != "" && m.zoomMeetingId != "" && m.zoomJoinLink != ""
    requires m.scheduledTime == Some(now + 1)
    requires m.participants == []
    ensures Valid(m, now)
  {
    ValidIff(m, now);
  }
}
