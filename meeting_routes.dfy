/** The meeting routes of backend/src/routes/meetingRoutes.js: POST `/` validates the
    body, asks Zoom for a meeting, saves the meeting and notifies each participant's
    room; GET `/` lists the requester's meetings. Zoom, the database and the clock are
    parameters. */
module MeetingRoutes {
  import opened Common
  import opened Transport
  import opened MeetingModel
  import Seqs

  /** `req.body` of POST `/`. A missing field is `None`. */
  datatype ScheduleBody = ScheduleBody(
    title: Option<string>,
    description: Option<string>,
    scheduledTime: Option<string>,
    participants: Option<seq<Id>>)

  /** What `createZoomMeeting` gave back: its `id` and `join_url`, or a throw. */
  datatype Zoom = ZoomFailed | ZoomCreated(id: string, joinUrl: string)

  /** Why POST ended in 500. */
  datatype Cause =
    | NoParticipantsField          // `participants.length` on undefined throws a TypeError
    | ZoomError                    // "Failed to create Zoom meeting"
    | Rejected(errs: set<FieldError>)  // `meeting.save()` failed validation
    | DatabaseError                // `meeting.save()` failed in the database

  datatype Reply =
    | BadRequest                   // 400 "Title, scheduledTime, and participants are required"
    | ServerError(cause: Cause)    // 500
    | Scheduled(meeting: Meeting)  // 201 "Meeting scheduled successfully"
  {
    function Status(): nat {
      match this
      case BadRequest => 400
      case ServerError(_) => 500
      case Scheduled(_) => 201
    }
  }

  /** Everything POST `/` does: whether it called Zoom, the meeting it saved, the
      emits it made and its reply. */
  datatype ScheduleOutcome = ScheduleOutcome(
    zoomCalled: bool,
    saved: Option<Meeting>,
    deliveries: seq<Delivery<Notice>>,
    reply: Reply)

  /** The line-84 test `!title || !scheduledTime || !participants.length` in its
      evaluation order; `None` when it throws on a missing `participants`. */
  function MissingInput(body: ScheduleBody): (r: Option<bool>)
    ensures r == None <==> Truthy(body.title) && Truthy(body.scheduledTime) && body.participants.None?
    ensures r == Some(false) <==>
              Truthy(body.title) && Truthy(body.scheduledTime) &&
              body.participants.Some? && |body.participants.value| > 0
  {
    if !Truthy(body.title) then Some(true)
    else if !Truthy(body.scheduledTime) then Some(true)
    else if body.participants.None? then None
    else Some(|body.participants.value| == 0)
  }

  /** One `meetingNotification { meeting }` per participant entry, in list order,
      to the room named by that participant's id. */
  function NotifyParticipants(participants: seq<Id>, m: Meeting): (ds: seq<Delivery<Notice>>)
    ensures |ds| == |participants|
    ensures forall i :: 0 <= i < |ds| ==>
              ds[i] == Delivery(ToRoom(participants[i]), MeetingNotification, Notice(Some(m)))
  {
    if participants == [] then []
    else [Delivery(ToRoom(participants[0]), MeetingNotification, Notice(Some(m)))]
         + NotifyParticipants(participants[1..], m)
  }

  /** The document the handler saves once the input checks passed and Zoom answered:
      the body's fields, the organizer, the cast time and the Zoom meeting's id and
      join link. */
  function MeetingDocument(organizer: Id, body: ScheduleBody, zoom: Zoom, scheduledAt: int): (m: Meeting)
    requires body.title.Some? && body.participants.Some? && zoom.ZoomCreated?
    ensures m.title == body.title.value && m.participants == body.participants.value
    ensures body.description.None? ==> m.description == ""
    ensures body.description.Some? ==> m.description == body.description.value
    ensures m.scheduledTime == Some(scheduledAt) && m.organizer == organizer
    ensures m.zoomMeetingId == zoom.id && m.zoomJoinLink == zoom.joinUrl
  {
    Meeting(body.title.value, body.description.GetOr(""), Some(scheduledAt),
            organizer, body.participants.value, zoom.id, zoom.joinUrl)
  }

  /** POST `/` for the authenticated user `organizer`. `scheduledAt` is the instant
      Mongoose casts the `scheduledTime` text to, `now` the clock at save time,
      `dbFails` whether the database refuses a valid document, and `hasIo` whether
      the app holds a socket.io instance. */
  method Schedule(organizer: Id, body: ScheduleBody, zoom: Zoom, scheduledAt: int, now: int,
                  dbFails: bool, hasIo: bool) returns (out: ScheduleOutcome)
    ensures out.reply.BadRequest? <==> MissingInput(body) == Some(true)
    ensures out.reply == ServerError(NoParticipantsField) <==> MissingInput(body).None?
    ensures out.zoomCalled <==> MissingInput(body) == Some(false)
    ensures !out.zoomCalled ==> out.saved.None?
    ensures zoom.ZoomFailed? ==> out.saved.None?
    ensures out.saved.Some? <==>
              && MissingInput(body) == Some(false)
              && zoom.ZoomCreated?
              && Valid(MeetingDocument(organizer, body, zoom, scheduledAt), now)
              && !dbFails
    ensures out.saved.Some? ==> out.saved == Some(MeetingDocument(organizer, body, zoom, scheduledAt))
    ensures MissingInput(body) == Some(false) && zoom.ZoomFailed? ==> out.reply == ServerError(ZoomError)
    ensures MissingInput(body) == Some(false) && zoom.ZoomCreated? &&
            !Valid(MeetingDocument(organizer, body, zoom, scheduledAt), now) ==>
              out.reply == ServerError(Rejected(Validate(MeetingDocument(organizer, body, zoom, scheduledAt), now)))
    ensures MissingInput(body) == Some(false) && zoom.ZoomCreated? &&
            Valid(MeetingDocument(organizer, body, zoom, scheduledAt), now) && dbFails ==>
              out.reply == ServerError(DatabaseError)
    ensures out.saved.Some? <==> out.reply.Scheduled?
    ensures out.saved.Some? ==> out.reply.meeting == out.saved.value
    ensures out.saved.Some? ==>
              && body.participants.Some?
              && out.saved.value.organizer == organizer
              && out.saved.value.participants == body.participants.value
              && zoom.ZoomCreated?
              && out.saved.value.zoomMeetingId == zoom.id
              && out.saved.value.zoomJoinLink == zoom.joinUrl
              && Valid(out.saved.value, now)
    ensures out.saved.None? || !hasIo ==> out.deliveries == []
    ensures out.saved.Some? && hasIo ==>
              out.deliveries == NotifyParticipants(body.participants.value, out.saved.value)
  {
    out := ScheduleOutcome(false, None, [], BadRequest);
    var missing := MissingInput(body);
    if missing.None? {
      out := out.(reply := ServerError(NoParticipantsField));
      return;
    }
    if missing.value {
      return;
    }
    out := out.(zoomCalled := true);
    if zoom.ZoomFailed? {
      out := out.(reply := ServerError(ZoomError));
      return;
    }
    var participants := body.participants.value;
    var meeting := MeetingDocument(organizer, body, zoom, scheduledAt);
    var errs := Validate(meeting, now);
    if errs != {} {
      out := out.(reply := ServerError(Rejected(errs)));
      return;
    }
    if dbFails {
      out := out.(reply := ServerError(DatabaseError));
      return;
    }
    var ds: seq<Delivery<Notice>> := [];
    if hasIo {
      var i := 0;
      while i < |participants|
        invariant 0 <= i <= |participants|
        invariant |ds| == i
        invariant forall k :: 0 <= k < i ==>
                    ds[k] == Delivery(ToRoom(participants[k]), MeetingNotification, Notice(Some(meeting)))
      {
        ds := ds + [Delivery(ToRoom(participants[i]), MeetingNotification, Notice(Some(meeting)))];
        i := i + 1;
      }
    }
    out := ScheduleOutcome(true, Some(meeting), ds, Scheduled(meeting));
  }

  /** The targeted notices reach a socket exactly when that socket is a member of
      some participant's room. */
  lemma {:induction false} NoticeReachesParticipantRooms(participants: seq<Id>, m: Meeting,
                                                        connected: set<SocketId>,
                                                        joined: map<string, set<SocketId>>, x: SocketId)
    ensures x in ReachedAll(NotifyParticipants(participants, m), connected, joined) <==>
              exists i :: 0 <= i < |participants| && x in Members(participants[i], connected, joined)
  {
    var ds := NotifyParticipants(participants, m);
    ReachedAllExactly(ds, connected, joined, x);
    if exists i :: 0 <= i < |participants| && x in Members(participants[i], connected, joined) {
      var i :| 0 <= i < |participants| && x in Members(participants[i], connected, joined);
      assert x in Reached(ds[i].target, connected, joined);
    }
  }

  /** The route never consults `activeUsers`, and backend/server.js never joins a
      socket to a room named by a user id: with no joins, a notice reaches only a
      socket whose generated id happens to equal a participant's user id. */
  lemma NoticeWithoutJoins(participants: seq<Id>, m: Meeting, connected: set<SocketId>, x: SocketId)
    ensures x in ReachedAll(NotifyParticipants(participants, m), connected, map[]) <==>
              x in connected && x in participants
  {
    NoticeReachesParticipantRooms(participants, m, connected, map[], x);
    if x in connected && x in participants {
      var i :| 0 <= i < |participants| && participants[i] == x;
      assert x in Members(participants[i], connected, map[]);
    }
  }

  /** GET `/`: the meetings the requester organises or takes part in. */
  function MeetingsOf(user: Id, meetings: seq<Meeting>): (r: seq<Meeting>)
    ensures forall i :: 0 <= i < |r| ==> r[i] in meetings && (r[i].organizer == user || user in r[i].participants)
    ensures forall i :: 0 <= i < |meetings| && (meetings[i].organizer == user || user in meetings[i].participants) ==>
              meetings[i] in r
  {
    Seqs.Filter(meetings, (m: Meeting) => m.organizer == user || user in m.participants)
  }
}
