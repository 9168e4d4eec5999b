/** The socket.io server of backend/server.js: the process-wide `activeUsers` map from
    user id to socket id, and the `userConnected`, `meetingScheduled`, `sendMessage`
    and `disconnect` handlers. Each handler runs as one atomic step; emits are
    returned as `Delivery` records; the outcome of saving and re-reading a message
    is a parameter. */
module Presence {
  import opened Common
  import opened Transport
  import MeetingModel

  type UserId = string

  /** The document `new Message({ sender, receiver, message, isRead: false })`. */
  datatype MessageDoc = MessageDoc(sender: UserId, receiver: UserId, message: string, isRead: bool)

  /** A user as `populate("sender receiver", "name _id")` returns it. */
  datatype Party = Party(id: UserId, name: string)

  /** The message as re-read after saving, with both parties populated. */
  datatype StoredMessage = StoredMessage(id: Id, sender: Party, receiver: Party, message: string, isRead: bool)

  /** What came of `newMessage.save()` followed by `Message.findById(...)`. */
  datatype Persistence =
    | SaveFailed
    | RereadFailed
    | Reread(stored: StoredMessage)

  /** Payloads the server emits: a chat message, or a meeting notice as sent by a
      client. */
  datatype Payload = Chat(message: StoredMessage) | MeetingData(notice: MeetingModel.Notice)

  /** The emits of `sendMessage` once the message is re-read: to the receiver's
      socket if the receiver is registered, then to the sender's socket if the sender
      is registered. Nothing removes the duplicate when both are the same socket. */
  function ChatDeliveries(activeUsers: map<UserId, SocketId>, sender: UserId, receiver: UserId,
                          m: StoredMessage): (ds: seq<Delivery<Payload>>)
    ensures |ds| == (if receiver in activeUsers then 1 else 0) + (if sender in activeUsers then 1 else 0)
    ensures forall i :: 0 <= i < |ds| ==> ds[i].event == ReceiveMessage && ds[i].payload == Chat(m)
    ensures forall i :: 0 <= i < |ds| ==>
              (receiver in activeUsers && ds[i].target == ToRoom(activeUsers[receiver])) ||
              (sender in activeUsers && ds[i].target == ToRoom(activeUsers[sender]))
    ensures receiver in activeUsers ==> ds[0].target == ToRoom(activeUsers[receiver])
    ensures sender in activeUsers ==> ds[|ds| - 1].target == ToRoom(activeUsers[sender])
  {
    (if receiver in activeUsers then [Delivery(ToRoom(activeUsers[receiver]), ReceiveMessage, Chat(m))] else [])
    + (if sender in activeUsers then [Delivery(ToRoom(activeUsers[sender]), ReceiveMessage, Chat(m))] else [])
  }

  /** The registry after the `disconnect` scan of socket `s`. */
  function WithoutSocket(activeUsers: map<UserId, SocketId>, s: SocketId): (r: map<UserId, SocketId>)
    ensures forall u :: u in r <==> u in activeUsers && activeUsers[u] != s
    ensures forall u :: u in r ==> r[u] == activeUsers[u]
  {
    map u | u in activeUsers && activeUsers[u] != s :: activeUsers[u]
  }

  /** `meetingScheduled`: the payload goes unchanged to the whole server. Logging
      `meetingData.meeting.title` throws first when the payload has no meeting, and
      then nothing is emitted. */
  function MeetingScheduled(notice: MeetingModel.Notice): (ds: seq<Delivery<Payload>>)
    ensures notice.meeting.None? <==> ds == []
    ensures forall i :: 0 <= i < |ds| ==>
              ds[i] == Delivery(ToEveryone, MeetingNotification, MeetingData(notice))
    ensures |ds| <= 1
  {
    if notice.meeting.Some? then [Delivery(ToEveryone, MeetingNotification, MeetingData(notice))] else []
  }

  class ChatServer {
    /** `activeUsers`: user id to the socket that last identified as that user. */
    var activeUsers: map<UserId, SocketId>
    /** The sockets socket.io holds open. */
    var connected: set<SocketId>

    /** Every registered socket is still open: a disconnect removes every entry
        that points at the closing socket. */
    ghost predicate Valid()
      reads this
    {
      activeUsers.Values <= connected
    }

    constructor ()
      ensures Valid()
      ensures activeUsers == map[] && connected == {}
    {
      activeUsers := map[];
      connected := {};
    }

    /** A transport connection opens (`io.on("connection")`). */
    method Connect(s: SocketId)
      requires Valid()
      modifies this
      ensures Valid()
      ensures connected == old(connected) + {s}
      ensures activeUsers == old(activeUsers)
    {
      connected := connected + {s};
    }

    /** `userConnected` on socket `s`: the last writer for a user wins. */
    method UserConnected(userId: UserId, s: SocketId)
      requires Valid() && s in connected
      modifies this
      ensures Valid()
      ensures activeUsers == old(activeUsers)[userId := s]
      ensures connected == old(connected)
    {
      activeUsers := activeUsers[userId := s];
    }

    /** `sendMessage`: save a message with `isRead` false, re-read it and emit it to
        the receiver's and then the sender's socket. When saving or re-reading
        throws, the error is only logged: nothing is emitted. The registry is only
        read. */
    method SendMessage(sender: UserId, receiver: UserId, body: string, persistence: Persistence)
      returns (saved: Option<MessageDoc>, ds: seq<Delivery<Payload>>)
      ensures saved.Some? <==> !persistence.SaveFailed?
      ensures saved.Some? ==> saved.value == MessageDoc(sender, receiver, body, false)
      ensures !persistence.Reread? ==> ds == []
      ensures persistence.Reread? ==> ds == ChatDeliveries(activeUsers, sender, receiver, persistence.stored)
    {
      var doc := MessageDoc(sender, receiver, body, false);
      ds := [];
      if persistence.SaveFailed? {
        saved := None;
        return;
      }
      saved := Some(doc);
      if persistence.RereadFailed? {
        return;
      }
      var stored := persistence.stored;
      if receiver in activeUsers {
        ds := ds + [Delivery(ToRoom(activeUsers[receiver]), ReceiveMessage, Chat(stored))];
      }
      if sender in activeUsers {
        ds := ds + [Delivery(ToRoom(activeUsers[sender]), ReceiveMessage, Chat(stored))];
      }
    }

    /** `disconnect` of socket `s`: scan every entry and delete those whose value is
        `s`. */
    method Disconnect(s: SocketId)
      requires Valid()
      modifies this
      ensures Valid()
      ensures activeUsers == WithoutSocket(old(activeUsers), s)
      ensures connected == old(connected) - {s}
    {
      connected := connected - {s};
      ghost var before := activeUsers;
      var pending := activeUsers.Keys;
      while pending != {}
        invariant pending <= before.Keys
        invariant forall u :: u in activeUsers <==> u in before && (u in pending || before[u] != s)
        invariant forall u :: u in activeUsers ==> activeUsers[u] == before[u]
        invariant connected == old(connected) - {s}
        decreases pending
      {
        var u :| u in pending;
        if activeUsers[u] == s {
          activeUsers := activeUsers - {u};
        }
        pending := pending - {u};
      }
      assert activeUsers == WithoutSocket(before, s);
    }
  }

  /** After registering, a lookup gives the new socket whatever was there before,
      and registering the same pair again changes nothing. */
  lemma RegisterLastWriterWins(activeUsers: map<UserId, SocketId>, u: UserId, s: SocketId)
    ensures u in activeUsers[u := s] && activeUsers[u := s][u] == s
    ensures activeUsers[u := s][u := s] == activeUsers[u := s]
  {
  }

  /** A disconnect leaves no entry pointing at the closed socket and every entry with
      another socket untouched. */
  lemma DisconnectRemovesExactly(activeUsers: map<UserId, SocketId>, s: SocketId, u: UserId)
    requires u in activeUsers
    ensures activeUsers[u] == s ==> u !in WithoutSocket(activeUsers, s)
    ensures activeUsers[u] != s ==>
              u in WithoutSocket(activeUsers, s) && WithoutSocket(activeUsers, s)[u] == activeUsers[u]
    ensures s !in WithoutSocket(activeUsers, s).Values
  {
  }

  /** A user who re-identified on a new socket keeps it when the old socket closes. */
  lemma StaleDisconnectKeepsNewSocket(activeUsers: map<UserId, SocketId>, u: UserId, old1: SocketId, new2: SocketId)
    requires old1 != new2
    ensures var after := WithoutSocket(activeUsers[u := new2], old1);
            u in after && after[u] == new2
  {
  }

  /** One user messaging themselves while registered gets the message twice on the
      same socket. */
  lemma {:induction false} SelfMessageDeliveredTwice(activeUsers: map<UserId, SocketId>, u: UserId, m: StoredMessage)
    requires u in activeUsers
    ensures var d := Delivery(ToRoom(activeUsers[u]), ReceiveMessage, Chat(m));
            ChatDeliveries(activeUsers, u, u, m) == [d, d]
  {
  }

  /** No socket other than the receiver's and the sender's gets the message, as
      long as no socket joined a room named after another socket's id (server.js
      never calls `join`). */
  lemma ChatReachesOnlyTheParties(activeUsers: map<UserId, SocketId>, connected: set<SocketId>,
                                  sender: UserId, receiver: UserId, m: StoredMessage, x: SocketId)
    requires activeUsers.Values <= connected
    ensures var ds := ChatDeliveries(activeUsers, sender, receiver, m);
            x in ReachedAll(ds, connected, map[]) <==>
              (receiver in activeUsers && x == activeUsers[receiver]) ||
              (sender in activeUsers && x == activeUsers[sender])
  {
    var ds := ChatDeliveries(activeUsers, sender, receiver, m);
    ReachedAllExactly(ds, connected, map[], x);
    if receiver in activeUsers && x == activeUsers[receiver] {
      assert x in Reached(ds[0].target, connected, map[]);
    }
    if sender in activeUsers && x == activeUsers[sender] {
      assert x in Reached(ds[|ds| - 1].target, connected, map[]);
    }
  }

  /** A scheduled-meeting broadcast reaches every open socket, whether or not a
      user is registered on it. */
  lemma BroadcastReachesEveryOpenSocket(notice: MeetingModel.Notice, connected: set<SocketId>,
                                        joined: map<string, set<SocketId>>)
    requires notice.meeting.Some?
    ensures ReachedAll(MeetingScheduled(notice), connected, joined) == connected
  {
    var ds := MeetingScheduled(notice);
    assert Reached(ds[0].target, connected, joined) == connected;
  }
}
