/** What a socket.io emit is, as the server code uses it: `io.to(room).emit(event,
    payload)` and `io.emit(event, payload)`. Handlers return the emits they make as
    `Delivery` records instead of performing them; `Reached` says which connected
    sockets an emit arrives at. */
module Transport {

  /** socket.io's generated connection id. */
  type SocketId = string

  const ReceiveMessage: string := "receiveMessage"
  const MeetingNotification: string := "meetingNotification"

  /** `io.to(room)` or the whole server, `io` itself. */
  datatype Target = ToRoom(room: string) | ToEveryone

  /** One emit: where it goes, the event name and the payload. */
  datatype Delivery<P> = Delivery(target: Target, event: string, payload: P)

  /** The connected members of room `r`. socket.io puts every socket in the room
      named by its own id; any other membership comes from an explicit
      `socket.join`, recorded in `joined`. */
  function Members(r: string, connected: set<SocketId>, joined: map<string, set<SocketId>>): (m: set<SocketId>)
    ensures m <= connected
    ensures r in connected ==> r in m
    ensures r !in joined ==> m == {r} * connected
  {
    ({r} + (if r in joined then joined[r] else {})) * connected
  }

  /** The sockets one emit arrives at. */
  function Reached(t: Target, connected: set<SocketId>, joined: map<string, set<SocketId>>): (m: set<SocketId>)
    ensures m <= connected
    ensures t.ToEveryone? ==> m == connected
  {
    match t
    case ToRoom(r) => Members(r, connected, joined)
    case ToEveryone => connected
  }

  /** The sockets that at least one of the emits arrives at. */
  function ReachedAll<P>(ds: seq<Delivery<P>>, connected: set<SocketId>, joined: map<string, set<SocketId>>): (m: set<SocketId>)
    ensures m <= connected
    ensures forall i :: 0 <= i < |ds| ==> Reached(ds[i].target, connected, joined) <= m
  {
    if ds == [] then {}
    else Reached(ds[0].target, connected, joined) + ReachedAll(ds[1..], connected, joined)
  }

  /** A socket is reached by a list of emits exactly when one of them reaches it. */
  lemma {:induction false} ReachedAllExactly<P>(ds: seq<Delivery<P>>, connected: set<SocketId>,
                                               joined: map<string, set<SocketId>>, s: SocketId)
    ensures s in ReachedAll(ds, connected, joined) <==>
            exists i :: 0 <= i < |ds| && s in Reached(ds[i].target, connected, joined)
  {
    if ds != [] {
      ReachedAllExactly(ds[1..], connected, joined, s);
      if s in ReachedAll(ds[1..], connected, joined) {
        var i :| 0 <= i < |ds[1..]| && s in Reached(ds[1..][i].target, connected, joined);
        assert ds[1..][i] == ds[i + 1];
      }
      if exists i :: 0 <= i < |ds| && s in Reached(ds[i].target, connected, joined) {
        var i :| 0 <= i < |ds| && s in Reached(ds[i].target, connected, joined);
        if i > 0 {
          assert ds[1..][i - 1] == ds[i];
        }
      }
    }
  }
}
