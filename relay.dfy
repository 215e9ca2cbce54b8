/**
 * The real-time layer of the server (server/index.js): the presence registry
 * of `{userId, socketId}` pairs and the steps of the `sendMessage` and
 * `disconnect` handlers. What the handlers hand to the socket library is
 * recorded, in order, as a log of events.
 */
module Relay {
  import opened Js
  import opened Options
  import BookingModel
  import UserModel
  import Store
  import Seqs

  type SocketId = string

  /** One entry of `onlineUsers`. */
  datatype OnlineUser = OnlineUser(userId: Value, socketId: SocketId)

  /** The payload of a `sendMessage` event. */
  datatype ChatPayload = ChatPayload(senderId: Value, receiverId: Value, bookingId: Value, text: Value)

  /** A database write or an emit, in the order the server performs them. */
  datatype Event =
    | MessageSaved(message: Store.Message)
    | ReceiveMessage(room: Value, exceptSocket: SocketId, booking: Value, sender: Value, text: Value, createdAt: string)
    | NewMessageNotification(toSocket: SocketId, bookingId: Value, senderName: string)
    | NewBookingRequest(toSocket: SocketId, notice: string, request: BookingModel.Booking)

  // ------------------------------------------------------------ the registry

  /** `onlineUsers.some((user) => user.userId === userId)`. */
  predicate Registered(users: seq<OnlineUser>, userId: Value) {
    exists i :: 0 <= i < |users| && StrictEquals(users[i].userId, userId)
  }

  /** The registry invariant: every entry has a truthy user id, and no user id appears twice. */
  predicate Unique(users: seq<OnlineUser>) {
    && (forall i :: 0 <= i < |users| ==> Truthy(users[i].userId))
    && (forall i, j :: 0 <= i < j < |users| ==> users[i].userId != users[j].userId)
  }

  /** `addUser`: append the pair unless the id is falsy or already registered. */
  function Add(users: seq<OnlineUser>, userId: Value, socketId: SocketId): seq<OnlineUser> {
    if Truthy(userId) && !Registered(users, userId) then users + [OnlineUser(userId, socketId)] else users
  }

  /** `removeUser`: `onlineUsers.filter((user) => user.socketId !== socketId)`. */
  function Remove(users: seq<OnlineUser>, socketId: SocketId): (r: seq<OnlineUser>)
    ensures forall i :: 0 <= i < |r| ==> r[i] in users && r[i].socketId != socketId
    ensures forall i :: 0 <= i < |users| && users[i].socketId != socketId ==> users[i] in r
  {
    if users == [] then []
    else (if users[0].socketId != socketId then [users[0]] else []) + Remove(users[1..], socketId)
  }

  /** `getUser`: `onlineUsers.find((user) => user.userId === userId)`, the first entry for the id. */
  function Find(users: seq<OnlineUser>, userId: Value): (r: Option<OnlineUser>)
    ensures r.None? <==> !Registered(users, userId)
    ensures r.Some? ==> exists i :: 0 <= i < |users| && users[i] == r.value && StrictEquals(r.value.userId, userId)
                                    && forall j :: 0 <= j < i ==> !StrictEquals(users[j].userId, userId)
  {
    if users == [] then None
    else if StrictEquals(users[0].userId, userId) then Some(users[0])
    else
      var r := Find(users[1..], userId);
      assert forall j :: 1 <= j < |users| ==> users[j] == users[1..][j - 1];
      r
  }

  /** A falsy id leaves the registry as it was. */
  lemma AddFalsy(users: seq<OnlineUser>, userId: Value, socketId: SocketId)
    requires !Truthy(userId)
    ensures Add(users, userId, socketId) == users
  {
  }

  /** A second registration for a registered user changes nothing: the first socket keeps it. */
  lemma AddRegistered(users: seq<OnlineUser>, userId: Value, socketId: SocketId)
    requires Registered(users, userId)
    ensures Add(users, userId, socketId) == users
    ensures Find(Add(users, userId, socketId), userId) == Find(users, userId)
  {
  }

  /** Otherwise exactly one pair is appended, and it is what `getUser` then finds. */
  lemma AddFresh(users: seq<OnlineUser>, userId: Value, socketId: SocketId)
    requires Truthy(userId) && !Registered(users, userId)
    ensures Add(users, userId, socketId) == users + [OnlineUser(userId, socketId)]
    ensures Find(Add(users, userId, socketId), userId) == Some(OnlineUser(userId, socketId))
  {
    FindPastUnregistered(users, [OnlineUser(userId, socketId)], userId);
  }

  /** `find` skips a prefix that holds no entry for the id. */
  lemma {:induction false} FindPastUnregistered(a: seq<OnlineUser>, b: seq<OnlineUser>, userId: Value)
    requires !Registered(a, userId)
    ensures Find(a + b, userId) == Find(b, userId)
  {
    if a != [] {
      assert !Registered(a[1..], userId) by {
        forall i | 0 <= i < |a[1..]| ensures !StrictEquals(a[1..][i].userId, userId) {
          assert a[1..][i] == a[i + 1];
        }
      }
      FindPastUnregistered(a[1..], b, userId);
      assert (a + b)[1..] == a[1..] + b;
      assert (a + b)[0] == a[0] && !StrictEquals(a[0].userId, userId);
      assert Find(a + b, userId) == Find((a + b)[1..], userId);
    } else {
      assert a + b == b;
    }
  }

  lemma AddKeepsUnique(users: seq<OnlineUser>, userId: Value, socketId: SocketId)
    requires Unique(users)
    ensures Unique(Add(users, userId, socketId))
  {
    if Truthy(userId) && !Registered(users, userId) {
      var r := users + [OnlineUser(userId, socketId)];
      forall i, j | 0 <= i < j < |r| ensures r[i].userId != r[j].userId {
        if j == |users| {
          assert !StrictEquals(users[i].userId, userId);
          assert Truthy(users[i].userId);
        }
      }
    }
  }

  /** `removeUser` keeps the other entries in their order. */
  lemma {:induction false} RemoveKeepsOrder(users: seq<OnlineUser>, socketId: SocketId)
    ensures Seqs.Subsequence(Remove(users, socketId), users)
  {
    if users != [] {
      RemoveKeepsOrder(users[1..], socketId);
      var rest := Remove(users[1..], socketId);
      if users[0].socketId != socketId {
        assert Remove(users, socketId) == [users[0]] + rest;
        assert ([users[0]] + rest)[1..] == rest;
      } else {
        assert Remove(users, socketId) == rest;
        Seqs.SubsequenceSkip(rest, users);
      }
    }
  }

  /** When no entry is on the socket, `removeUser` changes nothing. */
  lemma {:induction false} RemoveAbsent(users: seq<OnlineUser>, socketId: SocketId)
    requires forall i :: 0 <= i < |users| ==> users[i].socketId != socketId
    ensures Remove(users, socketId) == users
  {
    if users != [] {
      RemoveAbsent(users[1..], socketId);
    }
  }

  /** Removing a socket twice is the same as removing it once. */
  lemma RemoveIdempotent(users: seq<OnlineUser>, socketId: SocketId)
    ensures Remove(Remove(users, socketId), socketId) == Remove(users, socketId)
  {
    RemoveAbsent(Remove(users, socketId), socketId);
  }

  lemma {:induction false} RemoveKeepsUnique(users: seq<OnlineUser>, socketId: SocketId)
    requires Unique(users)
    ensures Unique(Remove(users, socketId))
  {
    if users != [] {
      var tail := users[1..];
      assert Unique(tail) by {
        forall i, j | 0 <= i < j < |tail| ensures tail[i].userId != tail[j].userId {
          assert tail[i] == users[i + 1] && tail[j] == users[j + 1];
        }
      }
      RemoveKeepsUnique(tail, socketId);
      var rest := Remove(tail, socketId);
      if users[0].socketId != socketId {
        var r := [users[0]] + rest;
        forall j | 0 < j < |r| ensures r[0].userId != r[j].userId {
          assert r[j] == rest[j - 1];
          var k :| 0 <= k < |tail| && tail[k] == r[j];
          assert tail[k] == users[k + 1];
        }
        forall i, j | 0 <= i < j < |r| ensures r[i].userId != r[j].userId {
          if i > 0 { assert r[i] == rest[i - 1] && r[j] == rest[j - 1]; }
        }
      }
    }
  }

  /**
   * After socket `s` disconnects, a user whose entry was on `s` is no longer
   * found, and whatever `getUser` still finds is on another socket.
   */
  lemma DisconnectForgets(users: seq<OnlineUser>, s: SocketId, userId: Value)
    requires Unique(users)
    ensures Find(Remove(users, s), userId).Some? ==> Find(Remove(users, s), userId).value.socketId != s
    ensures Find(users, userId).Some? && Find(users, userId).value.socketId == s ==>
              Find(Remove(users, s), userId) == None
  {
  }

  // ------------------------------------------------------ the chat handler

  /** `(await User.findById(senderId).select("name")).name`; nothing when the lookup yields no document. */
  function SenderName(users: map<Store.Id, UserModel.User>, senderId: Value): Option<string> {
    if senderId.Str? && senderId.s in users then Some(users[senderId.s].name) else None
  }

  /**
   * What the `sendMessage` handler does, in order: save the message; if the
   * save succeeded, broadcast it to the booking's room except the sending
   * socket; then, if the receiver is registered and the sender's name can be
   * read, notify the receiver's socket.
   */
  function SendEffects(online: seq<OnlineUser>, users: map<Store.Id, UserModel.User>, socketId: SocketId,
                       p: ChatPayload, saved: bool, now: string): seq<Event> {
    if !saved then []
    else
      [MessageSaved(Store.Message(p.bookingId, p.senderId, p.receiverId, p.text)),
       ReceiveMessage(p.bookingId, socketId, p.bookingId, p.senderId, p.text, now)]
      + match Find(online, p.receiverId)
        case None => []
        case Some(receiver) =>
          match SenderName(users, p.senderId)
          case None => []
          case Some(name) => [NewMessageNotification(receiver.socketId, p.bookingId, name)]
  }

  /**
   * The message is saved before anything is emitted, the broadcast goes to the
   * booking's room and skips the sender's socket, and nothing is emitted when
   * the save fails.
   */
  lemma SendSavesBeforeBroadcast(online: seq<OnlineUser>, users: map<Store.Id, UserModel.User>, socketId: SocketId,
                                 p: ChatPayload, saved: bool, now: string)
    ensures var e := SendEffects(online, users, socketId, p, saved, now);
      && (!saved <==> e == [])
      && (saved ==> |e| >= 2 && e[0] == MessageSaved(Store.Message(p.bookingId, p.senderId, p.receiverId, p.text))
                    && e[1].ReceiveMessage? && e[1].room == p.bookingId && e[1].exceptSocket == socketId
                    && e[1].text == p.text)
  {
  }

  /** A new-message notification goes out exactly when the message was saved and the receiver is registered (and named). */
  lemma SendNotifiesOnlyRegistered(online: seq<OnlineUser>, users: map<Store.Id, UserModel.User>, socketId: SocketId,
                                   p: ChatPayload, saved: bool, now: string)
    ensures var e := SendEffects(online, users, socketId, p, saved, now);
      && ((exists k :: 0 <= k < |e| && e[k].NewMessageNotification?) <==>
            saved && Registered(online, p.receiverId) && SenderName(users, p.senderId).Some?)
      && (forall k :: 0 <= k < |e| && e[k].NewMessageNotification? ==>
            k == 2 && e[k].toSocket == Find(online, p.receiverId).value.socketId)
  {
    var e := SendEffects(online, users, socketId, p, saved, now);
    if saved && Registered(online, p.receiverId) && SenderName(users, p.senderId).Some? {
      assert e[2].NewMessageNotification?;
    }
  }

  // ------------------------------------------------------------ the server

  /** The module-level `onlineUsers` array and what the socket handlers emit. */
  class Relay {
    var onlineUsers: seq<OnlineUser>
    var events: seq<Event>

    ghost predicate Valid()
      reads this
    {
      Unique(onlineUsers)
    }

    constructor ()
      ensures Valid() && onlineUsers == [] && events == []
    {
      onlineUsers, events := [], [];
    }

    /** The `addUser` event. */
    method AddUser(userId: Value, socketId: SocketId)
      requires Valid()
      modifies this`onlineUsers
      ensures Valid()
      ensures onlineUsers == Add(old(onlineUsers), userId, socketId)
    {
      AddKeepsUnique(onlineUsers, userId, socketId);
      if Truthy(userId) && !Registered(onlineUsers, userId) {
        onlineUsers := onlineUsers + [OnlineUser(userId, socketId)];
      }
    }

    /** `removeUser`, which is all the `disconnect` handler does. */
    method RemoveUser(socketId: SocketId)
      requires Valid()
      modifies this`onlineUsers
      ensures Valid()
      ensures onlineUsers == Remove(old(onlineUsers), socketId)
    {
      RemoveKeepsUnique(onlineUsers, socketId);
      onlineUsers := Remove(onlineUsers, socketId);
    }

    function GetUser(userId: Value): Option<OnlineUser>
      reads this
    {
      Find(onlineUsers, userId)
    }

    /**
     * The `sendMessage` handler of the connection `socketId`. `saved` is the
     * outcome of the database write and `now` the clock reading for `createdAt`.
     */
    method SendMessage(db: Store.Store, socketId: SocketId, p: ChatPayload, saved: bool, now: string)
      modifies this`events, db`messages
      ensures onlineUsers == old(onlineUsers)
      ensures db.messages == old(db.messages) + (if saved then [Store.Message(p.bookingId, p.senderId, p.receiverId, p.text)] else [])
      ensures events == old(events) + SendEffects(onlineUsers, db.users, socketId, p, saved, now)
    {
      var message := Store.Message(p.bookingId, p.senderId, p.receiverId, p.text);
      if !saved {
        return;
      }
      db.messages := db.messages + [message];
      events := events + [MessageSaved(message)];
      events := events + [ReceiveMessage(p.bookingId, socketId, p.bookingId, p.senderId, p.text, now)];
      var receiver := GetUser(p.receiverId);
      if receiver.Some? {
        var name := SenderName(db.users, p.senderId);
        if name.Some? {
          events := events + [NewMessageNotification(receiver.value.socketId, p.bookingId, name.value)];
        }
      }
    }

    /** The `disconnect` handler. */
    method Disconnect(socketId: SocketId)
      requires Valid()
      modifies this`onlineUsers
      ensures Valid()
      ensures onlineUsers == Remove(old(onlineUsers), socketId)
      ensures forall u :: GetUser(u).Some? ==> GetUser(u).value.socketId != socketId
    {
      RemoveUser(socketId);
      forall u ensures GetUser(u).Some? ==> GetUser(u).value.socketId != socketId {
        DisconnectForgets(old(onlineUsers), socketId, u);
      }
    }
  }
}
