/**
  The chat server's shared state: the registry of online users (name to
  user) and, per user, the stream of text written to that user's connection.

  A `User` is updated in place (its name on rename, its connection's output on
  every write), and so is the `Server`'s registry, so both are classes. The
  server's broadcast channel and each user's data channel are collapsed into
  one atomic fan-out step: a broadcast line is formatted, then appended, with
  the newline the user's writer adds, to the output of every user registered
  at that moment.
*/
module Chat {

  const LoginText: string := "login"
  const OfflineText: string := "offline"
  const NameTakenReply: string := "User name already exists\n"
  const NotOnlineReply: string := "User not online\n"
  const UsageReply: string := "Invalid message format, usage: to {username} {msg}\n"
  const KickReply: string := "You've been kicked for timeout\n"
  const ChangedNamePrefix: string := "You've changed name to \""

  /** The line a broadcast carries: the sender's address in brackets, the
      sender's name, a colon and a space, then the text. */
  function BroadcastLine(addr: string, name: string, msg: string): (line: string)
    ensures |line| == |addr| + |name| + |msg| + 4
    ensures line[0] == '[' && line[1..|addr| + 1] == addr && line[|addr| + 1] == ']'
    ensures line[|addr| + 2..|addr| + 2 + |name|] == name
    ensures line[|addr| + 2 + |name|..|addr| + 4 + |name|] == ": "
    ensures line[|line| - |msg|..] == msg
  {
    "[" + addr + "]" + name + ": " + msg
  }

  /** The reply to a successful rename: the prefix, then the new name, then a
      closing double quote and a newline. */
  function ChangedNameReply(newName: string): (r: string)
    ensures |r| == |ChangedNamePrefix| + |newName| + 2
    ensures r[..|ChangedNamePrefix|] == ChangedNamePrefix
    ensures r[|ChangedNamePrefix|..|r| - 2] == newName && r[|r| - 2..] == "\"\n"
  {
    ChangedNamePrefix + newName + "\"\n"
  }

  /** The line a private message delivers to its target: it starts with the
      sender's name and ends with the content and a newline. */
  function PrivateLine(sender: string, content: string): (line: string)
    ensures |line| == |sender| + |content| + 15
    ensures line[..|sender|] == sender && line[|sender|..|sender| + 14] == " said to you: "
    ensures line[|line| - |content| - 1..] == content + "\n"
  {
    sender + " said to you: " + content + "\n"
  }

  /** What the model needs to remember of the state before a command: the
      registry, the acting user's name, and the output so far of every user
      registered then and of the acting user. */
  datatype Snapshot = Snapshot(registry: map<string, User>, name: string, outboxes: map<User, seq<string>>)

  ghost function Capture(u: User): (b: Snapshot)
    reads u, u.server, u.server.onlineUsers.Values
    ensures b.outboxes.Keys == u.server.onlineUsers.Values + {u}
  {
    Snapshot(u.server.onlineUsers, u.name,
             map v | v in u.server.onlineUsers.Values + {u} :: v.outbox)
  }

  /** Since snapshot `b`, exactly the users in `to` had `line` appended to their
      output; every other user `b` remembers kept its output. */
  ghost predicate Delivered(b: Snapshot, to: set<User>, line: string)
    reads b.outboxes.Keys
  {
    forall v :: v in b.outboxes ==>
      v.outbox == b.outboxes[v] + (if v in to then [line] else [])
  }

  /** Nothing observable changed since snapshot `b`. */
  ghost predicate Quiet(u: User, b: Snapshot)
    reads u, u.server, b.outboxes.Keys
  {
    u.server.onlineUsers == b.registry && u.name == b.name && Delivered(b, {}, "")
  }

  class User {
    var name: string
    const addr: string
    /** Everything written to this user's connection, one entry per write. */
    var outbox: seq<string>
    /** Whether the connection has been closed. */
    var closed: bool
    const server: Server

    /** A user for a new connection: the remote address is both its address
        and its initial name. */
    constructor (remoteAddr: string, server: Server)
      ensures name == remoteAddr && addr == remoteAddr
      ensures outbox == [] && !closed && this.server == server
    {
      name := remoteAddr;
      addr := remoteAddr;
      outbox := [];
      closed := false;
      this.server := server;
    }

    /** Writes `msg` to the connection as it is. */
    method SendMsg(msg: string)
      modifies this`outbox
      ensures outbox == old(outbox) + [msg]
    {
      outbox := outbox + [msg];
    }

    /** Registers this user under its name, replacing whatever was registered
        under that name, and broadcasts `login` to everyone now registered,
        this user included. */
    method Online()
      requires server.Valid()
      modifies server`onlineUsers, server.onlineUsers.Values`outbox, this`outbox
      ensures server.Valid()
      ensures server.onlineUsers == old(server.onlineUsers)[name := this]
      ensures Delivered(old(Capture(this)), server.onlineUsers.Values,
                        BroadcastLine(addr, name, LoginText) + "\n")
    {
      server.onlineUsers := server.onlineUsers[name := this];
      server.BroadCast(this, LoginText);
    }

    /** Removes this user's name from the registry, broadcasts `offline` to
        everyone still registered and closes the connection. Once the
        connection is closed, a further call changes nothing. */
    method Offline()
      requires server.Valid()
      modifies server`onlineUsers, server.onlineUsers.Values`outbox, this`closed
      ensures server.Valid() && closed
      ensures old(closed) ==> Quiet(this, old(Capture(this)))
      ensures !old(closed) ==> WentOffline(this, old(Capture(this)))
    {
      if closed {
        return;
      }
      OfflineAsWritten();
    }

    /** The same, without the guard: every call removes the name and
        broadcasts `offline` again. */
    method OfflineAsWritten()
      requires server.Valid()
      modifies server`onlineUsers, server.onlineUsers.Values`outbox, this`closed
      ensures server.Valid() && closed
      ensures WentOffline(this, old(Capture(this)))
    {
      server.onlineUsers := server.onlineUsers - {name};
      server.BroadCast(this, OfflineText);
      closed := true;
    }

    /** Moves this user's registry entry from its old name to `newName`,
        renames it, and tells it so. */
    method ModifyName(newName: string)
      requires server.Valid()
      modifies server`onlineUsers, this`name, this`outbox
      ensures server.Valid()
      ensures name == newName
      ensures server.onlineUsers == (old(server.onlineUsers) - {old(name)})[newName := this]
      ensures outbox == old(outbox) + [ChangedNameReply(newName)]
    {
      server.onlineUsers := server.onlineUsers - {name};
      name := newName;
      server.onlineUsers := server.onlineUsers[name := this];
      SendMsg(ChangedNameReply(newName));
    }
  }

  /** `u` kept its name, that name is no longer registered, every user still
      registered received the `offline` line, and nobody else received
      anything. */
  ghost predicate WentOffline(u: User, b: Snapshot)
    reads u, u.server, u.server.onlineUsers.Values, b.outboxes.Keys
  {
    && u.name == b.name
    && u.server.onlineUsers == b.registry - {b.name}
    && u !in u.server.onlineUsers.Values
    && Delivered(b, u.server.onlineUsers.Values, BroadcastLine(u.addr, b.name, OfflineText) + "\n")
  }

  class Server {
    var onlineUsers: map<string, User>

    /** A server with nobody online. */
    constructor ()
      ensures onlineUsers == map[]
    {
      onlineUsers := map[];
    }

    /** Every entry is registered under its own user's current name. */
    ghost predicate Valid()
      reads this, onlineUsers.Values
    {
      forall k :: k in onlineUsers ==> onlineUsers[k].name == k
    }

    predicate IsOnline(name: string)
      reads this
    {
      name in onlineUsers
    }

    /** One round of the fan-out loop: `msg`, with the newline each user's
        writer appends, goes once to every registered user. */
    method ListenMsg(msg: string)
      requires Valid()
      modifies onlineUsers.Values`outbox
      ensures Valid()
      ensures forall v :: v in onlineUsers.Values ==> v.outbox == old(v.outbox) + [msg + "\n"]
    {
      var pending := onlineUsers.Keys;
      while pending != {}
        invariant pending <= onlineUsers.Keys
        invariant Valid()
        invariant forall k :: k in onlineUsers && k !in pending ==>
          onlineUsers[k].outbox == old(onlineUsers[k].outbox) + [msg + "\n"]
        invariant forall k :: k in pending ==> onlineUsers[k].outbox == old(onlineUsers[k].outbox)
        decreases pending
      {
        var k :| k in pending;
        var v := onlineUsers[k];
        v.outbox := v.outbox + [msg + "\n"];
        pending := pending - {k};
      }
    }

    /** Formats a broadcast from `u` and fans it out. */
    method BroadCast(u: User, msg: string)
      requires Valid()
      modifies onlineUsers.Values`outbox
      ensures Valid()
      ensures forall v :: v in onlineUsers.Values ==>
        v.outbox == old(v.outbox) + [BroadcastLine(u.addr, u.name, msg) + "\n"]
    {
      ListenMsg(BroadcastLine(u.addr, u.name, msg));
    }
  }

  /** Under the registry invariant, a user is registered exactly when its own
      name is online and maps to it. */
  lemma RegisteredUnderOwnName(s: Server, v: User)
    requires s.Valid()
    ensures v in s.onlineUsers.Values <==> s.IsOnline(v.name) && s.onlineUsers[v.name] == v
  {
    if v in s.onlineUsers.Values {
      var k :| k in s.onlineUsers && s.onlineUsers[k] == v;
    }
  }

  /** Moving an entry from a name that is present to one that is absent keeps
      the number of entries. */
  lemma RekeyPreservesSize<V>(m: map<string, V>, from: string, to: string, v: V)
    requires from in m && to !in m
    ensures |(m - {from})[to := v]| == |m|
  {
    var m' := (m - {from})[to := v];
    assert m'.Keys == m.Keys - {from} + {to};
    assert |m.Keys - {from}| == |m.Keys| - 1;
  }
}
