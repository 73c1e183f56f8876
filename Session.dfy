/**
  The life of one connection on the server: a new connection becomes an online
  user; each read from the connection either ends the session or yields one
  line for the dispatcher; ten seconds without a read kick the user. The reader
  and the idle timer run concurrently in the server; here each read and the
  timeout are separate steps, in whatever order they occur.
*/
module Session {
  import opened Chat
  import opened Message

  /** The size of the buffer one read fills. */
  const BufferSize: nat := 4096

  datatype ReadError = NoError | EndOfFile | Failed

  /** One read from the connection: the text read (its length is `|data|`)
      and the error the read reported. */
  datatype ReadResult = ReadResult(data: string, err: ReadError)

  /** Whether a read ends the session: nothing was read, or the read failed
      with anything but end of file. */
  predicate EndsSession(r: ReadResult) {
    |r.data| == 0 || r.err == Failed
  }

  /** The line handed to the dispatcher: the text read minus its last
      character, the newline the client appends. */
  function LineOf(data: string): (line: string)
    requires |data| > 0
    ensures |line| == |data| - 1 && data == line + [data[|data| - 1]]
  {
    data[..|data| - 1]
  }

  /** Accepts a connection from `remoteAddr`: a new user, named after its
      address, is registered under that name and every registered user,
      including the new one, receives its `login` line. */
  method Connect(s: Server, remoteAddr: string) returns (u: User)
    requires s.Valid()
    modifies s`onlineUsers, s.onlineUsers.Values`outbox
    ensures fresh(u) && u.server == s && !u.closed
    ensures u.name == remoteAddr && u.addr == remoteAddr
    ensures s.Valid()
    ensures s.onlineUsers == old(s.onlineUsers)[remoteAddr := u]
    ensures u.outbox == [BroadcastLine(remoteAddr, remoteAddr, LoginText) + "\n"]
    ensures forall v :: v in old(s.onlineUsers.Values) ==>
      v.outbox == old(v.outbox) + (if v in s.onlineUsers.Values
                                   then [BroadcastLine(remoteAddr, remoteAddr, LoginText) + "\n"]
                                   else [])
  {
    u := new User(remoteAddr, s);
    ghost var b := Capture(u);
    assert forall v :: v in old(s.onlineUsers.Values) ==> b.outboxes[v] == old(v.outbox);
    u.Online();
    assert s.onlineUsers[remoteAddr] == u && u in b.outboxes;
  }

  /** One pass of the read loop. A read of nothing, or a read that failed with
      anything but end of file, takes the user offline through the unguarded
      step and ends the loop, even when the connection was already closed;
      otherwise the characters read, minus the last, are dispatched as one
      line. */
  method HandleRead(u: User, r: ReadResult) returns (more: bool)
    requires u.server.Valid()
    requires |r.data| <= BufferSize
    modifies u.server`onlineUsers, u.server.onlineUsers.Values`outbox, u`name, u`outbox, u`closed
    ensures u.server.Valid()
    ensures more == !EndsSession(r)
    ensures !more ==> u.closed && WentOffline(u, old(Capture(u)))
    ensures more ==> u.closed == old(u.closed) && Performed(Chosen(LineOf(r.data)), u, LineOf(r.data), old(Capture(u)))
  {
    if |r.data| == 0 {
      u.OfflineAsWritten();
      return false;
    }
    if r.err == Failed {
      u.OfflineAsWritten();
      return false;
    }
    var msg := r.data[..|r.data| - 1];
    DoMessage(u, msg);
    return true;
  }

  /** The same pass with the guarded offline step: a read that ends the
      session on a connection already closed changes nothing. */
  method HandleReadCorrected(u: User, r: ReadResult) returns (more: bool)
    requires u.server.Valid()
    requires |r.data| <= BufferSize
    modifies u.server`onlineUsers, u.server.onlineUsers.Values`outbox, u`name, u`outbox, u`closed
    ensures u.server.Valid()
    ensures more == !EndsSession(r)
    ensures !more ==> u.closed
    ensures !more && old(u.closed) ==> Quiet(u, old(Capture(u)))
    ensures !more && !old(u.closed) ==> WentOffline(u, old(Capture(u)))
    ensures more ==> u.closed == old(u.closed) && Performed(Chosen(LineOf(r.data)), u, LineOf(r.data), old(Capture(u)))
  {
    if |r.data| == 0 {
      u.Offline();
      return false;
    }
    if r.err == Failed {
      u.Offline();
      return false;
    }
    var msg := r.data[..|r.data| - 1];
    DoMessage(u, msg);
    return true;
  }

  /** The idle timer fired: the user is told it was kicked and taken offline.
      It does not receive its own `offline` line; everyone still registered
      does, unless the connection was already closed. */
  method Kick(u: User)
    requires u.server.Valid()
    modifies u.server`onlineUsers, u.server.onlineUsers.Values`outbox, u`outbox, u`closed
    ensures u.server.Valid() && u.closed
    ensures u.outbox == old(u.outbox) + [KickReply]
    ensures u.server.onlineUsers ==
      if old(u.closed) then old(u.server.onlineUsers) else old(u.server.onlineUsers) - {u.name}
    ensures forall v :: v in old(u.server.onlineUsers.Values) && v != u ==>
      v.outbox == old(v.outbox) + (if !old(u.closed) && v in u.server.onlineUsers.Values
                                   then [BroadcastLine(u.addr, u.name, OfflineText) + "\n"] else [])
  {
    u.SendMsg(KickReply);
    u.Offline();
  }

  /** The timeout path as the server runs it: the notice, then the unguarded
      offline step. */
  method KickAsWritten(u: User)
    requires u.server.Valid()
    modifies u.server`onlineUsers, u.server.onlineUsers.Values`outbox, u`outbox, u`closed
    ensures u.server.Valid() && u.closed
    ensures u.outbox == old(u.outbox) + [KickReply]
    ensures u.server.onlineUsers == old(u.server.onlineUsers) - {u.name}
    ensures forall v :: v in old(u.server.onlineUsers.Values) && v != u ==>
      v.outbox == old(v.outbox) + (if v in u.server.onlineUsers.Values
                                   then [BroadcastLine(u.addr, u.name, OfflineText) + "\n"] else [])
  {
    u.SendMsg(KickReply);
    u.OfflineAsWritten();
  }

  /** The lines the scenarios below observe, written out. */
  lemma ScenarioLines()
    ensures BroadcastLine("B", "B", LoginText) + "\n" == "[B]B: login\n"
    ensures BroadcastLine("A", "A", OfflineText) + "\n" == "[A]A: offline\n"
  {
  }

  /** Users `A` and then `B` connect to a fresh server; `B` has seen its own
      `login` line and nothing else. */
  method TwoUsersOnline() returns (s: Server, a: User, b: User)
    ensures fresh(s) && fresh(a) && fresh(b)
    ensures s.Valid() && s.onlineUsers == map["A" := a, "B" := b]
    ensures a != b && a.server == s && b.server == s
    ensures a.name == "A" && a.addr == "A" && !a.closed
    ensures b.outbox == ["[B]B: login\n"]
  {
    s := new Server();
    a := Connect(s, "A");
    b := Connect(s, "B");
    ScenarioLines();
  }

  /** Two users, `A` and `B`, come online and `A` idles until it is kicked:
      `B` has seen its own `login` line and `A`'s `offline` line. The kick uses
      the unguarded offline step when `asWritten` holds. */
  method TwoUsersThenKick(asWritten: bool) returns (s: Server, a: User, b: User)
    ensures fresh(s) && fresh(a) && fresh(b)
    ensures s.Valid() && s.onlineUsers == map["B" := b]
    ensures a != b && a.server == s && b.server == s
    ensures a.name == "A" && a.addr == "A" && a.closed
    ensures b.outbox == ["[B]B: login\n", "[A]A: offline\n"]
  {
    s, a, b := TwoUsersOnline();
    assert "B" in s.onlineUsers && s.onlineUsers["B"] == b;
    if asWritten {
      KickAsWritten(a);
    } else {
      Kick(a);
    }
    assert s.onlineUsers == map["B" := b];
    assert "B" in s.onlineUsers && s.onlineUsers["B"] == b;
    ScenarioLines();
  }

  /** Two users, `A` and `B`, come online; `A` idles and is kicked; the read
      that was pending on `A`'s connection then returns nothing, as a read of a
      closed connection does. Returns what `B` received. With the unguarded
      offline step, `B` is told twice that `A` went offline. */
  method KickThenClosedReadAsWritten() returns (seen: seq<string>)
    ensures seen == ["[B]B: login\n", "[A]A: offline\n", "[A]A: offline\n"]
  {
    var s, a, b := TwoUsersThenKick(true);
    ghost var before := Capture(a);
    assert "B" in s.onlineUsers && s.onlineUsers["B"] == b;
    assert b in before.outboxes && before.outboxes[b] == b.outbox && before.name == "A";
    var more := HandleRead(a, ReadResult("", Failed));
    assert "B" in s.onlineUsers && s.onlineUsers["B"] == b;
    ScenarioLines();
    assert b.outbox == before.outboxes[b] + ["[A]A: offline\n"];
    seen := b.outbox;
  }

  /** The same sequence with the guarded offline step: `B` is told once. */
  method KickThenClosedRead() returns (seen: seq<string>)
    ensures seen == ["[B]B: login\n", "[A]A: offline\n"]
  {
    var s, a, b := TwoUsersThenKick(false);
    var more := HandleReadCorrected(a, ReadResult("", Failed));
    seen := b.outbox;
  }

  /** Users `A` and `B` come online and `A`'s connection reads nothing,
      which takes `A` offline; the read goes through the guarded offline step
      when `corrected` holds. */
  method ReadEnds(corrected: bool) returns (s: Server, a: User, b: User)
    ensures fresh(s) && fresh(a) && fresh(b)
    ensures s.Valid() && s.onlineUsers == map["B" := b]
    ensures a.server == s && a.name == "A" && a.closed
  {
    s, a, b := TwoUsersOnline();
    assert s.onlineUsers - {"A"} == map["B" := b];
    var r := ReadResult("", EndOfFile);
    assert EndsSession(r);
    var more;
    if corrected {
      more := HandleReadCorrected(a, r);
    } else {
      more := HandleRead(a, r);
    }
  }

  /** User `C` connects and renames itself to `A`, a name nobody holds. */
  method TakeOverName(s: Server) returns (c: User)
    requires s.Valid() && "A" !in s.onlineUsers && "C" !in s.onlineUsers
    modifies s`onlineUsers, s.onlineUsers.Values`outbox
    ensures fresh(c) && c.server == s && c.name == "A" && !c.closed
    ensures s.Valid() && s.onlineUsers == old(s.onlineUsers)["A" := c]
  {
    c := Connect(s, "C");
    ghost var registered := s.onlineUsers;
    assert registered - {"C"} == old(s.onlineUsers);
    var line := "rename " + "A";
    assert |line| > 7 && line[..7] == "rename " && line[7..] == "A";
    DefaultChain(line);
    assert "A" !in registered;
    DoMessage(c, line);
    assert s.onlineUsers == (registered - {"C"})["A" := c];
  }

  /** Users `A` and `B` come online; `A`'s connection reads nothing, which
      takes `A` offline, but the idle timer keeps running. User `C` connects
      and renames itself to `A`. Ten seconds later the timer kicks the old
      `A`, whose unguarded offline step deletes the entry under its name: the
      live user `C`, still named `A` with its connection open, is no longer
      registered. */
  method ReadThenStaleKickAsWritten() returns (s: Server, c: User)
    ensures c.name == "A" && !c.closed && "A" !in s.onlineUsers
  {
    var a, b;
    s, a, b := ReadEnds(false);
    c := TakeOverName(s);
    KickAsWritten(a);
  }

  /** The same sequence with the guarded offline step: the kick finds the old
      `A` already offline and leaves `C` registered under `A`. */
  method ReadThenStaleKick() returns (s: Server, c: User)
    ensures c.name == "A" && !c.closed && "A" in s.onlineUsers && s.onlineUsers["A"] == c
  {
    var a, b;
    s, a, b := ReadEnds(true);
    c := TakeOverName(s);
    Kick(a);
  }
}
