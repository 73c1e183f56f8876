/**
  How the client and the server understand each other's lines: the client
  frames each typed line with a newline that the server strips, and the
  client recognises the server's rename reply by its shape alone.
*/
module Protocol {
  import opened Text
  import opened Chat
  import opened Message
  import Session
  import C = Client

  /** Both sides spell the rename reply's prefix the same way. */
  lemma PrefixesAgree()
    ensures ChangedNamePrefix == C.RenamePrefix
  {
  }

  /** Trimming a line that neither starts nor ends with white space, followed
      by its newline, gives back the line. */
  lemma TrimNewline(s: string)
    requires s != [] && !IsSpace(s[0]) && !IsSpace(s[|s| - 1])
    ensures TrimSpace(s + "\n") == s
  {
    TrimSpaceTrailing(s, "\n");
  }

  /** The trimmed rename reply is the prefix, the name and the closing quote. */
  lemma ReplyTrimmed(n: string)
    ensures TrimSpace(ChangedNameReply(n)) == ChangedNamePrefix + n + "\""
  {
    var s := ChangedNamePrefix + n + "\"";
    assert ChangedNameReply(n) == s + "\n";
    assert s[0] == 'Y' && s[|s| - 1] == '"';
    TrimNewline(s);
  }

  /** The client adopts exactly the name the server confirmed. */
  lemma RenameReplyRoundTrip(n: string)
    requires n != ""
    ensures C.RenamedTo(TrimSpace(ChangedNameReply(n))) == C.Some(n)
  {
    ReplyTrimmed(n);
    PrefixesAgree();
    C.RenamedToInverse(n);
  }

  /** A rename reply for a name without a newline arrives as one line, however
      the server's later output follows it. */
  lemma RenameReplyIsOneLine(n: string, rest: string)
    requires '\n' !in n
    ensures C.ReadLine(ChangedNameReply(n) + rest) == C.Some(ChangedNameReply(n))
  {
    var reply := ChangedNameReply(n);
    var stream := reply + rest;
    var body := ChangedNamePrefix + n + "\"";
    assert reply == body + "\n";
    assert '\n' !in ChangedNamePrefix;
    assert '\n' !in body;
    var got := C.ReadLine(stream).value;
    var k := |got|;
    assert got == stream[..k];
    assert stream[..|body|] == body;
    assert stream[|reply| - 1] == '\n';
    assert got[..k - 1] == stream[..k - 1];
    assert k >= |reply|;
    assert k <= |reply|;
    assert got == reply;
  }

  /** A line that differs from the rename prefix somewhere within it, once
      trimmed of its newline, is not a rename reply. */
  lemma NotRenameLine(s: string, j: nat)
    requires s != [] && !IsSpace(s[0]) && !IsSpace(s[|s| - 1])
    requires j < |s| && j < |C.RenamePrefix| && s[j] != C.RenamePrefix[j]
    ensures C.RenamedTo(TrimSpace(s + "\n")).None?
  {
    TrimNewline(s);
  }

  /** The server's fixed replies leave the client's name alone: the reply to
      a taken name, ... */
  lemma NameTakenNotRename()
    ensures C.RenamedTo(TrimSpace(NameTakenReply)).None?
  {
    var taken := "User name already exists";
    assert NameTakenReply == taken + "\n";
    assert taken[0] == 'U' && taken[|taken| - 1] == 's';
    NotRenameLine(taken, 0);
  }

  /** ... to a private message for a name nobody holds, ... */
  lemma NotOnlineNotRename()
    ensures C.RenamedTo(TrimSpace(NotOnlineReply)).None?
  {
    var offline := "User not online";
    assert NotOnlineReply == offline + "\n";
    assert offline[0] == 'U' && offline[|offline| - 1] == 'e';
    NotRenameLine(offline, 0);
  }

  /** ... to a malformed private message, ... */
  lemma UsageNotRename()
    ensures C.RenamedTo(TrimSpace(UsageReply)).None?
  {
    var usage := "Invalid message format, usage: " + "to {username} {msg}";
    assert UsageReply == usage + "\n";
    NotRenameLine(usage, 0);
  }

  /** ... and the notice of a kick, which shares the prefix's first seven
      characters. */
  lemma KickNotRename()
    ensures C.RenamedTo(TrimSpace(KickReply)).None?
  {
    var kicked := "You've been kicked for timeout";
    assert KickReply == kicked + "\n";
    assert kicked[0] == 'Y' && kicked[|kicked| - 1] == 't' && kicked[7] == 'b';
    NotRenameLine(kicked, 7);
  }

  /** No broadcast line, whoever sends it and whatever it says, is mistaken
      for a rename reply. */
  lemma BroadcastNotRename(addr: string, name: string, msg: string)
    ensures C.RenamedTo(TrimSpace(BroadcastLine(addr, name, msg) + "\n")).None?
  {
    var line := BroadcastLine(addr, name, msg) + "\n";
    assert line[0] == '[';
    assert TrimLeft(line) == line;
    TrimRightDropsSpaces(line);
    assert TrimSpace(line)[0] == '[';
  }

  /** A private message is the same text as a rename reply when its sender is
      named after the rename prefix and its content ends in a double quote; the
      receiving client then takes on the name the sender chose. */
  lemma PrivateLineImpersonatesRename(suffix: string, content: string)
    ensures PrivateLine(ChangedNamePrefix + suffix, content + "\"")
         == ChangedNameReply(suffix + " said to you: " + content)
    ensures C.RenamedTo(TrimSpace(PrivateLine(ChangedNamePrefix + suffix, content + "\"")))
         == C.Some(suffix + " said to you: " + content)
  {
    var n := suffix + " said to you: " + content;
    assert PrivateLine(ChangedNamePrefix + suffix, content + "\"") == ChangedNameReply(n);
    RenameReplyRoundTrip(n);
  }

  /** The server's dispatcher receives exactly the line the client framed. */
  lemma FrameRoundTrip(m: string)
    ensures Session.LineOf(C.Frame(m)) == m
  {
  }

  /** A typed line is announced as a rename locally exactly when the server
      routes it to the rename handler, and the name announced is the one the
      handler tries. */
  lemma RenameNoticeAgrees(m: string)
    ensures C.IsRenameRequest(m) <==> Chosen(Session.LineOf(C.Frame(m))) == RenameHandler
    ensures C.IsRenameRequest(m) ==>
      C.RenameNotice(m) == "Attempting to rename to: " + Session.LineOf(C.Frame(m))[7..] + "\n"
  {
    FrameRoundTrip(m);
    DefaultChain(m);
  }

  /** The request the client sends first is handled as a rename to the
      client's name, unless that name is empty, when it is broadcast as it is. */
  lemma StartupRename(name: string)
    ensures var line := Session.LineOf(C.Frame("rename " + name));
      && Chosen(line) == (if name != "" then RenameHandler else BroadcastHandler)
      && (name != "" ==> line[7..] == name)
  {
    var line := "rename " + name;
    FrameRoundTrip(line);
    DefaultChain(line);
    assert line[..7] == "rename " && line[0] == 'r' && line[..3] != "to ";
  }

  /** The start of a session, end to end: the client asks for the name `n`,
      which nobody holds; the server renames the user and replies; the client
      reads the reply and goes by `n` too. */
  method StartupRoundTrip(c: C.Client, u: User, n: string)
    requires u.server.Valid()
    requires n != "" && '\n' !in n && n !in u.server.onlineUsers
    modifies u.server`onlineUsers, u.server.onlineUsers.Values`outbox, u`name, u`outbox, c`name
    ensures u.server.Valid()
    ensures u.name == n && c.name == n
    ensures u.server.onlineUsers == (old(u.server.onlineUsers) - {old(u.name)})[n := u]
  {
    var reply := ServerRenames(u, n);
    RenameReplyIsOneLine(n, "");
    assert reply + "" == reply;
    var got := C.ReadLine(reply);
    RenameReplyRoundTrip(n);
    c.ProcessServerMessage(TrimSpace(got.value));
  }

  /** The server's side of the start: the client's first frame renames the
      user to the free name `n`, and the last line written to it is the
      rename reply. */
  method ServerRenames(u: User, n: string) returns (reply: string)
    requires u.server.Valid()
    requires n != "" && n !in u.server.onlineUsers
    modifies u.server`onlineUsers, u.server.onlineUsers.Values`outbox, u`name, u`outbox
    ensures u.server.Valid()
    ensures u.name == n && reply == ChangedNameReply(n)
    ensures u.server.onlineUsers == (old(u.server.onlineUsers) - {old(u.name)})[n := u]
  {
    var frame := C.Frame("rename " + n);
    StartupRename(n);
    ghost var b := Capture(u);
    DoMessage(u, Session.LineOf(frame));
    assert u in b.outboxes;
    reply := u.outbox[|u.outbox| - 1];
  }
}
