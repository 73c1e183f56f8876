/**
  The command dispatcher: an ordered chain of four handlers (`who`, `rename`,
  private message, broadcast). Each handler either declines a line, changing
  nothing, or claims it and performs its reply or registry change; the chain
  stops at the first claim. The broadcast handler claims every line, so it
  sits last.
*/
module Message {
  import opened Text
  import opened Chat

  datatype Handler = WhoHandler | RenameHandler | PrivateHandler | BroadcastHandler

  datatype MessageProcessor = MessageProcessor(handlers: seq<Handler>)

  /** The processor every incoming line goes through: four distinct handlers,
      the broadcast handler last, and some handler claims every line. */
  function NewMessageProcessor(): (mp: MessageProcessor)
    ensures |mp.handlers| == 4 && mp.handlers[3] == BroadcastHandler
    ensures forall j, k :: 0 <= j < k < |mp.handlers| ==> mp.handlers[j] != mp.handlers[k]
    ensures forall msg :: FirstClaim(mp.handlers, msg) < |mp.handlers|
  {
    MessageProcessor([WhoHandler, RenameHandler, PrivateHandler, BroadcastHandler])
  }

  /** Whether handler `h` claims `msg`. */
  predicate Claims(h: Handler, msg: string) {
    match h
    case WhoHandler => msg == "who"
    case RenameHandler => !(|msg| <= 7 || msg[..7] != "rename ")
    case PrivateHandler => !(!HasPrefix(msg, "to ") || |msg| <= 3)
    case BroadcastHandler => true
  }

  /** The position of the first handler in `handlers` that claims `msg`, or
      `|handlers|` when none does. */
  function FirstClaim(handlers: seq<Handler>, msg: string): (i: nat)
    ensures i <= |handlers|
    ensures forall j :: 0 <= j < i ==> !Claims(handlers[j], msg)
    ensures i < |handlers| ==> Claims(handlers[i], msg)
  {
    if handlers == [] then 0
    else if Claims(handlers[0], msg) then 0
    else 1 + FirstClaim(handlers[1..], msg)
  }

  /** `FirstClaim` is the one position where no earlier handler claims the
      line and the handler there, if any, does. */
  lemma {:induction false} FirstClaimAt(handlers: seq<Handler>, msg: string, i: nat)
    requires i <= |handlers|
    requires forall j :: 0 <= j < i ==> !Claims(handlers[j], msg)
    requires i < |handlers| ==> Claims(handlers[i], msg)
    ensures FirstClaim(handlers, msg) == i
  {
    if handlers != [] && i > 0 {
      assert !Claims(handlers[0], msg);
      FirstClaimAt(handlers[1..], msg, i - 1);
    }
  }

  /** The handler of the default chain that handles `msg`. */
  function Chosen(msg: string): Handler {
    var handlers := NewMessageProcessor().handlers;
    var i := FirstClaim(handlers, msg);
    if i < |handlers| then handlers[i] else BroadcastHandler
  }

  /** Every line is claimed by some handler of the default chain, and which one
      is decided by the line alone: exactly `who` goes to the who handler,
      `rename ` followed by at least one character to the rename handler, `to `
      followed by at least one character to the private handler, and all other
      lines are broadcast. */
  lemma DefaultChain(msg: string)
    ensures FirstClaim(NewMessageProcessor().handlers, msg) < |NewMessageProcessor().handlers|
    ensures Chosen(msg) == WhoHandler <==> msg == "who"
    ensures Chosen(msg) == RenameHandler <==> |msg| > 7 && msg[..7] == "rename "
    ensures Chosen(msg) == PrivateHandler <==> |msg| > 3 && msg[..3] == "to "
    ensures Chosen(msg) == BroadcastHandler <==>
      msg != "who" && !(|msg| > 7 && msg[..7] == "rename ") && !(|msg| > 3 && msg[..3] == "to ")
  {
    ChosenByTests(msg);
    ClaimsDisjoint(msg);
  }

  /** The default chain picks the first of the who, rename and private
      handlers whose test holds, and the broadcast handler when none does. */
  lemma ChosenByTests(msg: string)
    ensures Chosen(msg) ==
      if Claims(WhoHandler, msg) then WhoHandler
      else if Claims(RenameHandler, msg) then RenameHandler
      else if Claims(PrivateHandler, msg) then PrivateHandler
      else BroadcastHandler
  {
    var hs := NewMessageProcessor().handlers;
    assert hs == [WhoHandler, RenameHandler, PrivateHandler, BroadcastHandler];
    assert hs[1..] == [RenameHandler, PrivateHandler, BroadcastHandler];
    assert hs[1..][1..] == [PrivateHandler, BroadcastHandler];
    assert hs[1..][1..][1..] == [BroadcastHandler];
    if Claims(WhoHandler, msg) {
      assert FirstClaim(hs, msg) == 0;
    } else if Claims(RenameHandler, msg) {
      assert FirstClaim(hs, msg) == 1 + FirstClaim(hs[1..], msg) == 1;
    } else if Claims(PrivateHandler, msg) {
      assert FirstClaim(hs[1..], msg) == 1 + FirstClaim(hs[1..][1..], msg) == 1;
    } else {
      assert FirstClaim(hs[1..][1..], msg) == 1 + FirstClaim(hs[1..][1..][1..], msg) == 1;
      assert FirstClaim(hs, msg) == 3;
    }
  }

  /** No line is claimed by two of the `who`, rename and private handlers. */
  lemma ClaimsDisjoint(msg: string)
    ensures Claims(RenameHandler, msg) <==> |msg| > 7 && msg[..7] == "rename "
    ensures Claims(PrivateHandler, msg) <==> |msg| > 3 && msg[..3] == "to "
    ensures !(Claims(WhoHandler, msg) && Claims(RenameHandler, msg))
    ensures !(Claims(WhoHandler, msg) && Claims(PrivateHandler, msg))
    ensures !(Claims(RenameHandler, msg) && Claims(PrivateHandler, msg))
  {
    if |msg| > 7 && msg[..7] == "rename " {
      assert msg[..3] == msg[..7][..3] == "ren";
    }
  }

  // ---------------------------------------------------------------------------
  // The `who` reply

  /** `order` lists every name of `names` exactly once and nothing else. */
  ghost predicate IsEnumeration(order: seq<string>, names: set<string>) {
    && (forall i, j :: 0 <= i < j < |order| ==> order[i] != order[j])
    && (forall i :: 0 <= i < |order| ==> order[i] in names)
    && (forall n :: n in names ==> n in order)
  }

  /** The `who` reply for the names listed in `order`. */
  function WhoText(order: seq<string>): string {
    "online users: [" + Join(order, ", ") + "]\n"
  }

  /** Each name followed by `sep`, concatenated. */
  function Terminated(parts: seq<string>, sep: string): string {
    if parts == [] then "" else parts[0] + sep + Terminated(parts[1..], sep)
  }

  lemma {:induction false} TerminatedAppend(parts: seq<string>, sep: string, x: string)
    ensures Terminated(parts + [x], sep) == Terminated(parts, sep) + x + sep
  {
    if parts != [] {
      assert (parts + [x])[1..] == parts[1..] + [x];
      TerminatedAppend(parts[1..], sep, x);
    } else {
      assert [x][1..] == [];
    }
  }

  /** With at least one part, the terminated list is the joined list plus one
      trailing separator. */
  lemma {:induction false} TerminatedIsJoin(parts: seq<string>, sep: string)
    requires parts != []
    ensures Terminated(parts, sep) == Join(parts, sep) + sep
  {
    if |parts| > 1 {
      TerminatedIsJoin(parts[1..], sep);
    } else {
      assert parts[1..] == [];
    }
  }

  lemma {:induction false} TerminatedLength(parts: seq<string>, sep: string)
    ensures |Terminated(parts, sep)| >= |parts| * |sep|
  {
    if parts != [] {
      TerminatedLength(parts[1..], sep);
    }
  }

  /** An enumeration has as many entries as the set has names, and names each
      member of the set once and nothing else. */
  lemma {:induction false} EnumerationOnce(order: seq<string>, names: set<string>, n: string)
    requires IsEnumeration(order, names)
    ensures |order| == |names|
    ensures multiset(order)[n] == if n in names then 1 else 0
  {
    if order == [] {
      assert forall m :: m in names ==> m in order;
    } else {
      var last := order[|order| - 1];
      var init := order[..|order| - 1];
      assert order == init + [last];
      assert forall i :: 0 <= i < |init| ==> init[i] == order[i] != last;
      assert IsEnumeration(init, names - {last});
      EnumerationOnce(init, names - {last}, n);
      assert multiset(order) == multiset(init) + multiset{last};
    }
  }

  /** Builds the `who` reply from the registered names, visiting them in an
      unspecified order as Go's map iteration does: every name once, separated
      by a comma and a space, in brackets. With nobody online the reply is
      `online users: []`. */
  method WhoReply(names: set<string>) returns (who: string)
    ensures exists order :: IsEnumeration(order, names) && who == WhoText(order)
    ensures names == {} ==> who == "online users: []\n"
  {
    who := "online users: [";
    var pending := names;
    ghost var order: seq<string> := [];
    while pending != {}
      invariant pending <= names
      invariant IsEnumeration(order, names - pending)
      invariant forall i :: 0 <= i < |order| ==> order[i] !in pending
      invariant who == "online users: [" + Terminated(order, ", ")
      decreases pending
    {
      var n :| n in pending;
      TerminatedAppend(order, ", ", n);
      who := who + n + ", ";
      order := order + [n];
      pending := pending - {n};
    }
    assert names - pending == names;
    TerminatedLength(order, ", ");
    if |who| > |"online users: ["| {
      TerminatedIsJoin(order, ", ");
      who := who[..|who| - 2];
    } else {
      assert order == [];
    }
    who := who + "]\n";
    assert who == WhoText(order);
  }

  // ---------------------------------------------------------------------------
  // The private message

  /** For a line the private handler claims and that splits on spaces into at
      least three pieces: the first piece is `to`, the second names the target
      and holds no space, and the content (the remaining pieces joined by single
      spaces) is exactly the text after the line's second space. */
  lemma PrivateContent(msg: string)
    requires Claims(PrivateHandler, msg)
    requires |Split(msg, ' ')| >= 3
    ensures var parts := Split(msg, ' ');
      && parts[0] == "to"
      && ' ' !in parts[1]
      && msg == "to " + parts[1] + " " + Join(parts[2..], " ")
  {
    var parts := Split(msg, ' ');
    SplitAfterSecond(msg, ' ');
    assert msg[..3] == "to ";
    var p0 := parts[0];
    assert forall i :: 0 <= i < |p0| ==> msg[i] == p0[i] != ' ';
    assert msg[|p0|] == ' ';
    assert msg[0] == 't' && msg[1] == 'o' && msg[2] == ' ';
    assert |p0| == 2 && p0 == msg[..2];
  }

  /** The private handler's usage reply goes out exactly when the line holds
      fewer than two spaces. */
  lemma PrivateNeedsTwoSpaces(msg: string)
    ensures |Split(msg, ' ')| >= 3 <==> multiset(msg)[' '] >= 2
  {
    SplitCount(msg, ' ');
  }

  // ---------------------------------------------------------------------------
  // Handling a line

  /** What handler `h` does to the state when it claims `msg`, given the
      snapshot `b` of the state before. */
  ghost predicate Performed(h: Handler, u: User, msg: string, b: Snapshot)
    reads u, u.server, b.outboxes.Keys
  {
    match h
    case WhoHandler =>
      && u.server.onlineUsers == b.registry && u.name == b.name
      && exists order :: IsEnumeration(order, b.registry.Keys) && Delivered(b, {u}, WhoText(order))
    case RenameHandler =>
      |msg| > 7 &&
      var newName := msg[7..];
      if newName in b.registry then
        u.server.onlineUsers == b.registry && u.name == b.name && Delivered(b, {u}, NameTakenReply)
      else
        && u.server.onlineUsers == (b.registry - {b.name})[newName := u]
        && u.name == newName
        && Delivered(b, {u}, ChangedNameReply(newName))
    case PrivateHandler =>
      var parts := Split(msg, ' ');
      && u.server.onlineUsers == b.registry && u.name == b.name
      && if |parts| < 3 then Delivered(b, {u}, UsageReply)
         else if parts[1] !in b.registry then Delivered(b, {u}, NotOnlineReply)
         else Delivered(b, {b.registry[parts[1]]}, PrivateLine(b.name, Join(parts[2..], " ")))
    case BroadcastHandler =>
      && u.server.onlineUsers == b.registry && u.name == b.name
      && Delivered(b, b.registry.Values, BroadcastLine(u.addr, b.name, msg) + "\n")
  }

  method HandleWho(u: User, msg: string) returns (claimed: bool)
    requires u.server.Valid()
    modifies u`outbox
    ensures u.server.Valid()
    ensures claimed == Claims(WhoHandler, msg)
    ensures claimed ==> Performed(WhoHandler, u, msg, old(Capture(u)))
    ensures !claimed ==> Quiet(u, old(Capture(u)))
  {
    ghost var b := Capture(u);
    if msg != "who" {
      return false;
    }
    var who := WhoReply(u.server.onlineUsers.Keys);
    u.SendMsg(who);
    ghost var order :| IsEnumeration(order, b.registry.Keys) && who == WhoText(order);
    assert Delivered(b, {u}, WhoText(order));
    return true;
  }

  method HandleRename(u: User, msg: string) returns (claimed: bool)
    requires u.server.Valid()
    modifies u.server`onlineUsers, u`name, u`outbox
    ensures u.server.Valid()
    ensures claimed == Claims(RenameHandler, msg)
    ensures claimed ==> Performed(RenameHandler, u, msg, old(Capture(u)))
    ensures !claimed ==> Quiet(u, old(Capture(u)))
  {
    if |msg| <= 7 || msg[..7] != "rename " {
      return false;
    }
    var newName := msg[7..];
    if u.server.IsOnline(newName) {
      u.SendMsg(NameTakenReply);
      return true;
    }
    u.ModifyName(newName);
    return true;
  }

  method HandlePrivate(u: User, msg: string) returns (claimed: bool)
    requires u.server.Valid()
    modifies u`outbox, u.server.onlineUsers.Values`outbox
    ensures u.server.Valid()
    ensures claimed == Claims(PrivateHandler, msg)
    ensures claimed ==> Performed(PrivateHandler, u, msg, old(Capture(u)))
    ensures !claimed ==> Quiet(u, old(Capture(u)))
  {
    if !HasPrefix(msg, "to ") || |msg| <= 3 {
      return false;
    }
    var split := Split(msg, ' ');
    if |split| < 3 {
      u.SendMsg(UsageReply);
      return true;
    }
    var username := split[1];
    if !u.server.IsOnline(username) {
      u.SendMsg(NotOnlineReply);
      return true;
    }
    var content := Join(split[2..], " ");
    var target := u.server.onlineUsers[username];
    target.SendMsg(PrivateLine(u.name, content));
    return true;
  }

  method HandleBroadcast(u: User, msg: string) returns (claimed: bool)
    requires u.server.Valid()
    modifies u.server.onlineUsers.Values`outbox
    ensures u.server.Valid()
    ensures claimed == Claims(BroadcastHandler, msg)
    ensures claimed ==> Performed(BroadcastHandler, u, msg, old(Capture(u)))
    ensures !claimed ==> Quiet(u, old(Capture(u)))
  {
    u.server.BroadCast(u, msg);
    return true;
  }

  /** Runs handler `h` on `msg`. */
  method Handle(h: Handler, u: User, msg: string) returns (claimed: bool)
    requires u.server.Valid()
    modifies u.server`onlineUsers, u.server.onlineUsers.Values`outbox, u`name, u`outbox
    ensures u.server.Valid()
    ensures claimed == Claims(h, msg)
    ensures claimed ==> Performed(h, u, msg, old(Capture(u)))
    ensures !claimed ==> Quiet(u, old(Capture(u)))
  {
    match h
    case WhoHandler => claimed := HandleWho(u, msg);
    case RenameHandler => claimed := HandleRename(u, msg);
    case PrivateHandler => claimed := HandlePrivate(u, msg);
    case BroadcastHandler => claimed := HandleBroadcast(u, msg);
  }

  /** Offers `msg` to the handlers in order and stops at the first that claims
      it: that handler's effect is the whole effect, and when none claims it
      nothing changes. */
  method Process(mp: MessageProcessor, u: User, msg: string)
    requires u.server.Valid()
    modifies u.server`onlineUsers, u.server.onlineUsers.Values`outbox, u`name, u`outbox
    ensures u.server.Valid()
    ensures var i := FirstClaim(mp.handlers, msg);
      if i < |mp.handlers| then Performed(mp.handlers[i], u, msg, old(Capture(u)))
      else Quiet(u, old(Capture(u)))
  {
    ghost var b := Capture(u);
    for i := 0 to |mp.handlers|
      invariant u.server.Valid()
      invariant forall j :: 0 <= j < i ==> !Claims(mp.handlers[j], msg)
      invariant Quiet(u, b) && Capture(u) == b
    {
      var claimed := Handle(mp.handlers[i], u, msg);
      if claimed {
        FirstClaimAt(mp.handlers, msg, i);
        return;
      }
    }
    FirstClaimAt(mp.handlers, msg, |mp.handlers|);
  }

  /** Handles one line from user `u` with the default chain: the handler
      `Chosen(msg)` performs its effect. */
  method DoMessage(u: User, msg: string)
    requires u.server.Valid()
    modifies u.server`onlineUsers, u.server.onlineUsers.Values`outbox, u`name, u`outbox
    ensures u.server.Valid()
    ensures Performed(Chosen(msg), u, msg, old(Capture(u)))
  {
    DefaultChain(msg);
    var processor := NewMessageProcessor();
    Process(processor, u, msg);
  }
}
