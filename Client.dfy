/**
  The terminal client: it tracks its own name from the server's rename
  replies, classifies what the user types, and frames what it sends as one
  line each.
*/
module Client {
  import opened Text

  datatype Option<T> = None | Some(value: T)

  /** The start of the server's reply to a successful rename. */
  const RenamePrefix: string := "You've changed name to \""

  lemma RenamePrefixShape()
    ensures |RenamePrefix| == 24 && RenamePrefix[23] == '"'
    ensures '"' !in RenamePrefix[..23]
  {
    assert RenamePrefix[..23] == "You've changed name to ";
  }

  /** The positions the client computes on a rename reply: the first double
      quote is the one closing the prefix, the last is the final character. */
  lemma RenameReplyQuotes(message: string)
    requires HasPrefix(message, RenamePrefix) && HasSuffix(message, "\"")
    ensures IndexOf(message, '"') == |RenamePrefix| - 1
    ensures LastIndexOf(message, '"') == |message| - 1
  {
    RenamePrefixShape();
    assert message[..23] == RenamePrefix[..23];
    assert message[23] == '"';
    assert message[|message| - 1] == '"';
  }

  /** The name a server message announces, when it is a rename reply: the
      message starts with the rename prefix and ends with a double quote, and
      the name is the text strictly between the first and the last double
      quote, applied only when it is not empty. */
  function RenamedTo(message: string): (r: Option<string>)
    ensures r.Some? <==>
      HasPrefix(message, RenamePrefix) && HasSuffix(message, "\"") && |message| >= |RenamePrefix| + 2
    ensures r.Some? ==> r.value != "" && message == RenamePrefix + r.value + "\""
  {
    if HasPrefix(message, RenamePrefix) && HasSuffix(message, "\"") then
      RenameReplyQuotes(message);
      var start := IndexOf(message, '"') + 1;
      var end := LastIndexOf(message, '"');
      if start > 0 && end > start then
        assert message == message[..start] + message[start..end] + message[end..];
        Some(message[start..end])
      else None
    else None
  }

  /** Any name the server could confirm comes back out of its reply. */
  lemma RenamedToInverse(n: string)
    requires n != ""
    ensures RenamedTo(RenamePrefix + n + "\"") == Some(n)
  {
    var m := RenamePrefix + n + "\"";
    assert m[..|RenamePrefix|] == RenamePrefix;
    assert m[|m| - 1..] == "\"";
    assert m == RenamePrefix + RenamedTo(m).value + "\"";
  }

  /** The client's own example of a rename reply is parsed to its name, ... */
  lemma RenameReplyExample()
    ensures RenamedTo("You've changed name to \"newName\"") == Some("newName")
  {
    assert "You've changed name to \"newName\"" == RenamePrefix + "newName" + "\"";
    RenamedToInverse("newName");
  }

  /** ... and so is its example of a name with characters beyond letters. */
  lemma SpecialNameExample()
    ensures RenamedTo("You've changed name to \"user@123\"") == Some("user@123")
  {
    assert "You've changed name to \"user@123\"" == RenamePrefix + "user@123" + "\"";
    RenamedToInverse("user@123");
  }

  /** The client's own examples of other messages, the reply to a taken name
      and a broadcast line, are not rename replies. */
  lemma OtherMessageExamples()
    ensures RenamedTo("User name already exists").None?
    ensures RenamedTo("[127.0.0.1:8080]user: hello").None?
  {
    assert "User name already exists"[0] != RenamePrefix[0];
    assert "[127.0.0.1:8080]user: hello"[0] != RenamePrefix[0];
  }

  /** `bufio.Reader.ReadString('\n')` on what the server has sent so far: the
      text up to and including the first newline, or nothing while no newline
      has arrived. */
  function ReadLine(stream: string): (r: Option<string>)
    ensures r.None? <==> '\n' !in stream
    ensures r.Some? ==> && |r.value| >= 1 && HasPrefix(stream, r.value)
                        && r.value[|r.value| - 1] == '\n'
                        && '\n' !in r.value[..|r.value| - 1]
  {
    var i := IndexOf(stream, '\n');
    if i < 0 then None
    else
      assert stream[..i + 1][..i] == stream[..i];
      Some(stream[..i + 1])
  }

  /** What one line typed by the user asks for. */
  datatype InputAction = Skip | Quit | ShowName | Send(line: string)

  /** The typed line is trimmed; an empty line is skipped, `quit` and `exit`
      stop the client, `name` is answered locally, and anything else is sent
      as trimmed. */
  function ClassifyInput(raw: string): (a: InputAction)
    ensures a == Skip <==> TrimSpace(raw) == ""
    ensures a == Quit <==> TrimSpace(raw) == "quit" || TrimSpace(raw) == "exit"
    ensures a == ShowName <==> TrimSpace(raw) == "name"
    ensures a.Send? ==> a.line == TrimSpace(raw) && Sendable(a.line)
  {
    var input := TrimSpace(raw);
    if input == "" then Skip
    else if input == "quit" || input == "exit" then Quit
    else if input == "name" then ShowName
    else Send(input)
  }

  /** A line the client puts on the wire: not empty, not surrounded by white
      space, and none of the words the client keeps for itself. */
  predicate Sendable(m: string) {
    && m != [] && !IsSpace(m[0]) && !IsSpace(m[|m| - 1])
    && m != "quit" && m != "exit" && m != "name"
  }

  /** How `sendMessage` frames a message: one line, ended by a newline. */
  function Frame(message: string): (f: string)
    ensures |f| == |message| + 1 && f[..|message|] == message && f[|message|] == '\n'
  {
    message + "\n"
  }

  /** The frame one typed line puts on the wire, if any. */
  function Sent(a: InputAction): seq<string> {
    if a.Send? then [Frame(a.line)] else []
  }

  /** The line shown for `name`. */
  function NameLine(name: string): (line: string)
    ensures HasPrefix(line, "Current name: ") && line[|line| - 1] == '\n'
    ensures line[14..|line| - 1] == name
  {
    "Current name: " + name + "\n"
  }

  /** A typed line that asks the server for a new name. */
  predicate IsRenameRequest(m: string): (b: bool)
    ensures b <==> |m| > 7 && m == "rename " + m[7..]
  {
    HasPrefix(m, "rename ") && |m| > 7
  }

  /** The notice shown when the user asks for a rename. */
  function RenameNotice(m: string): (notice: string)
    requires IsRenameRequest(m)
    ensures HasPrefix(notice, "Attempting to rename to: ") && notice[|notice| - 1] == '\n'
    ensures "rename " + notice[25..|notice| - 1] == m
  {
    "Attempting to rename to: " + m[7..] + "\n"
  }

  /** The lines one typed line shows locally: the current name for `name`, a
      notice for a rename request, nothing otherwise. */
  function Shown(a: InputAction, name: string): seq<string> {
    match a
    case ShowName => [NameLine(name)]
    case Send(m) => if IsRenameRequest(m) then [RenameNotice(m)] else []
    case _ => []
  }

  /** What each typed line asks for, line by line. */
  function Actions(input: seq<string>): (acts: seq<InputAction>)
    ensures |acts| == |input|
  {
    if input == [] then [] else [ClassifyInput(input[0])] + Actions(input[1..])
  }

  lemma {:induction false} ActionAt(input: seq<string>, k: nat)
    requires k < |input|
    ensures Actions(input)[k] == ClassifyInput(input[k])
  {
    if k > 0 {
      ActionAt(input[1..], k - 1);
    }
  }

  lemma {:induction false} ActionsAppend(x: seq<string>, y: seq<string>)
    ensures Actions(x + y) == Actions(x) + Actions(y)
  {
    if x != [] {
      assert (x + y)[0] == x[0] && (x + y)[1..] == x[1..] + y;
      ActionsAppend(x[1..], y);
    } else {
      assert x + y == y;
    }
  }

  /** The frames sent for the actions `acts`, up to the first `Quit`. */
  function SentFor(acts: seq<InputAction>): seq<string> {
    if acts == [] || acts[0] == Quit then [] else Sent(acts[0]) + SentFor(acts[1..])
  }

  /** The lines shown for the actions `acts`, up to the first `Quit`. */
  function ShownFor(acts: seq<InputAction>, name: string): seq<string> {
    if acts == [] || acts[0] == Quit then [] else Shown(acts[0], name) + ShownFor(acts[1..], name)
  }

  /** A typed line that is not `quit` or `exit` contributes its frame, if any,
      before those of the lines after it. */
  lemma SentForStep(acts: seq<InputAction>, i: nat)
    requires i < |acts| && acts[i] != Quit
    ensures SentFor(acts[i..]) == Sent(acts[i]) + SentFor(acts[i + 1..])
  {
    assert acts[i..][0] == acts[i] && acts[i..][1..] == acts[i + 1..];
  }

  /** ... and the lines it shows before those of the lines after it. */
  lemma ShownForStep(acts: seq<InputAction>, i: nat, name: string)
    requires i < |acts| && acts[i] != Quit
    ensures ShownFor(acts[i..], name) == Shown(acts[i], name) + ShownFor(acts[i + 1..], name)
  {
    assert acts[i..][0] == acts[i] && acts[i..][1..] == acts[i + 1..];
  }

  /** Handling one more typed line that is not `quit` or `exit` extends what
      was sent and shown by that line's contribution. */
  lemma Advance(acts: seq<InputAction>, i: nat, name: string,
                sent0: seq<string>, sent: seq<string>, shown0: seq<string>, shown: seq<string>)
    requires i < |acts| && acts[i] != Quit
    requires SentFor(acts) == sent0 + SentFor(acts[i..])
    requires ShownFor(acts, name) == shown0 + ShownFor(acts[i..], name)
    requires sent == sent0 + Sent(acts[i]) && shown == shown0 + Shown(acts[i], name)
    ensures SentFor(acts) == sent + SentFor(acts[i + 1..])
    ensures ShownFor(acts, name) == shown + ShownFor(acts[i + 1..], name)
  {
    SentForStep(acts, i);
    ShownForStep(acts, i, name);
    Regroup(SentFor(acts), sent0, Sent(acts[i]), SentFor(acts[i + 1..]));
    Regroup(ShownFor(acts, name), shown0, Shown(acts[i], name), ShownFor(acts[i + 1..], name));
  }

  /** Output so far, then one step's part and the rest, is the output with the
      step's part included, then the rest. Stated apart from `SentFor` and
      `ShownFor` so that regrouping does not unfold them. */
  lemma Regroup(whole: seq<string>, before: seq<string>, part: seq<string>, rest: seq<string>)
    requires whole == before + (part + rest)
    ensures whole == (before + part) + rest
  {
  }

  /** The frames sent for the typed lines `input`. */
  function Transmitted(input: seq<string>): seq<string> {
    SentFor(Actions(input))
  }

  /** The lines shown locally for the typed lines `input`. */
  function Displayed(input: seq<string>, name: string): seq<string> {
    ShownFor(Actions(input), name)
  }

  /** Nothing after a `Quit` is sent. */
  lemma {:induction false} QuitStopsSentFor(before: seq<InputAction>, after: seq<InputAction>)
    ensures SentFor(before + [Quit] + after) == SentFor(before)
  {
    var all := before + [Quit] + after;
    if before == [] {
      assert all[0] == Quit;
    } else {
      assert all[0] == before[0];
      assert all[1..] == before[1..] + [Quit] + after;
      QuitStopsSentFor(before[1..], after);
    }
  }

  /** Nothing typed after `quit` or `exit` is sent. */
  lemma QuitStopsSending(before: seq<string>, q: string, after: seq<string>)
    requires ClassifyInput(q) == Quit
    ensures Transmitted(before + [q] + after) == Transmitted(before)
  {
    ActionsAppend(before + [q], after);
    ActionsAppend(before, [q]);
    assert Actions([q]) == [Quit];
    QuitStopsSentFor(Actions(before), Actions(after));
  }

  /** One sendable line followed by its newline. */
  predicate FramedLine(f: string) {
    |f| >= 2 && f[|f| - 1] == '\n' && Sendable(f[..|f| - 1])
  }

  lemma {:induction false} SentForFramedLines(acts: seq<InputAction>)
    requires forall k :: 0 <= k < |acts| && acts[k].Send? ==> Sendable(acts[k].line)
    ensures |SentFor(acts)| <= |acts|
    ensures forall k :: 0 <= k < |SentFor(acts)| ==> FramedLine(SentFor(acts)[k])
  {
    if acts != [] && acts[0] != Quit {
      SentForFramedLines(acts[1..]);
      if acts[0].Send? {
        var f := Frame(acts[0].line);
        assert f[..|f| - 1] == acts[0].line;
      }
    }
  }

  /** Every frame sent is one sendable line followed by its newline, and there
      are no more frames than typed lines. */
  lemma TransmittedAreFramedLines(input: seq<string>)
    ensures |Transmitted(input)| <= |input|
    ensures forall k :: 0 <= k < |Transmitted(input)| ==> FramedLine(Transmitted(input)[k])
  {
    var acts := Actions(input);
    forall k | 0 <= k < |acts| && acts[k].Send?
      ensures Sendable(acts[k].line)
    {
      ActionAt(input, k);
    }
    SentForFramedLines(acts);
  }

  class Client {
    var name: string

    /** A client that will ask to be called `name`. */
    constructor (name: string)
      ensures this.name == name
    {
      this.name := name;
    }

    /** Adopts the name a rename reply announces; leaves the name alone for
        every other message. */
    method ProcessServerMessage(message: string)
      modifies this`name
      ensures name == if RenamedTo(message).Some? then RenamedTo(message).value else old(name)
    {
      if HasPrefix(message, RenamePrefix) && HasSuffix(message, "\"") {
        var start := IndexOf(message, '"') + 1;
        var end := LastIndexOf(message, '"');
        if start > 0 && end > start {
          name := message[start..end];
        }
      }
    }

    /** The name the client currently goes by; nothing changes. */
    method GetCurrentName() returns (current: string)
      ensures current == name
    {
      current := name;
    }

    /** Reads typed lines until `quit`, `exit` or the end of input; returns
        the frames sent to the server and the lines shown locally, in order. */
    method HandleUserInput(input: seq<string>) returns (sent: seq<string>, shown: seq<string>)
      ensures sent == Transmitted(input)
      ensures shown == Displayed(input, name)
    {
      sent, shown := [], [];
      ghost var acts := Actions(input);
      ghost var me := name;
      var i := 0;
      assert acts[i..] == acts;
      while i < |input|
        invariant 0 <= i <= |input|
        invariant SentFor(acts) == sent + SentFor(acts[i..])
        invariant ShownFor(acts, me) == shown + ShownFor(acts[i..], me)
      {
        ghost var sent0, shown0 := sent, shown;
        var action := ClassifyInput(input[i]);
        ActionAt(input, i);
        match action {
          case Quit =>
            assert acts[i..][0] == acts[i];
            return;
          case Skip =>
          case ShowName =>
            var current := GetCurrentName();
            shown := shown + [NameLine(current)];
          case Send(line) =>
            if IsRenameRequest(line) {
              shown := shown + [RenameNotice(line)];
            }
            sent := sent + [Frame(line)];
        }
        Advance(acts, i, me, sent0, sent, shown0, shown);
        i := i + 1;
      }
    }

    /** Starts a session: first asks the server for the client's name, then
        handles what the user types. */
    method Start(input: seq<string>) returns (sent: seq<string>, shown: seq<string>)
      ensures sent == [Frame("rename " + name)] + Transmitted(input)
      ensures shown == Displayed(input, name)
    {
      sent := [Frame("rename " + name)];
      var typed;
      typed, shown := HandleUserInput(input);
      sent := sent + typed;
    }
  }
}
