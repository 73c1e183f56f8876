# IM-System chat server and client, modelled in Dafny

IM-System is a small TCP chat server written in Go, with a terminal client.
Every connection becomes an online user, registered under a name. The
connection's remote address is that name until the user renames itself.
Each line a user sends goes to the first of four handlers that claims it:

- `who` lists the online names;
- `rename <name>` moves the user's registry entry to a new name, unless that
  name is taken;
- `to <name> <words…>` delivers a private message;
- anything else is broadcast to every online user.

A connection that reads nothing, or fails, takes its user offline. So does ten
seconds without a read, after a kick notice. The client asks for its name
first, then sends each trimmed typed line. It recognises the server's rename
reply and adopts the name it carries.

The project has six modules:

- `Text`: the Go `strings` operations the code relies on. These are prefix and
  suffix tests, `Split`, `Join`, `Index`, `LastIndex` and `TrimSpace`.
- `Chat`: the shared state. `User` and `Server` are classes, because the source
  updates a user's name and its registry in place. Each user's connection is
  modelled as `outbox`, the sequence of writes made to it.
- `Message`: the handler chain. Each handler either declines the line and
  changes nothing, or performs its effect. The `Performed` predicate states
  that effect against a snapshot of the state before the line.
- `Session`: the server's per-connection loop, as separate steps:
  - a connect;
  - each read;
  - the idle kick.
- `Client`: the client's reply parser, its input classification and framing,
  and its start-up.
- `Protocol`: properties that relate the two sides:
  - the rename round trip;
  - which server replies the client can mistake for a rename;
  - the framing round trip;
  - the start-up exchange.

The registry invariant `Server.Valid` holds before and after every operation.
It says that every entry is registered under its own user's current name.

Go strings hold UTF-8 bytes. Here a string is a `seq<char>` of the Unicode
code points those bytes encode. This is how `strings.TrimSpace` reads a string
once it meets a non-ASCII byte, so white space is Go's `unicode.IsSpace`. The
code's byte-level tests look only at ASCII text: `who`, the `rename ` and
`to ` prefixes, the `"` quotes, and the newline the client appends. Those tests
give the same answers on code points.

Two behaviours of the code that a reader might not expect are kept as written:

- `Online` overwrites an entry already registered under the same name. It does
  not refuse the duplicate (internal/user.go:46).
- The offline step is not idempotent. It broadcasts `offline` again each time
  it runs, both on a read that ends the session and on a kick. Whichever of
  the two comes first, the other still runs it: a kick closes the connection,
  so the pending read returns nothing, and a read that ends the session does
  not stop the idle timer, which kicks ten seconds later. See Findings.

## Model

| member | source | states |
|---|---|---|
| Text.HasPrefix | internal/message.go:68 | `strings.HasPrefix`: the string is at least as long as the prefix and its first characters are the prefix; the handlers' `to ` test and the client's rename tests (tools/client/client.go:114, 165) use it |
| Text.HasSuffix | tools/client/client.go:114 | `strings.HasSuffix`: the string is at least as long as the suffix and its last characters are the suffix |
| Text.Split | internal/message.go:72 | `strings.Split` on one character: at least one piece, and no piece holds the separator |
| Text.Join | internal/message.go:84 | `strings.Join`: the pieces with the separator between consecutive ones; `Text.JoinSplit` is its round trip with `Split` |
| Text.JoinSplit | internal/message.go:72-84 | joining the pieces of a split with the same separator gives back the string |
| Text.SplitCount | internal/message.go:72-73 | a split has exactly one more piece than the separator occurs in the string |
| Text.SplitAfterSecond | internal/message.go:84 | with three or more pieces, the join of the pieces from the third on is the text after the second separator |
| Text.IndexOf | tools/client/client.go:117 | `strings.Index` of a character: -1 exactly when absent, else the position of its first occurrence |
| Text.LastIndexOf | tools/client/client.go:118 | `strings.LastIndex` of a character: -1 exactly when absent, else the position of its last occurrence |
| Text.IsSpace | tools/client/client.go:147 | Go's `unicode.IsSpace`, which `strings.TrimSpace` applies at tools/client/client.go:106 and 147: below U+0100 exactly tab, newline, vertical tab, form feed, carriage return, space, U+0085 and U+00A0, and nothing above U+3000 |
| Text.TrimLeft | tools/client/client.go:147 | the result is no longer than the input and does not start with white space |
| Text.TrimRight | tools/client/client.go:147 | the result is no longer than the input, keeps its first character and does not end with white space |
| Text.TrimLeftDropsSpaces | tools/client/client.go:147 | trimming the left keeps a suffix of the string and removes only white space |
| Text.TrimRightDropsSpaces | tools/client/client.go:147 | trimming the right keeps a prefix of the string and removes only white space |
| Text.TrimSpace | tools/client/client.go:147 | `strings.TrimSpace`: the result neither starts nor ends with white space |
| Text.TrimRightSpaces | tools/client/client.go:106 | white space appended to a string does not survive trimming the right |
| Text.TrimSpaceTrailing | tools/client/client.go:106 | a string with no white space at either end, plus trailing white space, trims back to itself |
| Chat.ChangedNameReply | internal/user.go:94 | the rename reply is the prefix `You've changed name to "`, then the new name, then a closing double quote and a newline |
| Chat.PrivateLine | internal/message.go:85 | the private line is the sender's name, then ` said to you: `, then the content and a newline, each at its position |
| Chat.BroadcastLine | server.go:53 | a broadcast line is `[`, the address, `]`, the name, a colon and a space, then the message, each at its position |
| Chat.User.constructor | internal/user.go:19-27 | a new user's name and address are both the remote address, and nothing has been written to it |
| Chat.User.SendMsg | internal/user.go:71-73 | the message is written to the connection verbatim, with no newline added |
| Chat.User.Online | internal/user.go:43-50 | the registry maps the user's name to the user, and every other entry is kept; every user registered afterwards, this one included, receives its `login` line; the registry invariant holds |
| Chat.User.Offline | internal/user.go:57-67 | corrected version: the first call removes the name, sends `offline` to everyone still registered and nobody else, and closes the connection; a later call changes nothing |
| Chat.User.OfflineAsWritten | internal/user.go:57-67 | every call removes the name and sends `offline` to everyone still registered and nobody else; deleting a name that is absent leaves the registry as it was |
| Chat.User.ModifyName | internal/user.go:87-94 | the old key is removed and the new key maps to the user; the user is renamed and receives exactly `You've changed name to "<newName>"` followed by a newline; the registry invariant holds |
| Chat.Server.constructor | server.go:22-31 | a new server has an empty registry |
| Chat.Server.ListenMsg | server.go:43-47 | one fan-out round appends the message, plus the newline the user's writer adds, once to every registered user; the registry is unchanged |
| Chat.Server.BroadCast | server.go:52-55 | every registered user, the sender included, receives the sender's formatted line plus a newline |
| Chat.Server.IsOnline | server.go:137-142 | a name is online exactly when it is a key of the registry, as `internal/message.go` calls it with a name; `Chat.RegisteredUnderOwnName` relates it to the users |
| Chat.RegisteredUnderOwnName | server.go:137-142 | under the registry invariant, a user is registered exactly when its own name is online and maps to it |
| Chat.RekeyPreservesSize | internal/user.go:88-92 | moving an entry from a present name to an absent one keeps the number of registered users |
| Message.NewMessageProcessor | internal/message.go:103-112 | four distinct handlers with the broadcast handler last, and some handler claims every line |
| Message.Claims | internal/message.go:25-95 | each handler's test: exactly `who`; `rename ` plus at least one character; `to ` plus at least one character; any line for broadcast |
| Message.FirstClaim | internal/message.go:115-121 | the position of the first handler that claims the line: no earlier handler claims it, and the one found does |
| Message.FirstClaimAt | internal/message.go:115-121 | a position is the first claim exactly when no earlier handler claims the line and the handler there, if any, does; it is how `Process`'s early return is tied to `FirstClaim` |
| Message.DefaultChain | internal/message.go:103-121 | the default chain always claims a line; the who handler takes exactly `who`, the rename handler takes exactly `rename ` plus at least one character, the private handler takes exactly `to ` plus at least one character, and everything else is broadcast |
| Message.ChosenByTests | internal/message.go:103-121 | the default chain picks the first of the who, rename and private handlers whose test holds, and the broadcast handler when none does |
| Message.ClaimsDisjoint | internal/message.go:25-70 | the rename and private tests are the prefix-and-length conditions, and no line is claimed by two of the who, rename and private handlers |
| Message.TerminatedIsJoin | internal/message.go:37-39 | for a non-empty list, names each followed by `, ` are the joined names plus one trailing `, ` that the code cuts off |
| Message.EnumerationOnce | internal/message.go:32-34 | an enumeration of the registered names has one entry per name and lists each name exactly once |
| Message.WhoReply | internal/message.go:30-42 | the reply is `online users: [`, then every registered name exactly once in some order joined by `, `, then `]` and a newline; with nobody online it is `online users: []` and a newline |
| Message.PrivateContent | internal/message.go:72-85 | for a claimed line with three or more pieces, the first piece is `to`, the target name holds no space, and the content is exactly the text after the line's second space |
| Message.PrivateNeedsTwoSpaces | internal/message.go:72-76 | the usage reply is sent exactly when the line holds fewer than two spaces |
| Message.HandleWho | internal/message.go:25-44 | claims exactly `who`; the user alone receives the who reply for the current registry; otherwise nothing changes |
| Message.HandleRename | internal/message.go:49-62 | claims `rename ` plus at least one character; a taken name, one's own included, gets `User name already exists` and no change; otherwise the entry is moved to the rest of the line verbatim and the rename reply is sent; a declined line changes nothing |
| Message.HandlePrivate | internal/message.go:67-87 | claims `to ` plus at least one character; fewer than three pieces give the usage reply, an absent target gives `User not online`, both to the sender alone; otherwise only the target receives `<sender> said to you: <content>`; the registry is unchanged |
| Message.HandleBroadcast | internal/message.go:92-95 | claims every line; every registered user receives the sender's broadcast line; the registry is unchanged |
| Message.Handle | internal/message.go:17-20 | runs one handler, which claims a line exactly when its test holds and changes nothing when it declines |
| Message.Process | internal/message.go:115-121 | the handlers are tried in order; the first that claims the line performs its effect, which is the whole effect; when none claims it, nothing changes |
| Message.DoMessage | internal/user.go:76-84 | the handler the default chain picks for the line performs its effect, and the registry invariant holds |
| Session.EndsSession | server.go:72-82 | a read ends the session when it read nothing or failed with anything but end of file |
| Session.LineOf | server.go:86 | the dispatched line is the text read minus exactly its last character, the client's newline |
| Session.Connect | server.go:57-60 | a new user named after its address is registered, and every user registered afterwards, the new one included, receives its `login` line |
| Session.HandleRead | server.go:71-89 | a read of 0 bytes, or one that failed with anything but end of file, ends the loop and takes the user offline through the unguarded step: its name is removed and everyone still registered receives its `offline` line, even when the connection was already closed; otherwise the line is dispatched and the loop goes on |
| Session.HandleReadCorrected | server.go:71-89 | corrected version: the same, except that a read ending the session on a connection already closed changes nothing |
| Session.Kick | server.go:97-100 | corrected version: the user receives `You've been kicked for timeout` and a newline, then goes offline; the others receive its `offline` line unless the connection was already closed |
| Session.KickAsWritten | server.go:97-100 | the user receives the kick notice, then goes offline through the unguarded step |
| Session.ReadEnds | server.go:72-76 | with users `A` and `B` online, a read of nothing on `A`'s connection leaves only `B` registered and `A`'s connection closed, through either read step |
| Session.TakeOverName | internal/message.go:49-62 | a new user `C` that renames itself to the free name `A` is registered under `A`, its connection open, and every other entry is kept |
| Session.ReadThenStaleKickAsWritten | server.go:93-101 | as written: after `A`'s read ends its session and `C` takes the name `A`, the idle timer still kicks `A`, and the unguarded offline step deletes `C`'s registry entry while `C`'s connection stays open |
| Session.ReadThenStaleKick | server.go:93-101 | corrected: the same sequence through the guarded offline step leaves `C` registered under `A` |
| Session.TwoUsersThenKick | server.go:97-100 | with users `A` and `B` online and `A` kicked, `B` has received its own `login` line and `A`'s `offline` line, and only `B` is registered |
| Session.KickThenClosedReadAsWritten | server.go:72-76 | as written: after the kick, the pending read on the closed connection returns nothing, and `HandleRead` sends `B` `A`'s `offline` line a second time |
| Session.KickThenClosedRead | server.go:72-76 | corrected: the same sequence through `HandleReadCorrected`, and `B` receives `A`'s `offline` line once |
| Client.RenameReplyQuotes | tools/client/client.go:117-118 | in a rename reply, the first double quote closes the prefix and the last one is the final character |
| Client.RenamedTo | tools/client/client.go:114-121 | a name is found exactly when the message starts with the rename prefix, ends with a double quote and has room for a name; the name is not empty and is exactly the text between the prefix and the closing quote |
| Client.RenamedToInverse | tools/client/client.go:114-121 | for any non-empty name, the prefix, the name and a closing quote parse back to that name |
| Client.RenameReplyExample | tools/client/client_test.go:19-24 | the test's rename reply is parsed to `newName` |
| Client.SpecialNameExample | tools/client/client_test.go:37-42 | the test's reply for `user@123` is parsed to `user@123` |
| Client.OtherMessageExamples | tools/client/client_test.go:25-36 | the test's reply to a taken name and its broadcast line are not rename replies |
| Client.Frame | tools/client/client.go:188 | a frame is the message followed by exactly one newline; `Protocol.FrameRoundTrip` shows the server strips exactly that |
| Client.ReadLine | tools/client/client.go:91 | reading up to `\n`: nothing until a newline has arrived, otherwise the stream's text up to and including its first newline |
| Client.NameLine | tools/client/client.go:160 | the line shown for `name` is `Current name: `, then exactly the current name, then a newline |
| Client.IsRenameRequest | tools/client/client.go:165 | a typed line is a rename request exactly when it is `rename ` followed by at least one character |
| Client.RenameNotice | tools/client/client.go:165-167 | the notice is `Attempting to rename to: `, then the requested name, then a newline; `rename ` followed by the name it shows gives back the typed line |
| Client.ClassifyInput | tools/client/client.go:147-162 | a typed line is skipped exactly when it trims to empty, quits exactly on `quit` or `exit`, shows the name exactly on `name`, and is otherwise sent as trimmed |
| Client.QuitStopsSending | tools/client/client.go:153-156 | nothing typed after `quit` or `exit` is sent |
| Client.TransmittedAreFramedLines | tools/client/client.go:147-171 | every frame sent is a non-empty line, with no white space at either end and not a local command, followed by one newline; there are no more frames than typed lines |
| Client.Client.constructor | tools/client/client.go:25-31 | a client starts with the name it was given |
| Client.Client.ProcessServerMessage | tools/client/client.go:112-124 | the client's name becomes the name a rename reply carries, and is left alone for every other message |
| Client.Client.GetCurrentName | tools/client/client.go:131-133 | returns the current name and changes nothing |
| Client.Client.HandleUserInput | tools/client/client.go:136-184 | the frames sent and the lines shown are those of the typed lines up to the first `quit` or `exit`, in order: a frame for each line sent, the name for `name`, and a notice for each rename request |
| Client.Client.Start | tools/client/client.go:46-71 | the first frame sent is `rename ` plus the client's name, followed by the frames for what the user types |
| Protocol.PrefixesAgree | tools/client/client.go:114 | the client's rename prefix is the one the server's reply starts with |
| Protocol.ReplyTrimmed | tools/client/client.go:106 | trimming the server's rename reply leaves the prefix, the name and the closing quote |
| Protocol.RenameReplyRoundTrip | tools/client/client.go:106-121 | for any non-empty name, the client parses the trimmed rename reply back to that name |
| Protocol.RenameReplyIsOneLine | tools/client/client.go:91 | for a name without a newline, the client reads the whole rename reply as one line, whatever follows it |
| Protocol.NameTakenNotRename | internal/message.go:56 | the reply to a taken name is not a rename reply |
| Protocol.NotOnlineNotRename | internal/message.go:80 | the reply to an absent target is not a rename reply |
| Protocol.UsageNotRename | internal/message.go:74 | the usage reply is not a rename reply |
| Protocol.KickNotRename | server.go:98 | the kick notice is not a rename reply |
| Protocol.BroadcastNotRename | server.go:53 | no broadcast line, from any sender with any text, is a rename reply |
| Protocol.PrivateLineImpersonatesRename | internal/message.go:85 | a private message from a sender named with the rename prefix, whose content ends in a double quote, is the same text as a rename reply, and the receiving client adopts the name it spells |
| Protocol.FrameRoundTrip | tools/client/client.go:188 | stripping the last character undoes one frame: a read that returns exactly one frame dispatches exactly the line the client framed |
| Protocol.RenameNoticeAgrees | tools/client/client.go:165-167 | the client shows a rename notice exactly when the server routes the line to the rename handler, and the notice names the name the handler tries |
| Protocol.StartupRename | tools/client/client.go:58 | the client's first line is handled as a rename to its name, or broadcast when that name is empty |
| Protocol.ServerRenames | internal/message.go:49-62 | the client's first frame renames the user to the free name it asks for, moves its registry entry, and the last line written to the user is the rename reply, when the server's first read returns exactly that frame |
| Protocol.StartupRoundTrip | tools/client/client.go:58-67 | when the requested name is free and the server's first read returns exactly the client's first frame, the server renames the user, moves its registry entry, and the client, reading the reply, goes by the same name |

## Left out

- Goroutines, the broadcast and per-user data channels, and the registry lock
  are not modelled. A broadcast is one atomic fan-out step, and reads, kicks
  and handled lines are separate sequential steps.
- The idle timer (`select` on `time.After`) is not modelled. The kick is an
  event that may occur at any point, so the race between activity and timeout
  is not modelled.
- Socket I/O is not modelled: listening, accepting, dialling, reading, writing,
  closing and read deadlines. A read is a parameter (`Session.ReadResult`), and
  a user's writes are recorded in its `outbox`.
- Write errors are not modelled, including a write to a closed connection.
  The `outbox` records every write issued.
- Zap logging is left out; it has no behavioural content.
- `tools/client/main.go` (flags and help text), the client's command help text
  and its `✓ Name updated` and prompt printing are left out. These are output
  only.
- The client's concurrent reader loop and its quit channel are not modelled.
  Reading is `Client.ReadLine` on what has arrived, and parsing is
  `ProcessServerMessage`. Stopping on `quit` is the return from
  `HandleUserInput`. For `name`, `HandleUserInput` therefore shows the name
  the client had when input handling started. In the source the reader
  goroutine may have changed `c.Name` in between
  (tools/client/client.go:106, 121, 160).
- The client's 100 ms read deadline is not modelled
  (tools/client/client.go:89, 93-95). When it expires, `ReadString` returns
  the text received so far with a timeout error, and the loop discards that
  text and reads again. `Client.ReadLine` instead keeps partial text until its
  newline arrives, so it does not model lines the client loses this way.
- The client's `sendMessage` error path is not modelled, because writes are
  assumed to succeed.
- `user.go` at the repository root is an older copy of the internal user type,
  so it is left out.
- A line longer than one 4096-byte read arrives in several reads. Each read is
  dispatched on its own, as the code does; the model does not re-assemble
  lines.
- The protocol lemmas (`Protocol.FrameRoundTrip`, `Protocol.ServerRenames`,
  `Protocol.StartupRoundTrip`) assume that one server read returns exactly one
  client frame. TCP keeps no line boundaries: frames that arrive together are
  read at server.go:71 as one text. Only the last character is stripped
  (server.go:86), so they are dispatched as one line with embedded newlines.
  For example, `rename bob` and `who` read together rename the user to
  `bob`, a newline and `who`. The client then reads that reply as two lines
  and does not adopt the name.
- Chat.User.Offline: guards only on the closed flag. It does not check that
  the entry under its name is its own. `Online` overwrites an entry with the
  same name, so a user displaced that way is still open. Its corrected
  offline step deletes the newcomer's entry, exactly as the code does.
- Byte lengths are not modelled. The read buffer's bound of 4096 counts
  characters here, not bytes. A read that ends inside a multi-byte character,
  and text that is not valid UTF-8, are outside the model. The same holds for
  stripping a last byte that is not the client's newline.
- `isOnline` is modelled on a name, as `internal/message.go` calls it. The
  `internal` package's own server type is not part of this model.
- Session.Kick: follows the corrected offline step. The server's own timeout
  path is `Session.KickAsWritten`.

## Findings

| source | as written | input that shows it | evidently intended | confidence | as-written member | corrected member |
|---|---|---|---|---|---|---|
| internal/user.go:57-67 | `Offline` removes the name, broadcasts `offline` and closes the connection each time it is called. On timeout, server.go:98-99 calls it, closing the connection. The pending read on that connection then returns 0 bytes, and server.go:72-74 calls `Offline` again. | users `A` and `B` online, `A` idles for ten seconds: `B` receives `[A]A: offline` twice | the offline transition happens once per session; a second trigger changes nothing | not executed | Session.KickThenClosedReadAsWritten | Session.KickThenClosedRead |
| server.go:93-101 | When a read ends the session, the goroutine reading the connection returns, but the idle loop keeps waiting. Ten seconds later it sends the kick notice to the closed connection and calls `Offline` again, which deletes whatever entry then holds the old name. | users `A` and `B` online; `A`'s read returns 0 bytes; a new user `C` renames itself to `A`; `A`'s timer expires: `C` is no longer registered, although its connection is open | a session's timer stops when its read loop ends, so a session goes offline once | not executed | Session.ReadThenStaleKickAsWritten | Session.ReadThenStaleKick |

Both scenarios kick `A` and then pass the read that returns nothing through a
read step. `Session.HandleRead` is the read step as written. It calls
`Chat.User.OfflineAsWritten`, the unguarded offline step.
`Session.HandleReadCorrected` calls `Chat.User.Offline` instead, which is
guarded by the connection's `closed` flag. The guarded step's contract says
that a call on a closed connection changes nothing.

The second row runs the other order: the read ends `A`'s session first, and
the kick arrives afterwards. `Session.ReadThenStaleKickAsWritten` kicks through
`Session.KickAsWritten`. Besides broadcasting `A`'s `offline` line again, the
stale step deletes the registry entry of `C`, who has taken the name `A` meanwhile.
`Session.ReadThenStaleKick` kicks through `Session.Kick`, and `C` stays
registered.

A related property of the protocol is proved, not claimed as a defect
(`Protocol.PrivateLineImpersonatesRename`). The client recognises a rename reply
by its shape alone. A user can rename itself to `You've changed name to "x`. A
private message it then sends whose content ends in `"` reaches its target as
a valid rename reply. The target's client then takes the name
`x said to you: …`, although the server's registry does not change.
