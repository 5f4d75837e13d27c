# telepathy-idle: a verified model

telepathy-idle is an IRC connection manager for the Telepathy framework. This project
states in Dafny what its state machines, text pipelines and small parsers do, and proves
what they are for. `dafny verify dfyconfig.toml` checks all of it.

## The parts

**Outgoing.** `Text` splits a UTF-8 text into IRC commands that fit a line; `Ctcp` frames
CTCP requests; `Framing` makes one line of each command; `Outgoing` is the priority queue
with its 32-bit comparison; `ServerConnection` writes one command at a time, in parts;
`Connection` is the whole sending side: handshake, pings, keepalive, QUIT, the timer that
drains the queue, and the writes that succeed, fail or are refused; `ConnectionHistory` tells
its flags and its queue by the events of a run.

**Incoming.** `Conversion` is what becomes of each chunk before the parser sees it;
`Receiver` puts lines together from socket chunks, and `Chunking` says which chunks are read
as a stream; `Parser` and `Formats` are the tokeniser and the format language; `Messages` is
the table of 48 message formats with what the handlers read from their arguments; `Dispatch`
is the walk over that table; `Printing` writes messages down parameter by parameter and
`Replies` follows whole received lines to their handlers; `Handles` validates names;
`CtcpDecode` reads CTCP requests; `Salvage` repairs converted text that is not UTF-8; `Utf8`
is section 4 of RFC 3629 and the GLib helpers built on it. `Irc` holds what all of them share.

**Both ways.** `RoundTrip` sends a text from one client, through its queue and writes and a
relaying server, to another client and shows exactly when it comes out.

**Rooms.** `Modes` and `MucChannel` are the channel modes and the permissions derived from
them, and `ModeActions` is what a MODE message says; `RoomManager` and `MucManager` are the
manager that answers channel requests, and `RoomHistory` tells by which event.

**Contacts.** `Whois` is the queue of contact information requests.

**Code generation.** `Signatures` and `Identifiers` are the D-Bus signature iterator and the
identifier encoding of the binding generator.

## How the model is built

- Code that changes state is a class with the source's fields (`IdleConnection`,
  `IdleServerConnection`, `LineBuffer`, `MucChannel`, `MucManager`, `ContactInfo`,
  `SignatureIter`), or a method with the source's loop and buffer. Each method is proved equal
  to a specification function on values; the lemmas are about those functions. For the
  connection, the rooms and the contacts one step function covers every event, and the main
  results hold in every state of every run.
- A C string is a `string` whose characters stand for bytes. A NUL byte is never part of a
  valid text.
- Sockets, timers, clocks and the order in which a hash table gives up its entries are
  events or parameters of events. In the round trip the charset is UTF-8: the conversion of
  a chunk succeeds when the chunk is valid UTF-8 by itself, and otherwise all its bytes
  outside ASCII become question marks. `Salvage` is for another case, a conversion that
  succeeds with text that does not validate. `g_utf8_strdown`, the Unicode letter test and
  our own handle are parameters. GLib's `g_utf8_validate`, `g_utf8_find_prev_char`,
  `g_queue_insert_sorted` and `strtol` are small specified functions.
- Integer widths are written out where they matter: the comparison of priorities and ids,
  `sscanf` and `strtol`.

## Where the code differs from what it says

- `pending_msg_compare` is commented as preferring the higher priority. Its 32-bit
  difference does so exactly for priorities less than 2^31 apart (`PrefersHigher`), and
  makes a cycle of the four in use (`CompareIsCyclic`). In a run a message goes ahead of all
  that is lower exactly when it is not of the highest priority or all of that stands behind
  a PASS (`HigherFirstInRuns`), so the answer to a server ping waits behind an ordinary
  message (`AnswerQueuesBehind`). Within each priority messages are first in, first out
  (`EveryRun`), and only because of when each priority is used (`LatePassBreaksFifo`).
- Chunks are converted one by one, so a chunk that cuts a character reaches the parser with
  question marks for it (`CutCharacterIsLost`). The relayed lines arrive as they were sent
  exactly when the chunks are orderly and every chunk is valid UTF-8 by itself (`EndToEnd`,
  `ValidChunksArrive`); one line in each chunk is such a way (`AWayToArrive`).
- Chunks are not always read as a stream. A chunk that starts with a line end while a partial
  line is held loses that line or joins it to the next one; a partial line that does not fit
  is discarded; and only the first 513 bytes of a chunk are searched for line ends, which the
  conversion can make longer than what was read. `ReceiveContinues` gives the exact condition
  for one chunk of any length, and `ChunkingIsExact` for a whole run. A line of ISO-8859-1 is
  discarded whole exactly when it has more than 512 bytes as UTF-8 (`Latin1LineFits`,
  `Latin1LineIsLost`).
- The text splitter finishes on all valid texts exactly when it has five bytes of room
  (`RoomIsNeeded`). With less it can loop without progress, and with none it dereferences the
  NULL of a search for the start of a character (`OneByteFindsStarts`). A CTCP request is sure
  to send something exactly when its header has at most 505 bytes (`ProgressNeedsRoom`), and
  leaves its buffer exactly when the header has no room for what follows (`CtcpSend`).
- The dispatcher looks at a second token that is not there exactly for a line of spaces, which
  is received (`SecondSlotExists`, `BlankLineIsReceived`).
- A number is handed on without being set exactly when its token is blank (`UnsetExactly`,
  `UnsetStampArrives`).
- The length of an action's body underflows exactly for the eight bytes of an action with
  nothing behind them (`UnderflowsExactly`, `BareActionArrives`).
- The decoder of CTCP requests reads behind a message that ends with an unpaired backslash and
  writes behind its buffer where a word is too long (`LineIsInBounds`, `InBoundsIsShort`,
  `LongWordIsOutside`).
- A word of a CTCP request that starts with an escaped NUL swallows the rest of the request
  (`NulSwallowsRest`).
- An escaped control character followed by an octal digit is not read back, and but for words
  that are too long nothing else is lost (`DecodeUndoesEscape`).
- Losing one of operator and half-operator while keeping the other leaves us without the
  permissions that the other one gives, and no other change spoils them
  (`ChangeKeepsConsistent`, `PermissionsFollowFlags`, `DeopStrandsHalfOp`).
- The room configuration shows another limit or password than the modes exactly when a run
  sets a new one over an old one, and another privacy exactly when one of private and secret
  goes while the other stays (`CommitKeepsConfig`, `ConfigFollowsModes`; the messages are in
  `NewLimitIsNotShown`, `NewKeyIsNotShown` and `SecretIsNotShown`).
- The identifier encoding is documented as reversible. It is injective on the names of code
  points below a bound exactly when that bound is at most U+0100 (`InjectiveUpTo256`,
  `WideCharactersCollide`).
- Asking for a room queues the request, and sends JOIN only when that creates the channel.
  Somebody waits under a channel for which no JOIN was sent exactly when the channel came
  from an invitation or from somebody's JOIN and no client has added us to it since
  (`WaitsWithoutJoin`, `InvitedRoomWaits`).

## Model

| member | source | states |
|---|---|---|
| `Text.EncodeAndSplit` | src/idle-text.c:69-150 | For every input: other message types are refused; otherwise messages and bodies are exactly the pieces of the text framed with header and footer, and the loop ends as specified, a wrapped limit included: at the end of the text, at a NULL that is dereferenced, or never |
| `Text.CutIsGood` | src/idle-text.c:105-134 | One turn: the cut leaves valid UTF-8 on both sides, makes progress, never crosses a newline, and a forced cut takes between max_bytes-4 and max_bytes-1 bytes with the next character reaching the limit |
| `Text.PiecesAreGood` | src/idle-text.c:101-137 | The pieces account for every byte of the text in order; each is valid UTF-8 without newline and within the limit, and is cut only at a newline, at the end, or where one more character would reach the limit |
| `Text.BodiesAreTheText` | src/idle-text.c:105-137 | The bodies concatenate to the text with its newlines deleted |
| `Text.MessagesFit` | src/idle-text.c:103-127 | Every message is at most as long as the caller allows |
| `Text.MessageCount` | src/idle-text.c:103-135 | There are at most newlines + 1 + length/(max_bytes-4) messages |
| `Text.ValidFinishes` | src/idle-text.c:105-137 | With five bytes of room the loop ends on every valid text |
| `Text.RoomIsNeeded` | src/idle-text.c:103-135 | The loop ends on all valid texts exactly when there are at least five bytes of room for the body |
| `Text.OneByteFindsStarts` | src/idle-text.c:115-131 | No valid text leads to the NULL of a search for a character start exactly when there is at least one byte of room |
| `Text.WithoutRoom` | src/idle-text.c:103-131 | Without room nothing is sent of any text; where the limit wraps exactly the texts that end with a newline are split |
| `Framing.FrameLine` | src/idle-connection.c:966-986 | The buffer of 513 bytes ends up holding the message clipped to 510 bytes, stray line ends blanked, closed by CR LF |
| `Framing.FrameIsLine` | src/idle-connection.c:966-986 | Whatever the message, the line has at most 512 bytes and its only line end at its end |
| `Framing.FrameOfFitting` | src/idle-connection.c:966-986 | A message that fits and has no line end is sent unchanged |
| `Framing.FrameKeepsBytes` | src/idle-connection.c:966-986 | Of any message the first 510 bytes are in the line, each at its place, with a space for a line end |
| `Framing.RelayedFillsLine` | src/idle-connection.c:1004-1024 | A message of the length given for a relay prefix fills a line of 510 bytes exactly; without one known, a prefix of up to 98 bytes fits |
| `Outgoing.CompareIsCyclic` | src/idle-connection.c:57-120 | The comparison is no order: NORMAL and MAX precede each other, so do MIN and NORMAL+1, and the four priorities form a cycle |
| `Outgoing.OlderFirst` | src/idle-connection.c:110-116 | Of two messages of one priority the older precedes exactly when their ids differ by 1 to 2^31 modulo 2^32 |
| `Outgoing.PrefersHigher` | src/idle-connection.c:118-119 | Of two priorities the comparison prefers the higher exactly when they differ by less than 2^31 |
| `Outgoing.HigherFirst` | src/idle-connection.c:110-120 | In a queue as it occurs, a new message goes ahead of all of lower priority exactly when it is not of the highest priority or all that is below the highest stands behind a PASS |
| `Outgoing.InsertKeepsOrder` | src/idle-connection.c:994-996 | Inserting where each priority is in fact used keeps the order of the queue, and puts a message behind all of its own priority |
| `Outgoing.InsertIsLast` | src/idle-connection.c:994-996 | For every priority the new message is the last of its kind and the others keep their order |
| `Connection.IdleConnection.SendWithPriority` | src/idle-connection.c:966-998 | Queue, timer and buffer afterwards are those of the specified step: framed, inserted by the comparison, flushed at once when the last message is long ago |
| `Connection.IdleConnection.QueueInsertSorted` | src/idle-connection.c:994-996 | The walk over the queue inserts before the first element that does not compare as less |
| `Connection.IdleConnection.MsgQueueTimeoutCb` | src/idle-connection.c:895-925 | A tick takes one message at most, none while one is being sent, and stops the timer when disconnected or idle |
| `Connection.IdleConnection.StartQueueTimeout` | src/idle-connection.c:927-949 | A timer that is off is started, with a tick at once when the last message is long ago |
| `Connection.IdleConnection.ConnectCb` | src/idle-connection.c:1241-1250 | On the welcome the timer is started where something waits |
| `ServerConnection.IdleServerConnection.SendAsync` | src/idle-server-connection.c:569-610 | A connection that is not open refuses the command; otherwise the output buffer holds it, at most 512 bytes of it, and counting starts anew |
| `ServerConnection.TakenFits` | src/idle-server-connection.c:582-597 | What is taken is the start of the command, all of it where it has at most 512 bytes |
| `ServerConnection.IdleServerConnection.WriteReady` | src/idle-server-connection.c:536-567 | A write report puts exactly the next bytes of the buffer on the wire; the last one or an error ends the command |
| `Connection.IdleConnection.WriteReady` | src/idle-connection.c:878-893 | The end of a command, also by an error, makes the queue free to send the next |
| `Connection.IdleConnection.IrcHandshakes` | src/idle-connection.c:1202-1225 | PASS where there is a password, then NICK, USER and WHOIS, with their priorities |
| `Connection.IdleConnection.KeepaliveTimeoutCb` | src/idle-connection.c:836-876 | PING is queued only when connected, not quitting, no ping is open and the queue is empty; an answer overdue by more than three intervals closes the server connection |
| `Connection.IdleConnection.IfaceDisconnected` | src/idle-connection.c:610-629 | QUIT is queued with the highest priority, and quitting is recorded, only on a live connection |
| `Connection.StepKeeps` | src/idle-connection.c:836-1254 | Every event keeps the order of the queue, the per-priority FIFO and the wire invariant |
| `Connection.EveryRun` | src/idle-connection.c:836-1254 | In every state of every run, other connections and failing writes included: of each priority the messages sent are the first ones queued in order and the rest wait in order, ids only grow, and every line has at most 512 bytes; until a command is lost the wire is the completed lines followed by what is written of the current one |
| `Connection.EveryRunDrains` | src/idle-connection.c:895-961 | In every state of every run, what waits on a connection that is up waits for a running timer, so that the restart on the welcome finds nothing to do |
| `Connection.EnqueuedAreSends` | src/idle-connection.c:966-1002 | In every run the ordinary lines ever queued are those of the handshake and of the messages sent, framed, in order |
| `Connection.SendsLeaveInOrder` | src/idle-connection.c:895-925 | Once the queue is empty those are the ordinary lines handed to the server connection, in order |
| `ConnectionHistory.EnqueuedAreCalls` | src/idle-connection.c:836-1254 | In every run the lines ever queued, of every priority, are the PASS, NICK, USER, WHOIS, PONG, PING, QUIT and other commands of its events, framed and in order |
| `ConnectionHistory.FlagsTellHistory` | src/idle-connection.c:610-629 | In every run we are connected from the handshake until the connection drops, and quitting from the first disconnection of a live connection on |
| `ConnectionHistory.PingTimeTellsHistory` | src/idle-connection.c:836-876 | In every run the ping time that is not zero is that of the ping which was queued and not answered since |
| `ConnectionHistory.UnansweredPing` | src/idle-connection.c:849-862 | While a ping is unanswered the keepalive timer queues nothing, and closes the server connection exactly when the clock went on by more than three intervals |
| `ConnectionHistory.PingsWhenIdle` | src/idle-connection.c:842-873 | A ping is queued exactly when the connection is up, not quitting, has an empty queue and no unanswered ping |
| `ConnectionHistory.OpenTellsHistory` | src/idle-server-connection.c:569-580 | In every run commands are taken from the handshake until the connection closes, drops or is closed for want of an answer |
| `ConnectionHistory.LostTellsHistory` | src/idle-server-connection.c:536-580 | In every run a command was lost exactly when a write failed or a closed connection took one |
| `ConnectionHistory.EverythingLeaves` | src/idle-connection.c:895-925 | From every state of a connection that is up and lost nothing, ticks and completed writes empty the queue in its order and bring all of it to the wire |
| `ConnectionHistory.TimerStops` | src/idle-connection.c:899-919 | After a tick the timer is on only where the connection is up and a command is under way |
| `ConnectionHistory.FlushedAtOnce` | src/idle-connection.c:927-949 | On an idle connection a command leaves at once when the timer was off and the last message is long ago, and otherwise waits |
| `ConnectionHistory.FailureFreesQueue` | src/idle-connection.c:878-893 | After a failed write the queue is free for the next command |
| `Connection.BufferIsLeftAlone` | src/idle-server-connection.c:569-598 | While a send is under way no event but the end of a write touches the buffer, the count or the wire |
| `Connection.HigherFirstInRuns` | src/idle-connection.c:110-120 | In every run, a message goes ahead of all waiting ones of lower priority exactly when it is not of the highest priority or all that is below the highest stands behind a PASS |
| `Connection.AnswerQueuesBehind` | src/idle-connection.c:110-120 | The instance: a ping answer of the highest priority is queued behind a waiting ordinary message |
| `Connection.LatePassBreaksFifo` | src/idle-connection.c:1211-1217 | If PASS were queued behind a ping answer, the next answer would overtake the first |
| `Receiver.LineBuffer.ReceiveChunk` | src/idle-parser.c:237-287 | The lines emitted and the partial line kept are the specified ones, for a chunk of any length |
| `Receiver.LineBuffer.ScanChunk` | src/idle-parser.c:244-273 | The loop over a chunk emits its completed lines, the first one joined to what is held, and leaves the start of the unfinished one |
| `Receiver.LineBuffer.TakeLine` | src/idle-parser.c:252-259 | A line at the start of a chunk is completed with what is held, which is then gone; any other line leaves it alone |
| `Receiver.LineBuffer.KeepTail` | src/idle-parser.c:275-283 | The unfinished line is appended, or everything is discarded when it does not fit |
| `Receiver.LineBuffer.ClearSplitBuf` | src/idle-parser.c:230-235 | Nothing is held afterwards |
| `Chunking.ReceiveContinues` | src/idle-parser.c:237-287 | A chunk of any length is read as the continuation of the stream exactly when it does not start with a line end while a line is held, the line it leaves fits, and behind the 513 bytes that are searched there are only line ends after a line end, or none inside a line |
| `Chunking.ChunkingIsIrrelevant` | src/idle-parser.c:237-287 | For any orderly chunks the messages emitted are the nonempty completed lines of their concatenation, and what is held is its unfinished line |
| `Chunking.FallsBehind` | src/idle-parser.c:237-287 | A chunk that is not orderly emits fewer lines than the stream has, or loses bytes |
| `Chunking.RunGainsNothing` | src/idle-parser.c:237-287 | No run, whatever is held at its start, emits more lines or keeps more bytes than the stream has |
| `Chunking.ChunkingIsExact` | src/idle-parser.c:237-287 | Over every run of chunks of any length: emitted are the nonempty completed lines of the stream, and held is its unfinished line, if and only if every chunk is orderly |
| `Chunking.OneLineFits` | src/idle-parser.c:237-287 | A line in one chunk is emitted exactly when it has at most 512 bytes, and otherwise nothing is emitted or held |
| `Chunking.ChangedChunks` | src/idle-parser.c:237-287 | Chunks changed without moving a line end give the stream of the original ones exactly when those are orderly and nothing was changed |
| `Chunking.DisorderlyLoses` | src/idle-parser.c:251-286 | What goes wrong otherwise: the held line is missing from the messages, or joined to the next one; the line that does not fit is discarded; what stands behind the bytes searched is dropped or not searched |
| `Receiver.LinesConcat` | src/idle-parser.c:250-273 | A stream can be read in two parts with the unfinished line carried over |
| `Chunking.LinesTellStreams` | src/idle-parser.c:250-273 | Streams with line ends at the same places and the same lines are the same |
| `Parser.Tokenize` | src/idle-parser.c:327-352 | The loop finds the tokens of a message, each with its place in the message |
| `Parser.TokensAreWords` | src/idle-parser.c:327-352 | Every token is a maximal word of the message, paired with what follows it there |
| `Parser.TokensLoseOnlySpaces` | src/idle-parser.c:327-352 | The tokens joined are the message without its spaces |
| `Formats.ParseAndForwardOne` | src/idle-parser.c:385-470 | The interpreter never looks past the end of the token array and computes the specified arguments, or none, for every format of the table shape; `Printing.MessageIsParsed` says what they are |
| `Formats.ParseRepeat` | src/idle-parser.c:401-410 | The repeat parses all remaining tokens or fails |
| `Messages.SpecsAreGood` | src/idle-parser.c:75-128 | Every entry of the message table has a format that the interpreter can run |
| `Messages.RepeatIsShaped` | src/idle-parser.c:401-410 | A repeat yields one or more groups of values of its kind |
| `Messages.InterpretIsShaped` | src/idle-parser.c:385-470 | Whenever handlers are called their arguments have the shape the format denotes |
| `Messages.ShapedKinds` | src/idle-parser.c:385-470 | Arguments of the shape of any good format have the kind it promises at each fixed position, and whole groups of its kinds behind those |
| `Printing.ParamIsParsed` | src/idle-parser.c:497-610 | Whatever a server writes for an atom, a channel, a nickname with or without address and mode character, a number or a word, with or without a colon, is parsed to what it means |
| `Printing.MessageIsParsed` | src/idle-parser.c:385-470 | For every format made of atoms and any of its ends, and any words that say its parameters, the handlers are given what the words mean and nothing else |
| `Parser.NumberIsScanned` | src/idle-parser.c:577-592 | A number is read behind blanks and a sign, up to the first byte that is no digit, kept within 64 bits and stored modulo 2^32 |
| `Messages.HandlersAreServed` | src/idle-parser.c:75-128 | For every entry the shape of its format covers each positional access, with its type, of the handlers registered for its code |
| `Dispatch.TryEntry` | src/idle-parser.c:370-380 | One entry is tried on the first word of an unprefixed message or on the second word, as its position in the table says |
| `Dispatch.ParseMessage` | src/idle-parser.c:366-383 | Every message reaches exactly the specified handlers in table order, and where there is no second word every prefixed entry is tried; a message without any word makes the source look outside the token array |
| `Dispatch.SecondSlotExists` | src/idle-parser.c:366-383 | The slot of the second token lies in the token array exactly when some byte of the message is not a space |
| `Dispatch.BlankLineIsReceived` | src/idle-parser.c:244-273 | The instance: a line of one space is received, and is such a message |
| `Dispatch.DeliveriesAreServed` | src/idle-parser.c:366-487 | No received message makes a handler read an argument that is missing or of another type; the walk over the table stays inside the token array exactly when the message is not blank |
| `Parser.UnsetExactly` | src/idle-parser.c:577-592 | A number is handed on without being set exactly when its token, but for a colon in front, is blank |
| `Replies.UnsetStampArrives` | src/idle-parser.c:577-592 | The instance: for every channel and nickname one received reply 333 calls its handlers once, with such a number |
| `Replies.ColonDoesNotMatter` | src/idle-parser.c:413-430 | A last parameter of one word is delivered the same with and without its colon, in every message where no word between the first one and it has a colon |
| `Replies.PingArrives` | src/idle-parser.c:366-383 | The ping of a server reaches its handler alone, with the word to be sent back |
| `Replies.NamesArrive` | src/idle-parser.c:366-470 | A list of members is delivered once: the room, and for each member the contact and its mode character, NUL where there is none |
| `Replies.NamesTellStatus` | src/idle-muc-channel.c:811-850 | So the last entry for ourselves in a received list makes us operator, gives us voice, or leaves us with neither |
| `Replies.ModeArrives` | src/idle-parser.c:366-470 | A change of the modes of a channel is delivered once: the room, the mode string and its parameters |
| `Replies.ModeLineIsDone` | src/idle-muc-channel.c:883-1019 | A received line that says any list of changes of modes is done as it says |
| `Dispatch.MatchesOnly` | src/idle-parser.c:75-128 | A prefixed PRIVMSG, NOTICE or MODE matches its two entries and no other of the 48 |
| `Dispatch.CaseOfOne` | src/idle-parser.c:370-380 | Commands are compared byte by byte but for the case of ASCII letters |
| `Handles.NicknameIsValid` | src/idle-handles.c:39-91 | The scan accepts exactly the specified nicknames, in both modes |
| `Handles.ChannelNameIsValid` | src/idle-handles.c:93-131 | The scans accept exactly the specified channel names |
| `Handles.AsciiNickname` | src/idle-handles.c:39-91 | A name of ASCII is a nickname exactly when it is not empty and made of letters, digits, hyphens and the symbols of RFC 2812; strictly, when it does not start with a digit or hyphen either |
| `Handles.WideNickname` | src/idle-handles.c:47-86 | A character of several bytes is one exactly when it is a letter or a digit of its script, and never strictly |
| `Handles.NicknameConcat` | src/idle-handles.c:46-88 | Names are judged character by character |
| `Handles.ChannelIsGrammar` | src/idle-handles.c:93-131 | The names accepted are exactly those of the grammar of RFC 2812 with their length |
| `Handles.RoomIsNoContact` | src/idle-handles.c:39-131 | No name is accepted both as a channel and, up to its first exclamation mark, as a nickname |
| `Handles.NicknameIsClean` | src/idle-handles.c:39-91 | A valid nickname contains no space, line end, colon, exclamation mark or NUL |
| `Handles.ChannelIsClean` | src/idle-handles.c:93-131 | A valid channel name contains no space, line end or NUL and starts with no colon |
| `RoundTrip.RelayedTokens` | src/idle-parser.c:327-352 | A relayed message has the prefix, command and recipient as its first words, and the whole payload, spaces included, behind the fourth |
| `RoundTrip.InterpretText` | src/idle-parser.c:385-470 | Both formats of text messages yield sender, target and payload exactly when the names are accepted and the payload is not empty |
| `RoundTrip.DeliveredOnce` | src/idle-parser.c:366-383 | A relayed message is delivered once, as a channel or as a user message and never as both; with an empty payload it is not delivered |
| `RoundTrip.PieceArrives` | src/idle-text.c:31-51 | A relayed piece comes back as its type and body, once |
| `RoundTrip.UnderflowsExactly` | src/idle-text.c:38-41 | The length of the body underflows exactly for the eight bytes of an action without anything behind them, in any case of letters |
| `RoundTrip.BareActionArrives` | src/idle-text.c:38-41 | The instance: one relayed line is delivered once, with such a text |
| `RoundTrip.StreamIsLines` | src/idle-parser.c:237-287 | The framed messages, relayed one after the other, are the lines of the stream and leave nothing over |
| `RoundTrip.LineByLine` | src/idle-parser.c:237-287 | For valid messages that fit, one line in each chunk is an orderly way to receive that stream, and the conversion leaves it alone |
| `RoundTrip.AWayToArrive` | src/idle-text.c:69-150 | Whenever the names are valid UTF-8 there are orderly and valid chunks of the relayed stream of a text |
| `Conversion.ConvertChunk` | src/idle-connection.c:1520-1557 | A chunk becomes what the conversion made of it, salvaged where that does not validate; where it failed every byte outside ASCII becomes a question mark |
| `Conversion.NtohIsValid` | src/idle-connection.c:1520-1557 | Whatever the charset, the parser is given valid UTF-8 |
| `Conversion.ReceivedIsRaw` | src/idle-connection.c:1531-1542 | With UTF-8 a chunk reaches the parser as it came exactly when it is valid by itself |
| `Conversion.Latin1LineFits` | src/idle-connection.c:1520-1557 | A line of ISO-8859-1 in one read is emitted exactly when it has at most 512 bytes after the conversion, and is discarded whole otherwise |
| `Conversion.Latin1LineIsLost` | src/idle-connection.c:829-834 | The instance: 257 letters that become two bytes each are lost |
| `Conversion.Latin1ByteIsCode` | src/idle-connection.c:1520-1557 | The two bytes of a converted byte carry its code |
| `RoundTrip.ValidChunksArrive` | src/idle-connection.c:829-834 | The parser finds the lines of the stream and its unfinished end if and only if the chunks are orderly and every one is valid UTF-8 by itself |
| `RoundTrip.SentFits` | src/idle-text.c:101-137 | The messages split for the accounted prefix length fit a line unclipped and carry no stray line end |
| `RoundTrip.EndToEnd` | src/idle-text.c:69-150 | From splitting to decoding, for every plain valid text, sender, recipient and chunking: the receiver gets exactly the relayed lines if and only if the chunks are orderly and every chunk is valid UTF-8, and then takes exactly the nonblank pieces in order with their types, and their bodies concatenate to the text without newlines |
| `RoundTrip.ThroughTheConnection` | src/idle-connection.c:895-998 | In any run of the sending connection that was given the pieces among other messages and has emptied its queue, their lines are among the ordinary lines sent, at their place, and relaying those is the stream of the end-to-end result |
| `RoundTrip.CutCharacterIsLost` | src/idle-connection.c:1531-1542 | The instance: two chunks that cut a character of two bytes deliver two question marks |
| `RoundTrip.CtcpArrives` | src/idle-ctcp.c:29-77 | A CTCP request, framed and relayed, is delivered once, and decodes to the words of its text exactly when no escape runs into a digit and every word fits the token buffer |
| `Ctcp.CtcpSend` | src/idle-ctcp.c:29-77 | The line carries the escape of the longest prefix that fits, no escape is cut, and what is returned is exactly the rest, nothing when all was sent; the closing bytes leave the buffer exactly when the header has more than 509 bytes, or 509 and a plain byte follows |
| `Ctcp.RoomForThree` | src/idle-ctcp.c:29-67 | The closing bytes stay inside the buffer exactly when the header, a first byte that is not escaped, and two bytes fit 511 |
| `Ctcp.PutEscaped` | src/idle-ctcp.c:35-58 | One byte is written escaped, or nothing is when the escape does not fit |
| `Ctcp.ProgressNeedsRoom` | src/idle-ctcp.c:29-77 | Every call consumes input exactly when the header has at most 505 bytes |
| `Ctcp.EscapeIsClean` | src/idle-ctcp.c:34-58 | The payload never carries CR, LF or \001 |
| `Ctcp.EscapeConcat` | src/idle-ctcp.c:34-58 | Escaping works byte by byte, so a cut text escapes to a cut escape |
| `Ctcp.KillFormatting` | src/idle-ctcp.c:87-133 | No formatting byte survives, and a text without any is unchanged |
| `Ctcp.KillBlingbling` | src/idle-ctcp.c:87-133 | The loop removes formatting bytes, with the colour numbers after a ^C |
| `Ctcp.StylesAreDeleted` | src/idle-ctcp.c:113-125 | Of a text without colours exactly the bytes of the seven styles are deleted, and what follows is treated by itself |
| `Ctcp.ColourIsDeleted` | src/idle-ctcp.c:95-111 | A colour takes up to two digits with it, and after a comma up to two more; what follows is treated by itself |
| `CtcpDecode.DecodeMessage` | src/idle-ctcp.c:135-213 | The loop over its fixed token buffer finds the specified words, nothing when the message is no CTCP request, and leaves the message or the buffer exactly where the specification says |
| `CtcpDecode.DecodeEscape` | src/idle-ctcp.c:151-166 | A backslash consumes an octal number, itself alone, or one quoted byte |
| `CtcpDecode.DecodePlain` | src/idle-ctcp.c:168-206 | Any other byte: a separator ends a token, a quotation mark also switches, and the rest is put into the buffer |
| `CtcpDecode.FlushToken` | src/idle-ctcp.c:172-187 | A token is added when the buffer holds one, and the buffer is cleared |
| `CtcpDecode.LineIsInBounds` | src/idle-ctcp.c:135-213 | For a message of at most 510 bytes every access stays inside exactly when no backslash stands unpaired at its end |
| `CtcpDecode.InBoundsIsShort` | src/idle-ctcp.c:135-213 | For an escaped text of any length, no escape running into a digit, every access stays inside exactly when every word is shorter than the token buffer |
| `CtcpDecode.LongWordIsOutside` | src/idle-ctcp.c:135-213 | The instances: a word of 510 bytes, and a backslash at the end |
| `CtcpDecode.DecodeIsWords` | src/idle-ctcp.c:135-213 | Without an escape running into a digit, decoding is the quote-aware word split of the raw text |
| `CtcpDecode.WeightOfDecoded` | src/idle-ctcp.c:135-213 | Decoding never yields more bytes than the text has, and fewer when an escape runs into a digit |
| `CtcpDecode.DecodeUndoesEscape` | src/idle-ctcp.c:29-77 | Decoding what was framed gives the words of the raw text exactly when no CR, LF or \001 is directly followed by an octal digit and every word is shorter than the token buffer |
| `CtcpDecode.WrittenWordsComeBack` | src/idle-ctcp.c:135-213 | The words of a text written with bare and quoted words are these words, so the decoder gives them back under the same condition |
| `CtcpDecode.NumberIsByte` | src/idle-ctcp.c:151-160 | A number in a request is kept modulo 256, and one of more than 63 bits is the byte of all ones |
| `CtcpDecode.NulSwallowsRest` | src/idle-ctcp.c:168-213 | Once a word starts with an escaped NUL nothing more is added |
| `Salvage.SalvageUtf8` | src/idle-connection.c:1491-1517 | The loop ends, and appending valid stretches is repairing the text character by character |
| `Salvage.ReadIsFaithful` | src/idle-connection.c:1491-1517 | The reading behind the repair loses nothing; each byte dropped is one where no well-formed character starts |
| `Salvage.SalvagedIsValid` | src/idle-connection.c:1491-1517 | The result is valid UTF-8, is the input exactly when nothing was dropped, and is longer by two bytes for each byte dropped, so at most three times as long |
| `Salvage.SalvageIsIdempotent` | src/idle-connection.c:1491-1517 | Salvaging once is enough |
| `Salvage.ReadStretch` | src/idle-connection.c:1497-1507 | Repairing is keeping the longest valid prefix, one replacement character for the byte after it, and repairing the rest |
| `Utf8.ValidPrefixIsLongest` | src/idle-connection.c:1497-1498 | Where validation stops is the end of the longest valid prefix |
| `Utf8.ValidConcat` | src/idle-connection.c:1500-1509 | Valid texts are closed under concatenation |
| `Utf8.ValidCut` | src/idle-text.c:117-119 | A valid text may be cut before any byte that is no continuation byte |
| `Utf8.CharStartNear` | src/idle-text.c:117-119 | Some character starts within the last four bytes before any position |
| `MucChannel.MucChannel.ChangeModeState` | src/idle-muc-channel.c:548-677 | Flags, group flags, subject permission and the whole configuration afterwards are those of the specified change |
| `MucChannel.MucChannel.ChangeGroup` | src/idle-muc-channel.c:573-671 | The group flags follow invite-only and operator privilege, additions first |
| `MucChannel.MucChannel.UpdateCanSetTopic` | src/idle-muc-channel.c:579-608 | The subject permission follows operator privilege, and the topic flag alone only without it |
| `MucChannel.MucChannel.ChangeConfig` | src/idle-muc-channel.c:579-660 | The right to update the configuration, and the loop over the bits with all its properties |
| `MucChannel.MucChannel.ChangeProperty` | src/idle-muc-channel.c:611-659 | One bit of the loop changes the property that belongs to it and no other |
| `MucChannel.MucChannel.ModeString` | src/idle-muc-channel.c:893-1018 | One mode string is read run by run; the argument index stays in range and no parameter is read twice |
| `MucChannel.MucChannel.Mode` | src/idle-muc-channel.c:883-1019 | A MODE message leaves the specified state, which is the one of applying its letters one at a time |
| `MucChannel.MucChannel.NameReply` | src/idle-muc-channel.c:811-850 | Our own entries of a NAMES reply replace our status flags |
| `MucChannel.MucChannel.JoinSelf` | src/idle-muc-channel.c:742-755 | Our own JOIN lets us invite, and sets the topic flag on a channel without modes |
| `ModeActions.FlagsNeedTheirLetters` | src/idle-muc-channel.c:893-1018 | A MODE message changes a flag only where it holds its letter, and a status flag only where it holds our name too |
| `ModeActions.OthersAreNotUs` | src/idle-muc-channel.c:903-916 | A message that does not name us leaves our status as it is |
| `ModeActions.StatusIsOurs` | src/idle-muc-channel.c:903-916 | "+o" and our name makes us operator and "-o" takes it, likewise for the two others; another name changes nothing |
| `ModeActions.ActionsAreDone` | src/idle-muc-channel.c:883-1019 | A MODE message that says any list of actions, signs written or left out where in force, is read as these actions one after the other: flags, limit and key |
| `ModeActions.IncompleteModes` | src/idle-muc-channel.c:903-945 | What is made of missing parameters, a limit that is no number, and a string without a sign |
| `ModeActions.LastNameDecides` | src/idle-muc-channel.c:811-850 | The last entry of ours in a NAMES reply decides our status |
| `ModeActions.JoinSetsTopicFlag` | src/idle-muc-channel.c:742-755 | After our own JOIN we may invite, and the topic flag is set on a channel without modes |
| `Modes.RunsAreLetters` | src/idle-muc-channel.c:893-1018 | Batching the letters of one sign and applying them one at a time end in the same flags, limit and key with the same parameters consumed |
| `Modes.ModesAreLetters` | src/idle-muc-channel.c:883-1019 | The same for a whole MODE message |
| `Modes.ChangeKeepsConsistent` | src/idle-muc-channel.c:548-677 | A change keeps every derived permission in agreement with the flags exactly when it does not take one of two operator privileges |
| `Modes.LosesOneMeansHasBoth` | src/idle-muc-channel.c:601-620 | The exception is that we hold operator and half-operator and exactly one of them goes |
| `Modes.LosingOneLosesRights` | src/idle-muc-channel.c:579-603 | In the exception every right of operators goes, to invite and to set the subject only where the modes reserve them |
| `Modes.CommitKeepsConfig` | src/idle-muc-channel.c:622-660 | After a run the configuration shows the limit, password and privacy of the modes exactly when the run did not set a different limit or key over one that was set, nor take one of private and secret while the other stays |
| `Modes.StaleShowsOld` | src/idle-muc-channel.c:622-660 | A stale configuration shows the old limit, the old key, and a public channel |
| `Modes.DeopStrandsHalfOp` | src/idle-muc-channel.c:579-603 | MODE -o on an operator who is half-operator too takes away what the half-operator may do |
| `Modes.PermissionsFollowFlags` | src/idle-muc-channel.c:548-1019 | After joining a fresh channel, over any sequence of MODE and NAMES messages: the permissions are what the flags say after every change if and only if no change takes one of two operator privileges, and then they are so in the end |
| `Modes.ConfigFollowsModes` | src/idle-muc-channel.c:622-1018 | The same for the configuration: limit, password and privacy shown are those of the modes after every change if and only if no change goes stale |
| `Modes.NewLimitIsNotShown` | src/idle-muc-channel.c:622-660 | The instance: "+l 7" over a limit of 5 |
| `Modes.NewKeyIsNotShown` | src/idle-muc-channel.c:622-660 | The instance: "+k" with another key |
| `Modes.SecretIsNotShown` | src/idle-muc-channel.c:622-660 | The instance: "-p" on a channel that is secret too |
| `MucManager.MucManager.TakeRequestTokens` | src/idle-muc-manager.c:666-673 | The tokens of a channel come out oldest first and are queued no more |
| `MucManager.MucManager.AssociateRequest` | src/idle-muc-manager.c:658-664 | A token is queued under its channel |
| `MucManager.MucManager.FailAll` | src/idle-muc-manager.c:684-688 | Each token is failed, in order |
| `MucManager.MucManager.ChannelClosedCb` | src/idle-muc-manager.c:675-704 | Closing fails the waiting requests; a destroyed channel leaves the table, a reopened one stays |
| `MucManager.MucManager.ChannelJoinReadyCb` | src/idle-muc-manager.c:706-752 | Join-ready satisfies the waiting requests, or fails them and forgets the channel |
| `MucManager.MucManager.ChangeState` | src/idle-muc-channel.c:485-515 | Join-ready is emitted the first time the channel gets past joining, and the password flag and reply follow the old and new state |
| `MucManager.MucManager.EnterState` | src/idle-muc-channel.c:499-512 | The password flag, its reply and the new state |
| `MucManager.MucManager.ProvidePasswordReply` | src/idle-muc-channel.c:464-483 | A waiting password call is answered once, and success takes the flag away |
| `MucManager.MucManager.ProvidePassword` | src/idle-muc-channel.c:1382-1404 | A password is refused when none is needed or one is being judged; otherwise it is sent with a JOIN |
| `MucManager.MucManager.JoinError` | src/idle-muc-channel.c:1102-1117 | A join error counts only before join-ready, and then ends the channel |
| `MucManager.MucManager.NewChannel` | src/idle-muc-manager.c:641-656 | A new channel enters the table |
| `MucManager.MucManager.HandleRequest` | src/idle-muc-manager.c:754-848 | A request is failed, satisfied or queued on the spot as the table, the channel and the require-new flag say, and creating a channel sends JOIN |
| `MucManager.MucManager.Request` | src/idle-muc-manager.c:754-848 | The same, keeping the invariant; a new request has been answered once afterwards, or waits once under a channel alive that is not ready |
| `MucManager.MucManager.JoinHandler` | src/idle-muc-manager.c:295-320 | A JOIN makes an unknown channel known, and our own JOIN makes it joined |
| `MucManager.MucManager.InviteHandler` | src/idle-muc-manager.c:266-293 | An invitation of ours makes an unknown channel known |
| `MucManager.MucManager.NumericErrorHandler` | src/idle-muc-manager.c:185-223 | A bad key asks for a password; the other three replies are join errors |
| `MucManager.MucManager.LeaveHandler` | src/idle-muc-channel.c:765-794 | Our own PART or KICK ends the channel, after join-ready if that was outstanding |
| `MucManager.MucManager.AddMember` | src/idle-muc-channel.c:1237-1254 | Adding ourselves sends JOIN and starts to join |
| `MucManager.MucManager.CloseChannel` | src/idle-muc-channel.c:1328-1344 | Closing a joined channel reopens it, any other is destroyed |
| `MucManager.MucManager.DestroyChannel` | src/idle-muc-channel.c:1347-1366 | Destroying sends PART on a joined channel and waits for the server, and is immediate before |
| `MucManager.MucManager.CloseAll` | src/idle-muc-manager.c:531-546 | The table is dropped and every channel closed, in any order |
| `RoomManager.ResolveConserves` | src/idle-muc-manager.c:666-752 | Answering the tokens of a channel moves them from waiting to answered and loses none |
| `RoomManager.AssociateConserves` | src/idle-muc-manager.c:658-664 | Queueing a token puts it behind all that wait for the channel |
| `RoomManager.StepKeeps` | src/idle-muc-manager.c:531-848 | Every event keeps the table, readiness, outcome and conservation invariants |
| `RoomManager.EveryRequestOnce` | src/idle-muc-manager.c:641-848 | In every state of every run a request made once is answered exactly once and waits nowhere, or unanswered and waits exactly once under a channel alive that is not ready |
| `RoomHistory.WhoWaitsIsAnswered` | src/idle-muc-manager.c:675-752 | In every run one who waits is answered by exactly these events: satisfied when we join, when a key is asked for or when we leave; failed with the error of the server; failed when the channel is closed or destroyed or the connection goes down |
| `RoomHistory.RequestIsHandled` | src/idle-muc-manager.c:754-848 | In every run a new request is refused without a target or where it wants a known room as new, satisfied with a channel that was ready, and otherwise waits, in an unknown room under a new channel for which JOIN is sent |
| `RoomHistory.ChannelsOfRun` | src/idle-muc-channel.c:485-515 | In every run each event leaves the state, readiness, room and origin of each channel as stated |
| `RoomHistory.JoinedTellsHistory` | src/idle-muc-channel.c:742-744 | In every run a channel is joined exactly when our JOIN came while it was there and no key was asked for since |
| `RoomHistory.RoomsAfter` | src/idle-muc-manager.c:641-752 | In every run a room is known after an event exactly when the event makes it known, or it was and the event does not make it unknown |
| `RoomHistory.PasswordsAreJudged` | src/idle-muc-channel.c:464-515 | In every run a password taken waits for its judgement, which says whether we were let in, and one not taken is answered at once |
| `RoomHistory.NoOtherReply` | src/idle-muc-channel.c:464-515 | In every run no password call is answered but by these |
| `RoomManager.EveryRun` | src/idle-muc-manager.c:641-848 | In every state of every run: per channel the answers are those of the first requests in request order; a room has at most one channel; join-ready is emitted at most once per channel; a request is satisfied only with the channel it waited for, once ready |
| `RoomManager.NothingWaitsAfterDisconnect` | src/idle-muc-manager.c:531-546 | Once the connection is down every request has its one answer |
| `RoomManager.DoneOrWaits` | src/idle-muc-manager.c:641-848 | Under the invariant a request made once is answered once or waits once |
| `RoomManager.JoinsSent` | src/idle-muc-manager.c:832-837 | In every run a JOIN was sent for a channel exactly when a client asked for the room before it was known, or later made us join |
| `RoomManager.WaitsWithoutJoin` | src/idle-muc-manager.c:815-839 | In every run, where somebody waits under a channel, no JOIN was sent for it exactly when it came from an invitation or from a JOIN seen and no client has added us since |
| `RoomManager.InvitedRoomWaits` | src/idle-muc-manager.c:286-290 | The instance: asking for a room one was invited to is queued and sends nothing |
| `Whois.ContactInfo.RequestContactInfo` | src/idle-contact-info.c:99-145 | A request is queued, and its WHOIS sent when it is the only one; an invalid handle is answered at once |
| `Whois.ContactInfo.ReturnAndDequeue` | src/idle-contact-info.c:84-124 | The head is answered and removed, and the WHOIS of the next one is sent |
| `Whois.ContactInfo.EndOfWhoisHandler` | src/idle-contact-info.c:172-203 | The end of a WHOIS reply completes the head when it is about it |
| `Whois.ContactInfo.NoSuchServerHandler` | src/idle-contact-info.c:205-245 | An unknown server completes the head with an error when it is about it |
| `Whois.ContactInfo.TryAgainHandler` | src/idle-contact-info.c:247-277 | A busy server completes the head when the command was WHOIS in any case |
| `Whois.CommandNamesTwice` | src/idle-contact-info.c:77-82 | The command names the nick twice |
| `Whois.OneAtATime` | src/idle-contact-info.c:60-277 | After every run: WHOIS commands minus completed requests is 1 when somebody waits and 0 otherwise, the one on its way is for the head, commands and answers follow request order, and every context is answered at most once |
| `Whois.HeadIsAnswered` | src/idle-contact-info.c:60-277 | A message about the contact of the head answers and removes it; one about another contact changes nothing |
| `Whois.EveryReplyHasItsMessage` | src/idle-contact-info.c:60-277 | In every run each reply was given when a message about the contact of its request came while it was the oldest without a reply, and says what the message says |
| `Whois.EveryRequestIsKept` | src/idle-contact-info.c:99-145 | In every run the requests with a valid handle are queued in order, and the others refused |
| `Signatures.SignatureIter.Next` | tools/libtpcodegen.py:162-214 | One call takes the first type off the signature, or ends the iteration |
| `Signatures.TypePasses` | tools/libtpcodegen.py:174-208 | Inside a block a whole type goes by without changing the count, although only one kind of bracket is counted |
| `Signatures.TypeEnds` | tools/libtpcodegen.py:174-214 | At the top the scan stops at the last character of the first type |
| `Signatures.IterateGivesTypes` | tools/libtpcodegen.py:162-214 | Iterating over the signature of any list of D-Bus single complete types gives exactly those types |
| `Identifiers.EscapeAsIdentifier` | tools/libtpcodegen.py:49-84 | The function, fast path included, computes the documented encoding |
| `Identifiers.FastPath` | tools/libtpcodegen.py:64-69 | Where the fast path is taken the encoding changes nothing |
| `Identifiers.EncodedIsIdentifier` | tools/libtpcodegen.py:49-84 | Every output is a valid identifier |
| `Identifiers.EncodedLength` | tools/libtpcodegen.py:49-84 | Nothing is escaped but what is no letter or digit, and a digit at the start |
| `Identifiers.DecodeUndoesEncode` | tools/libtpcodegen.py:49-84 | On code points below 256 the encoding has a left inverse |
| `Identifiers.EncodeIsInjective` | tools/libtpcodegen.py:49-84 | So different names get different identifiers |
| `Identifiers.WideCharactersCollide` | tools/libtpcodegen.py:72-82 | A name of one character from U+0100 to U+0FFF with no letter or digit for its first two digits shares its identifier with another name, of two characters |
| `Identifiers.InjectiveUpTo256` | tools/libtpcodegen.py:49-84 | Different names of code points below a bound get different identifiers exactly when the bound is at most 256 |

## Left out

- Connection.EveryRun: ids waiting in the queue together differ by less than 2^31, which `Outgoing.OlderFirst` shows to be what the comparison needs; and the wire clause is about runs until a command is lost, because after an error the source goes on with the next line.
- Text.EncodeAndSplit: pointer differences and lengths are unbounded integers but for the wrapped limit, since a D-Bus message is far below 2^31 bytes.
- Receiver.LineBuffer.ReceiveChunk: a chunk contains no NUL, because the source treats it as a C string.
- Dispatch: the order and removal of several handlers of one code, and the `HANDLED` results between them.
- CtcpDecode.DecodeMessage: a message contains no NUL, being a C string; what the source does once it is outside its buffers is not modelled, here as in the other outcomes of that kind.
- Utf8: noncharacters are valid, as in RFC 3629.
- Modes: flags are a set, not a bit mask; ownership of the key string; topics; the initial values of the room configuration are taken to be empty.
- MucChannel: members of the group, and the NAMES bookkeeping of other members' handles.
- MucManager: a JOIN is recorded by its channel; the text of the command, with the password, is left out.
- MucManager: channel objects are records found by an identity in a map, so aliasing of their pointers is not modelled; disposal of a channel is taken to emit `closed` as the base class of telepathy-glib does, which is not part of this model; a password call still waiting when its channel goes is dropped, as in the source.
- MucManager.MucManager.LeaveHandler: QUIT visits every channel; it is one such event for each channel. Whether the source's iterator survives the removal is not modelled.
- MucManager.MucManager.Request: requests that the manager declines because they are not for a text channel are passed on and not counted; an invalid handle, an unknown property and a bad room name are one case.
- Whois: the fields of a reply, and requests still waiting when the connection object goes away, which the source drops unanswered.
- TLS, certificates and password prompts, connecting and shutting down, the room list, direct message channels, protocol parameters, debugging, the D-Bus interfaces and the rest of the binding generator: plumbing around libraries.
- Handles: the repositories are functions from a name to acceptance and a lower-case form, not tables of numbers.
