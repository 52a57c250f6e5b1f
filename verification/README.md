# Verified models of the hotel link, the chat gateway and the metrics pages

The project models, in Dafny, the parts of NethVoice that carry state or protocols, and proves what they are for.

| files | what they model |
|---|---|
| `Text.dfy`, `Spaces.dfy`, `Sorting.dfy` | text and sorting helpers the others share |
| `FiasWire.dfy` | FIAS records: the message tables, building a record, framing, partial writes, reading back |
| `FiasDispatch.dfy` | the dispatcher and the handlers' arguments |
| `LegacyCommand.dfy`, `CommandTemplates.dfy` | the tokenizer of configured commands, the placeholders filled in, and which error stops a command |
| `FiasLinkRecords.dfy`, `Fiasd.dfy`, `FiasServer.dfy` | the two daemons as state machines |
| `FiasExchanges.dfy`, `FiasStart.dfy` | what each daemon says and does in answer to its peer, and what a new connection forgets |
| `FiasLink.dfy`, `FiasLinkCheck.dfy`, `FiasTransfer.dfy` | the daemons joined by two channels of records: staying up, draining, link checks, and nothing lost |
| `FiasWires.dfy`, `FiasEndToEnd.dfy` | the same over bytes, and from the sender's queue to the handlers |
| `FiasDelivery.dfy` | the PBX side over runs with failures and restarts |
| `Fingerprint.dfy`, `CtiGroups.dfy`, `CtiConvergence.dfy` | the reconciler of the group rooms and its fast path |
| `Accounts.dfy`, `LeaveRoom.dfy` | the life of an account, and the rooms it leaves |
| `GuestRooms.dfy`, `GuestWaiters.dfy` | rooms open to people outside, and the long polls of their pages |
| `RateWindow.dfy` | the sliding window of the rate limits |
| `Fetch.dfy`, `FetchItems.dfy`, `Hidden.dfy` | the app's fetch: pages, items, and what was deleted in the app |
| `Quotes.dfy` | replies: written, taken apart, and shown to the app |
| `PromText.dfy`, `PromGrammar.dfy`, `PromForward.dfy`, `PromPages.dfy` | reading and forwarding Prometheus pages |

State that the source changes in place is a class here (`Socket`, `Database`, `Daemon`, `Connection`, `Gateway`,
`Reconciler`, `Registry`, `Window`, `Tables`), its methods proved against functions on values; whole runs are sequences
of events over those functions. What the source asks of others - sockets, databases, ejabberd, clocks - answers through
arguments, so a statement for all arguments is one for all failures.

Where a property one would expect does not hold of the code, the project says exactly when it does, and has a lemma with
an input for which it fails:

- a link check needs a table that starts with an `LD` and that fiasd can store from there on
  (`FiasLinkCheck.CheckNeedsLD`), and no message on its way to the PBX: the check can end the link, or lose an `LD`
  (`FiasLinkCheck.DataMayEndACheck`); a receive timeout inside a frame loses its record and the connection
  (`FiasWires.TimeoutInFrame`, `TimeoutsBetweenFrames`);
- a message without parameters is never dispatched (`FiasDispatch.SeenIffItHasParameters`); a message with a
  NUL in a value its section asks for is marked without its handler ever starting (`FiasDispatch.NulStopsTheHandler`);
  and a handler misreads its arguments when its command has a word after the script, or another section with that
  command comes first with another format (`FiasDispatch.HandlerGetsStoredValues`, `PlainFormats`);
- a group room with a member on another host is never put right (`CtiConvergence.SyncConverges`, `ForeignMemberStays`);
  a round after a failed one is skipped when the inputs are those of the last recorded sync again
  (`CtiConvergence.SkippedExactlyWhen`, `SkipAfterFailure`);
  a room whose renaming call fails keeps its old name for good (`CtiConvergence.TitleFollows`, `LostTitleStays`);
- a room loses its owner when a second affiliation of the same username hides the first (`LeaveRoom.NeverOwnerless`,
  `SecondAffiliationHidesTheOwner`), and the heir depends on the listing's order when a time reads as NaN and none is
  after zero (`LeaveRoom.HeirIsSettled`, `NaNHeirDependsOnTheOrder`); an away account inherits when the query for that
  fails (`LeaveRoom.HeirMayInherit`, `UnreadAwayInherits`);
- a presence that no round takes note of, as its write is lost or the accounts cannot be read, shortens the grace period
  (`Accounts.InactiveOnlyAfterGrace`, `LostPresenceRetires`, `UnreadAccountsRetire`);
- a link revoked after it was looked at still lets a guest in, once for each request and join under way
  (`GuestRooms.RevokedLinkMayStillLetIn`); two guests' nicks may differ in case only when the name could be a username
  and a nick of it has another spelling (`GuestRooms.NicksApartUpToCase`, `NicksMayDifferInCaseOnly`);
- a poll sleeps over a message it was woken for when its page is fifty entries with nothing to show
  (`GuestWaiters.NoLostWakeUp`, `FullPageHidesAMessage`);
- an id hidden before its message arrived comes back (`Hidden.DeleteCovers`, `UncoveredComesBack`);
- archive ids compare as numbers exactly when dropping their leading zeros does not turn them round
  (`Fetch.OlderIsNumericExactly`, `LeadingZeroIsNotNumeric`);
- items of two groups of one name, or of two colleagues of one address, name one chat (`FetchItems.ItemsNameTheChat`);
- a reply does not come apart when its answer begins as a quote, or is blank below a quote of several lines
  (`Quotes.WrittenComesApart`, `OpenQuoteDropsTheRest`), and an unmarked second line of a quote shows as part of the
  answer (`Quotes.UnmarkedLineLeaks`);
- a label value with an end of line other than a line feed does not survive a page (`PromForward.ValueReadsBack`).

## Model

| member | source | states |
|---|---|---|
| FiasWire.ReadExactlyFrames | freepbx/usr/share/neth-hotel-fias/fiasd.php:43-104 | readRecord succeeds with a record exactly when the socket holds that record's frame next, and takes no byte beyond it |
| FiasWire.Socket.ReadRecord | freepbx/usr/share/neth-hotel-fias/fiasd.php:43-104 | the automaton, byte by byte, gives the result, the record and the rest of the input that the framing says |
| FiasWire.Socket.SendMessage | freepbx/usr/share/neth-hotel-fias/fiasd.php:14-29 | success means all of the message went out, in however many partial writes; failure means a proper prefix did |
| FiasWire.Socket.SendData | freepbx/usr/share/neth-hotel-fias/fiasd.php:106-115 | the same for a framed record |
| FiasWire.Database.InsertMessage | freepbx/usr/share/neth-hotel-fias/database.inc.php:22-69 | accepted exactly when command, direction and labels are well formed; nothing is written otherwise |
| FiasWire.FormatsAre | freepbx/usr/share/neth-hotel-fias/database.inc.php:24-47 | two capital letters make a command and two capital letters, digits, "#" or "+" a label, a line feed behind either being let through |
| FiasWire.Database.BuildRecord | freepbx/usr/share/neth-hotel-fias/fiasd.php:383-390 | the record of a row holds its command and its parameters in stored order |
| FiasWire.Database.WriteRecord | freepbx/usr/share/neth-hotel-fias/fiasd.php:412-435 | a received record is stored as the message it splits into, or refused without a trace |
| FiasWire.ParseRecord | freepbx/usr/share/neth-hotel-fias/fiasd.php:412-435 | splitting the record built from a data message gives that message back, and holds no framing character |
| FiasWire.InsertAppends | freepbx/usr/share/neth-hotel-fias/database.inc.php:22-69 | an insert appends one message to its direction and leaves the other direction alone |
| FiasWire.InsertedRow | freepbx/usr/share/neth-hotel-fias/database.inc.php:22-69 | messages stored one after the other are the rows after those there were, each with its own parameters |
| FiasDispatch.Group | freepbx/usr/share/neth-hotel-fias/dispatcher.php:25-38 | the rows are grouped by message in order of appearance, a later value of a label over an earlier one |
| FiasDispatch.RunProcess | freepbx/usr/share/neth-hotel-fias/command-runner.inc.php:204-217 | an argv is started exactly when no argument holds a NUL |
| FiasDispatch.Round | freepbx/usr/share/neth-hotel-fias/dispatcher.php:13-97 | one turn starts a handler for each waiting message with its section, but for those whose argv cannot be started, and marks exactly the handled ones |
| FiasDispatch.AppendArguments | freepbx/usr/share/neth-hotel-fias/dispatcher.php:59-66 | the loop over the format appends one argument for each label |
| FiasDispatch.GetArguments | freepbx/usr/share/neth-hotel-fias/functions.inc.php:153-168 | the handler's loop reads the labels off the arguments by position |
| FiasDispatch.ReadsIffAligned | freepbx/usr/share/neth-hotel-fias/functions.inc.php:153-168 | decoding gives each label its value, whatever the values, if and only if every label is last met by its own value |
| FiasDispatch.HandlerGetsStoredValues | freepbx/usr/share/neth-hotel-fias/functions.inc.php:145-168 | from the stored rows through the started command to the handler's own section lookup: a message's handler reads the last stored value of every label of its section exactly when none of them holds a NUL, for all messages, if and only if the format it finds is aligned with the section's |
| FiasDispatch.NulStopsTheHandler | freepbx/usr/share/neth-hotel-fias/command-runner.inc.php:212-216 | a message that can be received, with a NUL in a value, is marked and no handler starts |
| FiasDispatch.SeenIffItHasParameters | freepbx/usr/share/neth-hotel-fias/dispatcher.php:15-23 | a waiting message is seen exactly when it has a parameter |
| FiasDispatch.PlainFormats | freepbx/usr/share/neth-hotel-fias/functions.inc.php:145-168 | for formats that name each label once: if and only if no word follows the script in the command and the section found by the script's path has a format that starts with this one's |
| FiasDispatch.OwnPathIsServed | freepbx/usr/share/neth-hotel-fias/functions.inc.php:145-151 | a section whose command is the script's path alone is served, but for values with a NUL, unless an earlier section with that command has another format |
| FiasDispatch.RoundMarks | freepbx/usr/share/neth-hotel-fias/dispatcher.php:15-82 | of all the messages a round marks exactly those that wait for the PBX with a parameter and are an LR or have a section, and changes nothing else |
| FiasDispatch.RoundInOrder | freepbx/usr/share/neth-hotel-fias/dispatcher.php:15-82 | handlers are started in the order of the messages, each message once |
| FiasDispatch.RoundStarts | freepbx/usr/share/neth-hotel-fias/dispatcher.php:36-51 | a message is handed to its handler exactly when it waits with a parameter, is no LR, and its section exists |
| FiasDispatch.BlankLabels | freepbx/usr/share/neth-hotel-fias/dispatcher.php:59-66 | the labels "" and "0" are neither sent nor read; any other label sends its value, or nothing |
| LegacyCommand.ParseLegacyCommand | freepbx/usr/share/neth-hotel-fias/command-runner.inc.php:22-89 | the loop over quote and escape state computes the tokens or the error |
| LegacyCommand.ParsesExactlyRenderings | freepbx/usr/share/neth-hotel-fias/command-runner.inc.php:22-89 | a command reads as a list of arguments if and only if it renders that list under some quoting, without NUL |
| LegacyCommand.QuotingRoundTrip | freepbx/usr/share/neth-hotel-fias/command-runner.inc.php:22-89 | the tokenizer undoes the canonical quoting of any NUL-free arguments |
| LegacyCommand.ExpandFills | freepbx/usr/share/neth-hotel-fias/command-runner.inc.php:144-157 | expanding a token fills the holes of its own text once; a value is never read for placeholders |
| LegacyCommand.BuildArgument | freepbx/usr/share/neth-hotel-fias/command-runner.inc.php:171-193 | one configured token gives one argument exactly when it and its values are sound, and else the first error of the source's order: NUL, unknown placeholder, placeholder not alone, NUL in a value |
| LegacyCommand.BuildCommand | freepbx/usr/share/neth-hotel-fias/command-runner.inc.php:159-196 | the loop gives all arguments, or the first error: of the tokenizer, of the executable, of the first token that has one |
| LegacyCommand.BuildKeepsShape | freepbx/usr/share/neth-hotel-fias/command-runner.inc.php:159-196 | whatever the values, the argument count and the executable stay, and values land whole in the holes of the tokens |
| CommandTemplates.BuildsExactly | freepbx/usr/share/neth-hotel-fias/command-runner.inc.php:159-196 | a command is built exactly when its line can be read, its first token is there, not empty and without placeholder, and no token has an error; then each token is one argument, expanded |
| CommandTemplates.StopsWith | freepbx/usr/share/neth-hotel-fias/command-runner.inc.php:159-196 | else the error is that of the line, of the executable, or of the first token that has one, in this order |
| CommandTemplates.TokenStopsWith | freepbx/usr/share/neth-hotel-fias/command-runner.inc.php:108-193 | which error a token has, for every token and values |
| CommandTemplates.FoundIs | freepbx/usr/share/neth-hotel-fias/command-runner.inc.php:108-117 | the placeholders found are those that stand somewhere in the text |
| CommandTemplates.NameAtMark | freepbx/usr/share/neth-hotel-fias/command-runner.inc.php:119-131 | a name between the first two marks must be a placeholder, and so on behind them |
| CommandTemplates.LoneMark | freepbx/usr/share/neth-hotel-fias/command-runner.inc.php:119-131 | a mark without a name and a mark behind it stands for itself |
| CommandTemplates.ExpandsFirst | freepbx/usr/share/neth-hotel-fias/command-runner.inc.php:144-157 | the first placeholder gives way to its value, and the rest of the text is expanded in its turn, never the value |
| Fiasd.Daemon.SendTable | freepbx/usr/share/neth-hotel-fias/fiasd.php:156-174 | the table goes out record by record, then LA, up to the first send that fails |
| Fiasd.Daemon.TurnReading | freepbx/usr/share/neth-hotel-fias/fiasd.php:210-313 | the four reading states move as the state machine says for every outcome of a read |
| Fiasd.Daemon.TurnReadDB | freepbx/usr/share/neth-hotel-fias/fiasd.php:363-410 | the database state picks the first message not done, drops a waiting LE or starts a link check |
| Fiasd.Daemon.Turn | freepbx/usr/share/neth-hotel-fias/fiasd.php:178-437 | one turn of the endless loop is one step of the machine |
| FiasServer.Connection.SendTable | freepbx/usr/share/neth-hotel-fias/fias-server.php:164-186 | the table and LA go out, and the result is that of the last send: none for an empty table |
| FiasServer.Connection.TurnReading | freepbx/usr/share/neth-hotel-fias/fias-server.php:207-314 | the reading states move as the machine says |
| FiasServer.Connection.Turn | freepbx/usr/share/neth-hotel-fias/fias-server.php:194-410 | one turn of a connection is one step of the machine |
| FiasStart.PbxStartForgetsLE | freepbx/usr/share/neth-hotel-fias/fiasd.php:191-209 | the first turn of a connection takes exactly the waiting LE messages out of the queue; all others stay, as they are and in order |
| FiasStart.PmsStartForgetsLE | freepbx/usr/share/neth-hotel-fias/fias-server.php:197-206 | the same on the PMS side |
| FiasStart.OldLEIsNeverSent | freepbx/usr/share/neth-hotel-fias/fiasd.php:191-209 | over runs with crashes and reconnections: an LE that waited when a connection started is never sent, on it or a later one |
| FiasExchanges.PbxHandshake | freepbx/usr/share/neth-hotel-fias/fiasd.php:191-361 | a connection becomes an open link exactly by one of four exchanges: their LS answered with the table and LA back; or, after a silence, the own LS answered with LA, with LD and an LA back, or with an LS answered in turn; what is said in each; all else gives it up |
| FiasExchanges.PbxTakes | freepbx/usr/share/neth-hotel-fias/fiasd.php:210-242 | on an open link a record is stored as the message it splits into or ends the connection, and DS, DE, LA, LS and LE do what they are for and nothing else |
| FiasExchanges.PbxSends | freepbx/usr/share/neth-hotel-fias/fiasd.php:321-410 | a look at the tables sends the first waiting message whole and marks just that one, or changes nothing, with the lock on, the database away, or nothing waiting |
| FiasExchanges.PbxLooks | freepbx/usr/share/neth-hotel-fias/fiasd.php:233-241 | a silence on an open link makes the daemon look at its tables, and any other failing read gives the connection up |
| FiasExchanges.ChecksExactlyWhenIdle | freepbx/usr/share/neth-hotel-fias/fiasd.php:363-381 | over any run a look starts a link check exactly when nothing may or can be sent and the interval has passed since the daemon last connected, received or sent |
| FiasExchanges.PbxTriesAgain | freepbx/usr/share/neth-hotel-fias/fiasd.php:191-318 | a connection given up, or not made, is tried again |
| FiasExchanges.DatedTable | freepbx/usr/share/neth-hotel-fias/fiasd.php:156-166 | an LD goes out with the date after its DA and the time after its TI |
| FiasExchanges.OthersUndated | freepbx/usr/share/neth-hotel-fias/fiasd.php:156-166 | any other record goes out as it is |
| FiasExchanges.TableFails | freepbx/usr/share/neth-hotel-fias/fiasd.php:156-174 | of a table whose sending fails a proper part went out |
| FiasExchanges.PmsHandshake | freepbx/usr/share/neth-hotel-fias/fias-server.php:194-390 | a connection becomes an open link exactly when LS went out, LD and LR records came, any number of them, then LA, and LA went back |
| FiasExchanges.PmsTakes | freepbx/usr/share/neth-hotel-fias/fias-server.php:207-234 | the PMS side of PbxTakes: no lock, LA makes it look at its tables, an empty table ends the connection |
| FiasExchanges.PmsSends | freepbx/usr/share/neth-hotel-fias/fias-server.php:316-388 | the PMS side of PbxSends |
| FiasExchanges.PmsLooks | freepbx/usr/share/neth-hotel-fias/fias-server.php:222-249 | the same on the PMS side, and how a connection ends |
| FiasExchanges.DeadStates | freepbx/usr/share/neth-hotel-fias/fias-server.php:270-315 | three states of the switch are never reached |
| FiasLink.EveryTurnIsGood | freepbx/usr/share/neth-hotel-fias/fias-server.php:232-270 | every turn of either daemon, and every message queued on either side, keeps the joint invariant of the two states, queues and channels; a turn that is no poll lowers the measure |
| FiasLink.NeverDisconnected | freepbx/usr/share/neth-hotel-fias/fiasd.php:244-361 | for any tables of LD and LR records, any queues on both sides and every interleaving, neither the handshake, data both ways nor a link check sends a machine to disconnection |
| FiasLink.EveryRunDrains | freepbx/usr/share/neth-hotel-fias/fias-server.php:232-270 | a run has a bounded number of turns beside its polls and the messages queued in it, and a link that can only poll has both machines waiting for data and both channels drained |
| FiasLink.StuckIsQuiet | freepbx/usr/share/neth-hotel-fias/fiasd.php:210-242 | a link where no side can act without polling is quiet |
| FiasLinkCheck.CheckNeedsLD | freepbx/usr/share/neth-hotel-fias/fiasd.php:265-289 | from a link at rest no run that may start a check ends with a machine down, if and only if the server's table starts with an LD and every later record is one that fiasd can store |
| FiasLinkCheck.DataMayEndACheck | freepbx/usr/share/neth-hotel-fias/fiasd.php:265-289 | with a message waiting for the PBX a pending check can end the link, or, when the message is an LD, take it for its answer and lose it |
| FiasLinkRecords.TableRecordOk | freepbx/usr/share/neth-hotel-fias/fiasd.php:156-166 | dating a table record does not change whether stWriteDB can store it |
| FiasTransfer.NothingLost | freepbx/usr/share/neth-hotel-fias/fiasd.php:321-410 | over every run of the link, what is stored, in hand, in flight and still to send for a side is what it was, followed by the messages queued in the run, in order |
| FiasTransfer.EverythingArrives | freepbx/usr/share/neth-hotel-fias/fias-server.php:316-410 | once the link has come to rest each side has stored, after what it had, every message the other had waiting or was given, in order |
| FiasWires.ReadMore | freepbx/usr/share/neth-hotel-fias/fiasd.php:43-104 | readRecord on whole frames does not look past its own |
| FiasWires.TimeoutInFrame | freepbx/usr/share/neth-hotel-fias/fiasd.php:43-104 | a receive timeout inside a frame loses the record, and the next read is out of sequence |
| FiasWires.TimeoutsBetweenFrames | freepbx/usr/share/neth-hotel-fias/fiasd.php:43-104 | a frame with a timeout still reads as whole records if and only if the timeout is before or after it |
| FiasWires.SendAll | freepbx/usr/share/neth-hotel-fias/fiasd.php:14-29 | the records of a turn sent one by one with partial writes put their whole frames on the wire, or one send fails |
| FiasWires.BytesRefineRecords | freepbx/usr/share/neth-hotel-fias/fiasd.php:14-115 | every run of the two daemons over bytes, with receive timeouts between frames, is a run of the link over records with the same machines and queues |
| FiasEndToEnd.UnsentIsPending | freepbx/usr/share/neth-hotel-fias/fiasd.php:371-376 | what a daemon has still to send are the rows of its table that are not elaborated |
| FiasEndToEnd.BytesDeliver | freepbx/usr/share/neth-hotel-fias/fias-server.php:390-414 | over bytes, no daemon goes down, and at rest each has stored what the other had pending and was given since: same commands, labels and values, in order |
| FiasEndToEnd.SenderToHandler | freepbx/usr/share/neth-hotel-fias/dispatcher.php:15-66 | every message with parameters that fias-server had to send has a row in fiasd's table; its handler starts and reads, for each label of its format, the last value the sender gave, exactly when none of these holds a NUL |
| FiasDelivery.ApplyKeepsDelivering | freepbx/usr/share/neth-hotel-fias/fiasd.php:321-334 | every turn, queueing, restart and reconnection keeps the queue, its marks and its sends in step |
| FiasDelivery.DeliveredInOrder | freepbx/usr/share/neth-hotel-fias/fiasd.php:321-410 | over any run no message but LE is lost or marked before it went out whole, and the complete sends are the queue in id order once adjacent repeats are collapsed |
| FiasDelivery.ApplyKeepsGuarded | freepbx/usr/share/neth-hotel-fias/fiasd.php:210-242 | every turn keeps the swap lock and the grant of the connection |
| FiasDelivery.SwapAndGrantRespected | freepbx/usr/share/neth-hotel-fias/fiasd.php:210-289 | in every turn of every run no queued record goes out while the swap is on, nor is one sent or stored before the link was granted |
| Fingerprint.Keys | ejabberd/internal/api/ctigroups.go:250-257 | the elements of a set, each once, in order |
| Fingerprint.FingerprintOf | ejabberd/internal/api/ctigroups.go:72-87 | the loops in any order give the one fingerprint of the inputs |
| Fingerprint.FingerprintIsExact | ejabberd/internal/api/ctigroups.go:72-90 | with plain names and usernames equal fingerprints are equal inputs, and the other way round |
| CtiGroups.Slug | ejabberd/internal/cti/cti.go:64-72 | the letters and digits of the name in lower case |
| CtiGroups.SlugFolds | ejabberd/internal/cti/cti.go:64-72 | a slug is its own slug; case makes no difference to it, and nothing but letters and digits does |
| CtiGroups.WantedRooms | ejabberd/internal/api/ctigroups.go:64-69 | the loop over the groups gives each slug the last name that has it |
| CtiGroups.Gateway.SyncGroups | ejabberd/internal/api/ctigroups.go:39-109 | a round reads, does nothing, skips or syncs, and records itself only when every step went through; calls other than reads are made exactly when something is to change |
| CtiGroups.Gateway.SyncRoom | ejabberd/internal/api/ctigroups.go:113-185 | one room after its step, with every call working, failing, or working and taken for failed |
| CtiGroups.Gateway.CreateRoom | ejabberd/internal/api/ctigroups.go:187-216 | the room is made with exactly the members, and its name stored |
| CtiGroups.Gateway.AddMembers | ejabberd/internal/api/ctigroups.go:148-159 | those missing are added, but for the calls that fail |
| CtiGroups.Gateway.RemoveMembers | ejabberd/internal/api/ctigroups.go:160-173 | those gone are taken out, but for the calls that fail |
| CtiGroups.Gateway.DestroyUnwanted | ejabberd/internal/api/ctigroups.go:95-105 | the rooms of groups that are gone are destroyed and forgotten |
| CtiConvergence.StepIsRight | ejabberd/internal/api/ctigroups.go:113-185 | a step without a failing call puts a room right exactly when no member on another host keeps it wrong |
| CtiConvergence.TitleFollows | ejabberd/internal/api/ctigroups.go:174-178 | after a complete sync every wanted room goes by its group's name, if and only if no call that would have renamed one failed |
| CtiConvergence.LostTitleStays | ejabberd/internal/api/ctigroups.go:174-178 | a title lost that way is never made good by later syncs |
| CtiConvergence.SyncConverges | ejabberd/internal/api/ctigroups.go:91-109 | from any rooms a sync without a failing call leaves exactly the wanted rooms, each with its group's operators and nobody above them, and the store equal to the wanted map |
| CtiConvergence.RoundConverges | ejabberd/internal/api/ctigroups.go:64-109 | from the groups and the directory read: a round that goes through has a room for exactly the groups whose names give a slug, with exactly those users of the group that are in the directory |
| CtiConvergence.HiccupsAreHarmless | ejabberd/internal/api/ctigroups.go:43-63 | a round that cannot read, or reads no groups while rooms are known, changes nothing; and no other round is one of these |
| CtiConvergence.GoneWhenDestroyed | ejabberd/internal/api/ctigroups.go:95-105 | whatever fails, the room of a group that is gone goes exactly when its destruction takes effect, and is forgotten exactly when that is known |
| CtiConvergence.MembersOneByOne | ejabberd/internal/api/ctigroups.go:148-173 | a failing call about one person keeps no other from getting in or out |
| CtiConvergence.LeftForTheNextRound | ejabberd/internal/api/ctigroups.go:120-143 | a room that cannot be read, made or made again is left with its row, and the round is not recorded |
| CtiConvergence.RowsAreTheStores | ejabberd/internal/api/ctigroups.go:91-105 | no row changes when the store does not write |
| CtiConvergence.SecondSyncIsQuiet | ejabberd/internal/api/ctigroups.go:91-109 | on rooms that converged a full sync changes nothing and makes no call but reads |
| CtiConvergence.ForeignMemberStays | ejabberd/internal/api/ctigroups.go:140-145 | a member on another host counts as the local one and stays |
| CtiConvergence.SkippedExactlyWhen | ejabberd/internal/api/ctigroups.go:86-109 | after any run, a failed last round or not, the next round is skipped if and only if its inputs are those of the last sync that went through, and that one is less than half an hour old |
| CtiConvergence.RecordComesFrom | ejabberd/internal/api/ctigroups.go:86-109 | the record is that of the last round of the run that went through, or the first one |
| CtiConvergence.SkippedIsCovered | ejabberd/internal/api/ctigroups.go:85-109 | over any run a skipped round has the inputs of a sync that went through, and without a failure since, the rooms are as that one left them |
| CtiConvergence.SkipAfterFailure | ejabberd/internal/api/ctigroups.go:85-109 | a failed round followed by a return to the old groups is not repaired by the next |
| Accounts.Reconciler.Reconcile | ejabberd/internal/api/reconcile.go:54-100 | one round from its readings on: rows, devices and kicks, with every write failing or not; who keeps a registration is said for everyone |
| Accounts.Reconciler.Compare | ejabberd/internal/api/reconcile.go:66-84 | the first loop brings back those present and counts the missing and the active |
| Accounts.Reconciler.Part | ejabberd/internal/api/reconcile.go:90-99 | the second loop disconnects, marks and retires |
| Accounts.Reconciler.SetInactive | ejabberd/internal/store/store.go:238-246 | the three statements in order, up to the first that fails |
| Accounts.Reconciler.SeenUser | ejabberd/internal/store/store.go:205-208 | an account is inserted once; later only its name changes |
| Accounts.FewOrHalf | ejabberd/internal/api/reconcile.go:85-89 | no round marks, retires or disconnects more than two accounts unless they are at most half of the active ones |
| Accounts.RetiredHaveNoDevices | ejabberd/internal/store/store.go:238-246 | whoever is marked inactive has lost both kinds of registration before |
| Accounts.MissedAreKicked | ejabberd/internal/api/reconcile.go:82-93 | a round disconnects exactly the accounts it misses and believes to be gone |
| Accounts.RowExactly | ejabberd/internal/api/reconcile.go:66-99 | what a round makes of each row: noticed, marked at the first absence, inactive a day later when no statement before failed, or left alone |
| Accounts.LosesExactly | ejabberd/internal/store/store.go:238-246 | an account loses a registration exactly when it is believed gone, its mark is a day old, its rooms can be read and the delete got that far |
| Accounts.LosesOnlyAfterGrace | ejabberd/internal/api/reconcile.go:54-100 | over runs a registration is lost only in a round without the account, a day or more after another, with none between that took note of it |
| Accounts.SeenOnlyNames | ejabberd/internal/store/store.go:205-208 | logging in makes an account, and otherwise changes a name at most |
| Accounts.InactiveOnlyAfterGrace | ejabberd/internal/api/reconcile.go:54-100 | over any run an inactive account was absent at a round, again a day or more later, and no round since the first took note of it: each whose directory had it could not read the accounts or lost the write of its presence |
| Accounts.RetiredAfterGrace | ejabberd/internal/api/reconcile.go:54-100 | the other way: absent at two such rounds and not noticed since the first, it is inactive |
| Accounts.PresentAreBack | ejabberd/internal/api/reconcile.go:54-100 | an account noticed by a round is active under the directory's name and stays so over every run in which no round misses it and nothing shows it under another name |
| Accounts.LostPresenceRetires | ejabberd/internal/api/reconcile.go:70-76 | a presence whose write is lost does not count |
| Accounts.UnreadAccountsRetire | ejabberd/internal/api/reconcile.go:61-65 | nor does one in a round that cannot read the accounts |
| LeaveRoom.Gateway.LeaveRoom | ejabberd/internal/api/reconcile.go:126-179 | the plan from the affiliations, the calls made, in order, and the room after each, with every call failing, working, or working and taken for failed |
| LeaveRoom.Gateway.Read | ejabberd/internal/api/reconcile.go:135-152 | the loop gives the owner flags and the candidates in listed order |
| LeaveRoom.LeavesWithoutError | ejabberd/internal/api/reconcile.go:154-179 | the calls are those of the source in its order; an error is returned exactly when one of them did not work; without one the account has no role in the room left, whatever the plan |
| LeaveRoom.OthersStay | ejabberd/internal/api/reconcile.go:154-179 | nobody else is touched but the heir, who is an owner, and only destroying ends the room |
| LeaveRoom.PlanFollowsTheRoom | ejabberd/internal/api/reconcile.go:134-157 | for an account with one affiliation: it just leaves exactly when it is not the only owner, and the room is destroyed exactly when it is and nobody may inherit |
| LeaveRoom.NeverOwnerless | ejabberd/internal/api/reconcile.go:126-179 | at every stop a room that had an owner has one or is gone, if and only if the account's ownership is not hidden by a second affiliation |
| LeaveRoom.OneAffiliationIsEnough | ejabberd/internal/api/reconcile.go:135-152 | an account with one affiliation is never overlooked |
| LeaveRoom.SecondAffiliationHidesTheOwner | ejabberd/internal/api/reconcile.go:135-152 | two affiliations of one username leave a room without an owner |
| LeaveRoom.HeirMayInherit | ejabberd/internal/api/reconcile.go:148-151 | the heir is a member or admin, not the one who leaves and not a guest; and away only if the query for that failed |
| LeaveRoom.UnreadAwayInherits | ejabberd/internal/store/store.go:248-253 | a sole away member inherits exactly when that query fails, and otherwise the room is destroyed |
| LeaveRoom.BeforeIsAnOrder | ejabberd/internal/api/reconcile.go:158-167 | the comparator is a strict order, and decides between two candidates exactly when they are comparable |
| LeaveRoom.HeirIsTheFirst | ejabberd/internal/api/reconcile.go:158-168 | when some time is after zero, or all candidates are comparable, the heir is the unique minimum, whatever the order of the listing |
| LeaveRoom.HeirIsSettled | ejabberd/internal/api/reconcile.go:158-168 | the heir is the same for every listing of the candidates if and only if some time is after zero or all are comparable |
| LeaveRoom.NaNHeirDependsOnTheOrder | ejabberd/internal/api/reconcile.go:149-167 | a NaN among unknown times makes the heir depend on that order |
| LeaveRoom.AnySortAgrees | ejabberd/internal/api/reconcile.go:158-168 | any rearrangement with nobody before the one in front has that same heir in front |
| Sorting.Sort | ejabberd/internal/api/reconcile.go:158-167 | insertion by exchanges in place gives the sorted listing |
| GuestRooms.GuestNick | ejabberd/internal/api/guest.go:103-112 | the search ends, with the marked name or the least free number |
| GuestRooms.NickIsUnique | ejabberd/internal/api/guest.go:103-112 | there is one such nick |
| GuestRooms.NickIsNoUsername | ejabberd/internal/api/guest.go:101-112 | it never has the form of a username |
| GuestRooms.CheckJoin | ejabberd/internal/api/guest.go:605-620 | the loop over the room's guests finds a name taken, a full room, or the nicks taken |
| GuestRooms.RefusedExactly | ejabberd/internal/api/guest.go:605-620 | a join is refused exactly for the name or nick of a guest of the room, up to case, or when ten are active |
| GuestRooms.Gateway.OpenLink | ejabberd/internal/api/guest.go:513-525 | a link lets in exactly while its room is there, not revoked and not past its end |
| GuestRooms.Gateway.BeginJoin | ejabberd/internal/api/guest.go:599-623 | under the room's lock the join is refused, or gets an id and a nick |
| GuestRooms.Gateway.EndJoin | ejabberd/internal/api/guest.go:624-651 | the row is put, or the join is given up |
| GuestRooms.Gateway.RemoveGuest | ejabberd/internal/store/ext.go:129-132 | the guest's rows are marked removed |
| GuestRooms.Gateway.DeleteExtRoom | ejabberd/internal/store/ext.go:134-141 | the guests go, then the room, up to the statement that fails |
| GuestRooms.Gateway.SetExtLink | ejabberd/internal/store/ext.go:70-74 | a new link opens the room again |
| GuestRooms.StepKeepsInv | ejabberd/internal/api/guest.go:599-645 | every event between the two halves of a join keeps the room's rules |
| GuestRooms.OneJoinAtATime | ejabberd/internal/api/guest.go:599-651 | while a join of a room is in progress no other begins there, and it stays as it was checked until it ends |
| GuestRooms.RulesHold | ejabberd/internal/api/guest.go:599-645 | over every run no room has more than ten active guests, two guests of one nick or one name up to case, a nick that is another's name, or a nick like a username; and nobody is in a room whose link was never open |
| GuestRooms.RowsChange | ejabberd/internal/store/ext.go:129-141 | a join that ends puts its row or none and frees the room, a removal marks the rows of its id, a room that goes takes its guests, and no other row changes |
| GuestRooms.OpensUntilItsEnd | ejabberd/internal/api/guest.go:513-525 | over runs a link lets in exactly while it is not past the end last given to it, its room there, and it was not revoked since |
| GuestRooms.RowsFromOpenLinks | ejabberd/internal/api/guest.go:513-651 | over runs whoever has a row joined by a request that such a link let in |
| GuestRooms.RemovedStaysRemoved | ejabberd/internal/api/guest.go:483-492 | a removed guest, or one gone with the room, is never active again |
| GuestRooms.NicksApartUpToCase | ejabberd/internal/api/guest.go:103-112 | the nicks made of a name always differ from the others by more than case if and only if the name does not have the form of a username, or no nick it may get has another spelling |
| GuestRooms.NicksMayDifferInCaseOnly | ejabberd/internal/api/guest.go:103-112 | the marked nick may be another's nick up to case |
| GuestRooms.RevokedLinkMayStillLetIn | ejabberd/internal/api/guest.go:585-599 | after a revocation somebody new may still get a row in the room if and only if a request was let in before it or a join is in progress, and each of these gives one row at most |
| GuestWaiters.Registry.Wait | ejabberd/internal/api/guest.go:59-71 | a new channel at the end of the guest's list, or none when there are three |
| GuestWaiters.Registry.Drop | ejabberd/internal/api/guest.go:73-86 | the channel leaves the list, and an empty list leaves the map |
| GuestWaiters.Registry.WakeGuest | ejabberd/internal/api/guest.go:89-97 | every channel of the guest is closed, none for the second time, and the list goes |
| GuestWaiters.PageEmpty | ejabberd/internal/api/guest_page.go:235-249 | a page of at most fifty entries is empty when none of them shows |
| GuestWaiters.PageIs | ejabberd/internal/api/guest_page.go:239-249 | a page is the first fifty entries after those the request has, or the newest fifty |
| GuestWaiters.SleepsExactly | ejabberd/internal/api/guest_page.go:199-225 | a request goes to sleep exactly when nothing of its page shows and no wake-up came since it was registered; else it is answered, and no longer registered |
| GuestWaiters.StepKeepsInv | ejabberd/internal/api/guest_page.go:199-220 | every step keeps each sleeping poll registered, its page read after the last wake-up and empty |
| GuestWaiters.NoLostWakeUp | ejabberd/internal/api/guest_page.go:199-249 | over every interleaving a poll asleep on an open channel has read every entry to show whose wake-up was delivered, except exactly when its page was fifty entries without any and one lies outside it; at most three a guest, no empty list, no double close |
| GuestWaiters.FullPageHidesAMessage | ejabberd/internal/api/guest_page.go:199-249 | a run in which a page of fifty silent entries puts the poll to sleep over a message |
| RateWindow.Window.Compact | ejabberd/internal/api/http.go:534-539 | the recent events are moved to the front of the same slice, in order |
| RateWindow.Window.Count | ejabberd/internal/api/http.go:531-546 | the count of recent events, the others forgotten |
| RateWindow.Window.Add | ejabberd/internal/api/http.go:548-564 | the sweep, when it is due, and the event |
| RateWindow.Window.Over | ejabberd/internal/api/http.go:567-573 | refused exactly when the limit is reached, else recorded |
| RateWindow.WindowRefinesLog | ejabberd/internal/api/http.go:524-573 | after any mix of counts, adds and sweeps under a clock that does not go back, the window counts what the full log counts |
| RateWindow.AtMostMaxAMinute | ejabberd/internal/api/http.go:566-573 | calls one after the other record at most max events of a user in any minute |
| RateWindow.OverCountsTheMinute | ejabberd/internal/api/http.go:566-573 | from the calls and their answers alone: an event is refused exactly when max events recorded for the user are less than a minute old |
| RateWindow.SweepForgetsTheStale | ejabberd/internal/api/http.go:555-561 | a sweep that is due forgets exactly the users whose last event is a minute old |
| RateWindow.CountForgetsTheOld | ejabberd/internal/api/http.go:531-546 | a count leaves of the user exactly the recent events, and no entry without any |
| Fetch.ArchiveID | ejabberd/internal/api/http.go:576-586 | one to twenty digits |
| Fetch.OlderIsNumeric | ejabberd/internal/api/http.go:589-594 | the comparison is the numbers' own on ids of one length or without leading zeros |
| Fetch.OlderIsNumericExactly | ejabberd/internal/api/http.go:589-594 | the numbers compare as the ids do without leading zeros, so the comparison is theirs exactly when dropping these does not turn it round |
| Fetch.LeadingZeroIsNotNumeric | ejabberd/internal/api/http.go:589-594 | a pair for which it does |
| Fetch.StartAfter | ejabberd/internal/api/http.go:618-623 | the start is the oldest of the ids known that are archive ids |
| Fetch.ReadPages | ejabberd/internal/api/http.go:634-646 | the loop over the pages: up to one that is the last or empty, or the fifth |
| Fetch.PagesAreARun | ejabberd/internal/api/http.go:634-646 | the pages, of whatever size, give one contiguous ordered run of the archive right after the start, which ends before the archive as it was only after five pages, none empty, or at an empty one |
| Fetch.ReadChat | ejabberd/internal/api/http.go:758-776 | the loop over one chat's pages back |
| Fetch.ChatIsANewestPart | ejabberd/internal/api/http.go:758-776 | one contiguous newest part of the chat: all of it, unless it has thirty messages to show, took four pages, none empty, or met an empty page |
| Fetch.EveryChat | ejabberd/internal/api/http.go:748-781 | the loop over the first hundred chats, and the sort; no result when one cannot be read |
| Fetch.FirstFetchIs | ejabberd/internal/api/http.go:748-781 | the first fetch is, in the archive's order, exactly the newest parts of the first hundred chats, and strictly ascending when no id is there twice |
| Fetch.SortedInOrder | ejabberd/internal/api/http.go:779 | the sorted messages are in the archive's order |
| FetchItems.ReadUpTo | ejabberd/internal/api/http.go:789-816 | the two loops give each chat the time its markers reach |
| FetchItems.ReadIsTheNewestMarker | ejabberd/internal/api/http.go:789-816 | a time is read in a chat exactly when one of the person's own markers there covers it |
| FetchItems.ItemOf | ejabberd/internal/api/http.go:662-741 | what one message becomes |
| FetchItems.Items | ejabberd/internal/api/http.go:649-743 | the loop gives the two lists and the messages to record |
| FetchItems.ItemShape | ejabberd/internal/api/http.go:696-741 | an item names its chat as recipient when sent and else as sender, its stream is the group, and it shows as read exactly up to the time read there |
| FetchItems.ItemKind | ejabberd/internal/api/http.go:680-735 | a deletion for a retraction, a file exactly for an attachment or the app's own transfer format, and else a text |
| FetchItems.SkippedExactly | ejabberd/internal/api/http.go:652-694 | left out are exactly the hidden messages, those with nothing to show, and those of a group their author took back in the same fetch |
| FetchItems.SentExactly | ejabberd/internal/api/http.go:680-741 | what counts as the person's own, in a group and elsewhere |
| FetchItems.DisplayedExactly | ejabberd/internal/api/http.go:696-816 | a received message shows as read exactly when a marker of the person's own in that chat reaches it, by the last message it names or its own time |
| FetchItems.ItemsNameTheChat | ejabberd/internal/api/http.go:696-741 | items tell all chats apart if and only if no two groups share a thread name and no two colleagues an address |
| FetchItems.EachMessageOnce | ejabberd/internal/api/http.go:662-741 | each message of an ordered run gives at most one item in one list; one to be shown exactly one, sent exactly when it is the person's own |
| FetchItems.NothingElse | ejabberd/internal/api/http.go:662-741 | the lists hold nothing else, in the archive's order |
| Hidden.Tables.PutAppMsgs | ejabberd/internal/store/store.go:292-305 | rows are added, never changed |
| Hidden.Tables.Hide | ejabberd/internal/store/store.go:330-332 | the first time of hiding stays |
| Hidden.Tables.PruneAppMsgs | ejabberd/internal/store/store.go:350-355 | rows from before the date go, from both tables |
| Hidden.Tables.DeleteMessages | ejabberd/internal/api/http.go:947-972 | what is hidden and which retractions are asked for, up to the first that fails |
| Hidden.HiddenNeverComesBack | ejabberd/internal/api/http.go:649-688 | a message hidden since no earlier than it arrived is never again a text or a file of any later fetch |
| Hidden.DeleteCovers | ejabberd/internal/api/http.go:947-972 | a delete makes it so exactly when the id was not hidden before the message arrived |
| Hidden.UncoveredComesBack | ejabberd/internal/store/store.go:330-355 | otherwise it comes back once its row is pruned |
| Hidden.DeleteExactly | ejabberd/internal/api/http.go:947-972 | a request hides exactly the archive ids it gets to and asks for the retraction of exactly those that go everywhere and are recorded as the person's own; it ends early only at a retraction that fails |
| Hidden.RefusedDeletes | ejabberd/internal/api/http.go:952-955 | a request of none or of more than a hundred does nothing |
| Hidden.FetchRecords | ejabberd/internal/store/store.go:292-305 | a fetch records exactly the messages it shows, beside what was recorded |
| Hidden.PostedRecords | ejabberd/internal/store/store.go:292-305 | a message just sent is recorded at once, and nothing else |
| Hidden.PrunesExactly | ejabberd/internal/store/store.go:350-355 | pruning takes exactly what is older than is kept |
| Hidden.OnlyOnesOwnIsTakenBack | ejabberd/internal/api/http.go:960-969 | over every run a retraction is only asked for a message of the archive whose sender's local part is the person's username, by its reference and in its chat |
| Hidden.OnesOwnIsTakenBack | ejabberd/internal/api/http.go:947-972 | the other way: one's own message that a fetch showed can be taken back as long as the archive has it, whatever happens in between |
| Hidden.DeleteItemsNameOnesRecorded | ejabberd/internal/api/http.go:830-852 | a delete item names only messages recorded for that person, of the same chat, reference and author |
| Hidden.DeleteItemNamesExactly | ejabberd/internal/api/http.go:664-687 | it names a message of the archive exactly when that is recorded and the retraction names it: chat, reference and author |
| Quotes.ReplyRoundTrip | ejabberd/internal/api/guest_page.go:283-295 | the page shows the quote and the text of any reply trimmed, and its author; unchanged exactly when both were trimmed |
| Quotes.RecoversExactly | ejabberd/internal/api/guest_page.go:282-296 | a message that is no reply, or whose span does not lie in its text, is shown whole; without a slash there is no author |
| Quotes.CutsTheSpan | ejabberd/internal/api/guest_page.go:285-294 | else the span is cut out and shown apart, both trimmed |
| Quotes.Wrap | ejabberd/internal/api/quote.go:36-53 | the loop over the words gives the lines |
| Quotes.LinesLength | ejabberd/internal/api/quote.go:36-53 | each line is its words with single spaces, the mark after the last when it was cut |
| Quotes.WrapIsExact | ejabberd/internal/api/quote.go:36-53 | at most n lines, each filled as far as the width goes or one word, of the text's first words; all of them, or a cut where the next does not fit |
| Quotes.AppQuote | ejabberd/internal/api/quote.go:10-33 | the loop over the quote lines and what is written of them |
| Quotes.PlainIsShown | ejabberd/internal/api/quote.go:10-23 | a message that begins no quote is shown as it is |
| Quotes.WrittenComesApart | ejabberd/internal/api/quote.go:10-23 | a reply of any marked quote lines comes apart into those lines and its answer if and only if the answer does not begin as a quote, nor is blank below more than one line |
| Quotes.AppShowsTheReply | ejabberd/internal/api/guest_page.go:343-347 | a reply sent through the gateway shows as the name before the first ": " of its quote, if any, at most two barred lines, and the trimmed answer, unless the answer begins as a quote |
| Quotes.QuoteOfIs | ejabberd/internal/api/guest_page.go:343-347 | the quote sent is the words on one line, or the first 199 characters and an ellipsis |
| Quotes.UnmarkedLineLeaks | ejabberd/internal/api/quote.go:10-20 | a second line of the quote without a mark becomes part of the answer |
| Quotes.OpenQuoteDropsTheRest | ejabberd/internal/api/quote.go:13-17 | a quote line that does not end drops those before it |
| PromText.ReadLabels | imageroot/pypkg/nvmetrics/promtext.py:58-74 | the loop over positions reads the labels up to the closing brace, or fails |
| PromText.ReadSample | imageroot/pypkg/nvmetrics/promtext.py:51-82 | a line is a sample or none |
| PromText.PrintedParses | imageroot/pypkg/nvmetrics/promtext.py:51-82 | a printed sample reads back as it was |
| PromText.ParsedIsOk | imageroot/pypkg/nvmetrics/promtext.py:51-82 | what is read can be printed, on one line |
| Spaces.FirstField | imageroot/pypkg/nvmetrics/promtext.py:71-76 | splitting at white space gives the words one by one, whatever white space is between them |
| PromGrammar.ParsesExactlyRenderings | imageroot/pypkg/nvmetrics/promtext.py:51-82 | a line reads as a sample if and only if it writes that sample: the name, labels in braces with any white space and a comma after each but perhaps the last, the value, and a timestamp perhaps |
| PromForward.PrintIsFormat | imageroot/pypkg/nvmetrics/promtext.py:122-124 | the printed line is the name, the joined labels in braces, and the value |
| PromForward.Samples | imageroot/pypkg/nvmetrics/promtext.py:89-96 | the readings of a name, line by line |
| PromForward.Forward | imageroot/pypkg/nvmetrics/promtext.py:99-125 | the loop over the lines gives the page |
| PromForward.ForwardKeepsMeaning | imageroot/pypkg/nvmetrics/promtext.py:89-125 | for every page and name under the prefix, the forwarded page reads as the page without the samples carrying a reserved label |
| PromPages.ForwardsExactly | imageroot/pypkg/nvmetrics/promtext.py:99-125 | the lines of a forwarded page are, in order, exactly the first HELP and TYPE line of each family with the prefix and the samples of such names without a reserved label |
| PromForward.ForwardIsIdempotent | imageroot/pypkg/nvmetrics/promtext.py:99-125 | forwarding twice is forwarding once |
| PromForward.CommentsOnce | imageroot/pypkg/nvmetrics/promtext.py:109-116 | a forwarded page has each family's HELP and TYPE line once at most |
| PromForward.EscapeRoundTrip | imageroot/pypkg/nvmetrics/promtext.py:85-130 | unescape undoes escape on every text, and the escaped text can stand between quotes |
| PromForward.ValueReadsBack | imageroot/pypkg/nvmetrics/promtext.py:89-130 | a value printed escaped reads back from a page exactly when it has no end of line but line feeds |

## Left out

- The character-set conversion in reading and sending records, and separators of more than one character: the model works on plain characters.
- Column truncation and the unspecified order of `SELECT` without `ORDER BY`: rows come in stored order.
- The gap between inserting a message's row and its parameters, which a reader between the two would see.
- FiasEndToEnd.BytesDeliver: receive timeouts fall between frames, as one inside a frame ends the connection; a send that fails part of the way is left to FiasDelivery; messages hold no separator, STX or ETX, have labels of two characters and commands that are data; marks and separator are no capital letters or digits.
- FiasEndToEnd.SenderToHandler: the records of a table that a link check leaves among fiasd's rows, and DS and DE, are not counted as messages.
- FiasLink.NeverDisconnected: no handshake timeouts and no socket or database errors; a check starts with nothing waiting or in flight for the PBX, where nothing is queued until the server has taken its LS, as a check that meets a message on its way there ends the link; nothing is asked of what is on its way to the PMS.
- FiasLinkCheck.CheckNeedsLD: tables of LD and LR records.
- FiasLink.EveryRunDrains: polls, which only time can end, and messages queued are counted apart, and the number of link checks of a run is given.
- FiasDelivery.DeliveredInOrder: LE records are not part of it, as the code marks them without looking at the send.
- Options of PHP that change a script's arguments: the words before the script are not handed on, and those after it are.
- The handlers gi2pbx, go2pbx, gc2pbx and re2pbx past the reading of their arguments, and the test server's own handlers.
- CtiGroups.Gateway.SyncGroups: subscriptions, invitations and the notes to those removed change no room: only that an invitation goes out is counted, as a call.
- CtiConvergence.SyncConverges: failing writes of the room names are possible in the model, but the store equals the wanted map only without them.
- CtiConvergence.SkippedExactlyWhen: group names without ';', usernames without ':', ',' and ';', and clocks past the first half hour of the epoch.
- Two group names of one slug: the name is the last one the map's order gives.
- Changes others make to rooms between the calls of one sync, or of one account's leaving.
- What a kick does, and its failure, which the code ignores as well.
- Sorting.Sort: listings of more than twelve are sorted by another algorithm; LeaveRoom.AnySortAgrees says what of it matters to the heir.
- LeaveRoom.HeirIsSettled: with more than twelve candidates, a NaN beside a time after zero is left to that other algorithm.
- The check of a guest's name against the operators' names, name clean-up and Unicode look-alikes; EqualFold is equality of folds.
- Random ids and hashes: fresh values, and the links and tokens by their rooms.
- RateWindow.Window.Count: one clock reading in a count, where the source reads the clock for each event.
- RateWindow.AtMostMaxAMinute: calls one after the other; between two callers the lock is free, so the bound is not theirs.
- Progress of repeated fetches: a fetch stops at five pages and starts from the older of two ids, so only the absence of gaps is claimed.
- Fetch.EveryChat: which of two messages of one id comes first, as ids of one archive are distinct.
- FetchItems.SkippedExactly: addresses and references without '|', which separates them in the keys of what was taken back.
- FetchItems.ItemOf: the texts and dates of items are not modelled, nor emoji, captions and the file transfer format; addresses and thread names are any functions.
- Hidden.HiddenNeverComesBack: the store's reads and writes succeed, and the archive keeps nothing longer than the tables do.
- Quotes.WrittenComesApart: quote lines marked with "> "; a line marked with ">" alone reads the same once trimmed.
- XML escaping and parsing between writing a reply and reading it.
- The number that float makes of a value's text: readings are compared by the text, which decides it.
- HTTP, SQL, XML, XMPP, TLS and SASL, file transfer, migrations, the wizard and the user interfaces.
