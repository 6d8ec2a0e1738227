# SerialOverSocket in Dafny

SerialOverSocket relays bytes between one serial port and many sockets. This project models
the stateful part of it and proves what its runs keep. `dafny verify dfyconfig.toml` checks
everything.

| file | what it models |
|---|---|
| `CharBuf.dfy` | the byte queue and line reassembly of `src/charbuf.cc` |
| `Connection.dfy` | the outgoing queue of a connection, `src/connection.cc`, and its three `received` |
| `DataProxy.dfy` | the exchange of `src/dataproxy.cc`: buffers, client lists, one turn of the worker |
| `Relay.dfy`, `RelaySafety.dfy`, `RelayTheorems.dfy`, `RelayWire.dfy` | the same exchange as a transition system with small steps: mutex, condition variable, worker, destructor, clients that join and leave, `flush` split into snapshot, write and pop |
| `Timestamp.dfy` | the timestamp filter inside `Server::input_data_handler` |
| `Lifecycle.dfy`, `LifecycleSafety.dfy`, `LifecycleEffects.dfy`, `Server.dfy` | accept, read, hang-up and admin commands: kernel descriptors, connection manager, proxy lists and `SerialPort::fd_` |
| `StaleDescriptor.dfy` | exactly when `SerialPort::fd_` is set without a serial connection, and what follows |
| `LineEditor.dfy`, `Terminal.dfy`, `TerminalEffects.dfy` | the client's console editor, its history and its mode machine |
| `Seqs.dfy`, `Options.dfy`, `Chars.dfy` | facts about sequences, the option type, two characters |

How things are modelled:

- A C++ `char` is a Dafny `char`; nothing depends on its range. Buffers have no capacity
  bound, as in the code.
- Objects that the code changes in place are classes; each method is tied to a function on
  values, and the results over runs are lemmas about those functions.
- Answers of the outside world (`read`, `write`, `accept`, `open`, the clock, whether a
  snippet exists) are parameters. The kernel grants any descriptor above 2 that is not open;
  an answer that names another one is read as a failure.
- A pointer to a connection is a value `Conn` with the identity of the object. Where the C++
  code has undefined behaviour, or throws an exception that nobody catches, the model has
  `None` (a method returns `false`), and the lemmas say exactly when.
- `Server::input_data_handler` is modelled twice, once for the bytes that it passes on
  (`Timestamp.dfy`) and once for the connections that it opens and closes (`Lifecycle.dfy`).
  Neither side depends on the other: which bytes pass does not depend on descriptors, and a
  stamp that reaches an admin is a command without effect on connections.
- In the transition system bytes carry a tag with their producer; a notice that the server
  itself writes to a client has the tag `Notice`. Connections may flush independently of each
  other, which allows more runs than the one main thread of the code.

Results that contradict what one would expect of the code:

- `isconnected()` is meant to say that there is a serial connection. It is wrong exactly in
  the states called stale (`ConnectedIffNotStale`), and `StaleIff` says for every event, in
  terms of the event and the state before, whether the state after it is stale. The state
  becomes stale when the serial connection ends by an end of file or error on its descriptor,
  or when the first answer that opens the device, with no descriptor set or since an admin's
  last disconnect, fails its set-up. It ends by a hang-up on that very descriptor or an
  admin's disconnect or reconnect, and by nothing else; until then the port is not reopened
  (`StaleStays`). `BootedStaleIff` is the same for the first connect, and `EofLeavesStale` and
  `ReuseHappens` are runs that reach such states.
- If a stale number is given to a socket, an admin's `disconnect` drops that socket
  (`DisconnectDropsBystanderIff`, `BystanderDropped`), and if it is the admin's own, the
  command destroys its own connection (`AdminDestroysItself`).
- The server does not survive a readable event for a descriptor without connection, an admin
  line without a word, an admin's `set` to a number that no `int` holds, and an admin's
  command that destroys its own connection, and it survives all else (`HandleKeeps`); each is
  reachable (`UnknownDescriptorHappens`, `FatalLineHappens`, `AdminDestroysItself`). The
  client does not survive a blank line in the panel (`UndefinedIff`, `BlankLineHappens`).
- A pending stamp belongs to no connection, so it can land in a client's input. That happens
  exactly when a socket's read comes directly after a read that ended a line of the device
  (`SocketUnchangedIff`, `StampReachesClient`). The printed month is zero-based; the model
  only fixes the number of digits.
- A line pop that was not guarded by `hasline` adds an empty line to the stream
  (`ReassemblyIffGuarded`).
- `remove_line_char` reads the back of an empty vector when the buffer is not empty, has no
  LF and is shorter than the length asked for; a negative length removes one character
  (`EraseLoopExact`).

## Model

| member | source | states |
|---|---|---|
| `CharBufs.Reassembly` | src/charbuf.cc:16-65 | for every script of appends and guarded line pops, the popped lines each with their LF and then the buffer are the stream, whatever the chunks |
| `CharBufs.JoinUnique` | src/charbuf.cc:53-65 | a stream has only one decomposition into LF-terminated lines and an unfinished rest |
| `CharBufs.ChunkingIndependent` | src/charbuf.cc:16-65 | two readers of the same stream, however it is cut into appends, pop the same lines: a drained reader has popped exactly the stream's lines, any other a prefix of them |
| `CharBufs.ReassemblyIffGuarded` | src/charbuf.cc:26-65 | the popped lines and the buffer give the stream back if and only if every pop was made with a line in the buffer, for every script |
| `CharBufs.EraseLoopExact` | src/charbuf.cc:95-115 | the loop stays inside the vector if and only if the buffer has an LF or is long enough, and then takes min(length, unfinished last line) bytes; a negative length takes one |
| `CharBufs.EraseKeepsLines` | src/charbuf.cc:95-115 | tail erasure never touches a complete line, so later line pops return the same lines |
| `CharBufs.CharBuf.Append` | src/charbuf.cc:16-24 | appends at the end and reports the length |
| `CharBufs.CharBuf.PopLine` | src/charbuf.cc:53-65 | takes the first line and its LF off, or nothing if there is no LF |
| `CharBufs.CharBuf.Pop` | src/charbuf.cc:78-88 | removes that many bytes from the front, and everything if the length is negative or too big |
| `CharBufs.CharBuf.PopChar` | src/charbuf.cc:67-76 | takes the first byte off, or answers NUL |
| `CharBufs.CharBuf.RemoveLineChar` | src/charbuf.cc:95-115 | the loop over the back of the vector erases exactly `Erased` bytes and reports how many |
| `Connections.Connection.Flush` | src/connection.cc:54-62 | for any write answers the loop ends, moves a prefix of the queue to the wire, and stops at the first non-positive answer or with an empty queue |
| `Connections.StopsOnce` | src/connection.cc:54-62 | the write answers alone fix where `flush` stops |
| `Connections.Connection.Received` | src/connection_server.cc:93-129 | queues the broadcast bytes, except on an admin connection |
| `DataProxies.DataProxy.RegisterClient` | src/dataproxy.cc:55-63 | puts the client at the end of the list of its type and changes nothing else |
| `DataProxies.DataProxy.DeregisterClient` | src/dataproxy.cc:65-78 | the search loop erases the first match in the list of its type and nothing else |
| `DataProxies.DataProxy.TransferFrom` | src/dataproxy.cc:107-114 | appends to the buffer of the client's direction only |
| `DataProxies.DataProxy.WorkerTurn` | src/dataproxy.cc:25-46 | hands each non-empty buffer once to each client of the list that listens to it, in list order, clears both, and leaves iff `quit_` |
| `DataProxies.IterationHeard` | src/dataproxy.cc:31-42 | in one turn a client hears exactly the buffer of its own list, once |
| `DataProxies.DataProxy.RequestQuit` | src/dataproxy.cc:19-23 | sets `quit_` and nothing else |
| `RelaySafety.ControlKept` | src/dataproxy.cc:19-46 | every step keeps the mutex, worker and destructor consistent and loses no wake-up |
| `RelaySafety.ListedKept` | src/dataproxy.cc:55-78 | every step keeps the lists equal to the live connections, each once, by kind |
| `RelaySafety.ConservedKept` | src/dataproxy.cc:31-96 | every step keeps drained bytes followed by the buffer equal to all appended bytes |
| `RelaySafety.SlicesKept` | src/dataproxy.cc:31-78 | every step, also in the middle of a broadcast, keeps what each client was handed equal to a contiguous slice of the history |
| `RelaySafety.PeerQueued` | src/connection.cc:54-62 | in each small step of `flush` the bytes popped are the bytes written, although appends may come in between |
| `RelaySafety.Reachable` | src/dataproxy.cc:19-114 | all invariants hold after every run |
| `RelayTheorems.EndToEnd` | src/dataproxy.cc:25-46 | in every state of every interleaving, broadcasts and flushes in progress included, a connection's wire and queue, notices removed, are exactly the slice of the appended bytes from where it joined to what has been handed to it; both directions |
| `RelayTheorems.HandedOver` | src/dataproxy.cc:31-42 | that end is what had been drained when it left, or what has been drained by now, plus the buffer being broadcast once the worker has come to it |
| `RelayTheorems.EndToEndBetweenTurns` | src/dataproxy.cc:25-46 | between two turns of the worker the slice ends exactly where the buffer begins |
| `RelayTheorems.WireIsPrefix` | src/connection.cc:54-62 | at every moment the wire carries a prefix of what was appended since the connection joined, nothing lost, repeated or reordered |
| `RelayWire.PeerWrites` | src/connection.cc:57-60 | in the small steps of `flush` only an accepted write puts bytes on the wire, the first n of the queue; a refused one puts nothing |
| `RelayWire.OutgoingGrows` | src/dataproxy.cc:31-42 | no event touches what is already queued for a connection, notices included; it only adds at the end, and exactly what is handed over or noticed |
| `RelayWire.WireExactly` | src/connection.cc:54-62 | after every run the wire is exactly as many bytes of what the run queued, in order, as its writes accepted |
| `RelayWire.NoticesKept` | src/connection.cc:44-50 | in every run the notices in a connection's stream are those written to it, in order, whatever is broadcast in between |
| `RelayTheorems.ReceivedWhileRegistered` | src/dataproxy.cc:31-78 | a connection that joined at one event of the run and left at another was handed exactly what was drained between the two |
| `RelayTheorems.HistoryIsAppended` | src/dataproxy.cc:80-96 | the histories are the appended contents of the run, in order, per direction |
| `RelayTheorems.NoCrossTalk` | src/dataproxy.cc:31-42 | no connection is sent a byte of its own direction, nor its own, and the serial line gets no notice |
| `RelayTheorems.MergeProjects` | src/dataproxy.cc:89-114 | projecting the merged stream to the serial port on a client gives back all that it transferred, in order |
| `RelayTheorems.ClientPieceContiguous` | src/dataproxy.cc:89-114 | what the serial connection was handed of a client is one contiguous piece of that client's transfers, from what had been drained of them when it joined to what has been handed over |
| `RelayTheorems.NeverStuck` | src/dataproxy.cc:19-30 | with a buffer not empty or `quit_` set, the worker can step or a notification that wakes it is outstanding |
| `RelayTheorems.SleepsIffIdle` | src/dataproxy.cc:28-30 | the worker goes to sleep exactly when both buffers are empty and `quit_` is not set |
| `RelayTheorems.ShutdownDrains` | src/dataproxy.cc:25-46 | the worker leaves only with both buffers empty and all bytes handed to every listener; at most one iteration begins after `quit_` |
| `RelayTheorems.TurnEnds` | src/dataproxy.cc:25-46 | a turn of the worker ends after a bounded number of its own steps, whatever others do |
| `RelayTheorems.TurnRefines` | src/dataproxy.cc:31-45 | the small steps of a turn add up to the calls that `WorkerTurn` makes |
| `Timestamps.Erasable` | src/sockserver.cc:116-148 | for input without ESC, stripping a connection's output returns its input, under any interleaving and toggling |
| `Timestamps.SerialErasable` | src/sockserver.cc:116-148 | for any serial input at all, stripping the output equals stripping the input |
| `Timestamps.SerialRoundTrip` | src/sockserver.cc:116-148 | stripping the serial output returns the input if and only if the device sent nothing that looks like a stamp |
| `Timestamps.Placement` | src/sockserver.cc:93-148 | with the setting on, a stamp stands before byte i exactly when byte i is not LF and byte i-1 is |
| `Timestamps.OutputExactly` | src/sockserver.cc:92-148 | for every connection, interleaving and toggling: each read passes whole, with a stamp before it exactly if it comes directly after a read that ended a line and does not end one itself |
| `Timestamps.SocketUnchangedIff` | src/sockserver.cc:119-148 | a socket stream passes unchanged if and only if none of its reads comes directly after a read that ended a line of the device, or first with the flag set |
| `Timestamps.PendingIffLineEnded` | src/sockserver.cc:119-147 | a stamp is pending exactly if the last read on any connection ended a line of the device |
| `Timestamps.SocketGetsStamps` | src/sockserver.cc:134-148 | a socket stream grows by one stamp per read that finds one pending |
| `Timestamps.StampReachesClient` | src/sockserver.cc:119-148 | a run in which the serial line's stamp lands in a client's input |
| `Timestamps.InputFilter.Handle` | src/sockserver.cc:116-148 | the `write_rxbuf` calls of one read concatenate to the filter step, and `new_ts` follows it |
| `Timestamps.InputFilter.HandleAll` | src/sockserver.cc:92-150 | the read loop outputs the filtered stream |
| `LifecycleSafety.AlwaysSafe` | src/sockserver.cc:22-250 | in every run managed connections have distinct open descriptors, and no close ever hits a descriptor in use by one |
| `LifecycleSafety.HandleKeeps` | src/sockserver.cc:88-213 | every event keeps all invariants, or is not survived; and that is exactly an unknown readable descriptor or a fatal admin line |
| `LifecycleSafety.CloseConnectionKeeps` | src/sockserver.cc:22-33 | closing removes exactly this connection from the manager, the proxy and the kernel |
| `LifecycleSafety.ConnectKeeps` | src/serialport.cc:124-187 | connecting keeps the invariants whether `open` fails, set-up fails or all works |
| `LifecycleSafety.DisconnectKeeps` | src/serialport.cc:189-197 | disconnecting removes exactly the connection that uses `fd_`; its second close finds nothing open |
| `LifecycleSafety.EndsExactly` | src/sockserver.cc:88-213 | exactly which connections an event ends; all others survive |
| `LifecycleEffects.AcceptAdds` | src/sockserver.cc:47-86 | each descriptor accepted before the first failure becomes one connection of the right kind, in order |
| `LifecycleEffects.IncomingAdds` | src/sockserver.cc:167-171 | one event on a listening socket takes in every pending connection up to the first failing answer |
| `LifecycleEffects.AddsExactly` | src/sockserver.cc:47-250 | exactly which connections each event adds, the serial one of a reconnect or a command included |
| `LifecycleEffects.QuittingExactly` | src/connection_server.cc:209-211 | who asks to quit after an event: those who did before, and the admin whose input contains `exit` |
| `LifecycleEffects.ExitCloses` | src/sockserver.cc:183-194 | the next output event on such an admin's descriptor closes it |
| `LifecycleEffects.CloseLogged` | src/connection.cc:26-42 | closing a connection makes one close, of its own open descriptor, when it is no longer managed |
| `LifecycleEffects.ConnectLogged` | src/serialport.cc:180-186 | a connect closes a descriptor exactly if the device opens and fails its set-up |
| `LifecycleEffects.DisconnectLogged` | src/serialport.cc:189-197 | `disconnect` makes one close for the connection on `fd_`, if any, and a second one that finds nothing open |
| `LifecycleSafety.IndexesAgree` | src/dataproxy.cc:55-105 | the proxy lists each managed connection once in the list of its type; at most one serial connection, on `SerialPort::fd_` |
| `StaleDescriptors.StaleIff` | src/sockserver.cc:88-250 | for every event, exactly when `fd_` is set without a serial connection afterwards |
| `StaleDescriptors.ConnectedIffNotStale` | src/serialport.h:36 | `isconnected()` tells the truth exactly outside stale states |
| `StaleDescriptors.ConnectStaleIff` | src/serialport.cc:124-187 | a connect leaves `fd_` stale exactly if it was, or if the device opens and then fails its set-up |
| `StaleDescriptors.CloseStaleIff` | src/sockserver.cc:22-28 | closing a connection leaves `fd_` stale exactly if it was, or if the connection is the serial one |
| `StaleDescriptors.DisconnectNotStale` | src/serialport.cc:189-197 | `disconnect` always ends it |
| `StaleDescriptors.BatchComesTo` | src/sockserver.cc:92-150 | for the serial port, a batch of reads comes to at most one disconnect and then the first answer since that opens the device |
| `StaleDescriptors.BootedStaleIff` | src/sockserver.cc:215-235 | the first connect leaves `fd_` stale exactly if the device opens and fails its set-up |
| `StaleDescriptors.StaleStays` | src/serialport.cc:124-138 | a stale `fd_` stays, and the port closed, until a hang-up on it or an admin's command |
| `StaleDescriptors.EofLeavesStale` | src/sockserver.cc:110-114 | a run in which an end of file on the device leaves `fd_` stale |
| `StaleDescriptors.DisconnectDropsBystanderIff` | src/serialport.cc:189-197 | `disconnect` drops a socket connection if and only if one has the descriptor in `fd_` |
| `StaleDescriptors.ReuseHappens` | src/serialport.cc:180-186 | a run that gives a stale descriptor to a client |
| `StaleDescriptors.BystanderDropped` | src/serialport.cc:189-197 | in that run an admin's `disconnect` drops the client |
| `StaleDescriptors.AdminDestroysItself` | src/connection_server.cc:142-151 | a run in which an admin's `disconnect` destroys the connection executing it |
| `StaleDescriptors.UnknownDescriptorHappens` | src/sockserver.cc:88-95 | a run in which a readable event of the device comes after an admin disconnected it |
| `StaleDescriptors.FatalLineHappens` | src/connection_server.cc:142-197 | a run that ends with an admin's line without a word, or with a number too big |
| `Servers.ConnectionManager.Find` | src/connection_server.cc:69-80 | the search loop finds the first connection with the descriptor, or none |
| `Servers.ConnectionManager.RemoveFd` | src/connection_server.cc:45-58 | the search loop erases the first connection with the descriptor and returns it |
| `Servers.ConnectionManager.Remove` | src/connection_server.cc:60-67 | removes by the descriptor of the given connection |
| `Servers.SerialPort.Connect` | src/serialport.cc:124-187 | does to the server what `Lifecycle.Connect` does to its view, callbacks included |
| `Servers.SerialPort.Disconnect` | src/serialport.cc:189-197 | callbacks, second close and reset of `fd_`, as `Lifecycle.Disconnect` |
| `Servers.Server.CloseConnection` | src/sockserver.cc:22-28 | manager first, then proxy, then kernel |
| `Servers.Server.AcceptConnection` | src/sockserver.cc:47-86 | the accept loop |
| `Servers.Server.InputDataHandler` | src/sockserver.cc:88-165 | the read loop with reconnects, admin commands and the final close |
| `Servers.Server.ProcessCommand` | src/connection_server.cc:142-218 | the effect of an admin command on connections, and which commands the server does not survive |
| `Servers.Server.OnSerialPortConnectionChanged` | src/sockserver.cc:239-250 | the status callback attaches or removes the serial connection |
| `Servers.Server.Handle` | src/sockserver.cc:196-213 | dispatches an event as `Lifecycle.Handle` does, keeps `Valid()`, and fails exactly on the events that the server does not survive |
| `Servers.Server.constructor` | src/sockserver.cc:215-235 | establishes `Valid()`, whatever the first connect comes to |
| `LineEditors.EditorRefinesZipper` | src/sockclient.cc:122-215 | for every key sequence, line and cursor represent the state of a two-stack editor |
| `LineEditors.StepRefines` | src/sockclient.cc:122-215 | each key keeps the representation |
| `LineEditors.ZipperExists` | src/sockclient.cc:122-215 | every valid line and cursor have a two-stack counterpart |
| `LineEditors.TypeThenErase` | src/sockclient.cc:198-215 | typing a word and as many backspaces restores the whole state |
| `LineEditors.LeftThenRight` | src/sockclient.cc:159-174 | k lefts and k rights restore the state if and only if k does not exceed the cursor or the cursor is at the end |
| `LineEditors.Navigation` | src/sockclient.cc:130-158 | after k ups and j downs the line is the entry max(min(k, n) - j, 0) places from the end, empty at 0 |
| `LineEditors.EditingKeepsPlace` | src/sockclient.cc:130-209 | the place in the history depends on ups and downs alone, even across Ctrl-C |
| `LineEditors.HistoryIsSubmitted` | src/sockclient.cc:118-190 | history grows by exactly the non-empty submitted lines, at the end |
| `Terminals.DiversionLosesNothing` | src/sockclient.cc:225-282 | relay bytes shown followed by those held back are all received, if and only if every write of them was accepted whole; descriptors stay consistent |
| `Terminals.RunLoses` | src/sockclient.cc:370-375 | nothing is counted lost if and only if no write of relay bytes was short |
| `TerminalEffects.AnswersShown` | src/sockclient.cc:265-272 | over every run, what is shown and is not the relay's is, in order, the accepted prefixes of the reads on the panel; all of them if and only if each write was accepted whole |
| `TerminalEffects.MainShownExactly` | src/sockclient.cc:265-272 | with short writes too, the relay's bytes shown are the accepted prefixes of its writes, in order |
| `TerminalEffects.ShowsExactly` | src/sockclient.cc:247-272 | each read adds to the end of what is shown exactly the accepted prefix of what it displays |
| `TerminalEffects.PanelExactly` | src/sockclient.cc:396-422 | exactly when the panel opens and closes, by the literal commands, and which descriptor is used then |
| `TerminalEffects.FirstWord` | src/sockclient.cc:71-74 | the words of a line: leading white space skipped, the first word up to the next |
| `TerminalEffects.UpAndDownKeys` | src/sockclient.cc:130-158 | `ESC [ A` and `ESC [ B` in the open panel: one entry back or forward, clamped, and its text shown |
| `TerminalEffects.LeftAndRightKeys` | src/sockclient.cc:159-174 | `ESC [ C` and `ESC [ D`: the cursor moves by one within the line |
| `TerminalEffects.ControlKeys` | src/sockclient.cc:191-206 | Ctrl-C drops the line, backspace the character before the cursor; history and place stay |
| `TerminalEffects.EnterKey` | src/sockclient.cc:181-190 | LF starts a new line and puts a non-empty one at the end of the history |
| `TerminalEffects.OtherKeys` | src/sockclient.cc:207-215 | every other chunk goes in at the cursor |
| `Terminals.PanelRoundTrip` | src/sockclient.cc:396-422 | a visit to the panel, with any reads of the relay, the panel and keys in between, shows the relay's bytes in order at its end and restores the descriptors |
| `Terminals.BlankLineHappens` | src/sockclient.cc:70-76 | a run that ends with a blank line in the panel |
| `Terminals.UndefinedIff` | src/sockclient.cc:70-76 | the client is undefined exactly when Enter submits a line of white space in the panel |
| `Terminals.NoTokensIff` | src/sockclient.cc:71-74 | a line has no words if and only if it is all white space |
| `Terminals.ClientRunsEditor` | src/sockclient.cc:247-263 | in every run the client's line, cursor and history are those of the editor run on the keys read in the panel |
| `Terminals.Client.SwitchAdminConnection` | src/sockclient.cc:396-422 | opens or closes the panel and replays the held bytes |
| `Terminals.Client.ProcessConsoleInput` | src/sockclient.cc:122-215 | the key switch does the decoded action, and a submitted line its command |
| `Terminals.Client.HandleCmd` | src/sockclient.cc:70-120 | the effect of a command line on history and mode |
| `Terminals.Client.InputDataHandler` | src/sockclient.cc:225-282 | the read loop diverts, shows or interprets what it reads |

## Left out

- Sockets, epoll, terminal settings, name lookup: their answers are parameters; src/socket.cc and most of src/ioloop.cc are not part of this model.
- Memory-level races: each locked section and the snapshot taken by `flush` is one step, the worker starts after construction, and no broadcast meets a connection that is being constructed or destroyed.
- `close_all_connections` and process exit: `pop` reads the front of an empty vector, so that loop has no defined end.
- Several status callbacks: the server installs one, and only that one is called.
- Termios bits and the baud table: set-up of the device either works or fails.
- Configuration, logging, snippet files, help texts, colours and the texts sent to admins; a command is known by its effect on connections.
- The client's own queue to its sockets: bytes typed before a mode switch may go to the other socket, so nothing is claimed of it.
- The client's exit at end of file and on epoll errors: a run of the client ends there.
- Delivery to a peer in the end: `handle` serves only input when input and output are ready together, so liveness does not follow from the code.
- Clock values: a stamp is any string of the printed format with a four-digit year.
- Timestamps.SerialErasable: speaks of one serial session, with any value of `new_ts` at its start; by IndexesAgree there is never a second serial connection at the same time.
- Servers.Server.ProcessCommand: does not say what is left in memory when the server does not survive a command.
- Connections.Connection.Received: the virtual call is by kind; inheritance is not modelled.
