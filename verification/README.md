# AT-Node: verified models of its protocols

AT-Node is a set of boards that type, bridge and report on command: CH582 firmware in C
(`wchble/`), ESP32 firmware in Rust and Arduino C++ (`esp32/`), and a broker in Python
(`tools/`). The modules here model the small hand-written protocols it rests on and prove what
they keep over every run. Where the code falls short of its intent the model follows the code,
and a theorem says exactly when it does what was meant.

- `RatholeTunnel`, `RatholeStandby`, `RatholeBackoff`, `RatholePump`: the Rust tunnel client.
  `ArduinoTunnel`: the same job with heap objects. `Ownership`: counting who holds which index.
- `SlotTable`, `SlotPage`: which host owns which keyboard slot, and the flash page behind it.
- `MqttPackets`, `MqttClient`: the MQTT 3.1.1 client.
- `UsbControl`, `CdcRings`: control transfers from device to host, and the serial rings.
- `RtcCalendar`: the calendar behind the real-time clock.
- `AtLine`, `KeyText`, `KeyPlayback`, `BleReports`: the command line, text as key reports, its
  playback, its queue.
- `HttpPool`, `RpcFrame`: the web server's buffer indices, and the remote call text.

Code that changes state is a class whose methods are tied to functions on values; the theorems
are about those functions. Concurrent code is cut into the steps between which other code can
run; what networks, radios, clocks and heap checks answer is an arbitrary parameter of a step.
`dafny verify dfyconfig.toml` checks everything. A byte is a `bv8` where it is only moved, an `int`
where it is computed with, and a `char` where it is text. `Wrappers` holds what all share.

Where the repository's own words and its code differ, the code is modelled: the header of the
clock driver promises dates to the end of 2064, `hidkbd_ble.c` says in two comments that hosts
that never bonded are forgotten on disconnect and that unknown hosts are always let through,
`rathole.rs` that a healthy session resets the backoff, `kbd_ble.rs` that the next connection
never replays stale keys, `at_cmds.c` that a typed text has no '=' in it (it may), and `at_parser.c`
that a line has 256 characters (the header says 1024).

## Model

| member | source | states |
|---|---|---|
| RatholeTunnel.EveryRunKeepsInv | esp32/rust/src/rathole.rs:498-845 | from power-on, every interleaving of the manager and any number of forward tasks, whatever network, heap and addresses answer, keeps each slot bit at exactly one user (socket being filled, standing by, queued, forwarded, or leaked) and `DATA_CH` at pooled plus queued plus forwarding |
| RatholeTunnel.StepKeepsInv | esp32/rust/src/rathole.rs:498-845 | the same for one piece of code between awaits |
| RatholeTunnel.WhatInvMeans | esp32/rust/src/rathole.rs:725-757 | no two sockets share a slot; `DATA_CH` plus leaks never exceed the slots; a standby always finds room in `FWD_CH`; no `fetch_sub` meets zero |
| RatholeTunnel.Fills | esp32/rust/src/rathole.rs:498-534 | a listening manager that meets no failure has a standby on the lowest free slot and one more count iff channels and leaks leave a slot; otherwise nothing changes |
| RatholeTunnel.ComesUp | esp32/rust/src/rathole.rs:575-585 | the same from every state whose manager is away, once the control channel comes up |
| RatholeTunnel.PowersUp | esp32/rust/src/rathole.rs:498-585 | and so from power-on |
| RatholeTunnel.ComesBack | esp32/rust/src/rathole.rs:653-718 | a session that ends gives its standby up, and the next one gets one again, on the lowest slot then free |
| RatholeTunnel.ServedAfter | esp32/rust/src/rathole.rs:507-531 | after a refused request, a failed lookup, connect or hello, a lost standby or a refused start the next request is served: always if the slot was given back, and iff another one is left if it leaked; queue and sessions of the others stay |
| RatholeTunnel.FillsAmongOthers | esp32/rust/src/rathole.rs:653-842 | from wherever the manager stands, the outcomes still to come lead to a standby in every interleaving with what forward tasks do |
| RatholeTunnel.VisitorReached | esp32/rust/src/rathole.rs:732-768 | a visitor handed over with heap and address joins a queue of any length, and a task that has had as many sessions as there are before it forwards that visitor |
| RatholeTunnel.VisitorServed | esp32/rust/src/rathole.rs:653-842 | with a slot and a task to spare and nothing else going on, a visitor goes from command to forward task on the lowest free slot and one count, and the end of the session undoes exactly that |
| RatholeTunnel.FindsSlotIff | esp32/rust/src/rathole.rs:361-369 | `slot_alloc` succeeds in the manager iff channels and leaks together leave a slot |
| RatholeTunnel.LeaksAdd | esp32/rust/src/rathole.rs:507-509 | over every run the leaked slots are exactly the early returns of `pool_fill_one` taken after `slot_alloc`; they never come back |
| RatholeTunnel.LeakedDry | esp32/rust/src/rathole.rs:498-534 | at most as many leaks as slots, and once all have leaked the tunnel never has a data channel again in any continuation |
| RatholeTunnel.ReceivedInOrder | esp32/rust/src/rathole.rs:732-768 | over every run and interleaving the forward tasks get the visitors in the order they were handed over, none left out |
| RatholeTunnel.Tunnel.SlotAlloc | esp32/rust/src/rathole.rs:361-369 | the `fetch_or` loop takes the lowest clear bit and changes no other |
| RatholeTunnel.Tunnel.SlotFree | esp32/rust/src/rathole.rs:371-373 | clears that bit only |
| RatholeTunnel.Tunnel.OnCreateDataChannel | esp32/rust/src/rathole.rs:653-665 | a control command up to the first await of `pool_fill_one` is that step of the protocol |
| RatholeTunnel.Tunnel.OnResolved | esp32/rust/src/rathole.rs:509-509 | a failed lookup forgets the slot |
| RatholeTunnel.Tunnel.OnConnected | esp32/rust/src/rathole.rs:516-523 | a failed connect gives the slot back |
| RatholeTunnel.Tunnel.OnGreeted | esp32/rust/src/rathole.rs:525-534 | a failed hello gives the slot back, a good one makes the channel the standby and counts it |
| RatholeTunnel.Tunnel.OnStandbyLost | esp32/rust/src/rathole.rs:670-677 | the standby's slot is freed and the channel uncounted |
| RatholeTunnel.Tunnel.OnStartForward | esp32/rust/src/rathole.rs:680-756 | the standby is queued for a forward task, or freed and uncounted |
| RatholeTunnel.Tunnel.OnControlDown | esp32/rust/src/rathole.rs:714-718 | the standby does not outlive the session |
| RatholeTunnel.Tunnel.OnReceive | esp32/rust/src/rathole.rs:763-768 | a free task takes the oldest request |
| RatholeTunnel.Tunnel.OnSessionOver | esp32/rust/src/rathole.rs:769-842 | a session, however it ends, frees its slot and uncounts its channel once |
| RatholeStandby.CleanRunsAlign | esp32/rust/src/rathole.rs:678-705 | as long as no standby goes away in the middle of its command, each command acted on is the first four bytes of the standby it is taken for, however they are chunked |
| RatholeStandby.NextCommandMixed | esp32/rust/src/rathole.rs:622-637 | `dlen` is not reset with the standby: however the new one's bytes arrive, the next command consists of the lost one's bytes and as few of the new one's as complete it, and is the new one's own iff nothing was left over |
| RatholeStandby.Standby.OnData | esp32/rust/src/rathole.rs:678-698 | one read: bytes go behind those present, a complete command starts a forward iff it is zero, and drops the standby otherwise |
| RatholeBackoff.HealthyResetsIff | esp32/rust/src/rathole.rs:563-598 | from power-on, for every history and every setting: the Rust wait behind a healthy session is the configured base iff the base is within the cap and, unless it is zero or the cap itself, every attempt since the last stop but the first was healthy; the Arduino wait always is the base |
| RatholeBackoff.RustWaits | esp32/rust/src/rathole.rs:563-598 | from power-on, for every history at one setting: the backoff is the base doubled for each attempt since the last stop that was not healthy, but the first, up to 30 s |
| RatholeBackoff.ArduinoWaits | esp32/arduino/rathole_client.cpp:356-490 | the wait is the base doubled for each attempt from the last healthy one on, up to 30 s or the base |
| RatholeBackoff.PutOffRemembers | esp32/arduino/rathole_client.cpp:356-490 | turns without an attempt leave the Rust backoff alone; the Arduino backoff becomes the longest setting met meanwhile, if that is longer |
| RatholeBackoff.RustNeverShortens | esp32/rust/src/rathole.rs:541-608 | over every run without a stop, whatever the outcomes and with settings changing from turn to turn, the Rust waits never decrease and never exceed 30 s |
| RatholeBackoff.SameUntilHealthyIff | esp32/arduino/rathole_client.cpp:356-490 | until the first healthy session both clients wait the same iff the setting is at most 30 s; above it the Rust client always waits less |
| RatholeBackoff.AtSixtySeconds | esp32/arduino/rathole_client.cpp:575-579 | at the largest legal setting they differ at the first failed attempt and at every healthy session |
| RatholeBackoff.Backoff.AfterAttempt | esp32/rust/src/rathole.rs:585-608 | the new backoff, and a wait of the next multiple of 100 ms unless a kick ends it |
| RatholePump.Pump.Forward | esp32/rust/src/rathole.rs:789-840 | for every interleaving, chunking and partial write: what each side was sent is an in-order prefix of what was read from the other, at most one buffer short and in one direction only; with two EOFs both streams are equal to everything the peers sent and both FINs are out; it ends with a failed read or write iff one failed |
| RatholePump.Shovel | esp32/rust/src/rathole.rs:812-839 | one turn of one direction: everything read is written, or the FIN is passed on, or the pump ends |
| RatholePump.Socket.WriteAll | esp32/rust/src/rathole.rs:818-820 | all of the data goes out, or a proper prefix and an error; never behind our FIN (precondition) |
| ArduinoTunnel.EveryRunKeepsInv | esp32/arduino/rathole_client.cpp:404-485 | for any number of tunnels and slots, every interleaving of what manager and forward tasks do between their blocking calls, connects and hellos under way included: each client that is not deleted has exactly one owner (the manager connecting it, a pool slot, or a forward task), every manager finds its slot as it left it, and `g_data_ch_count` is the standbys plus the forward tasks that have not counted down |
| ArduinoTunnel.StepKeepsInv | esp32/arduino/rathole_client.cpp:404-485 | the same for one piece of code between blocking calls |
| ArduinoTunnel.HeldOnce | esp32/arduino/rathole_client.cpp:232-271 | so no client is in two hands, and whoever has one may delete it |
| ArduinoTunnel.NothingLeftOver | esp32/arduino/rathole_client.cpp:478-481 | a control channel that is down has left no standby: with all of them down and no forward task every client is deleted and the counter is zero |
| ArduinoTunnel.Fills | esp32/arduino/rathole_client.cpp:252-272 | a request a serving manager gets while a slot is free: the new client is the standby of the first free slot and counted once if it connects and greets, and deleted otherwise; nothing else changes |
| ArduinoTunnel.PollPasses | esp32/arduino/rathole_client.cpp:433-474 | one pass over the pool, whatever it finds at each slot: a standby with nothing to read stays, one whose command is zero belongs to the task made for it, every other is deleted, and the counter goes down by as many; no other tunnel notices |
| ArduinoTunnel.Activates | esp32/arduino/rathole_client.cpp:457-463 | so a pass that finds one zero command makes the new task the owner of that client and keeps the count |
| ArduinoTunnel.ForwardEnds | esp32/arduino/rathole_client.cpp:219-226 | the end of the session deletes that client, uncounts it and changes nothing else |
| ArduinoTunnel.VisitorServed | esp32/arduino/rathole_client.cpp:404-475 | a visitor from request to end, through any free slot, leaves nothing but a deleted client |
| ArduinoTunnel.SessionEnds | esp32/arduino/rathole_client.cpp:478-481 | the end of a control session deletes the standbys of its tunnel, uncounts them and touches no other |
| ArduinoTunnel.SessionServes | esp32/arduino/rathole_client.cpp:383-420 | a session that comes up has its first request served in the first slot |
| ArduinoTunnel.CounterRightIff | esp32/arduino/rathole_client.cpp:224-224 | the decrement is a load and a store: for any number of sessions ending in any interleaving the counter is right afterwards iff no store fell between another session's load and its store, and is too high otherwise |
| ArduinoTunnel.OffByOverwritten | esp32/arduino/rathole_client.cpp:272-272 | with connects mixed in, the counter is off by exactly what its stores wiped out |
| ArduinoTunnel.TwoLossesCancelIff | esp32/arduino/rathole_client.cpp:272-272 | two lost updates cancel iff they are opposite, a connect and an end |
| ArduinoTunnel.PooledUpdate | esp32/arduino/rathole_client.cpp:271-283 | filling or emptying one slot changes the number of standbys by one |
| ArduinoTunnel.Tunnels.constructor | esp32/arduino/rathole_client.cpp:73-74 | empty pools and a zero counter |
| ArduinoTunnel.Tunnels.OnCreateDataChannel | esp32/arduino/rathole_client.cpp:412-420 | the first free slot gets a new client to connect, if there is heap; with no free slot nothing is allocated |
| ArduinoTunnel.Tunnels.OnConnected | esp32/arduino/rathole_client.cpp:259-262 | a client that does not connect is deleted |
| ArduinoTunnel.Tunnels.OnGreeted | esp32/arduino/rathole_client.cpp:264-272 | one that does not greet is stopped and deleted, otherwise it is the standby of its slot and counted |
| ArduinoTunnel.Tunnels.OnPollSlot | esp32/arduino/rathole_client.cpp:434-446 | one look at a standby: left alone, dropped, or its command is read |
| ArduinoTunnel.Tunnels.OnCommandRead | esp32/arduino/rathole_client.cpp:457-473 | behind the read: activated, left for another poll, or dropped |
| ArduinoTunnel.Tunnels.StartForward | esp32/arduino/rathole_client.cpp:228-249 | the client moves to a task, or is deleted and uncounted when there is none |
| ArduinoTunnel.Tunnels.DropStandby | esp32/arduino/rathole_client.cpp:438-445 | the standby is stopped, deleted and uncounted, its slot is empty |
| ArduinoTunnel.Tunnels.OnDrainSlot | esp32/arduino/rathole_client.cpp:275-285 | one slot of `pool_drain`; behind the last one the tunnel is down |
| ArduinoTunnel.Tunnels.OnForwardStops | esp32/arduino/rathole_client.cpp:220-221 | the end of a session deletes its client and no other |
| ArduinoTunnel.Tunnels.OnForwardUncounts | esp32/arduino/rathole_client.cpp:222-225 | the session is counted down when its own socket is closed |
| HttpPool.EveryRunKeepsInv | esp32/rust/src/httpd.rs:1307-1404 | for any backlog and any numbers of acceptors and handlers, over every run of accepts, errors and disables, each buffer index is in exactly one of free queue, acceptor, `CONN`, handler, or lost |
| HttpPool.RoomForAll | esp32/rust/src/httpd.rs:1359-1402 | no two sockets share a buffer; whoever holds an index finds room in both channels, so `CONN.send` never waits and no index given back is dropped |
| HttpPool.ConnectionServed | esp32/rust/src/httpd.rs:1359-1402 | a connection behind any number of others, from its accept to the end of the last: all are served in order, its buffer is the youngest free one, and nothing else has changed |
| HttpPool.AcceptorRuns | esp32/rust/src/httpd.rs:1359-1381 | an acceptor takes the oldest free buffer and its connection queues behind all others; after a failed accept the buffer is free again |
| HttpPool.HandlerRuns | esp32/rust/src/httpd.rs:1393-1402 | a free handler works off any queue, oldest first, and frees the buffers in that order |
| HttpPool.LossesAdd | esp32/rust/src/httpd.rs:1384-1386 | the lost indices are exactly the accepts cancelled while holding one |
| HttpPool.LostDry | esp32/rust/src/httpd.rs:1384-1386 | there are at most as many as the backlog, and then nothing is ever accepted, queued or served again |
| HttpPool.ServedInOrder | esp32/rust/src/httpd.rs:1374-1402 | over every run and interleaving connections are taken up in the order they were accepted, none left out |
| HttpPool.StepKeepsInv | esp32/rust/src/httpd.rs:1359-1402 | one step keeps the count |
| HttpPool.Server.constructor | esp32/rust/src/httpd.rs:1307-1319 | the init loop frees every index once |
| HttpPool.Server.OnTakeIndex | esp32/rust/src/httpd.rs:1360-1360 | an acceptor takes the oldest free index |
| HttpPool.Server.OnAccepted | esp32/rust/src/httpd.rs:1374-1376 | the index queues with its connection |
| HttpPool.Server.OnAcceptError | esp32/rust/src/httpd.rs:1377-1380 | the index is given back |
| HttpPool.Server.OnDisabled | esp32/rust/src/httpd.rs:1384-1386 | the index held is lost |
| HttpPool.Server.OnTakeConnection | esp32/rust/src/httpd.rs:1397-1397 | the handler takes the oldest connection |
| HttpPool.Server.OnServed | esp32/rust/src/httpd.rs:1398-1402 | the index is given back after serving |
| Ownership.OnesUpdate | esp32/rust/src/rathole.rs:361-373 | setting or clearing one bit changes the number of set bits by one |
| Ownership.AllOnes | esp32/rust/src/rathole.rs:361-369 | no clear bit iff as many set bits as bits |
| SlotTable.PairsIntoSlot | wchble/mr2/APP/at_cmds.c:1183-1206 | after AT+BT_PAIR with a slot an unknown host is turned away iff no slot is vacant, and otherwise bound, to that slot iff no link is left there |
| SlotTable.ReturnsIff | wchble/mr2/APP/hidkbd_ble.c:257-264 | a host bound to the active slot gets back into it iff its first address byte is not 0xFF, which reads as a free row, or an open window pairs into that slot; such a row is written anew where the window pairs |
| SlotTable.BindingSurvives | wchble/mr2/APP/hidkbd_ble.c:257-357 | over every run, reboots included, a bound row stays until its slot is unbound or paired anew, or AT+FACTORY wipes all |
| SlotTable.NextPairSlot | wchble/mr2/APP/hidkbd_ble.c:272-288 | the window's slot if vacant, else the active one, else the lowest vacant one, else none |
| SlotTable.EveryRunKeepsInv | wchble/mr2/APP/hidkbd_ble.c:257-357 | over every possible run of link, unlink, target, pairing, unbind, disconnect, factory reset and reboot events: bound rows are pairwise distinct, each live link sits in one slot, its address is its row's unless the row is free, flash and RAM rows agree, and every link not told to leave is on the active slot or came in through the pairing window since the last activation |
| SlotTable.StepKeepsInv | wchble/mr2/APP/hidkbd_ble.c:257-357 | the same for one event |
| SlotTable.FactoryIsBlank | wchble/mr2/APP/at_cmds.c:1228-1245 | AT+FACTORY tells every link to leave, and with its reset leaves an unused device, whatever was before |
| SlotTable.BlankIsInv | wchble/mr2/APP/hidkbd_ble.c:75-77 | an unused device starts that way |
| SlotTable.TableGainsOnlyInWindow | wchble/mr2/APP/hidkbd_ble.c:661-671 | a row changes to a new bound host only when an unknown host connects while the window is open, and then to that host |
| SlotTable.KnownHostComesHome | wchble/mr2/APP/hidkbd_ble.c:331-342 | a host in the table gets its own slot if that slot is active and is told to leave otherwise; the rows stay |
| SlotTable.SelectKeepsOne | wchble/mr2/APP/at_cmds.c:319-340 | AT+DEV leaves no link but that of the slot it selects, and none for USB |
| SlotTable.SelectedComesHome | wchble/mr2/APP/hidkbd_ble.c:675-699 | a host bound to a selected slot gets into it and is not told to leave, whatever happens in between short of another selection or the freeing of the slot; with no window open its link is then the only one to stay |
| SlotTable.UsbLetsNobodyIn | wchble/mr2/APP/hidkbd_ble.c:661-699 | with USB selected every link is on its way out, whatever happens, until another target is selected |
| SlotTable.PairKeepsOne | wchble/mr2/APP/at_cmds.c:1183-1206 | AT+BT_PAIR leaves no link but that of its slot, and not that one when the slot forgets its host |
| SlotTable.WindowLetsIn | wchble/mr2/APP/hidkbd_ble.c:661-671 | while a window opened by AT+BT_PAIR, with a slot or without, is open, an unknown host gets in iff a slot is vacant, and is bound there, to the window's slot if that one is |
| SlotTable.ShutWindowKeepsOut | wchble/mr2/APP/hidkbd_ble.c:833-840 | once it has closed, and until another is opened, an unknown host is turned away and bound nowhere |
| SlotTable.SentAway | wchble/mr2/APP/hidkbd_ble.c:475-522 | AT+BT_DISC and AT+BT_UNBIND tell the link of that slot to leave and no other; after the first its host may come straight back, after the second iff a window is open |
| SlotTable.SecondLinkBindsTwice | wchble/mr2/APP/hidkbd_ble.c:331-357 | a second link of one address would bind it to two slots: the radio's one-link rule is needed |
| SlotTable.Find | wchble/mr2/APP/hidkbd_ble.c:257-264 | the first bound row with that address, or none has it |
| SlotTable.SlotOf | wchble/mr2/APP/hidkbd_ble.c:324-329 | the slot with that handle, or none has it |
| SlotTable.Keyboard.SlotmapFind | wchble/mr2/APP/hidkbd_ble.c:257-264 | the loop finds that row |
| SlotTable.Keyboard.KbdSlotOf | wchble/mr2/APP/hidkbd_ble.c:324-329 | the loop finds that slot |
| SlotTable.Keyboard.KbdNextPairSlot | wchble/mr2/APP/hidkbd_ble.c:272-288 | window slot, active slot, lowest, in that order |
| SlotTable.Keyboard.KbdSlotAlloc | wchble/mr2/APP/hidkbd_ble.c:331-357 | a known host to its own slot, an unknown one to a vacant slot with its row saved, or none |
| SlotTable.Keyboard.LinkEstablished | wchble/mr2/APP/hidkbd_ble.c:899-927 | the established event is the model's, policy included |
| SlotTable.Keyboard.LinkTerminated | wchble/mr2/APP/hidkbd_ble.c:928-947 | the terminated event frees the slot and keeps the row |
| SlotTable.Keyboard.ActivateSlot | wchble/mr2/APP/hidkbd_ble.c:675-699 | every link but the active slot's is told to leave; USB closes the window |
| SlotTable.Keyboard.UnbindSlot | wchble/mr2/APP/hidkbd_ble.c:475-491 | row freed and saved, its link told to leave |
| SlotTable.Keyboard.SetTarget | wchble/mr2/APP/at_cmds.c:319-340 | AT+DEV: the target is the one named, every link off it is told to leave, and USB closes the window |
| SlotTable.Keyboard.BtPair | wchble/mr2/APP/at_cmds.c:1183-1206 | AT+BT_PAIR: the named slot forgets its host, becomes the target and gets the window; without a slot the active one does, and over USB nothing happens |
| SlotTable.Keyboard.PairWindowEvent | wchble/mr2/APP/hidkbd_ble.c:833-840 | the time-out closes the window and drops nobody |
| SlotTable.Keyboard.DisconnectSlot | wchble/mr2/APP/hidkbd_ble.c:516-522 | the slot's link is told to leave |
| SlotTable.Keyboard.Factory | wchble/mr2/APP/hidkbd_ble.c:464-472 | every link is told to leave, rows and page are free |
| SlotTable.Keyboard.Restart | wchble/mr2/APP/hidkbd_ble.c:206-255 | RAM starts anew from the rows on flash |
| SlotPage.RestoresIff | wchble/mr2/APP/hidkbd_ble.c:186-255 | for every slot count whose layout fits the page: booting from a saved page restores bindings, names, paces and types always, and own MACs iff none that starts and ends with 0xFF differs from the derived one |
| SlotPage.BootIsWf | wchble/mr2/APP/hidkbd_ble.c:206-255 | whatever 96 bytes the page holds, names end, paces are 5 to 2000 and types 0 or 1 after boot |
| SlotPage.UnsavedIsFresh | wchble/mr2/APP/hidkbd_ble.c:206-255 | a page that was never saved, as a factory reset leaves it, boots with every slot free, unnamed and at 30 ms, and with pairwise different own MACs, the first the chip's |
| SlotPage.LegacyLoads | wchble/mr2/APP/hidkbd_ble.c:206-255 | a page from before there were names, paces, own MACs and types keeps its bindings and boots as fresh otherwise, but for the address types, which read as 1 |
| SlotPage.LayoutParts | wchble/mr2/APP/hidkbd_ble.c:186-204 | each field lies where the loader looks for it |
| SlotPage.Flat6 | wchble/mr2/APP/hidkbd_ble.c:191-201 | six-byte rows are found again at six times their index |
| SlotPage.Flat12 | wchble/mr2/APP/hidkbd_ble.c:192-192 | names likewise |
| SlotPage.PaceBack | wchble/mr2/APP/hidkbd_ble.c:193-194 | two little-endian bytes give every legal pace back |
| SlotPage.MacsBack | wchble/mr2/APP/hidkbd_ble.c:240-252 | deriving leaves the MACs alone iff none of them is mistaken for unset |
| SlotPage.RenamedReads | wchble/mr2/APP/hidkbd_ble.c:395-410 | an accepted name reads back as given, at most eleven characters; a refused one leaves the old name iff the characters before the refused one agree with it |
| SlotPage.Accepted | wchble/mr2/APP/hidkbd_ble.c:395-410 | the characters copied are the allowed ones up to the first refused one, at most eleven |
| SlotPage.SlotStore.SlotmapSave | wchble/mr2/APP/hidkbd_ble.c:186-204 | the page holds the tables |
| SlotPage.SlotStore.SlotmapLoad | wchble/mr2/APP/hidkbd_ble.c:206-255 | the loops leave what the layout says; types stay without the magic number |
| SlotPage.SlotStore.SetName | wchble/mr2/APP/hidkbd_ble.c:395-410 | RAM and page agree after acceptance; after refusal RAM is partly overwritten and the page is not |
| SlotPage.SlotStore.SetPace | wchble/mr2/APP/hidkbd_ble.c:417-423 | only 5 to 2000 ms, saved |
| SlotPage.SlotStore.SetMac | wchble/mr2/APP/hidkbd_ble.c:431-439 | only static random addresses, saved |
| SlotPage.SlotStore.SetType | wchble/mr2/APP/hidkbd_ble.c:360-366 | saved when it changes |
| SlotPage.SlotStore.Bind | wchble/mr2/APP/hidkbd_ble.c:347-352 | the new host's row, and a page that a boot restores it from |
| SlotPage.SlotStore.Unbind | wchble/mr2/APP/hidkbd_ble.c:475-484 | row freed, name and pace reset, saved; nothing otherwise |
| SlotPage.SlotStore.FactoryReset | wchble/mr2/APP/hidkbd_ble.c:464-472 | the tables of an erased page, but for the address types |
| SlotPage.SlotStore.Reboot | wchble/mr2/APP/hidkbd_ble.c:206-255 | only the page survives; with a saved page everything does, under the condition on MACs |
| SlotPage.SlotStore.constructor | wchble/mr2/APP/hidkbd_ble.c:206-255 | the first boot, from any page |
| MqttPackets.ReceivesEveryMessage | esp32/rust/src/mqttc.rs:1131-1248 | every sequence of packets, each PUBLISH within 2048 bytes of topic and payload and packets of other types anywhere in between, is received message by message, unchanged, to the last byte |
| MqttPackets.ParseOther | esp32/rust/src/mqttc.rs:1235-1246 | every packet of another type is passed over to its last byte and the stream is at the next one; of a PINGRESP or DISCONNECT only the header is read |
| MqttPackets.DisconnectIsSeen | esp32/rust/src/mqttc.rs:1244-1246 | a DISCONNECT behind any such sequence is seen as one |
| MqttPackets.CutIsShort | esp32/rust/src/mqttc.rs:1177-1248 | a packet that is cut off anywhere is never taken for a whole one |
| MqttPackets.ParsePublish | esp32/rust/src/mqttc.rs:1207-1234 | one packet for every size: a message iff topic and payload fit together; a payload over 2048 bytes costs two bytes of the next packet; one that fits beside a topic that does not crashes the receiver |
| MqttPackets.ConnectDecodes | esp32/rust/src/mqttc.rs:1037-1095 | the CONNECT packet decodes per section 3.1 of MQTT 3.1.1 to exactly the client id, will, user and password given, unless there is a password without a user, when it decodes to nothing |
| MqttPackets.VarintReads | esp32/rust/src/mqttc.rs:1142-1156 | the length bytes read back as the length |
| MqttPackets.VarintIsMinimal | esp32/rust/src/mqttc.rs:1142-1156 | no encoding of the length is shorter |
| MqttPackets.HeaderReads | esp32/rust/src/mqttc.rs:1196-1206 | behind type and length the body begins |
| MqttPackets.StrReads | esp32/rust/src/mqttc.rs:1017-1022 | a string with its 16-bit length is read back |
| MqttClient.ReceiveMessages | esp32/rust/src/mqttc.rs:1177-1268 | repeated `recv` on any sequence of such packets, cut up in any way: each message in order and unchanged, and the stream left behind the last byte; on a link that breaks, those before |
| MqttClient.Client.PutStr | esp32/rust/src/mqttc.rs:1017-1022 | length and bytes stand behind what was written before |
| MqttClient.Client.Send | esp32/rust/src/mqttc.rs:1024-1035 | for every sequence of short writes, all bytes in order or an error |
| MqttClient.Client.PublishMessage | esp32/rust/src/mqttc.rs:1131-1162 | the bytes sent are the PUBLISH packet |
| MqttClient.Client.PutVarint | esp32/rust/src/mqttc.rs:1142-1156 | the loop writes the minimal length and nothing else |
| MqttClient.Client.PutConnectBody | esp32/rust/src/mqttc.rs:1048-1072 | the body behind the two reserved bytes |
| MqttClient.Client.ShiftLeft | esp32/rust/src/mqttc.rs:1089-1094 | the body one byte to the left, the header untouched |
| MqttClient.Client.PutConnectLength | esp32/rust/src/mqttc.rs:1073-1094 | length of one or two bytes and no gap behind it |
| MqttClient.Client.Connect | esp32/rust/src/mqttc.rs:1037-1106 | the bytes sent are the CONNECT packet; the result is what the four-byte answer says |
| MqttClient.Client.ReadInto | esp32/rust/src/mqttc.rs:1177-1191 | exactly n bytes of the stream, however it is chunked |
| MqttClient.Client.Drain | esp32/rust/src/mqttc.rs:1250-1268 | exactly n bytes are consumed |
| MqttClient.Client.ReadRemaining | esp32/rust/src/mqttc.rs:1199-1206 | the value of the length bytes, and not one byte more consumed |
| MqttClient.Client.Recv | esp32/rust/src/mqttc.rs:1196-1248 | one call is one packet of the stream as `Parse` has it, for every chunking: event, topic, payload and what is left |
| UsbControl.CtrlIn | wchble/mr2/StdPeriphDriver/CH58x_usb2hostBase.c:411-437 | host against device with data, handshakes and NAKs lost in any pattern, toggles and retry budget included: it succeeds iff each transaction it needs delivers, and then the buffer holds exactly the answer; otherwise it holds the packets before the failed one; nothing else is ever touched |
| UsbControl.FetchPacket | wchble/mr2/StdPeriphDriver/CH58x_usb2hostBase.c:415-421 | one IN transaction on the wire: on success the next packet of what is owed, whether the device is a packet behind or not; otherwise the same is owed |
| UsbControl.RepetitionCatchesUp | wchble/mr2/StdPeriphDriver/CH58x_usb2hostBase.c:353-360 | a lost ACK costs one attempt of the next transaction and no data |
| UsbControl.LostAcksFail | wchble/mr2/StdPeriphDriver/CH58x_usb2hostBase.c:353-379 | with every ACK lost the second transaction times out though its data always arrives |
| UsbControl.FirstDecides | wchble/mr2/StdPeriphDriver/CH58x_usb2hostBase.c:310-379 | the first answer decides a transaction and gives it its status, a stall included, unless more NAKs than the limit or three attempts that brought nothing came before; then these do |
| UsbControl.ArrivesIn | wchble/mr2/StdPeriphDriver/CH58x_usb2hostBase.c:277-381 | a packet behind NAKs within the limit and up to two losses is fetched; a stall there ends the transaction without one |
| UsbControl.LossesAreHarmless | wchble/mr2/APP/usb_dev.c:202-211 | with device and host toggling DATA0/DATA1 on their own, whatever data and handshakes are lost, the host takes the packets in order and each once, and has exactly the answer when none is outstanding |
| UsbControl.EachPacketOnce | wchble/mr2/StdPeriphDriver/CH58x_usb2hostBase.c:353-360 | the same for any list of packets |
| UsbControl.Transact | wchble/mr2/StdPeriphDriver/CH58x_usb2hostBase.c:277-381 | the retry loop ends at the first attempt that settles the transaction, with its verdict, within timeout + 3 attempts; without a limit it ends if anything settles it |
| UsbControl.TurnSettles | wchble/mr2/StdPeriphDriver/CH58x_usb2hostBase.c:310-379 | the loop goes on iff the attempt does not settle the transaction, with its counters right |
| UsbControl.ControlReadIsExact | wchble/mr2/APP/usb_dev.c:202-211 | for every descriptor and requested length the host's loop over the device's packets ends with exactly the first min(wLength, length) bytes |
| UsbControl.FragmentShape | wchble/mr2/APP/usb_dev.c:202-211 | full 64-byte packets and then one short one, empty for a multiple of 64 |
| UsbControl.ReassembleFragments | wchble/mr2/StdPeriphDriver/CH58x_usb2hostBase.c:413-437 | short packets end the loop, and only at the end |
| UsbControl.Device.Setup | wchble/mr2/APP/usb_dev.c:318-403 | the SETUP stage offers the first packet of the answer |
| UsbControl.Device.InDone | wchble/mr2/APP/usb_dev.c:202-211 | an acknowledged packet gives way to the next with the other toggle, `pDescr` stays within the descriptor |
| UsbControl.TransactionsSettle | wchble/mr2/StdPeriphDriver/CH58x_usb2hostBase.c:277-381 | every sequence of answers settles within that many attempts |
| UsbControl.UnsettledAttemptsCount | wchble/mr2/StdPeriphDriver/CH58x_usb2hostBase.c:337-380 | until then each attempt is a NAK within the budget or one of two silent ones |
| UsbControl.PacketCounts | wchble/mr2/StdPeriphDriver/CH58x_usb2hostBase.c:424-434 | each packet fetched is the answer's next one, and the loop ends with the last |
| UsbControl.StorePacket | wchble/mr2/StdPeriphDriver/CH58x_usb2hostBase.c:425-429 | the packet lands behind what is there |
| CdcRings.CallStaysWithin | wchble/mr2/APP/usb_dev.c:477-485 | under every interleaving a read call hands out at most the bytes asked for |
| CdcRings.CallHandsOut | wchble/mr2/APP/usb_dev.c:477-486 | and with any interrupts in between it hands out at least what was queued and it has room for, and ends |
| CdcRings.CallReads | wchble/mr2/APP/usb_dev.c:477-486 | left alone it hands out exactly the oldest min(maxlen, queued) bytes, leaves the rest, and ends |
| CdcRings.PacketIsRead | wchble/mr2/APP/usb_dev.c:175-183 | a packet that fits behind what is queued is taken whole, and cut at 255 bytes otherwise; a call with room for all reads just that |
| CdcRings.RxRing.StartRead | wchble/mr2/APP/usb_dev.c:477-479 | a call starts with all of its room |
| CdcRings.TxRing.Write | wchble/mr2/APP/usb_dev.c:490-508 | nothing without a configured host; otherwise what fits is appended, and a drop counted iff something was dropped |
| CdcRings.TxRing.Drain | wchble/mr2/APP/usb_dev.c:450-475 | a busy endpoint changes nothing; otherwise one drain of the value model; armed again iff something is left |
| CdcRings.FifoConserves | wchble/mr2/APP/usb_dev.c:165-183 | under every interleaving of interrupts with the steps of the reading task no byte is lost, repeated or reordered |
| CdcRings.StepConserves | wchble/mr2/APP/usb_dev.c:165-183 | the same for one step |
| CdcRings.RxRing.RecvData | wchble/mr2/APP/usb_dev.c:175-183 | the ring takes what a 255-byte FIFO would |
| CdcRings.RxRing.ReadStep | wchble/mr2/APP/usb_dev.c:477-485 | each step of the read loop is a step of the FIFO |
| CdcRings.DrainCountIff | wchble/mr2/APP/usb_dev.c:462-463 | with C's remainder the count is min(64, queued) iff the ring is not wrapped or holds a packet; otherwise it is 64 |
| CdcRings.DrainIff | wchble/mr2/APP/usb_dev.c:450-475 | a drain sends the oldest min(64, queued) bytes iff tail is not past head or at least 64 bytes are queued; otherwise stale bytes too, and the ring then claims to hold them |
| CdcRings.StreamSoundIff | wchble/mr2/APP/usb_dev.c:450-508 | over every run the host receives the accepted bytes in order iff no drain meets that case |
| CdcRings.DrainsSend | wchble/mr2/APP/usb_dev.c:450-475 | as long as it does not, drains send all there is, 64 bytes each |
| CdcRings.WrappedDrainIsReached | wchble/mr2/APP/usb_dev.c:450-508 | a full ring, drained, and a five-byte write reach it |
| CdcRings.PutAllAppends | wchble/mr2/APP/usb_dev.c:490-507 | a write appends what fits and drops the rest |
| RtcCalendar.RoundTrip | wchble/mr2/StdPeriphDriver/CH58x_clk.c:328-423 | every valid time comes back; every valid date from 2020 on comes back iff it is no later than 8 November 2064 |
| RtcCalendar.DecodeThenEncode | wchble/mr2/StdPeriphDriver/CH58x_clk.c:328-423 | every counter state decodes to a valid date and time that load the same counters again |
| RtcCalendar.DayNumberCountsDays | wchble/mr2/StdPeriphDriver/CH58x_clk.c:337-348 | summing year and month lengths is counting days one at a time |
| RtcCalendar.DayNumberOrders | wchble/mr2/StdPeriphDriver/CH58x_clk.c:337-348 | day numbers order dates as the calendar does and tell them apart |
| RtcCalendar.DaysBeforeYearIs | wchble/mr2/StdPeriphDriver/CH58x_clk.c:337-342 | the days before a year are 365 for each year and one for each leap year as the Gregorian calendar counts them |
| RtcCalendar.CalendarIsGregorian | wchble/mr2/StdPeriphDriver/inc/CH58x_clk.h:126-129 | the macros give the months their lengths, and four centuries 146097 days from any year on |
| RtcCalendar.Rtc.InitTime | wchble/mr2/StdPeriphDriver/CH58x_clk.c:328-378 | both loops end and load the encoding, 16-bit wrap-around and 14-bit mask included |
| RtcCalendar.Rtc.GetTime | wchble/mr2/StdPeriphDriver/CH58x_clk.c:394-423 | both loops end at the date that many days after the first |
| RtcCalendar.Rtc.GetDate | wchble/mr2/StdPeriphDriver/CH58x_clk.c:405-419 | the loops over years and months reach the date that many days after the first |
| RtcCalendar.Rtc.SetThenGet | wchble/mr2/StdPeriphDriver/CH58x_clk.c:328-423 | setting and reading back at once |
| RtcCalendar.LastDayNumber | wchble/mr2/StdPeriphDriver/inc/CH58x_clk.h:122-122 | 8 November 2064 is the last day 14 bits can count |
| KeyText.TablesInverse | esp32/rust/src/kb.rs:192-244 | what the table says for a character, a US host types back |
| KeyText.EveryLegendReached | esp32/rust/src/kb.rs:192-244 | and each key, shifted or not, is what the table says for its character |
| KeyText.KeystrMap | wchble/mr2/APP/at_cmds.c:465-513 | the CH582 table agrees with the Rust table on every character |
| KeyText.TextTypesIff | esp32/rust/src/kb.rs:163-177 | for every string a host types its mapped characters from the Rust engine's reports iff the first one's key was not held before |
| KeyText.KeyStrTypesIff | wchble/mr2/APP/at_cmds.c:138-161 | the same for the CH582's reports, where an unmapped first character releases the keys |
| KeyText.QueuedTextsType | esp32/rust/src/kb.rs:150-186 | texts queued behind each other are typed as one |
| KeyText.QueueTypes | esp32/rust/src/kb.rs:150-186 | any queue of holds, taps, texts and batches is typed operation by operation: a tap types its key and leaves none pressed, a text its mapped characters, but for a first one whose key was held |
| KeyText.Engine.PlayText | esp32/rust/src/kb.rs:163-177 | the engine's loop sends those reports |
| KeyText.Engine.PlayNext | esp32/rust/src/kb.rs:150-186 | one operation of the queue sends its reports |
| KeyText.Engine.Post | esp32/rust/src/kb.rs:101-106 | a full queue refuses |
| KeyPlayback.LostDuringText | wchble/mr2/APP/at_cmds.c:138-147 | a tap or batch issued while a text is being typed changes no report in any continuation, later taps and batches included |
| KeyPlayback.LinesRelease | wchble/mr2/APP/at_parser.c:124-145 | whatever the line, AT+KEY_STR never gets an empty text |
| KeyPlayback.EmptyTextSticks | wchble/mr2/APP/at_cmds.c:138-147 | that matters: an empty text between the press and the release of a tap would leave the key down |
| KeyPlayback.TextLineArrivesIff | wchble/mr2/APP/at_parser.c:124-201 | a text spelled with the escapes and sent as a line over either channel is what the handler types, up to 96 characters, iff it is not empty and none of these is a comma, a zero byte, over USB a carriage return, or over UART one right before a zero byte; nothing behind them matters, nor does the length of the line |
| KeyPlayback.TextLineTypes | wchble/mr2/APP/at_cmds.c:515-540 | from the line to the host: such a text, sent in any state with the keys up, makes a host type its first 96 characters that have keys |
| KeyPlayback.NoStuckKey | wchble/mr2/APP/at_cmds.c:132-173 | over all runs of taps, released batches and non-empty texts issued at any moment, whenever the timer is not armed the last report was all-zero |
| KeyPlayback.TextPlays | wchble/mr2/APP/at_cmds.c:515-540 | a text left alone is played whole, whatever was going on, and a host with all keys up types it |
| KeyPlayback.EnginesAgree | wchble/mr2/APP/at_cmds.c:138-161 | both engines make a host type the same |
| KeyPlayback.TapPlaysIff | wchble/mr2/APP/at_cmds.c:390-410 | a tap left alone is played unless a text is being typed; then the text is and nothing else |
| KeyPlayback.BatchPlaysIff | wchble/mr2/APP/at_cmds.c:422-454 | a batch left alone is played report by report, unless a text is being typed |
| KeyPlayback.EscapesRead | wchble/mr2/APP/at_cmds.c:521-531 | every text spelled with the escapes is read back, up to the limit, whatever follows it |
| KeyPlayback.TickIsNext | wchble/mr2/APP/at_cmds.c:138-161 | each press or release tick of a text sends what comes first of the characters' reports still due |
| KeyPlayback.FinishPlays | wchble/mr2/APP/at_cmds.c:132-173 | the playback ends, and sends exactly what was left |
| KeyPlayback.Keyboard.AtTap | wchble/mr2/APP/at_cmds.c:390-410 | AT+TAP at any moment replaces what was queued, arms the timer and leaves a running text alone |
| KeyPlayback.Keyboard.AtKeySeq | wchble/mr2/APP/at_cmds.c:422-454 | AT+KEY_SEQ, refused when empty or longer than eight reports |
| KeyPlayback.Keyboard.AtKeyStr | wchble/mr2/APP/at_cmds.c:515-540 | AT+KEY_STR: the unescaped text starts from its first character; truncation is reported iff a longer buffer would have held more |
| KeyPlayback.Keyboard.ProcessEvent | wchble/mr2/APP/at_cmds.c:132-173 | one timer event of either playback, re-armed iff something is left |
| AtLine.FieldsArriveIff | wchble/mr2/APP/at_parser.c:124-201 | sent over either channel, a command with up to 65 fields reaches its handler as meant, and nothing else is run, iff it fits the 1023 characters of the buffer and no field is empty or has a comma, a zero byte, a line feed or, over USB, a carriage return |
| AtLine.NameArrivesIff | wchble/mr2/APP/at_parser.c:124-201 | a command without arguments reaches its handler by its name alone iff it fits; an empty line runs nothing |
| AtLine.NothingElseArrives | wchble/mr2/APP/at_parser.c:124-201 | no argument behind a name ever has such a character, whatever is sent |
| AtLine.FieldComes | wchble/mr2/APP/at_parser.c:124-201 | the first field is the first argument, or begins it, whatever stands behind it |
| AtLine.ReturnIsLost | wchble/mr2/APP/at_parser.c:126-128 | a carriage return right before a zero byte is taken for the end of the line |
| AtLine.Parser.Poll | wchble/mr2/APP/at_parser.c:172-203 | every character of a channel is stored, dropped or ends a line, and each line runs its command |
| AtLine.Tokenize | wchble/mr2/APP/at_parser.c:124-145 | the token loop computes the arguments of what is in the buffer |
| AtLine.Split | wchble/mr2/APP/at_parser.c:134-145 | no argument is empty, none behind the name has a comma, and there are at most 66 |
| AtLine.StrTok | wchble/mr2/APP/at_parser.c:134-142 | a token is not empty and has no delimiter in it; there is none iff nothing but delimiters is left |
| BleReports.AllGetDelivered | esp32/rust/src/kbd_ble.rs:569-580 | from every state of every connection, the engine blocked on a full queue included, one receive, the engine's turn and a queueful of receives give the host every report |
| BleReports.DeliveredInOrder | esp32/rust/src/kbd_ble.rs:525-587 | during any connection of any run the host gets, in order and without gaps, at most one report from before and then what the engine sent since |
| BleReports.CarryIsBlocked | esp32/rust/src/kbd_ble.rs:583-587 | the next connection starts with exactly the report the engine was blocked with at the disconnect, or none |
| BleReports.StalePressReplayed | esp32/rust/src/kbd_ble.rs:583-586 | so the drain does not keep a stale press from the next host, whose release is then dropped |
| BleReports.BurstFills | esp32/rust/src/kbd_ble.rs:41-45 | such states are reached by a burst |
| BleReports.EveryRunKeepsInv | esp32/rust/src/kbd_ble.rs:525-587 | every run keeps the queue within eight and the bound on stale reports |
| BleReports.Backend.SendReport | esp32/rust/src/kbd_ble.rs:41-45 | queued, blocked, or dropped without a connection |
| BleReports.Backend.Receive | esp32/rust/src/kbd_ble.rs:569-580 | the oldest report goes out |
| BleReports.Backend.OnDisconnect | esp32/rust/src/kbd_ble.rs:583-587 | the drain loop empties the queue |
| BleReports.Backend.Resume | esp32/rust/src/kbd_ble.rs:43-43 | the blocked report joins the queue when there is room |
| BleReports.Backend.OnConnect | esp32/rust/src/kbd_ble.rs:530-530 | a connection takes over queue and blocked report |
| RpcFrame.CallArrives | tools/broker/atnode_broker.py:428-436 | for every byte-string parameter map, id and procedure without spaces and a frame of up to 512 bytes, the device recovers all three parts, every plain key's value byte by byte, and ASCII values as given up to the buffer |
| RpcFrame.QueryGetFinds | esp32/rust/src/api.rs:335-346 | the value of every key that needs no quoting is found among any other parameters, and decoding it never panics |
| RpcFrame.QuotedBytesArePushed | esp32/rust/src/api.rs:302-330 | whatever bytes are quoted, the decoder pushes each as one character |
| RpcFrame.ValueArrivesIff | esp32/rust/src/api.rs:302-330 | the bytes the device then holds are the bytes sent iff these are ASCII and fit the buffer, or are a text that UTF-8 turns into itself up to the end of the buffer (at least 255 bytes); ASCII is cut to the buffer |
| RpcFrame.PlusIsASign | esp32/rust/src/api.rs:309-309 | before every hex digit "%+" is read as that digit |
| RpcFrame.UrlDecode | esp32/rust/src/api.rs:302-330 | the loop computes the decoding, or panics, and that iff the third byte behind some percent sign is inside a UTF-8 character |
| RpcFrame.GetValue | esp32/rust/src/api.rs:335-346 | the loop over the pairs takes the first with that key and decodes it, or panics with it |
| RpcFrame.SplitIff | esp32/rust/src/mqttc.rs:536-545 | the frame splits back iff neither id nor procedure has a space |
| RpcFrame.AnswersMatch | tools/broker/atnode_broker.py:418-442 | a call with a fresh id gets the last answer that carried its id, or none, whatever other calls do |
| RpcFrame.CallLeavesNoTrace | tools/broker/atnode_broker.py:418-442 | when a call has ended, the table is as if it had never been made: no other call lost or gained an answer by it, and one that comes too late is ignored |
| RpcFrame.Bridge.OnMessage | tools/broker/atnode_broker.py:418-426 | an answer wakes the call with its id and no other |
| RpcFrame.Bridge.Register | tools/broker/atnode_broker.py:431-434 | a new call waits without an answer |
| RpcFrame.Bridge.Finish | tools/broker/atnode_broker.py:437-442 | a call takes its entry out; without its event it reports none |

## Left out

- MqttClient.Client.Recv: an overlong length ends it, see the next line.
- MqttClient.Client.ReadRemaining: does not follow a length past its fourth byte; the code would
  read on, and shift past the width of its integer.
- MqttPackets.ParsePublish: stated for topics up to 65535 bytes, the range of the length field.
- MqttClient.Client.Connect: assumes the fields fit the 3072-byte buffer, where the code would panic.
- Cancelling `recv` in the middle of a packet (`select4` in `run_client`); SUBSCRIBE, PING and
  DISCONNECT packets, which add no new shape.
- RatholeTunnel.StepKeepsInv: sockets are known by their slot only; TCP, the handshake and its
  SHA-256 are outcomes of a step.
- RatholePump.Pump.Forward: the timing of `flush` is not part of this model.
- ArduinoTunnel.EveryRunKeepsInv: the counter's updates are atomic there; that they are not on the
  chip is what `CounterRightIff` and `OffByOverwritten` are about. Tasks are cut at blocking calls, not at
  every statement. The task arguments block is left out, as is the Arduino pump, which has no half-close.
- SlotTable.EveryRunKeepsInv: rests on what the radio guarantees: fresh handles, none the
  sentinel, one link per address, and that links that terminate were up. `kb_target` is the
  selected slot or USB, since no command sets two bits. Bonds, advertising and the device name
  are left out.
- SlotPage.SlotStore.SlotmapSave: erasing and writing flash cannot fail.
- RatholeTunnel.VisitorServed: one visitor with nothing else going on, as in ArduinoTunnel.VisitorServed.
  What holds with others in between is `FillsAmongOthers`, `VisitorReached` and `ReceivedInOrder`, and
  `PollPasses` on the Arduino.
- MqttPackets.ParseOther: the body of a PINGRESP or DISCONNECT would stay in the stream; MQTT gives
  them none.
- UsbControl.CtrlIn: the SETUP and status stages and requests other than descriptors are left out.
- RtcCalendar.Rtc.SetThenGet: the clock does not tick in between.
- KeyText.TextTypesIff: characters are single bytes; of a longer UTF-8 character the CH582 would
  send one release per byte.
- AtLine.FieldsArriveIff: one channel at a time; the two share the line buffer, so that characters
  that come in between on the other one would mix. Arguments are values, not pointers into the line;
  the echo, the ring behind the UART and the lookup of the handler are left out.
- KeyPlayback.NoStuckKey: AT+KEY and AT+MOD hold keys on purpose, and the output target does not
  change during a playback.
- BleReports.DeliveredInOrder: a report taken out counts as delivered whether or not the
  notification succeeds.
- RpcFrame.CallArrives: the broker's timeout, the JSON of the answer, and frames that are no UTF-8
  after the cut at 512 bytes are left out.
- Web pages, LED, sensors, AT dispatch, register-level drivers, scripts: I/O or single branches.
