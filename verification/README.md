# Rooster: a verified model

Rooster is a join proxy (section 4 of RFC 8995). It hears GRASP floods (RFC 8990) that announce
registrars on ACP interfaces, keeps a table of registrars for each such interface, and announces a
proxy of its own on the join links while some table holds an HTTP registrar. This project models its
three hard parts and proves what they promise.

1. **The GRASP codec over CBOR trees.** `Grasp` has the decoders and the encoder, with index errors as
   an outcome of their own. `GraspProperties` says exactly what decoding an encoded message gives, and
   exactly on which trees the decoder indexes outside a vector. `GraspReading` says what decoding
   makes of every other tree, foreign ones included. `GraspFormat` reads the wire format on
   its own terms and takes back everything the encoder writes.
2. **The registrar tables and the cache they invalidate, one event at a time.** `Registrars` has the
   table of one ACP daemon, changed in place; `RegistrarProperties` shows that the nested vectors are a
   last-writer-wins map. `Interfaces` has the shared objects: the maps that alias them, the cache and
   its flag. Each method is proved against a step of `World`, and `WorldProperties` proves what holds
   after every run of such steps. `AnProxyProperties` is about the announcement that results.
3. **The same, as interleaved tasks with locks.** `LockProtocol` is a transition system in which the
   main loop, the netlink listener, the pledges and one announcer for each ACP daemon take the locks,
   read, write and release them one step at a time. `LockProtocolProperties` and `LockProtocolSafety`
   prove what every interleaving keeps. `LockProtocolSerial` proves every interleaving serializable:
   each reachable state matches the sequential run of the events that took effect so far, so the
   theorems of part 2 carry over; `LockProtocolOrigin` traces each of these events to something received. `LockProtocolPasses` and `LockProtocolComplete` prove the converse,
   that the locks let every sequential run happen, and with it the run of `StaleRun`.

## What was found

- **A restart leaves the cache stale, and an announced proxy without a registrar.** When an ACP
  interface goes down and up again, its daemon and table are replaced and the flag is not raised
  (`src/interfaces.rs:288-305`, `src/interface.rs:81`). `StaleRun.StaleAfterRestart` is a run after which
  the cache claims HTTP and no table holds anything; `LockProtocolComplete.AnnouncedProxyLosesRegistrar`
  is an interleaving in which a proxy is announced, picking a registrar then fails, and the next round
  of the main loop announces the proxy again. The exact conditions are these. A restart keeps an exact
  cache exact if and only if every cached kind of the dropped table is held elsewhere
  (`WorldProperties.ExactAfterRestart`). A proxy announced from a cache written in the present epoch, the
  time since a running daemon was last replaced, has a registrar throughout a run if and only if no step
  replaces the daemon of the last interface that holds one
  (`LockProtocolSafety.AnnouncedProxyExactly`). An update that finds the flag raised repairs the cache,
  whatever came before (`WorldProperties.ExactSinceRefresh`). That no invalidation is lost holds for all
  runs.
- **The decoder can index outside a vector.** `GraspProperties.PanicsExactly` says on which trees. Among
  them are Rooster's own encoding of an objective with an IPv6 locator and no value (the guard is
  `obj.len() >= 3`, the access is `obj[3]`, `src/grasp.rs:201-202`) and an objective followed by the
  empty array that section 2.8.11 of RFC 8990 allows in place of a locator (`src/grasp.rs:161`).
- **Objectives without a locator do not come back.** They are written as one-element arrays, which the
  decoder drops (`src/grasp.rs:236-239`, `src/grasp.rs:344-348`).
- **Objective names are not looked at.** `AnProxyProperties.AnProxyHeardAsRegistrar`: the announcement
  of a join proxy, heard on an ACP interface, is taken for an HTTP registrar.
- **Where documentation and code differ, the model follows the code.** Comments speak of glob patterns
  for interface names, and the code compares names exactly (`src/interface.rs:21`,
  `src/args.rs:65-75`). The repository's README names the objective `AN_join_proxy`, and the code sends
  `AN_Proxy` (`src/join_interface.rs:167`).

The order in which a hash map is walked is arbitrary, so it is either quantified over or left to the
loop. Session ids, the HTTPS port the kernel picks, and all received messages are parameters. Rust
locks appear only in the third part; the methods of the second part are what happens while their locks
are held.

## Model

| member | source | states |
|---|---|---|
| Grasp.DecodeIpv6Bytes | src/grasp.rs:93-103 | Sixteen octets give that address and any other number the address error; the copying loop runs in place on an array. |
| Grasp.DecodeObjectives | src/grasp.rs:225-268 | The loop that keeps good objectives and remembers errors computes `Objectives`, which `ObjectivesMeetSpec` and `ObjectivesOutOfRange` characterise for all lists, and `KeptExactly` says of which objectives. |
| Grasp.EncodeObjective | src/grasp.rs:337-349 | The pushes give the tree that `ObjectiveReadsBack` and `ObjectiveRoundTrip` are about: no fourth element without a value, no second without a locator. |
| Grasp.EncodeDullGraspMessage | src/grasp.rs:459-470 | The loop gives the tree that `MessageReadsBack` and `RoundTripExact` are about. |
| GraspFormat.LocatorReadsBack | src/grasp.rs:308-335 | Each of the four locator kinds is written as its number, address or name, protocol and port, as section 2.9.5 of RFC 8990 has it. |
| GraspFormat.ObjectiveReadsBack | src/grasp.rs:337-349 | Every objective, with any mix of absent value and absent or present locator, is recovered from its tree. |
| GraspFormat.MessageReadsBack | src/grasp.rs:459-470 | Every message of all ten types is recovered in full from its tree by an independent reader of the format. |
| GraspFormat.EncoderInjective | src/grasp.rs:293-349 | Two messages of any types, locators and values have equal trees only if they are equal. |
| GraspProperties.ObjectivesMeetSpec | src/grasp.rs:225-268 | On every list on which no index error stops the loop: an error exactly if some element is no array, or there are elements and all fail; otherwise the objectives that decode, in input order. |
| GraspProperties.ObjectivesOutOfRange | src/grasp.rs:225-268 | An index error stops the loop exactly if an unsafe element is not preceded by one that is no array. |
| GraspProperties.LocatorRoundTrip | src/grasp.rs:112-168 | Encoded IPv6 locators decode to themselves; encoded IPv4, FQDN and URI locators always fail as unimplemented. |
| GraspProperties.ObjectiveRoundTrip | src/grasp.rs:170-223 | An encoded objective comes back as itself if it has a value and an IPv6 locator, indexes outside a vector if it has the locator and no value, and is dropped otherwise. |
| GraspProperties.RoundTripExact | src/grasp.rs:394-470 | The exact outcome of decoding the encoding of any message of any type: index error, error, canonical NOOP, or the same flood with the objectives filtered in order to those that survive. |
| GraspProperties.RoundTripIdentity | src/grasp.rs:394-470 | A message comes back unchanged if and only if it is the canonical NOOP or a flood whose objectives all have a value and an IPv6 locator. |
| GraspProperties.HeaderRoundTrip | src/grasp.rs:270-290 | Type and session id of an encoded message are read back; a NOOP loses its session id. |
| GraspProperties.DecodersAgree | src/grasp.rs:416-457 | On every tree the DULL decoder gives the outcome of the general one, except for its own error on readable headers of other types; both succeed with the same message on the same trees, one-element NOOPs and wrapped types included. |
| GraspProperties.DecodedShape | src/grasp.rs:352-443 | Whatever decodes is a canonical NOOP or a flood whose locators are absent or IPv6. |
| GraspProperties.SafeTreeInRange | src/grasp.rs:394-407 | On trees with floods of four elements or more, heads of four or more and no empty locator array, every index of both decoders is in range, at any list length. |
| GraspProperties.EncodedIsSafe | src/grasp.rs:459-470 | The encoding of every message whose objectives carry values is such a tree. |
| GraspProperties.UnsafeElementExact | src/grasp.rs:161-203 | Decoding a flood element indexes outside a vector if and only if its head is short with the right types so far, or its locator array is empty, or its head has three elements and its locator is readable. |
| GraspProperties.PanicsExactly | src/grasp.rs:394-457 | Both decoders index outside a vector on exactly the trees described by `UnsafeTree`: a flood cut off before its initiator or ttl, or an unsafe element not preceded by one that is no array. |
| GraspReading.KeepOneExactly | src/grasp.rs:127-223 | For every tree, an element gives an objective if and only if its head starts with a text and two integers and has a fourth item, and no array or a full IPv6 locator follows; flags, loop count, protocol and port are cut to their width, and the value is the fourth item if that is a text and absent otherwise. |
| GraspReading.KeptExactly | src/grasp.rs:225-268 | The objectives kept of any list are the readings of its readable elements, in order. |
| GraspReading.DecodesExactly | src/grasp.rs:270-443 | For every tree and message: decoding gives that message if and only if the tree reads as it, as the NOOP with all fields zero or as a flood with session id and ttl cut to 32 bits. |
| GraspReading.RefusesExactly | src/grasp.rs:394-443 | The error for the initiator's length comes up exactly on floods whose third item is a byte string of another length; every other refusal is a misformed message. |
| Registrars.AcpInterface.constructor | src/acp_interface.rs:88-94 | A new daemon has an empty table and shares the given flag. |
| Registrars.AcpInterface.CalculateAvailableRegistrar | src/acp_interface.rs:97-112 | The nested loops report a kind exactly if some entry of some registrar is of that kind. |
| Registrars.AcpInterface.AddRegistrar | src/acp_interface.rs:171-201 | The in-place update equals `AddOne`, and the vectors stay what the whole history of acceptances makes them. |
| Registrars.AcpInterface.Consider | src/acp_interface.rs:233-284 | One objective: the loop goes on exactly if it is supported or has no locator; the table and the flag change exactly if it is accepted, as `AcceptsExactly` says. |
| Registrars.AcpInterface.RegistrarAnnounce | src/acp_interface.rs:226-288 | For a message of any type, the loop equals adding, in order, what `AcceptanceEnds` and `AcceptanceGoesOn` say is accepted; the flag is its old value or "at least one was accepted". |
| Registrars.AcpInterface.Announce | src/acp_interface.rs:290-297 | The same for floods; a message that is no flood changes nothing. |
| Registrars.HasKindAfterAdd | src/acp_interface.rs:171-201 | A table gains exactly the kind that was added and loses none. |
| Registrars.FirstHttpExact | src/interfaces.rs:494-505 | The search of one table finds an HTTP registrar if and only if the table holds one. |
| RegistrarProperties.AddTells | src/acp_interface.rs:171-201 | If the vectors say what a history says, then after one more acceptance they say what the longer history says. |
| RegistrarProperties.RefinesLastWriter | src/acp_interface.rs:171-201 | After every history: addresses in first-seen order, each with its latest ttl, its kinds in first-seen order and the latest port of each. |
| RegistrarProperties.TellsUnique | src/acp_interface.rs:67-72 | A history determines the vectors completely: at most one table says what it says. |
| RegistrarProperties.TableShape | src/acp_interface.rs:171-201 | After every history no address is listed twice, and each has one to three kinds, none twice. |
| RegistrarProperties.LookupIsLastPort | src/acp_interface.rs:171-201 | Looking up an address and a kind gives the port of the most recent acceptance for them, or nothing if there was none. |
| RegistrarProperties.FirstHttpIsLatest | src/interfaces.rs:494-505 | A registrar is found exactly if one was ever accepted for HTTP, and its port is the latest of its address. |
| RegistrarProperties.HasKindOfHistory | src/acp_interface.rs:97-112 | A kind is available exactly if an objective of that kind was ever accepted. |
| RegistrarProperties.ReplayIsIdempotent | src/acp_interface.rs:226-288 | After any stream of messages, handling a message twice in a row leaves the same vectors as once, even if it repeats an address and kind with different ports. |
| RegistrarProperties.AcceptsExactly | src/acp_interface.rs:245-282 | An objective stops the loop if and only if it has a locator that is not IPv6, or no value, or one outside the four known ones; any other with a locator is accepted at its address, port and the message's ttl as the type that its value stands for. |
| RegistrarProperties.AcceptanceEnds | src/acp_interface.rs:233-286 | Nothing is accepted from the first objective on that stops the loop, whatever follows it. |
| RegistrarProperties.AcceptanceGoesOn | src/acp_interface.rs:233-286 | While no objective stops the loop, exactly what the objectives announce is accepted, in their order. |
| RegistrarProperties.AvailableByEntry | src/acp_interface.rs:97-112 | Each of the three kinds is available exactly if some entry of some registrar is built with its constructor. |
| RegistrarProperties.FirstHttpExactly | src/interfaces.rs:494-505 | The search of a table gives nothing exactly if no entry is HTTP, and otherwise the address and port of the first HTTP entry in the order of the vectors. |
| RegistrarProperties.FirstHttpIsEarliest | src/interfaces.rs:494-505 | After every history the registrar found is the address seen first among those that have an HTTP port, with its latest one. |
| RegistrarProperties.DecodedStopsByValue | src/acp_interface.rs:233-284 | On decoded messages the announce loop stops early only because of a missing or unknown objective value, never because of the locator kind. |
| Interfaces.JoinInterface.BuildAnProxy | src/join_interface.rs:148-187 | The tree built step by step is the encoding of the flood that `AnProxyDecodes` describes. |
| Interfaces.Interface.Empty | src/interface.rs:56-73 | A new interface has its index, no name, no address, state down and no daemons. |
| Interfaces.Interface.StoreLinkAttributes | src/interfaces.rs:182-278 | The attribute loop leaves name, mtu, state and bridge mark as the attributes say in order, and touches no daemon. |
| Interfaces.Interface.StoreAddressAttributes | src/interfaces.rs:143-167 | The attribute loop keeps the last address of sixteen octets that starts with fe80. |
| Interfaces.Interface.StartAcp | src/interface.rs:75-82 | A fresh daemon with an empty table and the shared flag replaces whatever ran before, whose task keeps its own handle. |
| Interfaces.Interface.StartJoinlink | src/interface.rs:104-114 | A fresh join daemon replaces whatever ran before; the ACP daemon stays. |
| Interfaces.Interface.RegistrarAllAnnounce | src/interface.rs:94-102 | A tree is sent exactly if the join daemon runs, for this interface's address and port. |
| Interfaces.Interface.CalculateAvailableRegistrar | src/interface.rs:84-91 | The kinds in the daemon's table, or none without a daemon. |
| Interfaces.AllInterfaces.constructor | src/interfaces.rs:99-109 | Nothing known, nothing cached, and the cache marked out of date. |
| Interfaces.AllInterfaces.Aliasing | src/interfaces.rs:79-89 | The invariant kept by every method: a listed index maps to the very object of the main map, each object's index is its key, different keys have different objects, daemons run exactly on listed interfaces, and all ACP daemons share the one flag. |
| Interfaces.AllInterfaces.OneReplaced | src/interfaces.rs:123-128 | The aliasing invariant survives any change to one interface object and its daemon, because no other key reaches them. |
| Interfaces.AllInterfaces.GetEntryByIfindex | src/interfaces.rs:123-128 | The object of an index, created empty if there was none; nothing else changes. |
| Interfaces.AllInterfaces.StoreAddrInfo | src/interfaces.rs:131-169 | One address message in place is the step `StoreAddr`, which `AddressStored` pins; aliasing is kept. |
| Interfaces.AllInterfaces.StoreLinkInfo | src/interfaces.rs:171-326 | One link message in place is the step `StoreLink`: attributes first, then daemons if the whole list moved the interface from not up to up and it is not ignored; aliasing is kept. |
| Interfaces.AllInterfaces.BringUp | src/interfaces.rs:288-317 | Each matching role lists the same object once and starts its daemon; both roles may match. |
| Interfaces.AllInterfaces.Announce | src/acp_interface.rs:299-364 | A message decoded by the present daemon changes the table of its own interface and the shared flag, and nothing else reachable. |
| Interfaces.AllInterfaces.AnnounceReplaced | src/acp_interface.rs:311-361 | A message decoded by the loop of a replaced daemon raises the shared flag if anything is accepted, and reaches no table in use. |
| Interfaces.AllInterfaces.CalculateAvailableRegistrars | src/interfaces.rs:460-472 | Walking the map in whatever order finds a kind exactly if some listed interface holds it. |
| Interfaces.AllInterfaces.UpdateAvailableRegistrars | src/interfaces.rs:474-485 | With the flag raised the cache becomes the full scan, otherwise it stays; the flag ends clear. |
| Interfaces.AllInterfaces.PickAvailableHttpsRegistrar | src/interfaces.rs:487-509 | The nested loops return nothing exactly if no listed interface holds an HTTP entry, and otherwise the first HTTP entry, in vector order, of the first interface of the walk that holds one. |
| Interfaces.MainLoopRound | src/main.rs:78-109 | One round updates the cache and sends one tree on exactly the join links, each built from the updated cache and that interface's address and port. |
| Interfaces.Process | src/interfaces.rs:79-89 | Every run of events carried out on the shared objects keeps the aliasing invariant and ends in the state `Run` gives. |
| WorldProperties.LinkStep | src/interfaces.rs:171-326 | What one link message changes of its interface, the lists, the cache and the flag; a start empties the table and leaves the flag alone. |
| WorldProperties.FieldsOfRun | src/interfaces.rs:177-281 | After every run an interface's state, name, mtu and address are what its messages said last, and its bridge mark is whether any message set it. |
| WorldProperties.LinkLocalOfRun | src/interfaces.rs:143-160 | In every reachable state an interface's address is all zeros or starts with the octets fe and 80. |
| WorldProperties.AddressStored | src/interfaces.rs:143-160 | One address message: the last sixteen octets it carries that start with fe80 become the interface's address, a message that carries none leaves it, and nothing else of any interface changes. |
| WorldProperties.AddressOfRun | src/interfaces.rs:143-160 | After every run an interface's address is the last one starting with fe80 that any of its messages carried, and all zeros if none did. |
| WorldProperties.DaemonsOfRun | src/interfaces.rs:288-317 | Each matching transition starts each matching daemon exactly once and nothing else does; daemons run exactly on the listed interfaces. |
| WorldProperties.MembershipOfRun | src/interfaces.rs:171-326 | The interfaces ever listed are exactly those with a message that moved them from not up to up while not ignored, judged after the whole attribute list, under a name that is not on the ignore list and is, for the ACP, on its list, and for joining, on its list or that list is empty. |
| WorldProperties.TableOfRun | src/acp_interface.rs:299-364 | After every run the table of a listed interface is what its present daemon accepted since it was started. |
| WorldProperties.ScanAnyOrder | src/interfaces.rs:460-472 | Every order of walking the map gives the same scan. |
| WorldProperties.PickedFromListed | src/interfaces.rs:487-509 | For every order of the walk a registrar is picked if and only if some listed interface holds one for HTTP, and it is the first of such an interface. |
| WorldProperties.PickAgreesWithScan | src/interfaces.rs:460-509 | For all orders of both walks a registrar is picked if and only if the scan reports HTTP. |
| WorldProperties.PickedIsLatest | src/interfaces.rs:487-509 | After every run, for every order, a picked address and port is the latest HTTP port that some listed interface's daemon accepted for that address. |
| WorldProperties.PickExactly | src/interfaces.rs:487-509 | For every order of the walk: nothing is picked exactly if no interface holds an HTTP entry, and otherwise the first entry of the first interface that does. |
| WorldProperties.PickedIsEarliest | src/interfaces.rs:487-509 | After every run, for every order, the pick goes to the first interface of the walk whose present daemon heard of an HTTP registrar, and there to the address seen earliest that has an HTTP port, at its latest port. |
| WorldProperties.ScanByEntry | src/interfaces.rs:460-472 | The scan reports each kind exactly if an entry of some listed interface is built with its constructor. |
| WorldProperties.AvailableGrows | src/acp_interface.rs:226-288 | Without a restart no kind is lost, and a kind is gained only together with a raised flag. |
| WorldProperties.ExactUnlessRestart | src/interfaces.rs:474-485 | Every event that replaces no daemon keeps the cache exact. |
| WorldProperties.ExactAfterRestart | src/interfaces.rs:288-305 | A restart keeps the cache exact if and only if every cached kind of the dropped table is held by another listed interface. |
| WorldProperties.ExactFrom | src/interfaces.rs:474-485 | From any state with an exact cache, every continuation without a restart keeps it exact. |
| WorldProperties.ExactOverRuns | src/interfaces.rs:474-485 | After every run without a restart the cache claims no kind that no table holds, and with a clear flag it misses none. |
| WorldProperties.ExactSinceRefresh | src/interfaces.rs:474-485 | After an update that finds the flag raised the cache is exact until the next restart, whatever restarts came before. |
| StaleRun.StaleAfterRestart | src/interface.rs:75-82 | A run with a restart after which the cache claims HTTP although no table holds a registrar. |
| AnProxyProperties.AnProxyDecodes | src/join_interface.rs:148-187 | Both decoders accept the announcement: a flood with that initiator, ttl 1 and session id, and one `AN_Proxy` objective at that address and port exactly if HTTP is available, otherwise none. |
| AnProxyProperties.AnnouncedAddress | src/join_interface.rs:153-162 | After every run the initiator decoded from an interface's announcement is that interface's address, all zeros or starting with fe80. |
| AnProxyProperties.AnProxyHeardAsRegistrar | src/acp_interface.rs:233-284 | The announcement of a join proxy, heard by an ACP daemon, is accepted as an HTTP registrar at the proxy's address and port. |
| LockProtocolProperties.TablesAfter | src/acp_interface.rs:346-350 | Every step leaves a listed interface's table alone, except that its present announcer adds one registrar at a time and a restart empties it. |
| LockProtocolProperties.Exclusive | src/interfaces.rs:474-485 | No lock has two holders. |
| LockProtocolProperties.ReadsLockedKept | src/interface.rs:84-91 | Every step keeps that a table is read under the lock of the daemon it belongs to, though daemons are replaced by a concurrent task. |
| LockProtocolProperties.CoveredKept | src/acp_interface.rs:249-270 | Every step but raising the flag keeps a kind cached or pending once it is. |
| LockProtocolProperties.CoverAfterAnnouncer | src/acp_interface.rs:249-270 | Adding, taking the flag, raising and releasing it keep the cover of the cache and of an update under way. |
| LockProtocolProperties.CoverAfterListener | src/interfaces.rs:283-317 | Interfaces that are listed, and daemons that are replaced, during other tasks' steps keep that cover. |
| LockProtocolProperties.CoverAfterMain | src/interfaces.rs:474-485 | Reading one interface at a time, writing the cache and clearing the flag keep that cover. |
| LockProtocolSafety.InvKept | src/main.rs:78-109 | The joint invariant of locks, names, cover and soundness is inductive over every enabled step. |
| LockProtocolSafety.MutualExclusion | src/interfaces.rs:79-89 | In every reachable state no lock is held by two tasks, and all are free when all tasks are idle. |
| LockProtocolSafety.NoTornReads | src/acp_interface.rs:346-350 | In every reachable state, while a table is being read its daemon is not in the middle of a message. |
| LockProtocolSafety.NoInvalidationLost | src/interfaces.rs:474-485 | In every interleaving, restarts included and even during an update: while the flag is clear, every kind in a listed table is cached, unless that table's announcer added it and has not yet raised the flag. |
| LockProtocolSafety.CacheIsScan | src/interfaces.rs:460-485 | In every interleaving, from each time the cache is written until the next replacement of a running daemon, the cache claims no kind that no table holds; with a clear flag and idle tasks it equals the full scan. |
| LockProtocolSafety.SendingIsBacked | src/join_interface.rs:164-176 | Sending a tree announces a proxy exactly if the copied cache claims HTTP, in the epoch in which that cache was written. |
| LockProtocolSafety.AnnouncedProxyHasRegistrar | src/main.rs:86-103 | Once an `AN_Proxy` objective was sent, picking a registrar succeeds in every later state, for every order of the walk, as long as no running daemon was replaced since the cache behind it was written; earlier replacements do not matter, nor does it that the cache was copied and its locks released before sending. |
| LockProtocolSafety.LatePledgesAreServed | src/interfaces.rs:511-518 | On every run, with or without replacements: a pick carried out step by step, beside all other tasks, that began while a proxy stood announced from a cache of the present epoch gave its pledge a registrar. |
| LockProtocolSafety.AvailableExactly | src/interfaces.rs:288-305 | After every step of every task a kind is available exactly if, for a replacement, another listed interface holds it, and otherwise it was available or is being added. |
| LockProtocolSafety.ServedAfterStep | src/interfaces.rs:288-305 | A pick that would succeed before a step succeeds after it if and only if the step does not replace the last holder. |
| LockProtocolSafety.ServedExactly | src/interfaces.rs:487-509 | From a reachable state in which picks succeed they go on succeeding throughout a run if and only if no step of it replaces the last holder. |
| LockProtocolSafety.AnnouncedProxyExactly | src/main.rs:86-103 | A proxy announced from a cache of the present epoch has a registrar throughout a run if and only if no step of it replaces the last holder. |
| LockProtocolSerial.SingleIsAccepted | src/acp_interface.rs:245-270 | For each kind, address, port and ttl there is a flood from which a daemon accepts exactly that. |
| LockProtocolSerial.MatchMain | src/interfaces.rs:474-485 | An update that reads, writes and clears at different times, beside all other tasks, takes effect as one event when it clears the flag. |
| LockProtocolSerial.MatchAnnouncer | src/acp_interface.rs:249-270 | Each acceptance takes effect as one event when its flag is raised, be it by the present daemon or by a replaced one. |
| LockProtocolSerial.MatchListener | src/interfaces.rs:171-326 | A link message that stores, lists and starts at different times takes effect as one event when it is clear which daemons it starts. |
| LockProtocolSerial.Serializable | src/main.rs:78-109 | Every reachable state of every interleaving matches the sequential run of the events that took effect so far (a flood counting as one event for each thing accepted from it), and equals its state when all tasks are idle. |
| LockProtocolSerial.LinkLocalInterleaved | src/interfaces.rs:143-160 | In every reachable state of every interleaving an interface's address is all zeros or starts with the octets fe and 80. |
| LockProtocolSerial.MembershipInterleaved | src/interfaces.rs:283-317 | In every reachable state the ACP interfaces, and while no link message is handled the join links, are exactly those that a message brought up from not up while not ignored and under an accepted name. |
| LockProtocolSerial.TableInterleaved | src/acp_interface.rs:346-350 | In every reachable state the table of a listed interface is what its present daemon accepted since it was started, and the one acceptance it has not yet raised the flag for. |
| LockProtocolOrigin.EventsAreReceived | src/acp_interface.rs:311-361 | Whatever takes effect in an interleaved run was received in it: each acceptance was announced by a decoded tree, each link and address message was delivered. |
| LockProtocolOrigin.TablesAreAnnounced | src/acp_interface.rs:311-361 | What the table of an interface is made of, in every reachable state, was announced by trees that a daemon of that interface received. |
| LockProtocolPasses.UninterruptedUpdate | src/main.rs:86-91 | The updater's steps without interruption, in any order of the walk, are `UpdateTick`, and the copy handed on is the new cache. |
| LockProtocolPasses.UninterruptedAnnounce | src/main.rs:94-103 | The announcing steps without interruption send one tree per join link, built from that interface and the copy. |
| LockProtocolPasses.UninterruptedFlood | src/acp_interface.rs:346-350 | An announcer's steps without interruption are `GraspMsg`. |
| LockProtocolPasses.UninterruptedPick | src/interfaces.rs:487-509 | A pick's steps without interruption answer what walking the map in that order answers. |
| LockProtocolPasses.UninterruptedLink | src/interfaces.rs:171-326 | The listener's steps without interruption are `LinkMsg`, and count as a restart exactly if a running daemon is replaced. |
| LockProtocolPasses.UninterruptedStray | src/acp_interface.rs:346-350 | The steps of a replaced daemon's announcer without interruption are `ReplacedMsg`. |
| LockProtocolComplete.EveryRunIsExecuted | src/main.rs:78-109 | Every sequential run whose messages some tree decodes to is carried out by steps that the locks allow. |
| LockProtocolComplete.SameWorlds | src/main.rs:78-109 | The states that interleavings leave when all tasks are idle are exactly the states of sequential runs. |
| LockProtocolComplete.AnnouncedProxyLosesRegistrar | src/interfaces.rs:288-305 | A reachable interleaving in which a proxy is announced, one daemon is then replaced, picking a registrar fails with the cache claiming one and the flag clear, and the next round announces the proxy again. |

## Left out

- CBOR bytes: the boundary is the CBOR tree, for received floods and for `build_an_proxy` alike; the byte coding is done by a library that is not part of this model.
- CBOR items that the decoder does not tell apart (negative integers, maps, tags, simple values) are one item `Other`.
- Sockets, multicast joins, netlink connections, subprocesses and the copying of TCP streams; starting a daemon always succeeds, and a received message may be anything.
- Deadlock freedom and liveness: the announcer takes its table and then the flag, the updater the flag and then a table, so only safety is claimed.
- Time: `last_announce` is stored and never read, and a ttl is stored and never consulted, so a registrar never expires.
- Deleted links, addresses and routes: the listener ignores these messages (`src/interfaces.rs:417-428`).
- The lock of a join daemon, which is only ever taken under the lock of its interface, and the brief lock of a table that only fetches the debug options.
- The steps of one address message: it is one step under the lock on everything and the lock of the interface.
- The registrar vectors are values in the field of their daemon, not objects: in Rust nothing else can refer to their elements.
- `exitnow`, `count_active_interfaces`, debug output, dumping of tables and parsing of arguments.
- CoAP announcements of `build_an_proxy`, which only print.
- AnnounceReplaced: of several replaced daemons of one interface the objects keep the last one only; the lock protocol keeps them all.
