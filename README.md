# Game relay registry and broadcast router, in Dafny

This project models the relay server in `server/server.js`. The server lets
short-lived websocket connections ("sparks") stand for durable player
sessions. Sessions join games, keyed by the game-server address the client
names, and the server fans out updates to every member of a game. All state
sits in three tables:

- `sparks`: connection id to session id (the connection registry);
- `sessions`: session id to session record (`id`, bound connection, last
  message, timestamps, game reference);
- `games`: address to game record, which maps session ids to member
  projections.

The model has two layers.

- **Specification layer** (modules `Registry`, `Invariants`, `Broadcast`,
  `Router`, `Properties`). The tables are one value, `Tables`. Each step of
  the server is a function from the old tables to the new ones:
  - `RegisterStep`, `Record`, `JoinStep` and `SelfStep` for the steps;
  - `Handle` for a whole inbound message, returning the new tables and
    what the message sends;
  - `Run` for a sequence of messages.

  The properties the server promises are stated as `ensures` clauses of these
  functions, and as lemmas about them.
- **Server object** (module `Relay`, class `Server`). It holds the three
  tables as `map` fields, plus an `outbox` of every write made so far. Its
  methods follow the source's functions one by one:
  - `OnData` is the `data` handler;
  - then `Register`, `Join`, `Update`, `UpdateBlobs`, `UpdateSelf`,
    `SendGameSessions` and `SendPayload`.

  They update the fields step by step. Each method's `ensures` ties the new
  tables and outbox to the specification functions. `SendPayload` is a loop
  over the game's member keys in an order it chooses, with loop invariants.

The transport is abstracted in two ways:

- The connections the transport still knows (what `server.primus.spark(id)`
  resolves) are a `live` set, passed in with each message.
- Writes to a connection are appended to `outbox`.

Clock readings are a `now` parameter.

Payload contents (names, cells, update data) are an opaque type `Value`.

Behaviour of the code that the model keeps as written:

- **Empty session id.** The gate tests `!sessionId`, which is also true for
  the empty string. A connection bound to the session id `""` therefore
  still counts as unregistered (`Lookup`, `EmptyIdStaysUnregistered`). It
  can register again, and then two sessions are bound to one connection
  (`EmptyIdSharesConnection`). With no empty ids, each connection is bound to
  at most one session (`Exclusive`), and every message keeps it that way
  (`HandleKeepsExclusive`, `RunKeepsExclusive`).
- **Update before join.** A `blobs` or `self` update from a session that
  has not joined a game dereferences `session.game.serverAddress` of an
  undefined value. That throws, and nothing in the file catches it. The
  model returns the outcome `Crash` here, with the message already recorded
  on the session, and `Run` handles nothing after a crash. From consistent
  tables this is the only way the handler fails (`CrashesOnlyBeforeJoin`).
  Nothing in `server.js` guards this case. The model follows the code.
- **Binding direction.** Line 68 calls the dictionary library's
  `add(session.spark, session.id)`, and that library's argument order is
  not part of this model. The model stores the binding as connection to
  session, which is what the lookup at line 20 and the delete at line 60
  rely on.
- **Connection ids.** They are non-empty strings, as the transport hands
  them out. So the truthiness tests on `session.spark` (lines 59, 123) are
  tests for presence.

## Model

| member | source | states |
|---|---|---|
| Registry.Lookup | server/server.js:20-23 | in consistent tables the gate yields only a stored session that is bound to this very connection; when no session is stored under the empty id, it admits exactly the connections the registry holds |
| Registry.RegisterStep | server/server.js:49-68 | registration resolves the id to the connection id when none is given; it reuses an existing record, keeping its identity and game, or creates one with no game; it binds the connection both ways and stamps the record; it unbinds the session's previous connection (when different) and keeps every other binding; no other session changes and games are untouched |
| Registry.Record | server/server.js:39-40 | a registered session's message is recorded as its last message with the current time; nothing else changes |
| Registry.JoinStep | server/server.js:73-92 | after a join the target game exists (created with the given address if new), and its entry for the session is exactly {id, name, cells}; the game gains no key but the session's; other members keep their entries; the previous game is kept, with its address, and loses only this session; other games are unchanged; the session's game reference becomes {address, name}; no game is removed |
| Registry.GameOf | server/server.js:105 | in consistent tables, the game a session's reference names exists and lists that session |
| Registry.SelfStep | server/server.js:109-112 | a self update replaces the sender's entry in its game by its data tagged with the session id; the game's key set gains no other key; other entries and other games are unchanged; sessions and registry are unchanged |
| Invariants.EmptyIsValid | server/server.js:9 | the empty tables are consistent and the binding is exclusive |
| Invariants.RegisterKeepsValid | server/server.js:53-68 | registration keeps the tables consistent and leaves the connection bound to the resolved id |
| Invariants.JoinKeepsValid | server/server.js:74-92 | a join keeps the tables consistent |
| Invariants.JoinKeepsMembersBelong | server/server.js:74-92 | after a join every member entry sits under its own id, and its session's game reference names that game |
| Invariants.JoinKeepsSessionsListed | server/server.js:74-92 | after a join every session with a game reference is listed in that game |
| Invariants.SelfKeepsValid | server/server.js:110-112 | a self update keeps the tables consistent |
| Invariants.OneSessionPerConnection | server/server.js:59-68 | while the binding is exclusive, no two sessions share a connection |
| Invariants.RegisterKeepsExclusive | server/server.js:59-68 | registration under a non-empty id from a connection the gate reads as unbound keeps the binding exclusive |
| Invariants.JoinKeepsExclusive | server/server.js:88 | a join leaves connection bindings exclusive |
| Broadcast.Deliver | server/server.js:122-127 | one member receives one write when its session exists, has a connection and the transport knows it, and none otherwise |
| Broadcast.Fanout | server/server.js:120-131 | a fan-out writes at most once per visited member, only the payload, and only to live connections |
| Broadcast.FanoutReaches | server/server.js:121-127 | every reachable member visited receives the payload on its own connection |
| Broadcast.FanoutOnlyReached | server/server.js:121-127 | every write goes to the connection of some reachable visited member and carries the payload |
| Broadcast.FanoutOncePerMember | server/server.js:121-131 | over an order without repeats, the number of writes equals the number of reachable members |
| Broadcast.FanoutOverMembers | server/server.js:120-132 | a fan-out over all members of a game writes the payload exactly once per reachable member, to that member's connection, and nowhere else |
| Router.Handle | server/server.js:19-46 | an unregistered connection's non-register message changes nothing and sends nothing; its register message takes the registration step and is acknowledged to it with the resolved id; a registered connection whose session is missing changes nothing; otherwise the message is recorded and the registry kept; a message of any other type, a blobs update and a failed update change nothing beyond the sender's last message and time; a join takes the join step and broadcasts the joined game with the sender's new entry; a self update from a session in an existing game takes the self step on the recorded tables and always broadcasts that game; a blobs update from such a session always relays the data, tagged with its source, over the sender's game; no game or session is ever removed |
| Router.Dispatch | server/server.js:41-44 | dispatch keeps the registry and the set of sessions and never acknowledges; it fails exactly on a blobs or self update from a session outside an existing game, and then changes nothing; any type but join and self changes nothing, and any type but those and blobs sends nothing; a join takes the join step and broadcasts the joined game listing the session's join record; a self update takes the self step and broadcasts the sender's game; blobs fans the data, tagged with the session id, over the sender's game |
| Router.HandleKeepsValid | server/server.js:19-46 | every message keeps the tables consistent |
| Router.CrashesOnlyBeforeJoin | server/server.js:104-112 | from consistent tables the handler fails exactly on a blobs or self update from a registered session with no game |
| Router.Run | server/server.js:19-46 | across any sequence of messages no game key and no session is ever removed |
| Router.RunKeepsValid | server/server.js:19-46 | any sequence of messages keeps the tables consistent |
| Router.RunKeepsGame | server/server.js:83-86 | a game, once created, stays under its own address through any sequence of messages |
| Properties.HandleKeepsExclusive | server/server.js:19-68 | every message other than a registration under the empty id keeps the binding exclusive |
| Properties.RunKeepsExclusive | server/server.js:19-68 | a message sequence without empty-id registrations keeps the binding exclusive |
| Properties.Reconnect | server/server.js:53-68 | registering a session from one connection and then from another leaves it bound to the second; the first is bound to nothing; a fan-out reaches the second and never writes to the first |
| Properties.JoinTwice | server/server.js:73-92 | joining the same game twice gives exactly the tables of one join with the later name and cells |
| Properties.LastMemberLeaves | server/server.js:75-79 | a game whose only member joins another game stays in the store with no members |
| Properties.EmptyIdStaysUnregistered | server/server.js:20-23 | a connection registered under the empty id still reads as unregistered |
| Properties.EmptyIdSharesConnection | server/server.js:20-68 | registering under "" and then under another id from one connection binds two sessions to that connection |
| Relay.Server.constructor | server/server.js:9 | a new server has empty tables, an empty outbox, and consistent tables |
| Relay.Server.OnData | server/server.js:19-46 | the handler leaves exactly the tables `Handle` computes and keeps them consistent; it reports failure exactly when `Handle` crashes; it writes exactly the effect's messages, a fan-out in some order listing each member once |
| Relay.Server.Register | server/server.js:49-70 | the new tables are `RegisterStep` of the old, and exactly one write is appended, to the registering connection, acknowledging the resolved id |
| Relay.Server.Join | server/server.js:73-95 | the new tables are `JoinStep` of the old, and the joined game is broadcast to its members |
| Relay.Server.Update | server/server.js:97-102 | the new tables, outcome and writes are those of dispatching the update |
| Relay.Server.UpdateBlobs | server/server.js:104-107 | succeeds exactly when the session is in an existing game; then the data, tagged with the session id, is fanned out to that game; tables never change |
| Relay.Server.UpdateSelf | server/server.js:109-114 | succeeds exactly when the session is in an existing game; then the tables are `SelfStep` of the old and the game is broadcast; otherwise nothing changes |
| Relay.Server.SendGameSessions | server/server.js:116-118 | writes the whole-game update to the game's members as a fan-out |
| Relay.Server.SendPayload | server/server.js:120-132 | visits every member key exactly once, appends exactly the fan-out writes for that order, and changes no table |
| Relay.Server.SendTo | server/server.js:122-127 | one member's step of a fan-out appends exactly that member's delivery: one write of the payload to its connection when its session exists, has a connection and the transport knows it, and nothing otherwise |

## Left out

- Creating the Primus server, its port and websocket options, and the
  `connection` event wiring (lines 1-2, 12, 15-16). The transport is reduced
  to the `live` set and the outbox; disconnects are never observed by the
  source and are not modelled.
- `console.log` diagnostics: logging only.
- Wall-clock reads (`new Date()`, lines 40, 65-66). They are the `now`
  parameter, and the two reads at lines 65-66 are taken as one instant.
- `async.each` scheduling (line 121). It is a sequential loop whose visiting
  order is chosen by the loop, not by the caller. The order is exposed as a
  ghost out-parameter.
- The dictionary library's internals (line 6). Dictionaries are Dafny maps:
  key iteration order is not modelled, and the argument order of `add` is not
  modelled either (see the binding assumption above).
- Object identity. Session and game records are values re-stored into their
  maps, so aliasing between two handles on one record is not modelled. The
  `updateData: game` payload is the game's value at the time of the
  broadcast.
- Mutation of the caller's message object. The `data.id` assignment
  (line 51) shows up in the stored last message. The
  `data.updateData.id` assignment (line 111) shows up in the member entry
  (`Snapshot(id, data)`), but not in that session's stored last message.
- Malformed messages. Each message type carries its own fields. A missing
  `serverAddress`, a non-string id, or `updateData` that is `null` (a type
  error at line 111) is not modelled.
