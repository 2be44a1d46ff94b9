# Session server synchronisation core

A Dafny model of the server side of a small multiplayer game (`server.py`).
Clients send short text frames such as `+cRRRGGGBBB`, `+nName`, `+lwXXXXYYYY`
and `+k07`. The server keeps a `Player` record per connection and a table of
`Laser` projectiles. For each player it also keeps a queue of the attribute
tags of every other player that it has not yet been sent. Each call of
`serve_clients` does three things in order:

1. It checks and then advances the lasers.
2. It handles the readable sockets: it accepts a new connection, or it splits
   the received text on `+` and applies each frame.
3. It writes to every writable connection: a `+u` probe, one `+v` frame per
   laser, then the queued attribute frames.

The model has seven modules:

- `Options` holds the option type.
- `PyText` holds the Python `str`/`int` built-ins the server relies on:
  `isspace`, `strip`, `split`, `zfill`, `str(int)`, and `int(str)` over ASCII.
  `int()` rejects the separators U+001C to U+001F, which `strip` removes.
- `OrderedMaps` models insertion-ordered dictionaries, because iteration order
  decides which laser goes and in which order frames are sent.
- `Players` models the `Player` record with `update_data` and `reset_player`.
- `Lasers` models the `Laser` record, its step and its fixed-width `data`
  encoding.
- `Registry` models the server's state operations: `sock_to_id`,
  `add_player`, `remove_player`, `process_data` and `check_lasers`.
- `Serve` models `serve_clients`. The inbound part is the frame splitting and
  dispatch. The outbound part is the write pass for one connection, where the
  queue loop is an index loop. It also models a whole tick.

Sockets become opaque connection handles, and what `select` and `recv`
produced becomes a parameter: a list of accept and receive events, and the
list of writable connections.

The server's own quirks are kept and each one is stated as a lemma:

- `l` and `o` frames also go through `update_data` and are fanned out.
- A kill frame resets its sender and credits the player it names.
- Queues keep duplicate tags.
- A delivery shifts the queue under the iterator, so the next tag is skipped.
- A `z` entry is never dequeued.
- `check_lasers` drops at most one laser per call.
- A colour payload of seven or eight digits is accepted, and the lasers its
  player fires cannot be decoded.
- `int()` rejects the separators U+001C to U+001F, which `strip` removes.

Python exceptions that the server does not catch become preconditions.
Examples are `int()` on a malformed payload, an unknown id, no free id, and a
frame after `x` on the same connection. The `Ok` predicates (`ProcessOk`,
`FrameOk`, `DispatchOk`, `InboundOk`, `KillOk`, `SpawnOk`, `CanAdd`) spell them
out. Exceptions that the server does catch are modelled as the branch they
lead to.

Several of these behaviours are easy to misread, so here is exactly what the
model does:

- A kill frame resets the player who sent it and increments the counter of
  the player it names. The `k` diff is queued for the named player.
- `check_lasers` runs before the lasers advance. It removes only the first
  stray laser in insertion order. So a laser on the edge moves out of the
  field and stays out for a tick, and a second stray laser waits for the
  next tick.
- A queued `z` is never cleared. Looking up the removed subject raises
  KeyError, so the `z` frame is sent again on every pass, each time
  followed by a probe.
- The join bootstrap takes three write passes, because each delivered tag
  shifts the list under the iterator.
- `l` and `o` frames act on the laser table and are also stored as
  attributes of the sender and queued for the other players.
- A player that quits with `x` has its socket closed by `remove_player`. If
  that socket was also reported writable in the same tick, its first
  `sendall` fails with an OSError that `serve_clients` catches, and the
  connection is sent nothing.

## Model

| member | source | states |
|---|---|---|
| PyText.Strip | server.py:239 | `item.strip()` is never longer than the piece, and neither end of the result is whitespace |
| PyText.StripRemovesSpaces | server.py:239 | the stripped piece is the original with only whitespace taken off the two ends |
| PyText.StripUnpadded | server.py:242 | a piece with no whitespace at either end strips to itself, so `"x"` is recognised as is |
| PyText.Split | server.py:238 | `data.split("+")` gives at least one piece, and no piece contains `+` |
| PyText.JoinSplit | server.py:238 | joining the pieces with `+` gives back the received text, so nothing is lost or reordered |
| PyText.SplitJoin | server.py:238 | splitting the join of `+`-free pieces gives back those pieces |
| PyText.SplitConcat | server.py:238 | the split of `a + "+" + b` is the split of `a` followed by the split of `b` |
| PyText.ZFill | server.py:133 | `zfill(width)` has length max(len, width) and leaves a long enough string unchanged |
| PyText.NatToStrValue | server.py:133 | `str(n)` for a natural `n` is a digit string whose decimal value is `n` |
| PyText.ZFillNumeral | server.py:133 | `int(str(n).zfill(w)) == n` for every int `n` and width `w`, negative numbers included |
| PyText.ZFillWidth | server.py:184 | a number from 0 to 10^w - 1 zero-fills to exactly `w` decimal digits |
| PyText.ParseInt | server.py:105 | `int()` of an empty string raises ValueError, and so does `int()` of any string holding one of the separators U+001C to U+001F |
| PyText.SeparatorRejected | server.py:105 | `"\x1c5".strip()` is `"5"`, yet `int("\x1c5")` raises ValueError: `int()` does not skip the separators that `strip` removes |
| PyText.BlankRaises | server.py:105 | `int()` of a whitespace-only string raises ValueError |
| PyText.ParseDigits | server.py:105 | `int()` of a non-empty digit string is its decimal value |
| PyText.ParseNegative | server.py:117 | `int("-" + digits)` is the negated decimal value |
| PyText.Slice | server.py:103-105 | Python slicing clamps: the slice is the in-range part, and it is empty when out of range |
| OrderedMaps.Put | server.py:185 | `d[k] = v` sets the value; an existing key keeps its place and a new key goes last |
| OrderedMaps.Remove | server.py:209 | `del d[k]` removes the key and its value and keeps the order of the others |
| OrderedMaps.PutEach | server.py:186-189 | assigning one value to each listed key gives every listed key that value and keeps every other entry; distinct new keys are appended in list order |
| OrderedMaps.RemoveAbsent | server.py:157-160 | deleting an absent key, with the KeyError caught, leaves the dictionary as it was |
| Players.FalsyValues | server.py:106 | Python truthiness over the values the server stores (`Truthy`): exactly `False`, `0` and `""` are false |
| Players.NewPlayer | server.py:94-100 | a new player holds the five base tags, all falsy (`k` and `h` are the int 0), no colour, not ready, no queues |
| Players.UpdateData | server.py:102-106 | the payload is stored under its tag; the colour is decoded only for `c`; `status` is `all()` over every property except `k`; identity, connection and queues are kept |
| Players.UpdateDataStatus | server.py:106 | after `update_data` the player is ready iff the new payload is non-empty (or the tag is `k`) and every other non-`k` attribute was already truthy |
| Players.AllSetAfterStore | server.py:106 | storing one value changes `all()` only through that value, and only when the tag is not `k` |
| Players.StatusMeansReady | server.py:106 | with only the base tags present, `status` holds iff colour, name, position and health are all truthy |
| Players.EmptyPayloadClearsStatus | server.py:103-106 | an empty payload under any tag other than `k` or `c` makes the player not ready, including a bare `l` or `o` |
| Players.ColourDigits | server.py:103-105 | a `c` payload of three digits, three digits and one to three digits passes all three `int()` calls, so `update_data` does not insist on nine digits |
| Players.ShortColourAccepted | server.py:103-105 | `+c1234567` passes the colour parse and stores the 7-character colour `1234567` |
| Players.UpdateDataText | server.py:103 | `update_data` stores strings, so every truthy value stays a string |
| Players.ResetPlayer | server.py:108-111 | a reset player has the base tags all falsy (`h` False, `k` 0), no colour and `status` false, and keeps identity, connection and queues |
| Players.Enqueue | server.py:173-176 | appending a tag grows exactly that subject's queue by that tag at the end; a known subject keeps its place in the key order and a new one goes last; nothing else changes |
| Players.Overwrite | server.py:208 | assigning a queue replaces that subject's queue whatever it held; a known subject keeps its place in the key order and a new one goes last; nothing else changes |
| Lasers.Advance | server.py:123-132 | one step moves the laser by exactly 5 along its direction (w: y-5, s: y+5, a: x-5, d: x+5); any other direction leaves it still; nothing else changes |
| Lasers.AdvanceTimesPosition | server.py:123-132 | after `n` steps the laser sits at its start plus `n` times its velocity, all other fields unchanged |
| Lasers.CoordinateField | server.py:133 | `str(v).zfill(4)` is exactly 4 characters for -999 <= v <= 9999, 4 digits when v >= 0, and reads back as `v` |
| Lasers.Data | server.py:133 | `data` begins with the laser id and is at least the three text fields plus 8 characters long |
| Lasers.DataRoundTrip | server.py:133 | with a 3-character id, 2-character owner, 9-character colour and coordinates in range, `data` is 22 characters and decodes back to those five fields |
| Lasers.OtherColourWidthMisreads | server.py:133 | with the same id, owner and coordinates but a colour of any other width, `data` is not 22 characters and does not decode |
| Lasers.NewLaser | server.py:114-121 | a new laser takes the given id, owner, colour and direction, reads two 4-character coordinates, and has already taken one step |
| Registry.SlotNameInjective | server.py:184 | two slot numbers give the same zero-filled name iff they are equal |
| Registry.FreeFrom | server.py:184 | the allocation comprehension's head is the first slot from `from` whose name is not taken; None means every slot is taken |
| Registry.SlotNamesCount | server.py:184 | the first `n` slots have `n` different names |
| Registry.FreeSlotExists | server.py:184 | with fewer names taken than slots, the comprehension is non-empty (no IndexError) |
| Registry.RoomForPlayer | server.py:184 | a server with fewer than 99 players can always accept one more |
| Registry.NextPlayerId | server.py:184 | the id handed out is not in use |
| Registry.NextPlayerIdSmallest | server.py:184 | the new id is two digits naming a slot below 99, and every smaller slot is in use |
| Registry.ConnIndex | server.py:179-181 | the position, from `from` on, of the first player in insertion order holding the connection; all players before it hold another one; None means no player from `from` on holds it |
| Registry.SockToId | server.py:178-181 | `sock_to_id` returns a player whose connection is `client`, and None iff no player has that connection |
| Registry.SockToIdFinds | server.py:178-181 | when connections are unique, each player is found by its own connection |
| Registry.SockToIdConnections | server.py:178-181 | `sock_to_id` depends only on the order of the ids and their connections, not on queues or properties |
| Registry.ReadyHasColour | server.py:154-155 | a ready player's colour is a string, so the laser it fires can be encoded |
| Registry.OverwriteAll | server.py:207-208 | every player's queue for the subject is replaced; keys and order are unchanged |
| Registry.Broadcast | server.py:164-168 | every player outside `skip` gets the tag appended for the subject; those in `skip` are untouched |
| Registry.IdentitiesAreIds | server.py:189 | the `identity` fields of well-formed records are exactly the registered ids |
| Registry.AddPlayer | server.py:183-189 | `add_player` appends the new id last in order and leaves the lasers alone |
| Registry.Newcomer | server.py:185-189 | the newcomer is a fresh record for its id and connection, with `c n p h` queued for exactly the identities already present |
| Registry.AddPlayerQueue | server.py:186-188 | every existing player keeps its record; its queue for the newcomer becomes exactly `c n p h`, and its other queues are kept |
| Registry.NewcomerQueue | server.py:186-189 | the newcomer's queues are keyed by exactly the existing ids, in the roster's insertion order, each holding exactly `c n p h` |
| Registry.IdentitiesAreKeys | server.py:186-189 | for well-formed records, the identities met in `players.values()` order are the key list itself |
| Registry.AddPlayerKeepsRoster | server.py:183-189 | `add_player` keeps every record well formed |
| Registry.AddPlayerConnection | server.py:185 | the newcomer holds the new connection and every other player keeps its own |
| Registry.AddPlayerKeepsUnique | server.py:183-189 | a connection nobody uses keeps connections unique after `add_player` |
| Registry.AddPlayerFindsNewcomer | server.py:178-185 | after `add_player`, `sock_to_id` of the new connection is the newcomer's id |
| Registry.RemovePlayer | server.py:201-209 | `remove_player` unregisters the id, keeps the order of the others, and leaves the lasers alone |
| Registry.RemovePlayerQueue | server.py:207-209 | every remaining player keeps its record; its queue for the leaver is exactly `z`, overwriting what was there, and its other queues are kept |
| Registry.RemovePlayerKeepsRoster | server.py:201-209 | `remove_player` keeps every remaining record well formed and connections unique |
| Registry.NextLaserId | server.py:155 | the laser id handed out is not in use |
| Registry.NextLaserIdSmallest | server.py:155 | the new laser id is three digits naming a slot below 999, and every smaller slot is in use |
| Registry.LaserEffect | server.py:153-160 | an `l` from a ready player adds a laser under the next id with the sender's colour; an `l` from a player not ready changes nothing; an `o` deletes the named laser, or nothing when it is absent |
| Registry.NextCount | server.py:163 | the new counter is a non-empty string |
| Registry.NextCountParses | server.py:163 | the new counter reads back as one more than the old one, so the next kill parses again |
| Registry.Kill | server.py:161-168 | the kill branch keeps the ids, their order and the lasers |
| Registry.AfterReset | server.py:162 | resetting the sender replaces only the sender's record, by its reset, and keeps the key order |
| Registry.Credited | server.py:162-163 | after the reset and the credit, every queue is unchanged, and every player other than the sender and the named player is unchanged |
| Registry.KillCredits | server.py:163 | the named player's counter becomes one more than its value after the sender's reset; the rest of its record other than its queues is kept |
| Registry.KillResetsSender | server.py:162 | the sender of a kill frame is reset, keeping its identity and connection |
| Registry.SelfKill | server.py:162-163 | a player naming itself is reset first and then credited, so its counter becomes "1" |
| Registry.KillQueue | server.py:164-168 | every player, sender and named player included, gets exactly one more `k` queued for the named player and nothing else |
| Registry.KillLeavesOthers | server.py:161-168 | players other than the sender and the named player keep their records apart from queues |
| Registry.Apply | server.py:169-176 | the non-kill branch runs `update_data` on the sender and keeps the ids, their order and the lasers |
| Registry.ApplyQueue | server.py:171-176 | every other player keeps its record and gets the tag appended to its queue for the sender, and nothing else queued |
| Registry.ProcessData | server.py:151-176 | `process_data` keeps the ids and their order, and touches the lasers only for `l` and `o` |
| Registry.LaserFramesFanOut | server.py:153-176 | an `l` or `o` frame is also stored as an attribute of the sender, and its tag is queued for the sender on every other player |
| Registry.RemoveMissingLaser | server.py:156-160 | an `o` frame naming no laser leaves the laser table unchanged |
| Registry.SpawnNeedsReady | server.py:153-155 | an `l` frame adds a laser iff the sender was ready; the laser carries the new id, the sender's id and the sender's colour |
| Registry.PendingKeepsDuplicates | server.py:173-174 | the same attribute sent twice is queued twice for every other player |
| Registry.AllSetIgnoresKill | server.py:163 | storing the new counter does not change `all()`, so `status` stays in step although it is not recomputed |
| Registry.CreditOk | server.py:163 | a record whose counter alone moved on stays well formed |
| Registry.KillKeepsVictim | server.py:163 | the named player's record stays well formed after the kill |
| Registry.KillKeepsPlayer | server.py:161-168 | after a kill every record is well formed and keeps its connection |
| Registry.KillKeepsRoster | server.py:161-168 | the kill branch keeps every record well formed and connections unique |
| Registry.ApplyKeepsRoster | server.py:169-176 | the `update_data` branch keeps every record well formed and connections unique |
| Registry.ProcessDataKeepsRoster | server.py:151-176 | `process_data` keeps every record well formed and connections unique |
| Registry.ProcessDataConnection | server.py:151-176 | `process_data` never moves a player to another connection |
| Lasers.InBounds | server.py:222 | the field test of `check_lasers`: both coordinates within 0..999 |
| Registry.FirstOut | server.py:221-222 | finds the first laser, in insertion order, outside 0..999 on either axis; all earlier ones are inside |
| Registry.CheckLasers | server.py:219-225 | `check_lasers` removes at most one laser, the first one outside the field; the others keep their values and their insertion order; nothing changes iff every laser is inside |
| Registry.TickLasers | server.py:228-229 | after check-then-advance, the surviving lasers are those `check_lasers` kept, each moved one step |
| Registry.CheckBeforeAdvance | server.py:228-229 | when every laser is inside the field, none is removed by the tick and each ends within one step of the field |
| Registry.EdgeLaserLeavesField | server.py:222 | a laser at x = 999 heading right survives the tick outside the field |
| Registry.StrayLaserSurvives | server.py:219-225 | of two stray lasers, the later one is still present and still outside after a call |
| Serve.Handle | server.py:239-245 | handling one piece never registers a player |
| Serve.Dispatch | server.py:238-245 | handling a list of pieces never registers a player |
| Serve.Receive | server.py:237-245 | received text never registers a player |
| Serve.DispatchAppend | server.py:238-245 | handling `xs + ys` succeeds iff `xs` does and then `ys` does, and the result is `ys` handled after `xs` |
| Serve.ReceiveConcat | server.py:238 | text `a + "+" + b` is received exactly as `a` followed by `b` |
| PyText.BlankStrips | server.py:239-241 | a whitespace-only piece strips to the empty string |
| Serve.ReceiveBlank | server.py:238-241 | text made only of `+` and whitespace is accepted and changes nothing |
| Serve.RemovedIsUnknown | server.py:243 | after `remove_player`, the removed player's connection leads `sock_to_id` nowhere |
| Serve.QuitRemoves | server.py:242-243 | an `x` frame removes the sender |
| Serve.UnknownRejects | server.py:152 | a non-blank frame from a connection with no player behind it cannot be handled |
| Serve.QuitEndsText | server.py:242-245 | after `x`, any further non-blank frame in the same text raises |
| Serve.DispatchKeepsRoster | server.py:238-245 | handling frames keeps every record well formed and connections unique |
| Serve.DeleteFirst | server.py:262 | `del tags[tags.index(tag)]` shortens the queue by one iff the tag is present |
| Serve.DeleteFirstCount | server.py:262 | exactly one occurrence of the tag goes, and the rest stay; an absent tag changes nothing |
| Serve.Index | server.py:262 | `tags.index(tag)` is the position of the first occurrence of the tag |
| Serve.DeleteFirstAt | server.py:262 | the occurrence that goes is the one `index` finds, and the tags before and after it keep their order |
| Serve.DrainFrom | server.py:257-264 | the queue loop never lengthens the queue |
| Serve.SendPending | server.py:257-264 | the index loop over one queue yields exactly the frames and the remaining queue of the reference definition `DrainFrom` |
| Serve.DrainShrinks | server.py:257-262 | a pass only ever takes tags out of a queue, as a multiset |
| Serve.DrainKeepsUndeliverable | server.py:260-262 | a tag whose value is falsy, or that names a missing subject or attribute, keeps every occurrence |
| Serve.DrainFramesFrom | server.py:258-261 | every frame of a pass is a probe, a `z` notice, or the current truthy value of one of the subject's attributes |
| Serve.DeliveredFrames | server.py:251-261 | read off the frame text alone, the probe and the `z` notice deliver no tag, and an attribute frame delivers its own tag |
| Serve.DrainAccounts | server.py:257-264 | the tags delivered by the frames of a pass, plus the tags left, make up the queue exactly as a multiset: each frame sent takes out one occurrence of its tag, and no tag leaves without its frame |
| Serve.DeleteFirstReady | server.py:262 | deleting a tag keeps a queue of deliverable tags deliverable |
| Serve.DrainHalves | server.py:257-262 | with all tags deliverable, a pass from position `i` sends only half of the remaining tags, rounded up |
| Serve.BootstrapNeedsThreePasses | server.py:188-189 | with all four attributes set, the join queue `c n p h` drains over three passes: `n h`, then `h`, then empty |
| Serve.FirstPass | server.py:257-262 | the first pass over `c n p h` sends exactly the colour frame and then the position frame, and leaves `n h` |
| Serve.ZNeverDequeued | server.py:258-264 | a `z` queued for a removed subject yields the `z` frame and a probe, and stays queued |
| Serve.DrainAbsent | server.py:260-264 | a queue for a missing subject stops at its first tag and is left intact |
| Serve.LaserFrames | server.py:252-253 | one `+v` frame per laser |
| Serve.LaserFrame | server.py:253 | a laser frame is `+v` followed by the laser's `data`, whose first characters are the laser id |
| Serve.ZFrame | server.py:259 | a `z` notice is `+`, the subject id and `z`, each at a fixed offset |
| Serve.Sent | server.py:261 | an attribute frame is `+`, the subject id, the tag and the value; subject, tag and value can each be read back at a fixed offset |
| Serve.LaserPass | server.py:252-253 | the laser loop sends the `+v` frames of every laser in insertion order |
| Serve.QueuePass | server.py:255-264 | each queue, in insertion order, yields its frames and is replaced by what its loop left; the keys are unchanged |
| Serve.Outbound | server.py:249-264 | a write pass sends a probe, every laser, then every queue's frames; only the observer's queues change, each to what its loop left |
| Serve.Step | server.py:231-245 | an accept registers exactly the next id; received text registers nobody |
| Serve.Inbound | server.py:231-245 | the events are handled in the order `select` gave, and the number of players grows by at most the number of accepts |
| Serve.Tick | server.py:228-229 | a tick's first two lines change only the lasers |
| Serve.InboundOnlyAcceptAdds | server.py:231-245 | without an accept, every player after the inbound events was present before |
| Serve.InboundKeepsRoster | server.py:231-245 | the inbound events keep every record well formed and connections unique, as long as each accepted socket is new |
| Serve.StepKeepsFresh | server.py:233-234 | after one event, the later accepted sockets are still unused |
| Serve.ConnectionOrigin | server.py:231-245 | every player after an event was there before with the same connection, or is the one just accepted |
| Serve.DispatchConnections | server.py:238-245 | handling frames never moves a player to another connection |
| Serve.ServeClients | server.py:227-266 | every writable connection that still has a player gets the probe and the same laser frames first; its first write is exactly the probe, the lasers and the frames of its player's queues as the inbound phase left them; a connection whose player quit this tick gets nothing; a player written exactly once has each queue drained once; lasers and ids end as after the inbound phase; only queues change, and only for players written to |
| Serve.WritePass | server.py:249-266 | the `for event in outputs` loop: the same prefix for every connection with a player, nothing for a closed one; a connection's first write is exactly the probe, the lasers and its player's pending frames as they stood before the loop; a player reached exactly once has each queue drained once; only the queues of players reached through an output connection change |
| Serve.WriteTo | server.py:249-266 | a connection with a player gets exactly the probe, the laser frames and its player's pending frames; only that player's record changes, and only its queues, each drained once; a connection without one raises the caught OSError at its first `sendall` and nothing changes |
| Serve.DrainSameProps | server.py:256-262 | what one queue's loop sends and leaves depends on the subject's properties only, not on any player's queues |
| Serve.PendingSameProps | server.py:255-264 | the frames of a whole queue pass depend on the players' properties only, so a write sends the same whether or not other players were written first |

## Left out

- The pygame GUI (`Mainloop`, `server_control`, `start_screen`, display helpers, server.py:268-422) is rendering and input handling.
- `start_server` (bind/listen), and `select`, `accept`, `recv` and `sendall`, are I/O. Their results are parameters: the events and the writable connections.
- The thread that runs `serve_clients` (server.py:363) is left out; the model is single-threaded, as the loop is.
- `remove_dead` (server.py:191-199) is a liveness probe. The socket of every registered player is taken to be alive. When a queue lookup raises KeyError, the model adds the `+u` probe that the observer receives. The probes to other players and the removals after a socket error are not modelled.
- The recovery after a socket error on read or write (server.py:246-247, 265-266) calls `remove_dead`, whose probes are left out as above. The one socket error the model does have is a write to the socket of a player that quit in the same tick, which `remove_player` closed. That connection's write pass ends at once and it is sent nothing.
- `stop_server` (server.py:211-217) closes sockets and recurses on RuntimeError.
- The `+x` frame that `remove_player` sends (server.py:203) is I/O and is not modelled; its errors are caught. The close at server.py:204 is what makes a later write to that socket fail in the same tick, as above.
- The UnicodeDecodeError that `recv(1024).decode()` (server.py:237) raises, uncaught, when the bytes read are not valid UTF-8 is not modelled. A multi-byte character split across two reads causes it. The model takes the received data as already-decoded text.
- game.py and network.py are a client and its socket wrapper, outside the server. They are not part of this model.
- PyText.ParseInt: accepts ASCII digits, signs, single underscores between digits and surrounding whitespace. The whitespace is what `int()` skips: tab, line feed, vertical tab, form feed, carriage return, space and the non-ASCII spaces. Any string holding U+001C to U+001F is rejected. Python also accepts non-ASCII Unicode decimal digits; those are not modelled.
- Lasers.DataRoundTrip: holds only for coordinates from -999 to 9999. Other coordinates zero-fill to more than four characters and shift the later fields. It also needs a 9-character colour. `update_data` checks only that the three colour slices parse, so a 7- or 8-digit colour such as `+c1234567` is accepted (Players.ColourDigits, Players.ShortColourAccepted). A laser fired with it has `data` that does not decode (Lasers.OtherColourWidthMisreads).
- Serve.Outbound: the pass over one connection's queues assumes no socket fails.
- Serve.ServeClients: for a connection listed more than once among the writable ones, states only the common prefix of its later writes and not what its queues end as. `select` lists each socket once.
- Serve.WritePass: the same as Serve.ServeClients for a connection listed more than once.
- These uncaught exceptions become preconditions instead of modelled crashes:
  - `int()` ValueError (server.py:105, 117, 163);
  - KeyError for an unknown sender (server.py:154, 162, 170) or named player (server.py:163);
  - IndexError when no id is free (server.py:155, 184);
  - TypeError when a truthy property is not a string;
  - `players[None]` after an `x` frame on the same connection (server.py:243, 245);
