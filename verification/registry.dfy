/** The state a `Server` keeps between ticks (the `players` and `lasers`
    dictionaries) and the operations that change it: `add_player`,
    `remove_player`, `process_data`, `sock_to_id` and `check_lasers`. */
module Registry {

  import opened Options
  import opened PyText
  import opened OrderedMaps
  import opened Players
  import opened Lasers

  /** `self.players`: player id to record, in insertion order. */
  type Roster = OMap<Id, Player>

  /** `self.lasers`: laser id to record, in insertion order. */
  type LaserTable = OMap<string, Laser>

  datatype Server = Server(players: Roster, lasers: LaserTable)

  /** `range(0, 99)` of player ids, each `zfill(2)`. */
  const PlayerSlots: nat := 99
  const PlayerIdWidth: nat := 2

  /** `range(0, 999)` of laser ids, each `zfill(3)`. */
  const LaserSlots: nat := 999
  const LaserIdWidth: nat := 3

  function InitialServer(): (s: Server)
    ensures s.players.vals == map[] && s.lasers.vals == map[]
  {
    Server(Empty(), Empty())
  }

  /** `str(n).zfill(width)`, the name of slot `n`. */
  function SlotName(n: nat, width: nat): string
  {
    ZFill(IntToStr(n), width)
  }

  /** Different slots have different names, whatever the width. */
  lemma SlotNameInjective(a: nat, b: nat, width: nat)
    ensures SlotName(a, width) == SlotName(b, width) <==> a == b
  {
    ZFillNumeral(a, width);
    ZFillNumeral(b, width);
  }

  /** The first slot at or after `from` whose name is not taken: the head of
      `[n for n in range(from, limit) if str(n).zfill(width) not in taken]`. */
  function FreeFrom(taken: set<string>, width: nat, limit: nat, from: nat): (r: Option<nat>)
    ensures r.Some? ==> from <= r.value < limit && SlotName(r.value, width) !in taken
    ensures r.Some? ==> forall j: nat | from <= j < r.value :: SlotName(j, width) in taken
    ensures r.None? ==> forall j: nat | from <= j < limit :: SlotName(j, width) in taken
    decreases limit - from
  {
    if from >= limit then None
    else if SlotName(from, width) !in taken then Some(from)
    else FreeFrom(taken, width, limit, from + 1)
  }

  /** The names of the first `n` slots. */
  ghost function SlotNames(width: nat, n: nat): set<string>
  {
    set j: nat | j < n :: SlotName(j, width)
  }

  /** The names of the first `n` slots are `n` different strings. */
  lemma {:induction false} SlotNamesCount(width: nat, n: nat)
    ensures |SlotNames(width, n)| == n
  {
    if n > 0 {
      SlotNamesCount(width, n - 1);
      SlotNamesGrow(width, n - 1);
      AddFresh(SlotNames(width, n - 1), SlotName(n - 1, width));
    }
  }

  lemma AddFresh<T>(s: set<T>, x: T)
    requires x !in s
    ensures |s + {x}| == |s| + 1
  {
  }

  /** One more slot adds one new name. */
  lemma SlotNamesGrow(width: nat, n: nat)
    ensures SlotNames(width, n + 1) == SlotNames(width, n) + {SlotName(n, width)}
    ensures SlotName(n, width) !in SlotNames(width, n)
  {
    forall j: nat | j < n
      ensures SlotName(j, width) != SlotName(n, width)
    {
      SlotNameInjective(j, n, width);
    }
  }

  /** While fewer names are taken than there are slots, a free slot exists:
      the `[0]` of the allocation comprehension raises no IndexError. */
  lemma FreeSlotExists(taken: set<string>, width: nat, limit: nat)
    requires |taken| < limit
    ensures FreeFrom(taken, width, limit, 0).Some?
  {
    if FreeFrom(taken, width, limit, 0).None? {
      AllSlotsTaken(taken, width, limit);
    }
  }

  lemma AllSlotsTaken(taken: set<string>, width: nat, limit: nat)
    requires forall j: nat | j < limit :: SlotName(j, width) in taken
    ensures |taken| >= limit
  {
    var names := SlotNames(width, limit);
    SlotNamesCount(width, limit);
    assert names <= taken;
    assert taken == names + (taken - names);
  }

  /** Position of the first player, in insertion order, reached through `c`. */
  function ConnIndex(ps: Roster, c: Conn, from: nat): (r: Option<nat>)
    ensures r.Some? ==> from <= r.value < |ps.keys| && ps.vals[KeyAt(ps, r.value)].connection == c
    ensures r.Some? ==> forall j: nat | from <= j < r.value :: ps.vals[KeyAt(ps, j)].connection != c
    ensures r.None? ==> forall j: nat | from <= j < |ps.keys| :: ps.vals[KeyAt(ps, j)].connection != c
    decreases |ps.keys| - from
  {
    if from >= |ps.keys| then None
    else if ps.vals[KeyAt(ps, from)].connection == c then Some(from)
    else ConnIndex(ps, c, from + 1)
  }

  /** `sock_to_id(client)`: the id of the first player whose connection is
      `client`; None when no player has it (Python falls off the loop). */
  function SockToId(ps: Roster, c: Conn): (r: Option<Id>)
    ensures r.Some? ==> r.value in ps.vals && ps.vals[r.value].connection == c
    ensures r.None? <==> forall id | id in ps.vals :: ps.vals[id].connection != c
  {
    var i := ConnIndex(ps, c, 0);
    if i.Some? then Some(KeyAt(ps, i.value))
    else
      assert forall id | id in ps.vals :: ps.vals[id].connection != c by {
        forall id | id in ps.vals
          ensures ps.vals[id].connection != c
        {
          var j := KeyIndex(ps, id);
          assert KeyAt(ps, j) == id;
        }
      }
      None
  }

  /** `sock_to_id` only looks at the connections, in insertion order. */
  lemma {:induction false} ConnIndexConnections(ps: Roster, qs: Roster, c: Conn, from: nat)
    requires qs.keys == ps.keys
    requires forall k | k in ps.vals :: qs.vals[k].connection == ps.vals[k].connection
    ensures ConnIndex(qs, c, from) == ConnIndex(ps, c, from)
    decreases |ps.keys| - from
  {
    if from < |ps.keys| {
      var k := KeyAt(ps, from);
      assert KeyAt(qs, from) == k;
      if ps.vals[k].connection == c {
        assert qs.vals[k].connection == c;
      } else {
        assert qs.vals[k].connection != c;
        ConnIndexConnections(ps, qs, c, from + 1);
      }
    }
  }

  lemma SockToIdConnections(ps: Roster, qs: Roster, c: Conn)
    requires qs.keys == ps.keys
    requires forall k | k in ps.vals :: qs.vals[k].connection == ps.vals[k].connection
    ensures SockToId(qs, c) == SockToId(ps, c)
  {
    ConnIndexConnections(ps, qs, c, 0);
  }

  /** Every connection belongs to at most one player. */
  ghost predicate ConnUnique(ps: Roster)
  {
    forall a, b | a in ps.vals && b in ps.vals && a != b :: ps.vals[a].connection != ps.vals[b].connection
  }

  /** With one player per connection, `sock_to_id` finds each player by its
      own connection. */
  lemma SockToIdFinds(ps: Roster, id: Id)
    requires ConnUnique(ps) && id in ps.vals
    ensures SockToId(ps, ps.vals[id].connection) == Some(id)
  {
    var r := SockToId(ps, ps.vals[id].connection);
    assert r.Some?;
  }

  /** The shape every player record keeps: stored under its own id, the five
      base tags present, every truthy value a string, `status` in step with
      the properties. */
  ghost predicate PlayerOk(id: Id, p: Player)
  {
    && p.identity == id
    && BaseTags <= p.properties.Keys
    && TextValued(p)
    && p.status == AllSet(p.properties)
  }

  ghost predicate RosterOk(ps: Roster)
  {
    forall id | id in ps.vals :: PlayerOk(id, ps.vals[id])
  }

  /** A ready player (`status`) has a string colour, so the laser it fires
      can be encoded. */
  lemma ReadyHasColour(ps: Roster, id: Id)
    requires RosterOk(ps) && id in ps.vals && ps.vals[id].status
    ensures ps.vals[id].properties['c'].StrVal?
  {
    assert PlayerOk(id, ps.vals[id]);
    assert 'c' in BaseTags;
  }

  /** `update[subject] = tags` on every player. */
  function OverwriteAll(ps: Roster, subject: Id, tags: seq<char>): (r: Roster)
    ensures r.keys == ps.keys && r.vals.Keys == ps.vals.Keys
    ensures forall k | k in ps.vals :: r.vals[k] == Overwrite(ps.vals[k], subject, tags)
  {
    MapValues(ps, (k: Id, p: Player) => Overwrite(p, subject, tags))
  }

  /** Append `tag` to `update[subject]` on every player except those in `skip`. */
  function Broadcast(ps: Roster, subject: Id, tag: char, skip: set<Id>): (r: Roster)
    ensures r.keys == ps.keys && r.vals.Keys == ps.vals.Keys
    ensures forall k | k in ps.vals && k !in skip :: r.vals[k] == Enqueue(ps.vals[k], subject, tag)
    ensures forall k | k in ps.vals && k in skip :: r.vals[k] == ps.vals[k]
  {
    MapValues(ps, (k: Id, p: Player) => if k in skip then p else Enqueue(p, subject, tag))
  }

  // ---------------------------------------------------------------- add_player

  /** The allocation comprehension of `add_player` has a head. */
  predicate CanAdd(s: Server)
  {
    FreeFrom(s.players.vals.Keys, PlayerIdWidth, PlayerSlots, 0).Some?
  }

  /** The id `add_player` hands out: the smallest free slot name. */
  function NextPlayerId(s: Server): (id: Id)
    requires CanAdd(s)
    ensures id !in s.players.vals
  {
    SlotName(FreeFrom(s.players.vals.Keys, PlayerIdWidth, PlayerSlots, 0).value, PlayerIdWidth)
  }

  /** A server with fewer than 99 players can always take one more. */
  lemma RoomForPlayer(s: Server)
    requires |s.players.vals| < PlayerSlots
    ensures CanAdd(s)
  {
    assert |s.players.vals.Keys| == |s.players.vals|;
    FreeSlotExists(s.players.vals.Keys, PlayerIdWidth, PlayerSlots);
  }

  /** The new id is the smallest free slot: two decimal digits naming a slot
      below 99, and every smaller slot is in use. */
  lemma NextPlayerIdSmallest(s: Server)
    requires CanAdd(s)
    ensures var n := FreeFrom(s.players.vals.Keys, PlayerIdWidth, PlayerSlots, 0).value;
            && NextPlayerId(s) == SlotName(n, PlayerIdWidth) && n < PlayerSlots
            && |NextPlayerId(s)| == 2 && AllDigits(NextPlayerId(s))
            && ParseInt(NextPlayerId(s)) == Some(n)
            && forall j: nat | j < n :: SlotName(j, PlayerIdWidth) in s.players.vals
  {
    var n := FreeFrom(s.players.vals.Keys, PlayerIdWidth, PlayerSlots, 0).value;
    assert Pow10(2) == 100;
    ZFillWidth(n, 2);
    ZFillNumeral(n, 2);
  }

  /** With `RosterOk`, the identities are exactly the registered ids. */
  lemma IdentitiesAreIds(ps: Roster)
    requires RosterOk(ps)
    ensures forall sub :: sub in Identities(ps) <==> sub in ps.vals
  {
    forall sub
      ensures sub in Identities(ps) <==> sub in ps.vals
    {
      if sub in Identities(ps) {
        var i :| 0 <= i < |Identities(ps)| && Identities(ps)[i] == sub;
        assert PlayerOk(KeyAt(ps, i), ps.vals[KeyAt(ps, i)]);
      }
      if sub in ps.vals {
        var j := KeyIndex(ps, sub);
        assert PlayerOk(sub, ps.vals[sub]);
        assert Identities(ps)[j] == sub;
      }
    }
  }

  /** `player.identity` of every player, in insertion order. */
  function Identities(ps: Roster): (ids: seq<Id>)
    ensures |ids| == |ps.keys|
    ensures forall i: nat | i < |ps.keys| :: ids[i] == ps.vals[KeyAt(ps, i)].identity
  {
    seq(|ps.keys|, i requires 0 <= i < |ps.keys| => ps.vals[KeyAt(ps, i)].identity)
  }

  /** `add_player(client)`: register a fresh `Player` under the smallest free
      id, then queue the four base attributes both ways between it and every
      existing player. */
  function AddPlayer(s: Server, c: Conn): (r: Server)
    requires CanAdd(s)
    ensures r.players.keys == s.players.keys + [NextPlayerId(s)]
    ensures r.players.vals.Keys == s.players.vals.Keys + {NextPlayerId(s)}
    ensures r.lasers == s.lasers
  {
    var id := NextPlayerId(s);
    var newcomer := NewPlayer(id, c).(update := PutEach(Empty(), Identities(s.players), Bootstrap));
    s.(players := Put(OverwriteAll(s.players, id, Bootstrap), id, newcomer))
  }

  /** The newcomer is a fresh record for its id and connection, with the four
      base attributes queued for the identity of every player already there,
      and nothing else queued. */
  lemma Newcomer(s: Server, c: Conn)
    requires CanAdd(s)
    ensures var p := AddPlayer(s, c).players.vals[NextPlayerId(s)];
            && p.identity == NextPlayerId(s) && p.connection == c
            && p.properties == NewPlayer(NextPlayerId(s), c).properties
            && p.colourFormatted == NoColour && !p.status
            && (forall sub :: sub in p.update.vals <==> sub in Identities(s.players))
            && (forall sub | sub in Identities(s.players) :: PendingFor(p, sub) == Bootstrap)
  {
    var id := NextPlayerId(s);
    var p := AddPlayer(s, c).players.vals[id];
    assert p == NewPlayer(id, c).(update := PutEach(Empty(), Identities(s.players), Bootstrap));
  }

  /** An existing player keeps its record; its queue for the newcomer becomes
      exactly the four base attributes, whatever it held before (a leftover
      `["z"]` included), and its other queues stay. */
  lemma AddPlayerQueue(s: Server, c: Conn, k: Id, sub: Id)
    requires CanAdd(s) && k in s.players.vals
    ensures var p := AddPlayer(s, c).players.vals[k];
            && p == s.players.vals[k].(update := p.update)
            && PendingFor(p, sub) == if sub == NextPlayerId(s) then Bootstrap else PendingFor(s.players.vals[k], sub)
  {
    var id := NextPlayerId(s);
    assert k != id;
    assert AddPlayer(s, c).players.vals[k] == OverwriteAll(s.players, id, Bootstrap).vals[k];
  }

  lemma NewcomerOk(s: Server, c: Conn)
    requires CanAdd(s)
    ensures PlayerOk(NextPlayerId(s), AddPlayer(s, c).players.vals[NextPlayerId(s)])
  {
    Newcomer(s, c);
    var p := AddPlayer(s, c).players.vals[NextPlayerId(s)];
    AllSetBase(p.properties);
  }

  /** `add_player` keeps each record well formed and each connection with
      its player. */
  lemma AddPlayerKeepsPlayer(s: Server, c: Conn, k: Id)
    requires CanAdd(s) && RosterOk(s.players) && k in AddPlayer(s, c).players.vals
    ensures PlayerOk(k, AddPlayer(s, c).players.vals[k])
    ensures AddPlayer(s, c).players.vals[k].connection == if k == NextPlayerId(s) then c else s.players.vals[k].connection
  {
    if k != NextPlayerId(s) {
      assert PlayerOk(k, s.players.vals[k]);
      AddPlayerQueue(s, c, k, k);
    } else {
      NewcomerOk(s, c);
      Newcomer(s, c);
    }
  }

  /** `add_player` keeps every record well formed. */
  lemma AddPlayerKeepsRoster(s: Server, c: Conn)
    requires CanAdd(s) && RosterOk(s.players)
    ensures RosterOk(AddPlayer(s, c).players)
  {
    forall k | k in AddPlayer(s, c).players.vals
      ensures PlayerOk(k, AddPlayer(s, c).players.vals[k])
    {
      AddPlayerKeepsPlayer(s, c, k);
    }
  }

  /** A connection no one else uses keeps connections unique after
      `add_player`. */
  lemma AddPlayerKeepsUnique(s: Server, c: Conn)
    requires CanAdd(s) && RosterOk(s.players) && ConnUnique(s.players)
    requires forall k | k in s.players.vals :: s.players.vals[k].connection != c
    ensures ConnUnique(AddPlayer(s, c).players)
  {
    var r := AddPlayer(s, c).players;
    forall a, b | a in r.vals && b in r.vals && a != b
      ensures r.vals[a].connection != r.vals[b].connection
    {
      AddPlayerConnection(s, c, a);
      AddPlayerConnection(s, c, b);
      var id := NextPlayerId(s);
      if a == id {
        assert r.vals[b].connection == s.players.vals[b].connection;
      } else if b == id {
        assert r.vals[a].connection == s.players.vals[a].connection;
      } else {
        assert s.players.vals[a].connection != s.players.vals[b].connection;
      }
    }
  }

  /** The newcomer holds the new connection; everyone else keeps theirs. */
  lemma AddPlayerConnection(s: Server, c: Conn, k: Id)
    requires CanAdd(s) && k in AddPlayer(s, c).players.vals
    ensures AddPlayer(s, c).players.vals[k].connection == if k == NextPlayerId(s) then c else s.players.vals[k].connection
  {
    if k != NextPlayerId(s) {
      AddPlayerQueue(s, c, k, k);
    } else {
      Newcomer(s, c);
    }
  }

  /** ... and `sock_to_id` then leads the connection to the newcomer. */
  lemma AddPlayerFindsNewcomer(s: Server, c: Conn)
    requires CanAdd(s) && RosterOk(s.players) && ConnUnique(s.players)
    requires forall k | k in s.players.vals :: s.players.vals[k].connection != c
    ensures ConnUnique(AddPlayer(s, c).players)
    ensures SockToId(AddPlayer(s, c).players, c) == Some(NextPlayerId(s))
  {
    AddPlayerKeepsUnique(s, c);
    AddPlayerKeepsPlayer(s, c, NextPlayerId(s));
    SockToIdFinds(AddPlayer(s, c).players, NextPlayerId(s));
  }

  /** With `RosterOk`, identities are the ids: the newcomer is queued the four
      base attributes of every player already present, and nothing else. */
  lemma NewcomerQueue(s: Server, c: Conn)
    requires CanAdd(s) && RosterOk(s.players)
    ensures var p := AddPlayer(s, c).players.vals[NextPlayerId(s)];
            && p.update.vals.Keys == s.players.vals.Keys
            && p.update.keys == s.players.keys
            && forall k | k in s.players.vals :: PendingFor(p, k) == Bootstrap
  {
    Newcomer(s, c);
    IdentitiesAreIds(s.players);
    IdentitiesAreKeys(s.players);
    assert AddPlayer(s, c).players.vals[NextPlayerId(s)].update == PutEach(Empty(), s.players.keys, Bootstrap);
  }

  /** With `RosterOk`, `[p.identity for p in players.values()]` is the key
      list itself, in insertion order. */
  lemma IdentitiesAreKeys(ps: Roster)
    requires RosterOk(ps)
    ensures Identities(ps) == ps.keys
  {
    forall i | 0 <= i < |ps.keys|
      ensures Identities(ps)[i] == ps.keys[i]
    {
      assert PlayerOk(KeyAt(ps, i), ps.vals[KeyAt(ps, i)]);
    }
  }

  // ------------------------------------------------------------- remove_player

  /** `remove_player(client_id)`: every player, the leaving one included, has
      its queue for the id replaced by `["z"]`, then the id is deleted. */
  function RemovePlayer(s: Server, id: Id): (r: Server)
    requires id in s.players.vals
    ensures id !in r.players.vals && r.players.vals.Keys == s.players.vals.Keys - {id}
    ensures r.players.keys == Without(s.players.keys, id)
    ensures r.lasers == s.lasers
  {
    s.(players := Remove(OverwriteAll(s.players, id, ['z']), id))
  }

  /** Every remaining player keeps its record; its queue for the leaver is
      exactly `["z"]`, whatever it held before, and its other queues stay. */
  lemma RemovePlayerQueue(s: Server, id: Id, k: Id, sub: Id)
    requires id in s.players.vals && k in s.players.vals && k != id
    ensures var p := RemovePlayer(s, id).players.vals[k];
            && p == s.players.vals[k].(update := p.update)
            && PendingFor(p, sub) == if sub == id then ['z'] else PendingFor(s.players.vals[k], sub)
  {
    assert RemovePlayer(s, id).players.vals[k] == OverwriteAll(s.players, id, ['z']).vals[k];
  }

  lemma RemovePlayerKeepsRoster(s: Server, id: Id)
    requires id in s.players.vals && RosterOk(s.players)
    ensures RosterOk(RemovePlayer(s, id).players)
    ensures ConnUnique(s.players) ==> ConnUnique(RemovePlayer(s, id).players)
  {
    var r := RemovePlayer(s, id);
    forall k | k in r.players.vals
      ensures PlayerOk(k, r.players.vals[k]) && r.players.vals[k].connection == s.players.vals[k].connection
    {
      assert PlayerOk(k, s.players.vals[k]);
      RemovePlayerQueue(s, id, k, id);
    }
  }

  // -------------------------------------------------------------- process_data

  /** The laser table has a free id. */
  predicate CanSpawn(s: Server)
  {
    FreeFrom(s.lasers.vals.Keys, LaserIdWidth, LaserSlots, 0).Some?
  }

  function NextLaserId(s: Server): (id: string)
    requires CanSpawn(s)
    ensures id !in s.lasers.vals
  {
    SlotName(FreeFrom(s.lasers.vals.Keys, LaserIdWidth, LaserSlots, 0).value, LaserIdWidth)
  }

  /** The laser id handed out is the smallest free slot: three decimal digits
      naming a slot below 999, every smaller slot in use. */
  lemma NextLaserIdSmallest(s: Server)
    requires CanSpawn(s)
    ensures var n := FreeFrom(s.lasers.vals.Keys, LaserIdWidth, LaserSlots, 0).value;
            && NextLaserId(s) == SlotName(n, LaserIdWidth) && n < LaserSlots
            && |NextLaserId(s)| == 3 && AllDigits(NextLaserId(s))
            && forall j: nat | j < n :: SlotName(j, LaserIdWidth) in s.lasers.vals
  {
    var n := FreeFrom(s.lasers.vals.Keys, LaserIdWidth, LaserSlots, 0).value;
    assert Pow10(3) == 1000;
    ZFillWidth(n, 3);
  }

  /** What building the laser needs: a string colour (otherwise `update_laser`
      raises TypeError), a parsable payload, a free id. */
  predicate SpawnOk(s: Server, p: Player, payload: string)
  {
    && 'c' in p.properties && p.properties['c'].StrVal?
    && SpawnParses(payload)
    && CanSpawn(s)
  }

  /** The laser branch of `process_data`: an `l` frame from a ready player
      adds a laser under the smallest free id with the sender's colour; an
      `o` frame deletes the laser its payload names, if there is one. */
  function LaserEffect(s: Server, sender: Id, data: string): (r: LaserTable)
    requires |data| >= 1 && sender in s.players.vals
    requires data[0] == 'l' && s.players.vals[sender].status ==> SpawnOk(s, s.players.vals[sender], data[1..])
    ensures data[0] == 'l' && s.players.vals[sender].status ==>
              && r.keys == s.lasers.keys + [NextLaserId(s)]
              && r.vals == s.lasers.vals[NextLaserId(s) :=
                   NewLaser(data[1..], NextLaserId(s), s.players.vals[sender].properties['c'].s, sender)]
    ensures data[0] == 'l' && !s.players.vals[sender].status ==> r == s.lasers
    ensures data[0] == 'o' ==> r.vals == s.lasers.vals - {data[1..]}
    ensures data[0] == 'o' && data[1..] !in s.lasers.vals ==> r == s.lasers
    ensures data[0] != 'l' && data[0] != 'o' ==> r == s.lasers
  {
    var p := s.players.vals[sender];
    if data[0] == 'l' then
      if p.status then
        var id := NextLaserId(s);
        Put(s.lasers, id, NewLaser(data[1..], id, p.properties['c'].s, sender))
      else s.lasers
    else if data[0] == 'o' then
      if data[1..] in s.lasers.vals then Remove(s.lasers, data[1..])
      else s.lasers
    else s.lasers
  }

  /** `players` after the sender of a kill frame has been reset. */
  function AfterReset(ps: Roster, sender: Id): (r: Roster)
    requires sender in ps.vals
    ensures r.keys == ps.keys && r.vals == ps.vals[sender := ResetPlayer(ps.vals[sender])]
  {
    Put(ps, sender, ResetPlayer(ps.vals[sender]))
  }

  /** The named player exists and its kill counter reads as an int, once the
      sender has been reset. */
  predicate KillOk(s: Server, sender: Id, victim: Id)
    requires sender in s.players.vals
  {
    var ps := AfterReset(s.players, sender);
    victim in ps.vals && 'k' in ps.vals[victim].properties && IntOf(ps.vals[victim].properties['k']).Some?
  }

  /** `str(int(k) + 1)`: the next value of a kill counter. */
  function NextCount(v: Value): (r: Value)
    requires IntOf(v).Some?
    ensures r.StrVal? && Truthy(r)
  {
    StrVal(IntToStr(IntOf(v).value + 1))
  }

  /** The stored counter reads back as one more than before: the string
      `int()` accepts again on the next kill. */
  lemma NextCountParses(v: Value)
    requires IntOf(v).Some?
    ensures IntOf(NextCount(v)) == Some(IntOf(v).value + 1)
  {
    ZFillNumeral(IntOf(v).value + 1, 0);
  }

  /** The `k` branch: reset the sender, set the named player's counter to
      `str(int(k) + 1)`, and append `k` to every player's queue for the named
      player (the sender's and the named player's own queues included). */
  function Kill(s: Server, sender: Id, victim: Id): (r: Server)
    requires sender in s.players.vals && KillOk(s, sender, victim)
    ensures r.lasers == s.lasers
    ensures r.players.keys == s.players.keys && r.players.vals.Keys == s.players.vals.Keys
  {
    s.(players := Broadcast(Credited(s.players, sender, victim), victim, 'k', {}))
  }

  /** The roster once the sender is reset and the named player credited,
      before the `k` is queued. */
  function Credited(ps: Roster, sender: Id, victim: Id): (r: Roster)
    requires sender in ps.vals && KillOk(Server(ps, Empty()), sender, victim)
    ensures r.keys == ps.keys && r.vals.Keys == ps.vals.Keys
    ensures forall k | k in ps.vals :: r.vals[k].update == ps.vals[k].update
    ensures forall k | k in ps.vals && k != sender && k != victim :: r.vals[k] == ps.vals[k]
  {
    var reset := AfterReset(ps, sender);
    var v := reset.vals[victim];
    Put(reset, victim, v.(properties := v.properties['k' := NextCount(v.properties['k'])]))
  }

  /** The named player's counter goes up by one, read from its value after
      the sender's reset; nothing else of its record but its queues changes. */
  lemma KillCredits(s: Server, sender: Id, victim: Id)
    requires sender in s.players.vals && KillOk(s, sender, victim)
    ensures var before := AfterReset(s.players, sender).vals[victim];
            var p := Kill(s, sender, victim).players.vals[victim];
            && p.properties == before.properties['k' := NextCount(before.properties['k'])]
            && p == before.(properties := p.properties, update := p.update)
  {
  }

  /** The sender of a kill frame is reset: attributes unset, counter 0,
      `status` false, its identity, connection and queues kept apart from
      the new `k`. */
  lemma KillResetsSender(s: Server, sender: Id, victim: Id)
    requires sender in s.players.vals && KillOk(s, sender, victim) && sender != victim
    ensures var p := Kill(s, sender, victim).players.vals[sender];
            p == ResetPlayer(s.players.vals[sender]).(update := p.update)
  {
  }

  /** A player shooting itself is reset and then credited: its counter is
      the string "1" whatever it was before. */
  lemma SelfKill(s: Server, sender: Id)
    requires sender in s.players.vals && KillOk(s, sender, sender)
    ensures Kill(s, sender, sender).players.vals[sender].properties ==
              ResetPlayer(s.players.vals[sender]).properties['k' := StrVal("1")]
  {
    KillCredits(s, sender, sender);
    assert NatToStr(1) == "1";
  }

  /** Every player, sender and named player included, gets exactly one more
      `k` queued for the named player, and nothing else queued; players other
      than those two keep their records. */
  lemma KillQueue(s: Server, sender: Id, victim: Id, k: Id, sub: Id)
    requires sender in s.players.vals && KillOk(s, sender, victim) && k in s.players.vals
    ensures PendingFor(Kill(s, sender, victim).players.vals[k], sub) ==
              PendingFor(s.players.vals[k], sub) + (if sub == victim then ['k'] else [])
  {
    var ps := Credited(s.players, sender, victim);
    assert Kill(s, sender, victim).players.vals[k] == Enqueue(ps.vals[k], victim, 'k');
  }

  /** Players other than the sender and the named player keep their records. */
  lemma KillLeavesOthers(s: Server, sender: Id, victim: Id, k: Id)
    requires sender in s.players.vals && KillOk(s, sender, victim)
    requires k in s.players.vals && k != sender && k != victim
    ensures var p := Kill(s, sender, victim).players.vals[k];
            p == s.players.vals[k].(update := p.update)
  {
    var ps := Credited(s.players, sender, victim);
    assert Kill(s, sender, victim).players.vals[k] == Enqueue(ps.vals[k], victim, 'k');
  }

  /** The `else` branch: `update_data` on the sender, then the tag appended
      to every other player's queue for the sender. */
  function Apply(s: Server, sender: Id, data: string): (r: Server)
    requires sender in s.players.vals && |data| >= 1
    requires data[0] == 'c' ==> ColourParses(data)
    ensures r.lasers == s.lasers
    ensures r.players.keys == s.players.keys && r.players.vals.Keys == s.players.vals.Keys
    ensures r.players.vals[sender] == UpdateData(s.players.vals[sender], data)
  {
    var ps := Put(s.players, sender, UpdateData(s.players.vals[sender], data));
    s.(players := Broadcast(ps, sender, data[0], {sender}))
  }

  /** Every other player keeps its record and gets the tag appended to its
      queue for the sender, and nothing else queued. */
  lemma ApplyQueue(s: Server, sender: Id, data: string, k: Id, sub: Id)
    requires sender in s.players.vals && |data| >= 1
    requires data[0] == 'c' ==> ColourParses(data)
    requires k in s.players.vals && k != sender
    ensures var p := Apply(s, sender, data).players.vals[k];
            && p == s.players.vals[k].(update := p.update)
            && PendingFor(p, sub) == PendingFor(s.players.vals[k], sub) + (if sub == sender then [data[0]] else [])
  {
    var ps := Put(s.players, sender, UpdateData(s.players.vals[sender], data));
    assert Apply(s, sender, data).players.vals[k] == Enqueue(ps.vals[k], sender, data[0]);
  }

  /** Every exception `process_data` could raise is ruled out: the frame is
      not empty, the connection belongs to a player, a ready player's laser
      can be built, a kill names a player whose counter parses, and a colour
      payload parses. */
  predicate ProcessOk(s: Server, data: string, client: Conn)
  {
    && |data| >= 1
    && SockToId(s.players, client).Some?
    && var sender := SockToId(s.players, client).value;
       && (data[0] == 'l' && s.players.vals[sender].status ==> SpawnOk(s, s.players.vals[sender], data[1..]))
       && (data[0] == 'k' ==> KillOk(s, sender, data[1..]))
       && (data[0] == 'c' ==> ColourParses(data))
  }

  /** `process_data(data, client)`: the laser branch, then either the kill
      branch or `update_data` with fan-out. The two are separate `if`
      chains, so `l` and `o` frames also take the second. */
  function ProcessData(s: Server, data: string, client: Conn): (r: Server)
    requires ProcessOk(s, data, client)
    ensures r.players.keys == s.players.keys && r.players.vals.Keys == s.players.vals.Keys
    ensures data[0] != 'l' && data[0] != 'o' ==> r.lasers == s.lasers
  {
    var sender := SockToId(s.players, client).value;
    var s1 := s.(lasers := LaserEffect(s, sender, data));
    if data[0] == 'k' then Kill(s1, sender, data[1..]) else Apply(s1, sender, data)
  }

  /** The state after the laser branch, which both later branches start from. */
  lemma ProcessDataSteps(s: Server, data: string, client: Conn)
    requires ProcessOk(s, data, client)
    ensures var sender := SockToId(s.players, client).value;
            var s1 := s.(lasers := LaserEffect(s, sender, data));
            ProcessData(s, data, client) == if data[0] == 'k' then Kill(s1, sender, data[1..]) else Apply(s1, sender, data)
  {
  }

  /** Laser frames are attribute frames too: an `l` or `o` frame is stored
      under its tag on the sender (its `status` recomputed with it), and the
      tag is queued for the sender on every other player. */
  lemma LaserFramesFanOut(s: Server, data: string, client: Conn, k: Id)
    requires ProcessOk(s, data, client) && (data[0] == 'l' || data[0] == 'o')
    requires k in s.players.vals && k != SockToId(s.players, client).value
    ensures var sender := SockToId(s.players, client).value;
            var r := ProcessData(s, data, client);
            && r.players.vals[sender].properties[data[0]] == StrVal(data[1..])
            && r.players.vals[sender] == UpdateData(s.players.vals[sender], data)
            && PendingFor(r.players.vals[k], sender) == PendingFor(s.players.vals[k], sender) + [data[0]]
  {
    var sender := SockToId(s.players, client).value;
    var s1 := s.(lasers := LaserEffect(s, sender, data));
    ApplyQueue(s1, sender, data, k, sender);
  }

  /** An `o` frame naming no laser leaves the laser table as it was. */
  lemma RemoveMissingLaser(s: Server, data: string, client: Conn)
    requires ProcessOk(s, data, client) && data[0] == 'o' && data[1..] !in s.lasers.vals
    ensures ProcessData(s, data, client).lasers == s.lasers
  {
  }

  /** An `l` frame spawns a laser exactly when the sender was ready before the
      frame was stored; the new laser takes the sender's colour and id. */
  lemma SpawnNeedsReady(s: Server, data: string, client: Conn)
    requires ProcessOk(s, data, client) && data[0] == 'l'
    ensures var sender := SockToId(s.players, client).value;
            var r := ProcessData(s, data, client);
            && (s.players.vals[sender].status <==> r.lasers.vals.Keys != s.lasers.vals.Keys)
            && (s.players.vals[sender].status ==>
                  var l := r.lasers.vals[NextLaserId(s)];
                  l.laserId == NextLaserId(s) && l.playerId == sender
                  && l.colour == s.players.vals[sender].properties['c'].s)
  {
    var sender := SockToId(s.players, client).value;
    if s.players.vals[sender].status {
      assert NextLaserId(s) in ProcessData(s, data, client).lasers.vals.Keys;
    }
  }

  /** Tags queue up without deduplication: the same attribute sent twice is
      queued twice for every other player. */
  lemma PendingKeepsDuplicates(s: Server, sender: Id, data: string, k: Id)
    requires sender in s.players.vals && |data| >= 1
    requires data[0] == 'c' ==> ColourParses(data)
    requires k in s.players.vals && k != sender
    ensures var twice := Apply(Apply(s, sender, data), sender, data);
            PendingFor(twice.players.vals[k], sender) == PendingFor(s.players.vals[k], sender) + [data[0]] + [data[0]]
  {
    var once := Apply(s, sender, data);
    ApplyQueue(s, sender, data, k, sender);
    assert k in once.players.vals && sender in once.players.vals;
    ApplyQueue(once, sender, data, k, sender);
  }

  /** Storing under the kill counter leaves `all(...)` unchanged. */
  lemma AllSetIgnoresKill(props: map<char, Value>, v: Value)
    ensures AllSet(props['k' := v]) == AllSet(props)
  {
    AllSetAfterStore(props, 'k', v);
  }

  /** Only the queues changed: the record keeps its shape. */
  lemma RequeuedOk(id: Id, p: Player, q: Player)
    requires PlayerOk(id, p) && q == p.(update := q.update)
    ensures PlayerOk(id, q)
  {
  }

  /** A reset record keeps its shape. */
  lemma ResetOk(id: Id, p: Player)
    requires PlayerOk(id, p)
    ensures PlayerOk(id, ResetPlayer(p))
  {
    assert 'c' in ResetPlayer(p).properties;
  }

  /** The named player keeps its shape: the counter is not part of `status`
      and the new counter is a string. */
  lemma KillKeepsVictim(s: Server, sender: Id, victim: Id)
    requires sender in s.players.vals && KillOk(s, sender, victim) && RosterOk(s.players)
    ensures PlayerOk(victim, Kill(s, sender, victim).players.vals[victim])
  {
    var before := AfterReset(s.players, sender).vals[victim];
    assert PlayerOk(victim, before) by {
      assert PlayerOk(victim, s.players.vals[victim]);
      if victim == sender {
        ResetOk(victim, s.players.vals[victim]);
      }
    }
    KillCredits(s, sender, victim);
    CreditOk(victim, before, Kill(s, sender, victim).players.vals[victim]);
  }

  /** A record whose counter alone moved on keeps its shape. */
  lemma CreditOk(id: Id, p: Player, q: Player)
    requires PlayerOk(id, p) && 'k' in p.properties && IntOf(p.properties['k']).Some?
    requires q.properties == p.properties['k' := NextCount(p.properties['k'])]
    requires q == p.(properties := q.properties, update := q.update)
    ensures PlayerOk(id, q)
  {
    AllSetIgnoresKill(p.properties, NextCount(p.properties['k']));
  }

  lemma KillKeepsPlayer(s: Server, sender: Id, victim: Id, k: Id)
    requires sender in s.players.vals && KillOk(s, sender, victim) && RosterOk(s.players) && k in s.players.vals
    ensures PlayerOk(k, Kill(s, sender, victim).players.vals[k])
    ensures Kill(s, sender, victim).players.vals[k].connection == s.players.vals[k].connection
  {
    var p := s.players.vals[k];
    assert PlayerOk(k, p);
    if k == victim {
      KillKeepsVictim(s, sender, victim);
      KillCredits(s, sender, victim);
    } else if k == sender {
      KillResetsSender(s, sender, victim);
      ResetOk(k, p);
      RequeuedOk(k, ResetPlayer(p), Kill(s, sender, victim).players.vals[k]);
    } else {
      KillLeavesOthers(s, sender, victim, k);
      RequeuedOk(k, p, Kill(s, sender, victim).players.vals[k]);
    }
  }

  lemma KillKeepsRoster(s: Server, sender: Id, victim: Id)
    requires sender in s.players.vals && KillOk(s, sender, victim) && RosterOk(s.players)
    ensures RosterOk(Kill(s, sender, victim).players)
    ensures ConnUnique(s.players) ==> ConnUnique(Kill(s, sender, victim).players)
  {
    forall k | k in s.players.vals
      ensures PlayerOk(k, Kill(s, sender, victim).players.vals[k])
      ensures Kill(s, sender, victim).players.vals[k].connection == s.players.vals[k].connection
    {
      KillKeepsPlayer(s, sender, victim, k);
    }
  }

  lemma ApplyKeepsRoster(s: Server, sender: Id, data: string)
    requires sender in s.players.vals && |data| >= 1
    requires data[0] == 'c' ==> ColourParses(data)
    requires RosterOk(s.players)
    ensures RosterOk(Apply(s, sender, data).players)
    ensures ConnUnique(s.players) ==> ConnUnique(Apply(s, sender, data).players)
  {
    var r := Apply(s, sender, data);
    forall k | k in s.players.vals
      ensures PlayerOk(k, r.players.vals[k]) && r.players.vals[k].connection == s.players.vals[k].connection
    {
      assert PlayerOk(k, s.players.vals[k]);
      if k != sender {
        ApplyQueue(s, sender, data, k, sender);
      } else {
        UpdateDataText(s.players.vals[k], data);
      }
    }
  }

  /** `process_data` keeps every record well formed and every connection
      with its player. */
  lemma ProcessDataKeepsRoster(s: Server, data: string, client: Conn)
    requires ProcessOk(s, data, client) && RosterOk(s.players)
    ensures RosterOk(ProcessData(s, data, client).players)
    ensures ConnUnique(s.players) ==> ConnUnique(ProcessData(s, data, client).players)
  {
    var sender := SockToId(s.players, client).value;
    var s1 := s.(lasers := LaserEffect(s, sender, data));
    ProcessDataSteps(s, data, client);
    if data[0] == 'k' {
      KillKeepsRoster(s1, sender, data[1..]);
    } else {
      ApplyKeepsRoster(s1, sender, data);
    }
  }

  /** `process_data` never moves a player to another connection. */
  lemma ProcessDataConnection(s: Server, data: string, client: Conn, k: Id)
    requires ProcessOk(s, data, client) && RosterOk(s.players) && k in s.players.vals
    ensures ProcessData(s, data, client).players.vals[k].connection == s.players.vals[k].connection
  {
    var sender := SockToId(s.players, client).value;
    var s1 := s.(lasers := LaserEffect(s, sender, data));
    ProcessDataSteps(s, data, client);
    if data[0] == 'k' {
      KillKeepsPlayer(s1, sender, data[1..], k);
    } else if k != sender {
      ApplyQueue(s1, sender, data, k, sender);
    }
  }

  // ----------------------------------------------------------- check_lasers

  /** Position of the first laser, in insertion order, outside the field. */
  function FirstOut(ls: LaserTable, from: nat): (r: Option<nat>)
    ensures r.Some? ==> from <= r.value < |ls.keys| && !InBounds(ls.vals[KeyAt(ls, r.value)])
    ensures r.Some? ==> forall j: nat | from <= j < r.value :: InBounds(ls.vals[KeyAt(ls, j)])
    ensures r.None? ==> forall j: nat | from <= j < |ls.keys| :: InBounds(ls.vals[KeyAt(ls, j)])
    decreases |ls.keys| - from
  {
    if from >= |ls.keys| then None
    else if !InBounds(ls.vals[KeyAt(ls, from)]) then Some(from)
    else FirstOut(ls, from + 1)
  }

  /** `check_lasers()`: the loop deletes the first laser outside the field,
      and the next step of the dictionary iterator raises the RuntimeError
      that ends it; at most one laser goes per call. */
  function CheckLasers(ls: LaserTable): (r: LaserTable)
    ensures r.vals.Keys <= ls.vals.Keys && |ls.vals.Keys - r.vals.Keys| <= 1
    ensures forall k | k in r.vals :: r.vals[k] == ls.vals[k]
    ensures FirstOut(ls, 0).Some? ==> r.vals.Keys == ls.vals.Keys - {KeyAt(ls, FirstOut(ls, 0).value)}
    ensures FirstOut(ls, 0).Some? ==> r.keys == Without(ls.keys, KeyAt(ls, FirstOut(ls, 0).value))
    ensures r == ls <==> forall k | k in ls.vals :: InBounds(ls.vals[k])
  {
    var f := FirstOut(ls, 0);
    if f.None? then
      assert forall k | k in ls.vals :: InBounds(ls.vals[k]) by {
        forall k | k in ls.vals
          ensures InBounds(ls.vals[k])
        {
          var j := KeyIndex(ls, k);
          assert KeyAt(ls, j) == k;
        }
      }
      ls
    else
      var gone := KeyAt(ls, f.value);
      assert ls.vals.Keys - (ls.vals.Keys - {gone}) == {gone};
      Remove(ls, gone)
  }

  /** The first two lines of `serve_clients`: check, then advance every
      laser that is left. */
  function TickLasers(ls: LaserTable): (r: LaserTable)
    ensures r.keys == CheckLasers(ls).keys && r.vals.Keys == CheckLasers(ls).vals.Keys
    ensures forall k | k in r.vals :: r.vals[k] == Advance(ls.vals[k])
  {
    MapValues(CheckLasers(ls), (k: string, l: Laser) => Advance(l))
  }

  /** Because the bounds check comes before the step, a laser on the edge is
      kept and moves out of the field: after a tick every laser of an
      in-bounds table is still present, within one step of the field. */
  lemma CheckBeforeAdvance(ls: LaserTable)
    requires forall k | k in ls.vals :: InBounds(ls.vals[k])
    ensures TickLasers(ls).vals.Keys == ls.vals.Keys
    ensures forall k | k in ls.vals ::
              && -LaserSpeed <= TickLasers(ls).vals[k].x <= FieldMax + LaserSpeed
              && -LaserSpeed <= TickLasers(ls).vals[k].y <= FieldMax + LaserSpeed
  {
  }

  /** A laser at the right edge heading right survives the tick at x = 1004. */
  lemma EdgeLaserLeavesField(ls: LaserTable, k: string)
    requires forall j | j in ls.vals :: InBounds(ls.vals[j])
    requires k in ls.vals && ls.vals[k].x == FieldMax && ls.vals[k].direction == 'd'
    ensures k in TickLasers(ls).vals && !InBounds(TickLasers(ls).vals[k])
  {
  }

  /** Two stray lasers: one call removes only the earlier one, and the
      later one is still there, still out of the field. */
  lemma StrayLaserSurvives(ls: LaserTable, i: nat, j: nat)
    requires i < j < |ls.keys|
    requires !InBounds(ls.vals[KeyAt(ls, i)]) && !InBounds(ls.vals[KeyAt(ls, j)])
    ensures KeyAt(ls, j) in CheckLasers(ls).vals && !InBounds(CheckLasers(ls).vals[KeyAt(ls, j)])
  {
    var f := FirstOut(ls, 0);
    assert f.Some? && f.value <= i;
    DistinctKeys(ls, f.value, j);
  }
}
