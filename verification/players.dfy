/** The `Player` record of server.py: the last value each attribute tag was
    given, the decoded colour, the derived `status`, and the per-subject queue
    of tags still to be sent to this player (`update`). */
module Players {

  import opened Options
  import opened PyText
  import opened OrderedMaps

  /** A player identity, `str(n).zfill(2)` for the slot `n` it was given. */
  type Id = string

  /** The socket a player is reached through; the server compares sockets by
      object identity only, so an opaque handle is enough. */
  type Conn = nat

  /** A property value: Python `False`, an `int`, or a `str`. */
  datatype Value = FalseVal | IntVal(n: int) | StrVal(s: string)

  /** Python truthiness: `False`, `0` and `""` are false, everything else true. */
  predicate Truthy(v: Value)
  {
    match v
    case FalseVal => false
    case IntVal(n) => n != 0
    case StrVal(s) => s != ""
  }

  /** Exactly three of the values the server stores are falsy. */
  lemma FalsyValues(v: Value)
    ensures !Truthy(v) <==> v in {FalseVal, IntVal(0), StrVal("")}
  {
  }

  /** `int(v)`; None stands for the ValueError raised on a malformed string. */
  function IntOf(v: Value): Option<int>
  {
    match v
    case FalseVal => Some(0)
    case IntVal(n) => Some(n)
    case StrVal(s) => ParseInt(s)
  }

  /** `colour_formatted`: `False` until a colour arrives, then an RGB triple. */
  datatype Colour = NoColour | Rgb(red: int, green: int, blue: int)

  /** `update`: for each subject id, the attribute tags still to be delivered. */
  type Pending = OMap<Id, seq<char>>

  datatype Player = Player(
    identity: Id,
    connection: Conn,
    properties: map<char, Value>,
    colourFormatted: Colour,
    update: Pending,
    status: bool)

  /** The attributes a newcomer and the existing players are queued for. */
  const Bootstrap: seq<char> := ['c', 'n', 'p', 'h']

  /** The five tags every property map starts with. */
  const BaseTags: set<char> := {'c', 'n', 'p', 'h', 'k'}

  /** `all(...)` over every property except the kill counter. */
  predicate AllSet(props: map<char, Value>)
  {
    forall t | t in props && t != 'k' :: Truthy(props[t])
  }

  /** Every truthy property value is a string, so it can be concatenated into a
      frame; ints only ever appear as the falsy `0`. */
  predicate TextValued(p: Player)
  {
    forall t | t in p.properties :: Truthy(p.properties[t]) ==> p.properties[t].StrVal?
  }

  /** `Player(identity, connection)`. */
  function NewPlayer(identity: Id, connection: Conn): (p: Player)
    ensures p.identity == identity && p.connection == connection
    ensures p.properties.Keys == BaseTags
    ensures forall t | t in p.properties :: !Truthy(p.properties[t])
    ensures p.properties['k'] == IntVal(0) && p.properties['h'] == IntVal(0)
    ensures p.colourFormatted == NoColour && !p.status
    ensures p.update.keys == []
    ensures TextValued(p)
  {
    Player(identity, connection,
           map['c' := FalseVal, 'n' := FalseVal, 'p' := FalseVal, 'h' := IntVal(0), 'k' := IntVal(0)],
           NoColour, Empty(), false)
  }

  /** The three `int()` calls on a colour payload succeed. */
  predicate ColourParses(data: string)
  {
    && ParseInt(Slice(data, 1, 4)).Some?
    && ParseInt(Slice(data, 4, 7)).Some?
    && ParseInt(Slice(data, 7, 10)).Some?
  }

  /** The colour slices `data[1:4]`, `data[4:7]` and `data[7:10]` only
      need digits to parse: a payload of seven, eight or nine digits passes. */
  lemma ColourDigits(a: string, b: string, c: string)
    requires |a| == 3 && |b| == 3 && 1 <= |c| <= 3
    requires AllDigits(a) && AllDigits(b) && AllDigits(c)
    ensures ColourParses("c" + a + b + c)
  {
    var d := "c" + a + b + c;
    assert Slice(d, 1, 4) == a;
    assert Slice(d, 4, 7) == b;
    assert Slice(d, 7, 10) == c;
    ParseDigits(a);
    ParseDigits(b);
    ParseDigits(c);
  }

  /** A colour payload is not held to nine digits: `+c1234567` slices to
      `123`, `456` and `7`, all of which `int()` reads, and the stored
      colour is the seven characters `1234567`. */
  lemma ShortColourAccepted()
    ensures ColourParses("c1234567") && |"c1234567"[1..]| == 7
  {
    assert "c1234567" == "c" + "123" + "456" + "7";
    ColourDigits("123", "456", "7");
  }

  /** `update_data(data)`: store the payload under the one-character tag,
      decode a colour, recompute `status`. */
  function UpdateData(p: Player, data: string): (r: Player)
    requires |data| >= 1
    requires data[0] == 'c' ==> ColourParses(data)
    ensures r.properties == p.properties[data[0] := StrVal(data[1..])]
    ensures data[0] == 'c' ==>
              r.colourFormatted == Rgb(ParseInt(Slice(data, 1, 4)).value,
                                       ParseInt(Slice(data, 4, 7)).value,
                                       ParseInt(Slice(data, 7, 10)).value)
    ensures data[0] != 'c' ==> r.colourFormatted == p.colourFormatted
    ensures r.status == AllSet(r.properties)
    ensures r.identity == p.identity && r.connection == p.connection && r.update == p.update
  {
    var props := p.properties[data[0] := StrVal(data[1..])];
    var colour :=
      if data[0] == 'c' then
        Rgb(ParseInt(Slice(data, 1, 4)).value, ParseInt(Slice(data, 4, 7)).value, ParseInt(Slice(data, 7, 10)).value)
      else p.colourFormatted;
    p.(properties := props, colourFormatted := colour, status := AllSet(props))
  }

  /** After `update_data`, the player is ready exactly when the stored payload
      is non-empty (or the tag is the kill counter) and every other attribute
      except the kill counter was already set. */
  lemma UpdateDataStatus(p: Player, data: string)
    requires |data| >= 1
    requires data[0] == 'c' ==> ColourParses(data)
    ensures UpdateData(p, data).status <==>
              && (data[0] == 'k' || |data| > 1)
              && forall t | t in p.properties && t != 'k' && t != data[0] :: Truthy(p.properties[t])
  {
    var v := StrVal(data[1..]);
    assert Truthy(v) <==> |data| > 1;
    assert UpdateData(p, data).status == AllSet(p.properties[data[0] := v]);
    AllSetAfterStore(p.properties, data[0], v);
  }

  /** `update_data` stores a string, so truthy values stay strings. */
  lemma UpdateDataText(p: Player, data: string)
    requires |data| >= 1
    requires data[0] == 'c' ==> ColourParses(data)
    requires TextValued(p)
    ensures TextValued(UpdateData(p, data))
  {
    var r := UpdateData(p, data);
    forall t | t in r.properties && Truthy(r.properties[t])
      ensures r.properties[t].StrVal?
    {
      if t != data[0] {
        assert r.properties[t] == p.properties[t];
      }
    }
  }

  /** `reset_player()`: back to the unset attributes, keeping the identity, the
      connection and the pending queues. */
  function ResetPlayer(p: Player): (r: Player)
    ensures r.properties.Keys == BaseTags
    ensures forall t | t in r.properties :: !Truthy(r.properties[t])
    ensures r.properties['k'] == IntVal(0) && r.properties['h'] == FalseVal
    ensures r.colourFormatted == NoColour && !r.status
    ensures r.identity == p.identity && r.connection == p.connection && r.update == p.update
    ensures TextValued(r)
  {
    p.(properties := map['c' := FalseVal, 'n' := FalseVal, 'p' := FalseVal, 'h' := FalseVal, 'k' := IntVal(0)],
       colourFormatted := NoColour,
       status := false)
  }

  /** The tags queued for `subject`, or none. */
  function PendingFor(p: Player, subject: Id): seq<char>
  {
    if subject in p.update.vals then p.update.vals[subject] else []
  }

  /** `update[subject].append(tag)`, or `update[subject] = [tag]` for a new subject. */
  function Enqueue(p: Player, subject: Id, tag: char): (r: Player)
    ensures PendingFor(r, subject) == PendingFor(p, subject) + [tag]
    ensures forall s | s != subject :: PendingFor(r, s) == PendingFor(p, s)
    ensures r.update.vals.Keys == p.update.vals.Keys + {subject}
    ensures subject in p.update.vals ==> r.update.keys == p.update.keys
    ensures subject !in p.update.vals ==> r.update.keys == p.update.keys + [subject]
    ensures r == p.(update := r.update)
  {
    p.(update := Put(p.update, subject, PendingFor(p, subject) + [tag]))
  }

  /** `update[subject] = tags`, discarding whatever was queued before. */
  function Overwrite(p: Player, subject: Id, tags: seq<char>): (r: Player)
    ensures PendingFor(r, subject) == tags
    ensures forall s | s != subject :: PendingFor(r, s) == PendingFor(p, s)
    ensures r.update.vals.Keys == p.update.vals.Keys + {subject}
    ensures subject in p.update.vals ==> r.update.keys == p.update.keys
    ensures subject !in p.update.vals ==> r.update.keys == p.update.keys + [subject]
    ensures r == p.(update := r.update)
  {
    p.(update := Put(p.update, subject, tags))
  }

  /** `all(...)` after storing one value: the new value counts unless it is
      the kill counter, and the other values count as before. */
  lemma AllSetAfterStore(props: map<char, Value>, tag: char, v: Value)
    ensures AllSet(props[tag := v]) <==>
              && (tag == 'k' || Truthy(v))
              && forall t | t in props && t != 'k' && t != tag :: Truthy(props[t])
  {
    var q := props[tag := v];
    if (tag == 'k' || Truthy(v)) && forall t | t in props && t != 'k' && t != tag :: Truthy(props[t]) {
      forall t | t in q && t != 'k'
        ensures Truthy(q[t])
      {
        if t != tag {
          assert t in props;
        }
      }
    }
    if AllSet(q) {
      if tag != 'k' {
        assert tag in q;
      }
      forall t | t in props && t != 'k' && t != tag
        ensures Truthy(props[t])
      {
        assert q[t] == props[t];
      }
    }
  }

  /** With only the five base tags stored, `all(...)` means colour, name,
      position and health are all set; the kill counter plays no part. */
  lemma AllSetBase(props: map<char, Value>)
    requires props.Keys == BaseTags
    ensures AllSet(props) <==>
              Truthy(props['c']) && Truthy(props['n']) && Truthy(props['p']) && Truthy(props['h'])
  {
    if Truthy(props['c']) && Truthy(props['n']) && Truthy(props['p']) && Truthy(props['h']) {
      forall t | t in props && t != 'k'
        ensures Truthy(props[t])
      {
        assert t in BaseTags;
      }
    }
  }

  /** A player who has only ever sent attribute frames is ready exactly when
      colour, name, position and health are all set. */
  lemma StatusMeansReady(p: Player, data: string)
    requires p.properties.Keys == BaseTags
    requires |data| >= 1 && data[0] in BaseTags
    requires data[0] == 'c' ==> ColourParses(data)
    ensures var r := UpdateData(p, data);
            r.status <==>
              && Truthy(r.properties['c']) && Truthy(r.properties['n'])
              && Truthy(r.properties['p']) && Truthy(r.properties['h'])
  {
    var props := p.properties[data[0] := StrVal(data[1..])];
    assert props.Keys == BaseTags;
    AllSetBase(props);
  }

  /** Any tag other than `k` counts towards `status`: a laser frame or a
      laser-gone frame with an empty payload makes the player not ready. */
  lemma EmptyPayloadClearsStatus(p: Player, tag: char)
    requires tag != 'k' && tag != 'c'
    ensures !UpdateData(p, [tag]).status
  {
    assert tag in UpdateData(p, [tag]).properties;
  }
}
