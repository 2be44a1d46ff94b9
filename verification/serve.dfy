/** The tick of `serve_clients` with the sockets taken out: the text a client
    sent, split into frames and applied in order, and the frames one
    observer is sent back together with what stays queued for it. */
module Serve {

  import opened PyText
  import opened OrderedMaps
  import opened Players
  import opened Lasers
  import opened Registry

  // ------------------------------------------------------------------ inbound

  /** One piece of `data.split("+")` can be handled without an uncaught
      exception: blank pieces are skipped, `x` needs the sender to be
      registered (`sock_to_id` would give None and `players[None]` fails),
      anything else needs what `process_data` needs. */
  predicate FrameOk(s: Server, item: string, client: Conn)
  {
    var t := Strip(item);
    if t == "" then true
    else if t == "x" then SockToId(s.players, client).Some?
    else ProcessOk(s, t, client)
  }

  /** The body of the receive loop for one piece. */
  function Handle(s: Server, item: string, client: Conn): (r: Server)
    requires FrameOk(s, item, client)
    ensures r.players.vals.Keys <= s.players.vals.Keys
  {
    var t := Strip(item);
    if t == "" then s
    else if t == "x" then RemovePlayer(s, SockToId(s.players, client).value)
    else ProcessData(s, t, client)
  }

  /** Every piece, in the state the earlier pieces left behind, can be handled. */
  predicate DispatchOk(s: Server, items: seq<string>, client: Conn)
    decreases |items|
  {
    |items| == 0 || (FrameOk(s, items[0], client) && DispatchOk(Handle(s, items[0], client), items[1..], client))
  }

  /** The pieces handled left to right. */
  function Dispatch(s: Server, items: seq<string>, client: Conn): (r: Server)
    requires DispatchOk(s, items, client)
    ensures r.players.vals.Keys <= s.players.vals.Keys
    decreases |items|
  {
    if |items| == 0 then s else Dispatch(Handle(s, items[0], client), items[1..], client)
  }

  predicate ReceiveOk(s: Server, client: Conn, data: string)
  {
    DispatchOk(s, Split(data, '+'), client)
  }

  /** `for item in data.split("+")` over what one `recv` returned. Inbound
      text never registers a player; only the listening socket does. */
  function Receive(s: Server, client: Conn, data: string): (r: Server)
    requires ReceiveOk(s, client, data)
    ensures r.players.vals.Keys <= s.players.vals.Keys
  {
    Dispatch(s, Split(data, '+'), client)
  }

  /** Handling a list of pieces is handling its two halves one after the
      other, and it succeeds exactly when both halves do. */
  lemma {:induction false} DispatchAppend(s: Server, xs: seq<string>, ys: seq<string>, client: Conn)
    ensures DispatchOk(s, xs + ys, client) <==> DispatchOk(s, xs, client) && DispatchOk(Dispatch(s, xs, client), ys, client)
    ensures DispatchOk(s, xs + ys, client) ==> Dispatch(s, xs + ys, client) == Dispatch(Dispatch(s, xs, client), ys, client)
    decreases |xs|
  {
    if |xs| > 0 {
      assert (xs + ys)[0] == xs[0] && (xs + ys)[1..] == xs[1..] + ys;
      if FrameOk(s, xs[0], client) {
        DispatchAppend(Handle(s, xs[0], client), xs[1..], ys, client);
      }
    } else {
      assert xs + ys == ys;
    }
  }

  /** Two chunks of text joined by a `+` are received as the first chunk
      followed by the second: the frame boundary is where the `+` is. */
  lemma ReceiveConcat(s: Server, client: Conn, a: string, b: string)
    ensures ReceiveOk(s, client, a + "+" + b) <==> ReceiveOk(s, client, a) && ReceiveOk(Receive(s, client, a), client, b)
    ensures ReceiveOk(s, client, a + "+" + b) ==>
              Receive(s, client, a + "+" + b) == Receive(Receive(s, client, a), client, b)
  {
    SplitConcat(a, b, '+');
    DispatchAppend(s, Split(a, '+'), Split(b, '+'), client);
  }

  /** Text made only of `+` and whitespace splits into whitespace-only pieces. */
  lemma {:induction false} SplitBlank(s: string)
    requires forall i | 0 <= i < |s| :: s[i] == '+' || IsSpace(s[i])
    ensures forall j | 0 <= j < |Split(s, '+')| :: AllSpaces(Split(s, '+')[j])
    decreases |s|
  {
    if |s| > 0 {
      SplitBlank(s[1..]);
    }
  }

  lemma {:induction false} DispatchBlank(s: Server, items: seq<string>, client: Conn)
    requires forall j | 0 <= j < |items| :: AllSpaces(items[j])
    ensures DispatchOk(s, items, client) && Dispatch(s, items, client) == s
    decreases |items|
  {
    if |items| > 0 {
      BlankStrips(items[0]);
      DispatchBlank(s, items[1..], client);
    }
  }

  /** Separators and whitespace alone change nothing, whoever sent them. */
  lemma ReceiveBlank(s: Server, client: Conn, data: string)
    requires forall i | 0 <= i < |data| :: data[i] == '+' || IsSpace(data[i])
    ensures ReceiveOk(s, client, data) && Receive(s, client, data) == s
  {
    SplitBlank(data);
    DispatchBlank(s, Split(data, '+'), client);
  }

  /** After `remove_player`, a connection that belonged to the removed
      player alone leads `sock_to_id` nowhere. */
  lemma RemovedIsUnknown(s: Server, client: Conn)
    requires ConnUnique(s.players) && SockToId(s.players, client).Some?
    ensures SockToId(RemovePlayer(s, SockToId(s.players, client).value).players, client).None?
  {
    var id := SockToId(s.players, client).value;
    var r := RemovePlayer(s, id);
    forall k | k in r.players.vals
      ensures r.players.vals[k].connection != client
    {
      RemovePlayerQueue(s, id, k, id);
    }
  }

  /** An `x` frame removes the sender. */
  lemma QuitRemoves(s: Server, client: Conn)
    requires SockToId(s.players, client).Some?
    ensures FrameOk(s, "x", client) && Handle(s, "x", client) == RemovePlayer(s, SockToId(s.players, client).value)
  {
    StripUnpadded("x");
  }

  /** Once no player is behind the connection, no non-blank frame from it
      can be handled. */
  lemma UnknownRejects(s: Server, item: string, client: Conn)
    requires SockToId(s.players, client).None? && Strip(item) != ""
    ensures !FrameOk(s, item, client)
  {
  }

  /** An `x` frame removes the sender, so any further non-blank frame in the
      same text finds no player behind the connection and raises. */
  lemma QuitEndsText(s: Server, client: Conn, rest: string)
    requires ConnUnique(s.players) && SockToId(s.players, client).Some?
    requires Strip(rest) != ""
    ensures FrameOk(s, "x", client) && Handle(s, "x", client) == RemovePlayer(s, SockToId(s.players, client).value)
    ensures !DispatchOk(s, ["x", rest], client)
  {
    QuitRemoves(s, client);
    RemovedIsUnknown(s, client);
    UnknownRejects(Handle(s, "x", client), rest, client);
    assert ["x", rest][1..] == [rest];
  }

  /** A sequence of frames keeps every record well formed and every
      connection with one player. */
  lemma {:induction false} DispatchKeepsRoster(s: Server, items: seq<string>, client: Conn)
    requires DispatchOk(s, items, client) && RosterOk(s.players) && ConnUnique(s.players)
    ensures RosterOk(Dispatch(s, items, client).players) && ConnUnique(Dispatch(s, items, client).players)
    decreases |items|
  {
    if |items| > 0 {
      var t := Strip(items[0]);
      if t == "x" {
        RemovePlayerKeepsRoster(s, SockToId(s.players, client).value);
      } else if t != "" {
        ProcessDataKeepsRoster(s, t, client);
      }
      DispatchKeepsRoster(Handle(s, items[0], client), items[1..], client);
    }
  }

  // ----------------------------------------------------------------- outbound

  /** The liveness probe: first frame of every pass, and what `remove_dead`
      sends to every player when a queue names a missing player or tag. */
  const Ping: string := "+u"

  /** `"+v" + laser.data`: the laser's id comes right after the marker. */
  function LaserFrame(l: Laser): (f: string)
    ensures |f| == 2 + |Data(l)| && f[..2] == "+v" && f[2..] == Data(l)
    ensures f[2..2 + |l.laserId|] == l.laserId
  {
    "+v" + Data(l)
  }

  /** Sent for a queued `z`, before the subject is looked up: the subject
      between the separator and a `z`. */
  function ZFrame(subject: Id): (f: string)
    ensures |f| == |subject| + 2 && f[0] == '+' && f[1..|subject| + 1] == subject && f[|subject| + 1] == 'z'
  {
    "+" + subject + "z"
  }

  /** One attribute of `subject`: the separator, the subject, the tag and
      the value, each readable back at a fixed offset. */
  function Sent(subject: Id, tag: char, value: string): (f: string)
    ensures |f| == |subject| + 2 + |value| && f[0] == '+'
    ensures f[1..|subject| + 1] == subject && f[|subject| + 1] == tag && f[|subject| + 2..] == value
  {
    "+" + subject + [tag] + value
  }

  /** Every truthy value is a string, so every frame can be built. */
  ghost predicate Printable(ps: Roster)
  {
    forall id | id in ps.vals :: TextValued(ps.vals[id])
  }

  /** The subject exists and has a truthy value under `tag`: a frame goes
      out and one occurrence of the tag leaves the queue. */
  predicate Deliverable(ps: Roster, subject: Id, tag: char)
  {
    subject in ps.vals && tag in ps.vals[subject].properties && Truthy(ps.vals[subject].properties[tag])
  }

  /** `del tags[tags.index(tag)]`: the first occurrence goes. */
  function DeleteFirst(tags: seq<char>, tag: char): (r: seq<char>)
    ensures |r| == if tag in tags then |tags| - 1 else |tags|
  {
    if |tags| == 0 then []
    else if tags[0] == tag then tags[1..]
    else [tags[0]] + DeleteFirst(tags[1..], tag)
  }

  /** Exactly one occurrence of the tag goes, the rest stay. */
  lemma {:induction false} DeleteFirstCount(tags: seq<char>, tag: char)
    ensures tag in tags ==> multiset(DeleteFirst(tags, tag)) == multiset(tags) - multiset{tag}
    ensures tag !in tags ==> DeleteFirst(tags, tag) == tags
  {
    if |tags| > 0 {
      assert tags == [tags[0]] + tags[1..];
      DeleteFirstCount(tags[1..], tag);
    }
  }

  /** `tags.index(tag)`: the position of the first occurrence. */
  function Index(tags: seq<char>, tag: char): (i: nat)
    requires tag in tags
    ensures i < |tags| && tags[i] == tag && tag !in tags[..i]
  {
    if tags[0] == tag then 0
    else
      var j := Index(tags[1..], tag);
      assert tags[..j + 1] == [tags[0]] + tags[1..][..j];
      j + 1
  }

  /** The occurrence that goes is the one `index` finds, and the tags before
      and after it keep their order. */
  lemma {:induction false} DeleteFirstAt(tags: seq<char>, tag: char)
    requires tag in tags
    ensures DeleteFirst(tags, tag) == tags[..Index(tags, tag)] + tags[Index(tags, tag) + 1..]
  {
    if tags[0] != tag {
      var rest := tags[1..];
      var j := Index(rest, tag);
      DeleteFirstAt(rest, tag);
      assert tags[..j + 1] == [tags[0]] + rest[..j];
      assert tags[j + 2..] == rest[j + 1..];
      Associative([tags[0]], rest[..j], rest[j + 1..]);
    }
  }

  /** The frames a queue yields and what is left of it. */
  datatype Drained = Drained(frames: seq<string>, left: seq<char>)

  /** The notice a queued `z` produces, whatever follows. */
  function Notice(subject: Id, tag: char): seq<string>
  {
    if tag == 'z' then [ZFrame(subject)] else []
  }

  /** `for request in update[subject]`, resumed at position `i` of the list
      as it stands: Python's list iterator moves on by one after every
      step, deletion or not. A missing subject or tag raises KeyError,
      which ends this subject's loop and sends a probe. */
  function DrainFrom(ps: Roster, subject: Id, tags: seq<char>, i: nat): (r: Drained)
    requires subject in ps.vals ==> TextValued(ps.vals[subject])
    ensures |r.left| <= |tags|
    decreases |tags| - i
  {
    if i >= |tags| then Drained([], tags)
    else
      var tag := tags[i];
      if subject !in ps.vals || tag !in ps.vals[subject].properties then Drained(Notice(subject, tag) + [Ping], tags)
      else
        var v := ps.vals[subject].properties[tag];
        if Truthy(v) then
          var rest := DrainFrom(ps, subject, DeleteFirst(tags, tag), i + 1);
          Drained(Notice(subject, tag) + [Sent(subject, tag, v.s)] + rest.frames, rest.left)
        else
          var rest := DrainFrom(ps, subject, tags, i + 1);
          Drained(Notice(subject, tag) + rest.frames, rest.left)
  }

  /** The step for a deliverable tag: notice, frame, one occurrence gone. */
  lemma SendStep(ps: Roster, subject: Id, tags: seq<char>, i: nat, done: seq<string>)
    requires subject in ps.vals && TextValued(ps.vals[subject])
    requires i < |tags| && Deliverable(ps, subject, tags[i])
    ensures var rest := DrainFrom(ps, subject, DeleteFirst(tags, tags[i]), i + 1);
            var sent := Sent(subject, tags[i], ps.vals[subject].properties[tags[i]].s);
            && done + DrainFrom(ps, subject, tags, i).frames == (done + Notice(subject, tags[i]) + [sent]) + rest.frames
            && DrainFrom(ps, subject, tags, i).left == rest.left
  {
    var tag := tags[i];
    var rest := DrainFrom(ps, subject, DeleteFirst(tags, tag), i + 1);
    var front := Notice(subject, tag) + [Sent(subject, tag, ps.vals[subject].properties[tag].s)];
    assert DrainFrom(ps, subject, tags, i) == Drained(front + rest.frames, rest.left);
    Associative(done, front, rest.frames);
    Associative(done, Notice(subject, tag), [Sent(subject, tag, ps.vals[subject].properties[tag].s)]);
  }

  /** The step for a falsy value: notice only, the queue untouched. */
  lemma KeepStep(ps: Roster, subject: Id, tags: seq<char>, i: nat, done: seq<string>)
    requires subject in ps.vals && TextValued(ps.vals[subject])
    requires i < |tags| && tags[i] in ps.vals[subject].properties && !Truthy(ps.vals[subject].properties[tags[i]])
    ensures done + DrainFrom(ps, subject, tags, i).frames == (done + Notice(subject, tags[i])) + DrainFrom(ps, subject, tags, i + 1).frames
    ensures DrainFrom(ps, subject, tags, i).left == DrainFrom(ps, subject, tags, i + 1).left
  {
    var rest := DrainFrom(ps, subject, tags, i + 1);
    assert DrainFrom(ps, subject, tags, i) == Drained(Notice(subject, tags[i]) + rest.frames, rest.left);
    Associative(done, Notice(subject, tags[i]), rest.frames);
  }


  /** One subject's queue for one pass: the index loop of `serve_clients`. */
  method SendPending(ps: Roster, subject: Id, tags: seq<char>) returns (frames: seq<string>, left: seq<char>)
    requires subject in ps.vals ==> TextValued(ps.vals[subject])
    ensures Drained(frames, left) == DrainFrom(ps, subject, tags, 0)
  {
    frames := [];
    left := tags;
    var i := 0;
    while i < |left|
      invariant frames + DrainFrom(ps, subject, left, i).frames == DrainFrom(ps, subject, tags, 0).frames
      invariant DrainFrom(ps, subject, left, i).left == DrainFrom(ps, subject, tags, 0).left
      decreases |left| - i
    {
      var tag := left[i];
      if subject !in ps.vals || tag !in ps.vals[subject].properties {
        Associative(frames, Notice(subject, tag), [Ping]);
        frames := frames + Notice(subject, tag) + [Ping];
        return;
      }
      var v := ps.vals[subject].properties[tag];
      if Truthy(v) {
        SendStep(ps, subject, left, i, frames);
        frames := frames + Notice(subject, tag) + [Sent(subject, tag, v.s)];
        left := DeleteFirst(left, tag);
      } else {
        KeepStep(ps, subject, left, i, frames);
        frames := frames + Notice(subject, tag);
      }
      i := i + 1;
    }
  }

  /** A pass only ever takes tags out of a queue. */
  lemma {:induction false} DrainShrinks(ps: Roster, subject: Id, tags: seq<char>, i: nat)
    requires subject in ps.vals ==> TextValued(ps.vals[subject])
    ensures multiset(DrainFrom(ps, subject, tags, i).left) <= multiset(tags)
    decreases |tags| - i
  {
    if i < |tags| && subject in ps.vals && tags[i] in ps.vals[subject].properties {
      var t := tags[i];
      if Truthy(ps.vals[subject].properties[t]) {
        DeleteFirstCount(tags, t);
        DrainShrinks(ps, subject, DeleteFirst(tags, t), i + 1);
      } else {
        DrainShrinks(ps, subject, tags, i + 1);
      }
    }
  }

  /** Only deliverable tags leave the queue; a tag whose value is falsy, or
      that names a missing subject or attribute, keeps every occurrence. */
  lemma {:induction false} DrainKeepsUndeliverable(ps: Roster, subject: Id, tags: seq<char>, i: nat, tag: char)
    requires subject in ps.vals ==> TextValued(ps.vals[subject])
    requires !Deliverable(ps, subject, tag)
    ensures multiset(DrainFrom(ps, subject, tags, i).left)[tag] == multiset(tags)[tag]
    decreases |tags| - i
  {
    if i < |tags| && subject in ps.vals && tags[i] in ps.vals[subject].properties {
      var t := tags[i];
      if Truthy(ps.vals[subject].properties[t]) {
        assert t != tag;
        DeleteFirstCount(tags, t);
        DrainKeepsUndeliverable(ps, subject, DeleteFirst(tags, t), i + 1, tag);
      } else {
        DrainKeepsUndeliverable(ps, subject, tags, i + 1, tag);
      }
    }
  }

  /** Every frame of a pass is a probe, a `z` notice, or the current truthy
      value of one of the subject's attributes. */
  ghost predicate FrameFrom(ps: Roster, subject: Id, f: string)
  {
    || f == Ping
    || f == ZFrame(subject)
    || exists t | Deliverable(ps, subject, t) && ps.vals[subject].properties[t].StrVal? ::
         f == Sent(subject, t, ps.vals[subject].properties[t].s)
  }

  lemma {:induction false} DrainFramesFrom(ps: Roster, subject: Id, tags: seq<char>, i: nat)
    requires subject in ps.vals ==> TextValued(ps.vals[subject])
    ensures forall j | 0 <= j < |DrainFrom(ps, subject, tags, i).frames| :: FrameFrom(ps, subject, DrainFrom(ps, subject, tags, i).frames[j])
    decreases |tags| - i
  {
    if i < |tags| && subject in ps.vals && tags[i] in ps.vals[subject].properties {
      var t := tags[i];
      var v := ps.vals[subject].properties[t];
      if Truthy(v) {
        DrainFramesFrom(ps, subject, DeleteFirst(tags, t), i + 1);
        assert FrameFrom(ps, subject, Sent(subject, t, v.s));
      } else {
        DrainFramesFrom(ps, subject, tags, i + 1);
      }
    }
  }

  /** The tags that a list of frames about `subject` delivers, read off the
      frames alone: an attribute frame is `+`, the subject, the tag and a
      non-empty value, so it is longer than the `z` notice and the probe,
      and its tag sits just after the subject. */
  function Delivered(subject: Id, frames: seq<string>): (r: seq<char>)
    ensures |r| <= |frames|
  {
    if |frames| == 0 then []
    else
      var f := frames[0];
      (if |f| > |subject| + 2 then [f[|subject| + 1]] else []) + Delivered(subject, frames[1..])
  }

  lemma {:induction false} DeliveredAppend(subject: Id, a: seq<string>, b: seq<string>)
    ensures Delivered(subject, a + b) == Delivered(subject, a) + Delivered(subject, b)
    decreases |a|
  {
    if |a| == 0 {
      assert a + b == b;
    } else {
      assert (a + b)[0] == a[0] && (a + b)[1..] == a[1..] + b;
      DeliveredAppend(subject, a[1..], b);
    }
  }

  /** The probe and the `z` notice deliver nothing; an attribute frame with
      a non-empty value delivers its tag. */
  lemma DeliveredFrames(subject: Id, tag: char, value: string)
    requires value != ""
    ensures Delivered(subject, [Ping]) == []
    ensures Delivered(subject, Notice(subject, tag)) == []
    ensures Delivered(subject, [Sent(subject, tag, value)]) == [tag]
  {
    var f := Sent(subject, tag, value);
    assert f[|subject| + 1] == tag;
    var one: seq<string> := [f];
    assert |one[1..]| == 0;
    if tag == 'z' {
      assert |Notice(subject, tag)[1..]| == 0;
    }
  }

  /** Every frame sent pays for one tag: the tags the frames of a pass
      deliver and the tags left over make up the queue exactly. A tag
      leaves the queue only when its frame goes out, and each frame takes
      out one occurrence. */
  lemma {:induction false} DrainAccounts(ps: Roster, subject: Id, tags: seq<char>, i: nat)
    requires subject in ps.vals ==> TextValued(ps.vals[subject])
    ensures multiset(tags) == multiset(DrainFrom(ps, subject, tags, i).left) + multiset(Delivered(subject, DrainFrom(ps, subject, tags, i).frames))
    decreases |tags| - i
  {
    if i < |tags| {
      var tag := tags[i];
      if subject !in ps.vals || tag !in ps.vals[subject].properties {
        assert DrainFrom(ps, subject, tags, i) == Drained(Notice(subject, tag) + [Ping], tags);
        DeliveredFrames(subject, tag, "-");
        DeliveredAppend(subject, Notice(subject, tag), [Ping]);
      } else if Truthy(ps.vals[subject].properties[tag]) {
        DrainAccounts(ps, subject, DeleteFirst(tags, tag), i + 1);
        AccountSend(ps, subject, tags, i);
      } else {
        DrainAccounts(ps, subject, tags, i + 1);
        AccountKeep(ps, subject, tags, i);
      }
    }
  }

  /** A delivery adds its tag to what the frames deliver and takes one
      occurrence out of the queue. */
  lemma AccountSend(ps: Roster, subject: Id, tags: seq<char>, i: nat)
    requires subject in ps.vals && TextValued(ps.vals[subject])
    requires i < |tags| && Deliverable(ps, subject, tags[i])
    ensures var rest := DrainFrom(ps, subject, DeleteFirst(tags, tags[i]), i + 1);
            var d := DrainFrom(ps, subject, tags, i);
            && d.left == rest.left
            && Delivered(subject, d.frames) == [tags[i]] + Delivered(subject, rest.frames)
            && multiset(tags) == multiset(DeleteFirst(tags, tags[i])) + multiset{tags[i]}
  {
    var tag := tags[i];
    var v := ps.vals[subject].properties[tag];
    var rest := DrainFrom(ps, subject, DeleteFirst(tags, tag), i + 1);
    var front := Notice(subject, tag) + [Sent(subject, tag, v.s)];
    assert DrainFrom(ps, subject, tags, i) == Drained(front + rest.frames, rest.left);
    DeliveredFrames(subject, tag, v.s);
    DeliveredAppend(subject, front, rest.frames);
    DeliveredAppend(subject, Notice(subject, tag), [Sent(subject, tag, v.s)]);
    DeleteFirstCount(tags, tag);
  }

  /** A falsy value delivers nothing and keeps the queue. */
  lemma AccountKeep(ps: Roster, subject: Id, tags: seq<char>, i: nat)
    requires subject in ps.vals && TextValued(ps.vals[subject])
    requires i < |tags| && tags[i] in ps.vals[subject].properties && !Truthy(ps.vals[subject].properties[tags[i]])
    ensures var rest := DrainFrom(ps, subject, tags, i + 1);
            var d := DrainFrom(ps, subject, tags, i);
            d.left == rest.left && Delivered(subject, d.frames) == Delivered(subject, rest.frames)
  {
    var tag := tags[i];
    var rest := DrainFrom(ps, subject, tags, i + 1);
    assert DrainFrom(ps, subject, tags, i) == Drained(Notice(subject, tag) + rest.frames, rest.left);
    DeliveredFrames(subject, tag, "-");
    DeliveredAppend(subject, Notice(subject, tag), rest.frames);
  }

  /** The tags of a queue all have truthy values on a subject that exists. */
  ghost predicate AllReady(ps: Roster, subject: Id, tags: seq<char>)
  {
    forall j | 0 <= j < |tags| :: Deliverable(ps, subject, tags[j])
  }

  lemma DeleteFirstReady(ps: Roster, subject: Id, tags: seq<char>, tag: char)
    requires AllReady(ps, subject, tags)
    ensures AllReady(ps, subject, DeleteFirst(tags, tag))
  {
    var r := DeleteFirst(tags, tag);
    DeleteFirstCount(tags, tag);
    forall j | 0 <= j < |r|
      ensures Deliverable(ps, subject, r[j])
    {
      assert r[j] in multiset(r);
    }
  }

  /** Because every delivery shifts the list under the iterator, a queue
      whose tags are all ready loses only every other one per pass: from
      position `i`, half of the remaining tags, rounded up, go out. */
  lemma {:induction false} DrainHalves(ps: Roster, subject: Id, tags: seq<char>, i: nat)
    requires subject in ps.vals ==> TextValued(ps.vals[subject])
    requires AllReady(ps, subject, tags)
    ensures |DrainFrom(ps, subject, tags, i).left| == if i >= |tags| then |tags| else |tags| - (|tags| - i + 1) / 2
    decreases |tags| - i
  {
    if i < |tags| {
      var t := tags[i];
      assert Deliverable(ps, subject, t);
      DeleteFirstReady(ps, subject, tags, t);
      DrainHalves(ps, subject, DeleteFirst(tags, t), i + 1);
    }
  }

  /** The join handshake: with colour, name, position and health all set,
      the four queued tags take three passes to drain, not one. The first
      pass sends `c` and `p` and skips `n` and `h`. */
  lemma BootstrapNeedsThreePasses(ps: Roster, subject: Id)
    requires subject in ps.vals && TextValued(ps.vals[subject])
    requires AllReady(ps, subject, Bootstrap)
    ensures DrainFrom(ps, subject, Bootstrap, 0).left == ['n', 'h']
    ensures DrainFrom(ps, subject, ['n', 'h'], 0).left == ['h']
    ensures DrainFrom(ps, subject, ['h'], 0).left == []
  {
    assert Deliverable(ps, subject, Bootstrap[0]) && Deliverable(ps, subject, Bootstrap[2]);
    assert Deliverable(ps, subject, Bootstrap[1]) && Deliverable(ps, subject, Bootstrap[3]);
    FirstPass(ps, subject);
    ReadyStep(ps, subject, ['n', 'h'], 0, ['h']);
    ReadyStep(ps, subject, ['h'], 0, []);
  }

  /** The first pass over the bootstrap queue sends colour and position,
      in that order, and leaves name and health queued. */
  lemma FirstPass(ps: Roster, subject: Id)
    requires subject in ps.vals && TextValued(ps.vals[subject])
    requires Deliverable(ps, subject, 'c') && Deliverable(ps, subject, 'p')
    ensures DrainFrom(ps, subject, Bootstrap, 0).left == ['n', 'h']
    ensures var props := ps.vals[subject].properties;
            DrainFrom(ps, subject, Bootstrap, 0).frames == [Sent(subject, 'c', props['c'].s), Sent(subject, 'p', props['p'].s)]
  {
    ReadyStep(ps, subject, Bootstrap, 0, ['n', 'p', 'h']);
    ReadyStep(ps, subject, ['n', 'p', 'h'], 1, ['n', 'h']);
    var props := ps.vals[subject].properties;
    assert DrainFrom(ps, subject, ['n', 'h'], 2) == Drained([], ['n', 'h']);
    assert DrainFrom(ps, subject, ['n', 'p', 'h'], 1).frames == [Sent(subject, 'p', props['p'].s)];
  }

  /** A deliverable tag at position `i` is sent and removed, and the loop
      goes on at `i + 1`. */
  lemma ReadyStep(ps: Roster, subject: Id, tags: seq<char>, i: nat, next: seq<char>)
    requires subject in ps.vals && TextValued(ps.vals[subject])
    requires i < |tags| && Deliverable(ps, subject, tags[i]) && next == DeleteFirst(tags, tags[i])
    ensures DrainFrom(ps, subject, tags, i).left == DrainFrom(ps, subject, next, i + 1).left
  {
  }

  /** The `["z"]` left by `remove_player` is never cleared: each pass sends
      the notice, fails to look the subject up, probes, and keeps it. */
  lemma ZNeverDequeued(ps: Roster, subject: Id)
    requires subject !in ps.vals
    ensures DrainFrom(ps, subject, ['z'], 0) == Drained([ZFrame(subject), Ping], ['z'])
  {
  }

  /** A missing subject stops the loop at the first tag with the queue intact. */
  lemma DrainAbsent(ps: Roster, subject: Id, tags: seq<char>)
    requires subject !in ps.vals && |tags| > 0
    ensures DrainFrom(ps, subject, tags, 0).left == tags
    ensures DrainFrom(ps, subject, tags, 0).frames == (if tags[0] == 'z' then [ZFrame(subject)] else []) + [Ping]
  {
  }

  /** `+v` frames for every laser, in insertion order. */
  function LaserFrames(ls: LaserTable): (fs: seq<string>)
    ensures |fs| == |ls.keys|
  {
    seq(|ls.keys|, i requires 0 <= i < |ls.keys| => LaserFrame(ls.vals[KeyAt(ls, i)]))
  }

  /** The frames of the queues from position `n` of the pending map onward,
      each queue drained from its start. */
  function PendingFrames(ps: Roster, q: Pending, n: nat): seq<string>
    requires Printable(ps)
    decreases |q.keys| - n
  {
    if n >= |q.keys| then []
    else DrainFrom(ps, KeyAt(q, n), q.vals[KeyAt(q, n)], 0).frames + PendingFrames(ps, q, n + 1)
  }

  /** The player a connection belongs to, once its queues are replaced. */
  function Requeued(s: Server, client: Conn, pending: Pending): (r: Server)
    requires SockToId(s.players, client).Some?
    ensures r.lasers == s.lasers && r.players.keys == s.players.keys
  {
    var id := SockToId(s.players, client).value;
    s.(players := Put(s.players, id, s.players.vals[id].(update := pending)))
  }

  /** `for laser in self.lasers.values()`: one `+v` frame per laser. */
  method LaserPass(ls: LaserTable) returns (frames: seq<string>)
    ensures frames == LaserFrames(ls)
  {
    frames := [];
    var j := 0;
    while j < |ls.keys|
      invariant j <= |ls.keys|
      invariant frames == LaserFrames(ls)[..j]
    {
      Snoc(LaserFrames(ls), j);
      frames := frames + [LaserFrames(ls)[j]];
      j := j + 1;
    }
    Snoc(LaserFrames(ls), j);
  }

  /** `for player_id in player_obj.update`: each queue in insertion order,
      each replaced by what its loop left. */
  method QueuePass(ps: Roster, q: Pending) returns (frames: seq<string>, pending: Pending)
    requires Printable(ps)
    ensures frames == PendingFrames(ps, q, 0)
    ensures pending.keys == q.keys
    ensures forall k | k in q.vals :: pending.vals[k] == DrainFrom(ps, k, q.vals[k], 0).left
  {
    frames := [];
    pending := q;
    var n := 0;
    while n < |q.keys|
      invariant n <= |q.keys|
      invariant pending.keys == q.keys && pending.vals.Keys == q.vals.Keys
      invariant forall m | 0 <= m < |q.keys| ::
                  pending.vals[KeyAt(q, m)] == if m < n then DrainFrom(ps, KeyAt(q, m), q.vals[KeyAt(q, m)], 0).left else q.vals[KeyAt(q, m)]
      invariant frames + PendingFrames(ps, q, n) == PendingFrames(ps, q, 0)
    {
      var subject := KeyAt(q, n);
      var sent, left := SendPending(ps, subject, q.vals[subject]);
      Associative(frames, sent, PendingFrames(ps, q, n + 1));
      forall m | 0 <= m < |q.keys| && m != n
        ensures KeyAt(q, m) != subject
      {
        DistinctKeys(q, m, n);
      }
      frames := frames + sent;
      pending := Put(pending, subject, left);
      n := n + 1;
    }
    forall k | k in q.vals
      ensures pending.vals[k] == DrainFrom(ps, k, q.vals[k], 0).left
    {
      var i := KeyIndex(q, k);
      assert KeyAt(q, i) == k;
    }
  }

  /** The write pass for one connection: a probe, every laser in order, then
      each queue of the connection's player in insertion order. Only that
      player's queues change, and each becomes what its loop left. */
  method Outbound(s: Server, client: Conn) returns (frames: seq<string>, r: Server)
    requires SockToId(s.players, client).Some? && Printable(s.players)
    ensures var q := s.players.vals[SockToId(s.players, client).value].update;
            frames == [Ping] + LaserFrames(s.lasers) + PendingFrames(s.players, q, 0)
    ensures var id := SockToId(s.players, client).value;
            var q := s.players.vals[id].update;
            && r.lasers == s.lasers && r.players.keys == s.players.keys
            && r.players.vals == s.players.vals[id := r.players.vals[id]]
            && r.players.vals[id] == s.players.vals[id].(update := r.players.vals[id].update)
            && r.players.vals[id].update.keys == q.keys
            && forall k | k in q.vals :: r.players.vals[id].update.vals[k] == DrainFrom(s.players, k, q.vals[k], 0).left
  {
    var shots := LaserPass(s.lasers);
    var id := SockToId(s.players, client).value;
    var sent, pending := QueuePass(s.players, s.players.vals[id].update);
    frames := [Ping] + shots + sent;
    r := Requeued(s, client, pending);
  }

  // -------------------------------------------------------------- one tick

  /** What `select` reported readable: the listening socket with a fresh
      connection to accept, or a client's socket with what `recv` returned. */
  datatype Event = Accept(conn: Conn) | Recv(conn: Conn, data: string)

  predicate EventOk(s: Server, e: Event)
  {
    match e
    case Accept(_) => CanAdd(s)
    case Recv(c, data) => ReceiveOk(s, c, data)
  }

  function Step(s: Server, e: Event): (r: Server)
    requires EventOk(s, e)
    ensures e.Recv? ==> r.players.vals.Keys <= s.players.vals.Keys
    ensures e.Accept? ==> r.players.vals.Keys == s.players.vals.Keys + {NextPlayerId(s)}
  {
    match e
    case Accept(c) => AddPlayer(s, c)
    case Recv(c, data) => Receive(s, c, data)
  }

  predicate InboundOk(s: Server, events: seq<Event>)
    decreases |events|
  {
    |events| == 0 || (EventOk(s, events[0]) && InboundOk(Step(s, events[0]), events[1..]))
  }

  /** How many of the events are accepts. */
  function Accepts(events: seq<Event>): nat
  {
    if |events| == 0 then 0 else (if events[0].Accept? then 1 else 0) + Accepts(events[1..])
  }

  /** `for event in inputs`, in the order `select` gave. Each accept
      registers one player and reads register none, so the roster grows by
      at most the number of accepts. */
  function Inbound(s: Server, events: seq<Event>): (r: Server)
    requires InboundOk(s, events)
    ensures |r.players.vals.Keys| <= |s.players.vals.Keys| + Accepts(events)
    decreases |events|
  {
    if |events| == 0 then s
    else
      var s1 := Step(s, events[0]);
      if events[0].Accept? then
        AddFresh(s.players.vals.Keys, NextPlayerId(s));
        Inbound(s1, events[1..])
      else
        SubsetCard(s1.players.vals.Keys, s.players.vals.Keys);
        Inbound(s1, events[1..])
  }

  lemma SubsetCard<T>(a: set<T>, b: set<T>)
    requires a <= b
    ensures |a| <= |b|
  {
    assert b == a + (b - a);
  }

  /** The first two lines of `serve_clients`. */
  function Tick(s: Server): (r: Server)
    ensures r.players == s.players && r.lasers == TickLasers(s.lasers)
  {
    s.(lasers := TickLasers(s.lasers))
  }

  /** Only the listening socket registers players: with no accepted
      connection, the players present afterwards were all present before. */
  lemma {:induction false} InboundOnlyAcceptAdds(s: Server, events: seq<Event>)
    requires InboundOk(s, events)
    requires forall j | 0 <= j < |events| :: events[j].Recv?
    ensures Inbound(s, events).players.vals.Keys <= s.players.vals.Keys
    decreases |events|
  {
    if |events| > 0 {
      InboundOnlyAcceptAdds(Step(s, events[0]), events[1..]);
    }
  }

  /** Connections accepted are new sockets, each a different one. */
  ghost predicate FreshAccepts(s: Server, events: seq<Event>)
  {
    forall j | 0 <= j < |events| && events[j].Accept? ::
      && (forall k | k in s.players.vals :: s.players.vals[k].connection != events[j].conn)
      && (forall m | 0 <= m < |events| && m != j :: events[m].conn != events[j].conn)
  }

  /** A tick's inbound events keep every record well formed and every
      connection with one player, as long as each accepted socket is new. */
  lemma {:induction false} InboundKeepsRoster(s: Server, events: seq<Event>)
    requires InboundOk(s, events) && RosterOk(s.players) && ConnUnique(s.players)
    requires FreshAccepts(s, events)
    ensures RosterOk(Inbound(s, events).players) && ConnUnique(Inbound(s, events).players)
    decreases |events|
  {
    if |events| > 0 {
      var e := events[0];
      var s1 := Step(s, e);
      match e {
        case Accept(c) =>
          AddPlayerKeepsRoster(s, c);
          AddPlayerFindsNewcomer(s, c);
        case Recv(c, data) =>
          DispatchKeepsRoster(s, Split(data, '+'), c);
      }
      StepKeepsFresh(s, events);
      InboundKeepsRoster(s1, events[1..]);
    }
  }

  /** The connections of the players after one event are the old ones plus,
      on an accept, the accepted one; so later accepts stay fresh. */
  lemma StepKeepsFresh(s: Server, events: seq<Event>)
    requires |events| > 0 && EventOk(s, events[0]) && RosterOk(s.players)
    requires FreshAccepts(s, events)
    ensures FreshAccepts(Step(s, events[0]), events[1..])
  {
    var e := events[0];
    var s1 := Step(s, e);
    var rest := events[1..];
    forall j | 0 <= j < |rest| && rest[j].Accept?
      ensures forall k | k in s1.players.vals :: s1.players.vals[k].connection != rest[j].conn
    {
      assert rest[j] == events[j + 1];
      forall k | k in s1.players.vals
        ensures s1.players.vals[k].connection != rest[j].conn
      {
        ConnectionOrigin(s, e, k);
      }
    }
  }

  /** Every player after an event was there before with the same
      connection, or is the one just accepted. */
  lemma ConnectionOrigin(s: Server, e: Event, k: Id)
    requires EventOk(s, e) && RosterOk(s.players) && k in Step(s, e).players.vals
    ensures || (k in s.players.vals && Step(s, e).players.vals[k].connection == s.players.vals[k].connection)
            || (e.Accept? && Step(s, e).players.vals[k].connection == e.conn)
  {
    match e {
      case Accept(c) =>
        AddPlayerKeepsPlayer(s, c, k);
      case Recv(c, data) =>
        DispatchConnections(s, Split(data, '+'), c, k);
    }
  }

  /** Handling frames never moves a player to another connection. */
  lemma {:induction false} DispatchConnections(s: Server, items: seq<string>, client: Conn, k: Id)
    requires DispatchOk(s, items, client) && RosterOk(s.players) && k in Dispatch(s, items, client).players.vals
    ensures k in s.players.vals && Dispatch(s, items, client).players.vals[k].connection == s.players.vals[k].connection
    decreases |items|
  {
    if |items| > 0 {
      var t := Strip(items[0]);
      var s1 := Handle(s, items[0], client);
      if t == "x" {
        RemovePlayerKeepsRoster(s, SockToId(s.players, client).value);
      } else if t != "" {
        ProcessDataKeepsRoster(s, t, client);
      }
      DispatchConnections(s1, items[1..], client, k);
      if t == "x" {
        RemovePlayerQueue(s, SockToId(s.players, client).value, k, k);
      } else if t != "" {
        ProcessDataConnection(s, t, client, k);
      }
    }
  }

  /** `r` is `mid` with only queues changed, and only the queues of players
      reached through a connection in `written`. */
  ghost predicate QueuesOnly(mid: Roster, r: Roster, written: seq<Conn>)
  {
    && r.keys == mid.keys
    && (forall k | k in mid.vals :: r.vals[k] == mid.vals[k].(update := r.vals[k].update))
    && (forall k | k in mid.vals && mid.vals[k].connection !in written :: r.vals[k] == mid.vals[k])
  }

  lemma QueuesOnlyPrintable(mid: Roster, r: Roster, written: seq<Conn>)
    requires QueuesOnly(mid, r, written) && Printable(mid)
    ensures Printable(r)
  {
    forall k | k in r.vals
      ensures TextValued(r.vals[k])
    {
      assert TextValued(mid.vals[k]);
    }
  }

  /** Writing to one more connection changes the queues of its player only. */
  lemma QueuesOnlyStep(mid: Roster, r: Roster, next: Roster, c: Conn, written: seq<Conn>)
    requires QueuesOnly(mid, r, written) && SockToId(r, c).Some?
    requires var id := SockToId(r, c).value;
             && next.keys == r.keys && next.vals == r.vals[id := next.vals[id]]
             && next.vals[id] == r.vals[id].(update := next.vals[id].update)
    ensures QueuesOnly(mid, next, written + [c])
  {
  }

  /** One call of `serve_clients`: check and advance the lasers, handle the
      readable sockets, then run the write pass for every connection that
      was writable. Every connection that still has a player is sent the
      same laser frames first. A connection whose player quit this tick
      was closed by `remove_player`, so its first `sendall` raises the
      OSError that ends its write pass: it is sent nothing. Only the queues
      of the players written to change, and nothing else. */
  method ServeClients(s: Server, events: seq<Event>, outputs: seq<Conn>) returns (sent: seq<seq<string>>, r: Server)
    requires InboundOk(Tick(s), events)
    requires Printable(Inbound(Tick(s), events).players)
    ensures var mid := Inbound(Tick(s), events);
            && |sent| == |outputs|
            && (forall j | 0 <= j < |outputs| && SockToId(mid.players, outputs[j]).Some? :: StartsWith(sent[j], [Ping] + LaserFrames(mid.lasers)))
            && (forall j | 0 <= j < |outputs| && SockToId(mid.players, outputs[j]).None? :: sent[j] == [])
            && (forall j | 0 <= j < |outputs| && SockToId(mid.players, outputs[j]).Some? && outputs[j] !in outputs[..j] :: sent[j] == FramesFor(mid, outputs[j]))
            && DrainedOnce(mid.players, r.players, outputs)
            && r.lasers == mid.lasers && r.players.keys == mid.players.keys
            && (forall k | k in mid.players.vals :: r.players.vals[k] == mid.players.vals[k].(update := r.players.vals[k].update))
            && (forall k | k in mid.players.vals && mid.players.vals[k].connection !in outputs :: r.players.vals[k] == mid.players.vals[k])
  {
    sent, r := WritePass(Inbound(Tick(s), events), outputs);
  }

  /** `for event in outputs`, on the state the inbound phase left. */
  method WritePass(mid: Server, outputs: seq<Conn>) returns (sent: seq<seq<string>>, r: Server)
    requires Printable(mid.players)
    ensures |sent| == |outputs|
    ensures forall j | 0 <= j < |outputs| && SockToId(mid.players, outputs[j]).Some? :: StartsWith(sent[j], [Ping] + LaserFrames(mid.lasers))
    ensures forall j | 0 <= j < |outputs| && SockToId(mid.players, outputs[j]).None? :: sent[j] == []
    ensures forall j | 0 <= j < |outputs| && SockToId(mid.players, outputs[j]).Some? && outputs[j] !in outputs[..j] :: sent[j] == FramesFor(mid, outputs[j])
    ensures r.lasers == mid.lasers
    ensures QueuesOnly(mid.players, r.players, outputs)
    ensures DrainedOnce(mid.players, r.players, outputs)
  {
    r := mid;
    sent := [];
    var j := 0;
    while j < |outputs|
      invariant j <= |outputs| && |sent| == j
      invariant SentSoFar(mid, outputs, sent)
      invariant r.lasers == mid.lasers
      invariant QueuesOnly(mid.players, r.players, outputs[..j])
      invariant DrainedOnce(mid.players, r.players, outputs[..j])
    {
      var frames, next := WriteTo(mid.players, r, outputs[j], outputs[..j]);
      Snoc(outputs, j);
      Written(sent, frames, mid, r, outputs);
      DrainedStep(mid.players, r.players, next.players, outputs, j);
      sent := sent + [frames];
      r := next;
      j := j + 1;
    }
    assert outputs[..j] == outputs;
  }

  /** The write pass for one output connection, on a state whose players
      differ from `mid` only in the queues of connections already written.
      The frames and the drained queues depend on the players' properties
      only, which `mid` shares. */
  method WriteTo(mid: Roster, r: Server, c: Conn, ghost written: seq<Conn>) returns (frames: seq<string>, next: Server)
    requires QueuesOnly(mid, r.players, written) && Printable(mid)
    ensures next.lasers == r.lasers
    ensures QueuesOnly(mid, next.players, written + [c])
    ensures SockToId(mid, c).Some? ==> [Ping] + LaserFrames(r.lasers) <= frames
    ensures SockToId(mid, c).None? ==> frames == [] && next == r
    ensures SockToId(mid, c).Some? ==>
              var id := SockToId(mid, c).value;
              var q := r.players.vals[id].update;
              && frames == [Ping] + LaserFrames(r.lasers) + PendingFrames(mid, q, 0)
              && next.players.vals == r.players.vals[id := next.players.vals[id]]
              && Drains(mid, q, next.players.vals[id].update)
  {
    SockToIdConnections(mid, r.players, c);
    if SockToId(r.players, c).None? {
      frames, next := [], r;
    } else {
      QueuesOnlyPrintable(mid, r.players, written);
      var id := SockToId(r.players, c).value;
      var q := r.players.vals[id].update;
      frames, next := Outbound(r, c);
      IsPrefix([Ping] + LaserFrames(r.lasers), PendingFrames(r.players, q, 0));
      QueuesOnlyStep(mid, r.players, next.players, c, written);
      PendingSameProps(r.players, mid, q, 0);
      forall k | k in q.vals
        ensures next.players.vals[id].update.vals[k] == DrainFrom(mid, k, q.vals[k], 0).left
      {
        DrainSameProps(r.players, mid, k, q.vals[k], 0);
      }
    }
  }

  /** What a connection's first write sends: the probe, the laser frames,
      then every pending update of its player as `mid` holds it. */
  function FramesFor(mid: Server, c: Conn): seq<string>
    requires Printable(mid.players) && SockToId(mid.players, c).Some?
  {
    [Ping] + LaserFrames(mid.lasers) + PendingFrames(mid.players, mid.players.vals[SockToId(mid.players, c).value].update, 0)
  }

  /** `after` is `before` with every subject's queue drained once. */
  ghost predicate Drains(ps: Roster, before: Pending, after: Pending)
    requires Printable(ps)
  {
    && after.keys == before.keys
    && forall k | k in before.vals :: k in after.vals && after.vals[k] == DrainFrom(ps, k, before.vals[k], 0).left
  }

  /** Every player whose connection was written to exactly once has had
      its queues drained once. */
  ghost predicate DrainedOnce(mid: Roster, r: Roster, outs: seq<Conn>)
    requires Printable(mid)
  {
    forall c | c in outs && SockToId(mid, c).Some? && multiset(outs)[c] == 1 ::
      var id := SockToId(mid, c).value;
      id in r.vals && Drains(mid, mid.vals[id].update, r.vals[id].update)
  }

  /** Two rosters with the same players and the same properties. */
  ghost predicate SameProps(ps: Roster, qs: Roster)
  {
    && ps.vals.Keys == qs.vals.Keys
    && forall k | k in ps.vals :: qs.vals[k].properties == ps.vals[k].properties
  }

  /** Draining reads the subject's properties and nothing else of the roster. */
  lemma {:induction false} DrainSameProps(ps: Roster, qs: Roster, subject: Id, tags: seq<char>, i: nat)
    requires SameProps(ps, qs) && (subject in ps.vals ==> TextValued(ps.vals[subject]))
    ensures subject in qs.vals ==> TextValued(qs.vals[subject])
    ensures DrainFrom(ps, subject, tags, i) == DrainFrom(qs, subject, tags, i)
    decreases |tags| - i
  {
    if i < |tags| && subject in ps.vals && tags[i] in ps.vals[subject].properties {
      if Truthy(ps.vals[subject].properties[tags[i]]) {
        DrainSameProps(ps, qs, subject, DeleteFirst(tags, tags[i]), i + 1);
      } else {
        DrainSameProps(ps, qs, subject, tags, i + 1);
      }
    }
  }

  lemma SamePropsPrintable(ps: Roster, qs: Roster)
    requires SameProps(ps, qs) && Printable(ps)
    ensures Printable(qs)
  {
    forall k | k in qs.vals
      ensures TextValued(qs.vals[k])
    {
      assert TextValued(ps.vals[k]);
    }
  }

  lemma {:induction false} PendingSameProps(ps: Roster, qs: Roster, q: Pending, n: nat)
    requires SameProps(ps, qs) && Printable(ps)
    ensures Printable(qs) && PendingFrames(ps, q, n) == PendingFrames(qs, q, n)
    decreases |q.keys| - n
  {
    SamePropsPrintable(ps, qs);
    if n < |q.keys| {
      DrainSameProps(ps, qs, KeyAt(q, n), q.vals[KeyAt(q, n)], 0);
      PendingSameProps(ps, qs, q, n + 1);
    }
  }

  /** What the connections written so far were sent: nothing when the
      connection has no player, the probe and laser frames first otherwise,
      and exactly `FramesFor` on a connection's first write. */
  ghost predicate SentSoFar(mid: Server, outputs: seq<Conn>, sent: seq<seq<string>>)
    requires Printable(mid.players)
  {
    && |sent| <= |outputs|
    && forall m | 0 <= m < |sent| ::
         && (SockToId(mid.players, outputs[m]).None? ==> sent[m] == [])
         && (SockToId(mid.players, outputs[m]).Some? ==> StartsWith(sent[m], [Ping] + LaserFrames(mid.lasers)))
         && (SockToId(mid.players, outputs[m]).Some? && outputs[m] !in outputs[..m] ==> sent[m] == FramesFor(mid, outputs[m]))
  }

  /** Appending the frames of one more connection keeps `SentSoFar`. */
  lemma Written(sent: seq<seq<string>>, frames: seq<string>, mid: Server, r: Server, outputs: seq<Conn>)
    requires |sent| < |outputs| && Printable(mid.players) && SentSoFar(mid, outputs, sent)
    requires QueuesOnly(mid.players, r.players, outputs[..|sent|]) && r.lasers == mid.lasers
    requires SockToId(mid.players, outputs[|sent|]).None? ==> frames == []
    requires SockToId(mid.players, outputs[|sent|]).Some? ==>
               frames == [Ping] + LaserFrames(r.lasers) + PendingFrames(mid.players, r.players.vals[SockToId(mid.players, outputs[|sent|]).value].update, 0)
    ensures SentSoFar(mid, outputs, sent + [frames])
  {
    var all := sent + [frames];
    var c := outputs[|sent|];
    forall m | 0 <= m < |all|
      ensures && (SockToId(mid.players, outputs[m]).None? ==> all[m] == [])
              && (SockToId(mid.players, outputs[m]).Some? ==> StartsWith(all[m], [Ping] + LaserFrames(mid.lasers)))
              && (SockToId(mid.players, outputs[m]).Some? && outputs[m] !in outputs[..m] ==> all[m] == FramesFor(mid, outputs[m]))
    {
      if m < |sent| {
        assert all[m] == sent[m];
      } else if SockToId(mid.players, c).Some? {
        var id := SockToId(mid.players, c).value;
        IsPrefix([Ping] + LaserFrames(mid.lasers), PendingFrames(mid.players, r.players.vals[id].update, 0));
        if c !in outputs[..m] {
          assert r.players.vals[id] == mid.players.vals[id];
        }
      }
    }
  }



  /** One more write keeps `DrainedOnce`: the connection just written, if
      it is new, has been drained; every other player's queue is as before. */
  lemma DrainedStep(mid: Roster, r: Roster, next: Roster, outputs: seq<Conn>, j: nat)
    requires j < |outputs| && Printable(mid)
    requires QueuesOnly(mid, r, outputs[..j])
    requires DrainedOnce(mid, r, outputs[..j])
    requires SockToId(mid, outputs[j]).None? ==> next == r
    requires next.keys == r.keys
    requires SockToId(mid, outputs[j]).Some? ==>
               var id := SockToId(mid, outputs[j]).value;
               && next.vals == r.vals[id := next.vals[id]]
               && Drains(mid, r.vals[id].update, next.vals[id].update)
    ensures DrainedOnce(mid, next, outputs[..j + 1])
  {
    var now := outputs[j];
    Snoc(outputs, j);
    assert outputs[..j + 1] == outputs[..j] + [now];
    forall c | c in outputs[..j + 1] && SockToId(mid, c).Some? && multiset(outputs[..j + 1])[c] == 1
      ensures var id := SockToId(mid, c).value;
              id in next.vals && Drains(mid, mid.vals[id].update, next.vals[id].update)
    {
      if c == now {
        assert multiset(outputs[..j])[c] == 0;
        DrainedNew(mid, r, next, outputs, j);
      } else {
        assert multiset(outputs[..j])[c] == 1;
        DrainedKept(mid, r, next, outputs, j, c);
      }
    }
  }

  /** A connection written for the first time has its player's queues,
      still as `mid` holds them, drained once. */
  lemma DrainedNew(mid: Roster, r: Roster, next: Roster, outputs: seq<Conn>, j: nat)
    requires j < |outputs| && Printable(mid) && outputs[j] !in outputs[..j]
    requires QueuesOnly(mid, r, outputs[..j])
    requires next.keys == r.keys && SockToId(mid, outputs[j]).Some?
    requires var id := SockToId(mid, outputs[j]).value;
             && next.vals == r.vals[id := next.vals[id]]
             && Drains(mid, r.vals[id].update, next.vals[id].update)
    ensures var id := SockToId(mid, outputs[j]).value;
            id in next.vals && Drains(mid, mid.vals[id].update, next.vals[id].update)
  {
    var id := SockToId(mid, outputs[j]).value;
    assert r.vals[id] == mid.vals[id];
  }

  /** Writing to one connection leaves the queues of every other player. */
  lemma DrainedKept(mid: Roster, r: Roster, next: Roster, outputs: seq<Conn>, j: nat, c: Conn)
    requires j < |outputs| && Printable(mid) && r.keys == mid.keys
    requires DrainedOnce(mid, r, outputs[..j])
    requires c in outputs[..j] && c != outputs[j] && SockToId(mid, c).Some? && multiset(outputs[..j])[c] == 1
    requires SockToId(mid, outputs[j]).None? ==> next == r
    requires next.keys == r.keys
    requires SockToId(mid, outputs[j]).Some? ==>
               var id := SockToId(mid, outputs[j]).value;
               next.vals == r.vals[id := next.vals[id]]
    ensures var id := SockToId(mid, c).value;
            id in next.vals && Drains(mid, mid.vals[id].update, next.vals[id].update)
  {
    var id := SockToId(mid, c).value;
    if SockToId(mid, outputs[j]).Some? {
      assert SockToId(mid, outputs[j]).value != id;
    }
  }

  predicate StartsWith(frames: seq<string>, head: seq<string>)
  {
    head <= frames
  }



  lemma IsPrefix<T>(a: seq<T>, b: seq<T>)
    ensures a <= a + b
  {
    assert (a + b)[..|a|] == a;
  }
}
