/** The `Laser` record of server.py: a projectile that moves a fixed step
    along one of four directions every tick and is pushed to every client as
    a fixed-width `data` string. */
module Lasers {

  import opened Options
  import opened PyText

  /** `laser_speed` in `update_laser`. */
  const LaserSpeed: int := 5

  /** Largest coordinate `check_lasers` keeps on either axis. */
  const FieldMax: int := 999

  /** `direction` is the first character of the spawn payload; only `w`, `s`,
      `a` and `d` move the laser. */
  datatype Laser = Laser(laserId: string, playerId: string, colour: string, x: int, y: int, direction: char)

  predicate Moves(d: char)
  {
    d == 'w' || d == 's' || d == 'a' || d == 'd'
  }

  function Abs(v: int): nat
  {
    if v < 0 then -v else v
  }

  /** `update_laser()`, position part: one step of `LaserSpeed` along the
      direction, `w` up (y decreases), `s` down, `a` left, `d` right. */
  function Advance(l: Laser): (r: Laser)
    ensures r == l.(x := r.x, y := r.y)
    ensures Moves(l.direction) ==> Abs(r.x - l.x) + Abs(r.y - l.y) == LaserSpeed
    ensures !Moves(l.direction) ==> r == l
    ensures l.direction == 'w' || l.direction == 's' ==> r.x == l.x
    ensures l.direction == 'a' || l.direction == 'd' ==> r.y == l.y
    ensures l.direction == 'w' || l.direction == 'a' ==> r.x + r.y < l.x + l.y
    ensures l.direction == 's' || l.direction == 'd' ==> r.x + r.y > l.x + l.y
  {
    if l.direction == 'w' then l.(y := l.y - LaserSpeed)
    else if l.direction == 's' then l.(y := l.y + LaserSpeed)
    else if l.direction == 'a' then l.(x := l.x - LaserSpeed)
    else if l.direction == 'd' then l.(x := l.x + LaserSpeed)
    else l
  }

  /** The velocity a direction stands for, as a reference for repeated steps. */
  function VelocityX(d: char): int
  {
    match d
    case 'a' => -LaserSpeed
    case 'd' => LaserSpeed
    case _ => 0
  }

  function VelocityY(d: char): int
  {
    match d
    case 'w' => -LaserSpeed
    case 's' => LaserSpeed
    case _ => 0
  }

  /** The laser after `n` ticks. */
  function AdvanceTimes(l: Laser, n: nat): Laser
  {
    if n == 0 then l else Advance(AdvanceTimes(l, n - 1))
  }

  /** After `n` ticks a laser has moved `n` times its velocity and nothing
      else about it has changed. */
  lemma {:induction false} AdvanceTimesPosition(l: Laser, n: nat)
    ensures AdvanceTimes(l, n) == l.(x := l.x + n * VelocityX(l.direction),
                                     y := l.y + n * VelocityY(l.direction))
  {
    if n > 0 {
      AdvanceTimesPosition(l, n - 1);
    }
  }

  /** `str(v).zfill(4)`, the encoding of one coordinate. */
  function Coordinate(v: int): string
  {
    ZFill(IntToStr(v), 4)
  }

  /** Every coordinate from -999 to 9999 takes exactly four characters and
      reads back as itself; from 0 up they are four decimal digits. */
  lemma CoordinateField(v: int)
    requires -999 <= v <= 9999
    ensures |Coordinate(v)| == 4
    ensures ParseInt(Coordinate(v)) == Some(v)
    ensures v >= 0 ==> AllDigits(Coordinate(v))
  {
    ZFillNumeral(v, 4);
    if v >= 0 {
      ZFillWidth(v, 4);
    } else {
      NatToStrLength(-v, 3);
    }
  }

  /** `data`: laser id, owner id, colour, then x and y zero-padded to four. */
  function Data(l: Laser): (d: string)
    ensures |d| >= |l.laserId| + |l.playerId| + |l.colour| + 8
    ensures d[..|l.laserId|] == l.laserId
  {
    l.laserId + l.playerId + l.colour + Coordinate(l.x) + Coordinate(l.y)
  }

  /** The fields a client reads back out of a `+v` frame's payload. */
  datatype LaserState = LaserState(laserId: string, playerId: string, colour: string, x: int, y: int)

  /** Fixed-width reading of `data`: id(3) owner(2) colour(9) x(4) y(4). */
  function DecodeData(d: string): Option<LaserState>
  {
    if |d| != 22 then None
    else
      match (ParseInt(d[14..18]), ParseInt(d[18..22]))
      case (Some(x), Some(y)) => Some(LaserState(d[..3], d[3..5], d[5..14], x, y))
      case _ => None
  }

  /** The `data` encoding is fixed-width and lossless: with a three-character
      id, a two-character owner, a nine-character colour and coordinates in
      -999..9999, reading it back gives the laser's fields. */
  lemma DataRoundTrip(l: Laser)
    requires |l.laserId| == 3 && |l.playerId| == 2 && |l.colour| == 9
    requires -999 <= l.x <= 9999 && -999 <= l.y <= 9999
    ensures |Data(l)| == 22
    ensures DecodeData(Data(l)) == Some(LaserState(l.laserId, l.playerId, l.colour, l.x, l.y))
  {
    CoordinateField(l.x);
    CoordinateField(l.y);
    DecodeFields(l.laserId, l.playerId, l.colour, Coordinate(l.x), Coordinate(l.y), l.x, l.y);
  }

  /** The round trip needs the nine-character colour: with any other width
      `data` is not 22 characters long and the fixed-width reading fails. */
  lemma OtherColourWidthMisreads(l: Laser)
    requires |l.laserId| == 3 && |l.playerId| == 2 && |l.colour| != 9
    requires -999 <= l.x <= 9999 && -999 <= l.y <= 9999
    ensures |Data(l)| != 22 && DecodeData(Data(l)) == None
  {
    CoordinateField(l.x);
    CoordinateField(l.y);
  }

  lemma DecodeFields(id: string, owner: string, colour: string, cx: string, cy: string, x: int, y: int)
    requires |id| == 3 && |owner| == 2 && |colour| == 9 && |cx| == 4 && |cy| == 4
    requires ParseInt(cx) == Some(x) && ParseInt(cy) == Some(y)
    ensures DecodeData(id + owner + colour + cx + cy) == Some(LaserState(id, owner, colour, x, y))
  {
    FieldsAt(id, owner, colour, cx, cy);
  }

  lemma FieldsAt(id: string, owner: string, colour: string, cx: string, cy: string)
    requires |id| == 3 && |owner| == 2 && |colour| == 9 && |cx| == 4 && |cy| == 4
    ensures var d := id + owner + colour + cx + cy;
            |d| == 22 && d[..3] == id && d[3..5] == owner && d[5..14] == colour
            && d[14..18] == cx && d[18..22] == cy
  {
    var d := id + owner + colour + cx + cy;
    assert d[14..18] == cx;
    assert d[18..22] == cy;
    assert d[..3] == id;
    assert d[3..5] == owner;
    assert d[5..14] == colour;
  }

  /** Both `int()` calls on a spawn payload succeed. */
  predicate SpawnParses(data: string)
  {
    ParseInt(Slice(data, 1, 5)).Some? && ParseInt(Slice(data, 5, 9)).Some?
  }

  /** `Laser(data, id, colour, player_id)`: read the direction and the two
      four-character coordinates of the spawn payload, then take one step at
      once. */
  function NewLaser(data: string, id: string, colour: string, owner: string): (l: Laser)
    requires SpawnParses(data)
    ensures |data| >= 2
    ensures l.laserId == id && l.playerId == owner && l.colour == colour && l.direction == data[0]
    ensures var x0 := ParseInt(Slice(data, 1, 5)).value;
            var y0 := ParseInt(Slice(data, 5, 9)).value;
            && (data[0] == 'w' ==> l.x == x0 && l.y == y0 - LaserSpeed)
            && (data[0] == 's' ==> l.x == x0 && l.y == y0 + LaserSpeed)
            && (data[0] == 'a' ==> l.x == x0 - LaserSpeed && l.y == y0)
            && (data[0] == 'd' ==> l.x == x0 + LaserSpeed && l.y == y0)
            && (!Moves(data[0]) ==> l.x == x0 && l.y == y0)
  {
    var x0 := ParseInt(Slice(data, 1, 5)).value;
    var y0 := ParseInt(Slice(data, 5, 9)).value;
    Advance(Laser(id, owner, colour, x0, y0, data[0]))
  }

  /** `0 <= x <= 999` and `0 <= y <= 999`, the test in `check_lasers`. */
  predicate InBounds(l: Laser)
  {
    0 <= l.x <= FieldMax && 0 <= l.y <= FieldMax
  }
}
