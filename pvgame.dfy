/** The small game library of the Sneks and Ladders example: cache-file
    names for decoded PNG crops, a bounded list of hardware sprites, a
    list of rectangular collision zones with actions, and an actor that
    walks along a row of tiles and turns round at gaps and edges. */
module PvGame {
  import opened Wrappers
  import opened PySemantics

  const TILE_W: int := 16
  const TILE_H: int := 16

  // ---------------------------------------------------------------
  // cached_png: the name of the cache file

  /** A crop of the source image: x, y, w, h. */
  datatype Source = Source(x: int, y: int, w: int, h: int)

  /** The text after the stem: "-v" for each value in turn, then ".bin". */
  function Tail(vs: seq<int>): (t: string)
    ensures |t| > 0 && (t[0] == '-' || t[0] == '.')
    decreases |vs|
  {
    if |vs| == 0 then ".bin" else "-" + (IntStr(vs[0]) + Tail(vs[1..]))
  }

  function SourceValues(source: Option<Source>): seq<int>
  {
    match source
    case None => []
    case Some(s) => [s.x, s.y, s.w, s.h]
  }

  /** The cache name: the file name without its last four characters
      (".png"), then "-x-y-w-h" when a crop is given, then ".bin". */
  function CacheName(filename: string, source: Option<Source>): (name: string)
    ensures |name| >= |DropLast(filename, 4)| + 4
    ensures name[..|DropLast(filename, 4)|] == DropLast(filename, 4)
    ensures name[|name| - 4..] == ".bin"
    ensures source.None? ==> name == DropLast(filename, 4) + ".bin"
  {
    TailEndsInBin(SourceValues(source));
    DropLast(filename, 4) + Tail(SourceValues(source))
  }

  lemma {:induction false} TailEndsInBin(vs: seq<int>)
    ensures |Tail(vs)| >= 4 && Tail(vs)[|Tail(vs)| - 4..] == ".bin"
    decreases |vs|
  {
    if |vs| > 0 {
      TailEndsInBin(vs[1..]);
      var t := Tail(vs[1..]);
      assert Tail(vs) == ("-" + IntStr(vs[0])) + t;
    }
  }

  /** Where the text of an integer is followed by a character that is not a
      digit, the integer and what follows it can be read off uniquely. */
  lemma IntStrToken(a: int, b: int, t1: string, t2: string)
    requires |t1| > 0 && |t2| > 0 && !('0' <= t1[0] <= '9') && !('0' <= t2[0] <= '9')
    requires IntStr(a) + t1 == IntStr(b) + t2
    ensures a == b && t1 == t2
  {
    var sa, sb := IntStr(a), IntStr(b);
    assert forall k :: 1 <= k < |sa| ==> '0' <= sa[k] <= '9' by {
      forall k | 1 <= k < |sa| ensures '0' <= sa[k] <= '9' { assert sa[1..][k - 1] == sa[k]; }
    }
    assert forall k :: 1 <= k < |sb| ==> '0' <= sb[k] <= '9' by {
      forall k | 1 <= k < |sb| ensures '0' <= sb[k] <= '9' { assert sb[1..][k - 1] == sb[k]; }
    }
    assert (sa + t1)[|sa|] == t1[0] && (sb + t2)[|sb|] == t2[0];
    if |sa| < |sb| {
      assert false;
    } else if |sb| < |sa| {
      assert false;
    }
    assert |sa| == |sb|;
    assert sa == (sa + t1)[..|sa|] == (sb + t2)[..|sb|] == sb;
    IntStrRoundTrip(a);
    IntStrRoundTrip(b);
    assert t1 == (sa + t1)[|sa|..] == (sb + t2)[|sb|..] == t2;
  }

  lemma {:induction false} TailInjective(v1: seq<int>, v2: seq<int>)
    requires Tail(v1) == Tail(v2)
    ensures v1 == v2
    decreases |v1|
  {
    if |v1| == 0 || |v2| == 0 {
      assert Tail(v1)[0] == Tail(v2)[0];
      assert |v1| == |v2| == 0;
    } else {
      var r1, r2 := Tail(v1[1..]), Tail(v2[1..]);
      var u1, u2 := IntStr(v1[0]) + r1, IntStr(v2[0]) + r2;
      assert Tail(v1) == "-" + u1 && Tail(v2) == "-" + u2;
      assert u1 == Tail(v1)[1..] && u2 == Tail(v2)[1..];
      IntStrToken(v1[0], v2[0], r1, r2);
      TailInjective(v1[1..], v2[1..]);
      ConsSplit(v1);
      ConsSplit(v2);
    }
  }

  lemma ConsSplit<T>(s: seq<T>)
    requires |s| > 0
    ensures s == [s[0]] + s[1..]
  {
  }

  /** Distinct crops of one file, and the uncropped image, always get
      distinct cache files, so one cached crop never stands in for another. */
  lemma CacheNameInjective(filename: string, s1: Option<Source>, s2: Option<Source>)
    requires CacheName(filename, s1) == CacheName(filename, s2)
    ensures s1 == s2
  {
    var stem := DropLast(filename, 4);
    var n1, n2 := CacheName(filename, s1), CacheName(filename, s2);
    assert Tail(SourceValues(s1)) == n1[|stem|..] == n2[|stem|..] == Tail(SourceValues(s2));
    TailInjective(SourceValues(s1), SourceValues(s2));
    match s1
    case None =>
    case Some(a) =>
      assert SourceValues(s2)[0] == a.x;
  }

  // ---------------------------------------------------------------
  // SpriteList: the hardware sprites shown this frame

  datatype SpriteItem = SpriteItem(image: int, x: int, y: int, vScale: int)

  /** The display calls that `display` makes: slot i shows item i, or is
      cleared when there is no item i. */
  datatype SlotCall =
    | DisplaySprite(slot: nat, image: int, x: int, y: int, vScale: int)
    | ClearSprite(slot: nat)

  /** The list after `add`: a full list drops its oldest item first when
      forced and is left alone otherwise. */
  function Added(items: seq<SpriteItem>, maxSprites: nat, item: SpriteItem, force: bool): seq<SpriteItem>
  {
    if |items| == maxSprites then
      if force && |items| > 0 then items[1..] + [item]
      else items
    else items + [item]
  }

  /** `add` raises IndexError only when a forced add pops from an empty list,
      which needs a list of capacity 0. */
  function AddRaises(items: seq<SpriteItem>, maxSprites: nat, force: bool): (r: Option<Exception>)
    ensures r.Some? ==> r.value == IndexError
  {
    if |items| == maxSprites && force && |items| == 0 then Some(IndexError) else None
  }

  /** `add` never takes the list past its capacity; a full list gains the
      new item as its last one only when forced, losing its first one, and
      is unchanged otherwise; a list with room gains the item at the end. */
  lemma AddedKeepsBound(items: seq<SpriteItem>, maxSprites: nat, item: SpriteItem, force: bool)
    requires |items| <= maxSprites
    ensures var r := Added(items, maxSprites, item, force);
      && |r| <= maxSprites
      && (|items| < maxSprites ==> r == items + [item])
      && (|items| == maxSprites && !force ==> r == items)
      && (|items| == maxSprites > 0 && force ==> r == items[1..] + [item] && |r| == maxSprites)
      && (r != items ==> r[|r| - 1] == item)
  {
  }

  function Slot(items: seq<SpriteItem>, i: nat): SlotCall
  {
    if i < |items| then DisplaySprite(i, items[i].image, items[i].x, items[i].y, items[i].vScale)
    else ClearSprite(i)
  }

  function SlotNumber(c: SlotCall): nat
  {
    match c
    case DisplaySprite(s, _, _, _, _) => s
    case ClearSprite(s) => s
  }

  /** Every slot is addressed once and in order; the items are shown in
      list order and every slot past the last item is cleared. */
  lemma SlotsCoverList(items: seq<SpriteItem>, maxSprites: nat, i: nat)
    requires |items| <= maxSprites && i < maxSprites
    ensures SlotNumber(Slot(items, i)) == i
    ensures Slot(items, i).DisplaySprite? <==> i < |items|
    ensures i < |items| ==> Slot(items, i) == DisplaySprite(i, items[i].image, items[i].x, items[i].y, items[i].vScale)
  {
  }

  class SpriteList {
    const maxSprites: nat
    var items: seq<SpriteItem>

    ghost predicate Valid()
      reads this
    {
      |items| <= maxSprites
    }

    constructor(maxSprites: nat)
      ensures this.maxSprites == maxSprites && items == [] && Valid()
    {
      this.maxSprites := maxSprites;
      items := [];
    }

    method Add(image: int, x: int, y: int, vScale: int, force: bool) returns (raised: Option<Exception>)
      requires Valid()
      modifies this
      ensures Valid()
      ensures raised == AddRaises(old(items), maxSprites, force)
      ensures items == Added(old(items), maxSprites, SpriteItem(image, x, y, vScale), force)
    {
      raised := None;
      if |items| == maxSprites {
        if force {
          if |items| == 0 {
            raised := Some(IndexError);
            return;
          }
          items := items[1..];
        } else {
          return;
        }
      }
      items := items + [SpriteItem(image, x, y, vScale)];
    }

    method Clear()
      modifies this
      ensures items == [] && Valid()
    {
      items := [];
    }

    method Display() returns (calls: seq<SlotCall>)
      ensures |calls| == maxSprites
      ensures forall i :: 0 <= i < maxSprites ==> calls[i] == Slot(items, i)
    {
      calls := [];
      var i := 0;
      while i < maxSprites
        invariant 0 <= i <= maxSprites && |calls| == i
        invariant forall k :: 0 <= k < i ==> calls[k] == Slot(items, k)
      {
        if i < |items| {
          var it := items[i];
          calls := calls + [DisplaySprite(i, it.image, it.x, it.y, it.vScale)];
        } else {
          calls := calls + [ClearSprite(i)];
        }
        i := i + 1;
      }
    }
  }

  // ---------------------------------------------------------------
  // CollisionList: zones with the action each one triggers

  datatype Zone<A> = Zone(x: int, y: int, w: int, h: int, action: A)

  /** The test `test` applies: the zone's closed box is not disjoint from
      the box (x, y, w, h). */
  predicate Touches<A>(z: Zone<A>, x: int, y: int, w: int, h: int)
  {
    !(x > z.x + z.w || x + w < z.x || y > z.y + z.h || y + h < z.y)
  }

  /** A point of [x, x + w] x [y, y + h]. */
  predicate InBox(x: int, y: int, w: int, h: int, px: int, py: int)
  {
    x <= px <= x + w && y <= py <= y + h
  }

  /** For boxes of non-negative size, the test fires exactly when the two
      closed boxes share a point: this direction names the point. */
  lemma TouchesSharePoint<A>(z: Zone<A>, x: int, y: int, w: int, h: int)
    requires z.w >= 0 && z.h >= 0 && w >= 0 && h >= 0
    requires Touches(z, x, y, w, h)
    ensures var px, py := if x < z.x then z.x else x, if y < z.y then z.y else y;
      InBox(z.x, z.y, z.w, z.h, px, py) && InBox(x, y, w, h, px, py)
  {
  }

  /** The other direction: a shared point makes the test fire. */
  lemma SharedPointTouches<A>(z: Zone<A>, x: int, y: int, w: int, h: int, px: int, py: int)
    requires InBox(z.x, z.y, z.w, z.h, px, py) && InBox(x, y, w, h, px, py)
    ensures Touches(z, x, y, w, h)
  {
  }

  /** The actions `test` runs, in the order the zones were added. */
  function Fired<A>(zones: seq<Zone<A>>, x: int, y: int, w: int, h: int): seq<A>
  {
    if |zones| == 0 then []
    else
      var z := zones[|zones| - 1];
      Fired(zones[..|zones| - 1], x, y, w, h) + (if Touches(z, x, y, w, h) then [z.action] else [])
  }

  /** Firing over two lists of zones runs the first list's actions first. */
  lemma {:induction false} FiredAppend<A>(z1: seq<Zone<A>>, z2: seq<Zone<A>>, x: int, y: int, w: int, h: int)
    ensures Fired(z1 + z2, x, y, w, h) == Fired(z1, x, y, w, h) + Fired(z2, x, y, w, h)
    decreases |z2|
  {
    if |z2| > 0 {
      var last := z2[|z2| - 1];
      assert (z1 + z2)[..|z1 + z2| - 1] == z1 + z2[..|z2| - 1];
      FiredAppend(z1, z2[..|z2| - 1], x, y, w, h);
    } else {
      assert z1 + z2 == z1;
    }
  }

  /** Every touching zone's action runs, one run per such zone, and no
      other zone's action does. */
  lemma {:induction false} FiredExactly<A>(zones: seq<Zone<A>>, x: int, y: int, w: int, h: int)
    ensures |Fired(zones, x, y, w, h)| == CountTouching(zones, x, y, w, h)
    ensures forall k :: 0 <= k < |zones| && Touches(zones[k], x, y, w, h) ==> zones[k].action in Fired(zones, x, y, w, h)
    ensures forall a :: a in Fired(zones, x, y, w, h) ==> exists k :: 0 <= k < |zones| && Touches(zones[k], x, y, w, h) && zones[k].action == a
    decreases |zones|
  {
    if |zones| > 0 {
      var init := zones[..|zones| - 1];
      FiredExactly(init, x, y, w, h);
      forall a | a in Fired(zones, x, y, w, h)
        ensures exists k :: 0 <= k < |zones| && Touches(zones[k], x, y, w, h) && zones[k].action == a
      {
        if a in Fired(init, x, y, w, h) {
          var k :| 0 <= k < |init| && Touches(init[k], x, y, w, h) && init[k].action == a;
          assert zones[k] == init[k];
        } else {
          assert zones[|zones| - 1].action == a && Touches(zones[|zones| - 1], x, y, w, h);
        }
      }
      forall k | 0 <= k < |zones| && Touches(zones[k], x, y, w, h)
        ensures zones[k].action in Fired(zones, x, y, w, h)
      {
        if k < |init| {
          assert init[k] == zones[k];
        }
      }
    }
  }

  /** The number of zones the box touches. */
  function CountTouching<A>(zones: seq<Zone<A>>, x: int, y: int, w: int, h: int): nat
  {
    if |zones| == 0 then 0
    else CountTouching(zones[..|zones| - 1], x, y, w, h) + (if Touches(zones[|zones| - 1], x, y, w, h) then 1 else 0)
  }

  class CollisionList<A> {
    var zones: seq<Zone<A>>

    constructor()
      ensures zones == []
    {
      zones := [];
    }

    method Add(x: int, y: int, w: int, h: int, action: A)
      modifies this
      ensures zones == old(zones) + [Zone(x, y, w, h, action)]
    {
      zones := zones + [Zone(x, y, w, h, action)];
    }

    method Clear()
      modifies this
      ensures zones == []
    {
      zones := [];
    }

    /** The actions are handed back in order for the caller to run. */
    method Test(x: int, y: int, w: int, h: int) returns (fired: seq<A>)
      ensures fired == Fired(zones, x, y, w, h)
    {
      fired := [];
      var i := 0;
      while i < |zones|
        invariant 0 <= i <= |zones|
        invariant fired == Fired(zones[..i], x, y, w, h)
      {
        var z := zones[i];
        assert zones[..i + 1][..i] == zones[..i];
        if Touches(z, x, y, w, h) {
          fired := fired + [z.action];
        }
        i := i + 1;
      }
      assert zones[..i] == zones;
    }
  }

  // ---------------------------------------------------------------
  // Actor

  const LEFT: bool := true
  const RIGHT: bool := false

  /** The reverse of a list. */
  function Reversed<T>(s: seq<T>): (r: seq<T>)
    ensures |r| == |s|
  {
    seq(|s|, i requires 0 <= i < |s| => s[|s| - 1 - i])
  }

  /** The frame list the constructor keeps: with ping_pong, the interior
      frames `frames[1:][:-1]` are appended in reverse. */
  function PingPong<T>(frames: seq<T>, pingPong: bool): seq<T>
  {
    if pingPong then frames + Reversed(DropLast(DropFirst(frames), 1)) else frames
  }

  /** A ping-pong cycle of n >= 2 frames has 2n - 2 frames, starts with the
      frames in order and comes back down through the interior frames, so
      frame k (0 < k < n - 1) appears again at position 2n - 2 - k. */
  lemma PingPongCycle<T>(frames: seq<T>)
    ensures var p := PingPong(frames, true);
      && |p| == (if |frames| >= 2 then 2 * |frames| - 2 else |frames|)
      && p[..|frames|] == frames
      && forall k :: 0 < k < |frames| - 1 ==> p[2 * |frames| - 2 - k] == frames[k]
  {
    var p := PingPong(frames, true);
    var n := |frames|;
    if n >= 2 {
      var mid := DropLast(DropFirst(frames), 1);
      assert mid == frames[1..n - 1];
      forall k | 0 < k < n - 1
        ensures p[2 * n - 2 - k] == frames[k]
      {
        assert p[2 * n - 2 - k] == Reversed(mid)[n - 2 - k] == mid[k - 1];
      }
    }
  }

  /** The state `update` changes. LEFT is true. */
  datatype Motion = Motion(x: int, y: int, vx: int, vy: int, facing: bool)

  /** An actor standing fully on the level: 0 <= x and x + 16 <= width. */
  predicate OnLevel(m: Motion, levelWidth: int)
  {
    0 <= m.x && m.x + TILE_W <= levelWidth
  }

  /** The outcome of `update`: the new motion, and the exception it raised
      part-way, if any (the move has then already happened). */
  datatype StepOutcome = StepOutcome(motion: Motion, raised: Option<Exception>)

  /** Whether the actor turns: the tile under its centre is empty, or it
      has left the row. */
  predicate Turns(level: seq<seq<int>>, x: int, below: int)
    requires |level| > 0
  {
    below == 0 || x < 0 || x + TILE_W > |level[0]| * TILE_W
  }

  /** `update`: move by the velocity, look at the tile under the centre of
      the actor, and step back facing the other way when it is empty or
      the actor has left the level. The row and column are `int()` of a
      quotient and are looked up as Python list indexes. */
  function Step(m: Motion, level: seq<seq<int>>): (r: StepOutcome)
    ensures r.raised.Some? ==> r.raised.value == IndexError
    ensures r.raised.None? ==> r.motion.y == m.y + m.vy && r.motion.vy == m.vy
  {
    if |level| == 0 then StepOutcome(m, Some(IndexError))
    else
      var x, y := m.x + m.vx, m.y + m.vy;
      var tileX, tileY := TruncDiv(x + 8, TILE_W), TruncDiv(y, TILE_H);
      match PyIndex(|level|, tileY + 1)
      case None => StepOutcome(m.(x := x, y := y), Some(IndexError))
      case Some(row) =>
        match PyIndex(|level[row]|, tileX)
        case None => StepOutcome(m.(x := x, y := y), Some(IndexError))
        case Some(col) =>
          if Turns(level, x, level[row][col]) then
            var vx := -m.vx;
            StepOutcome(Motion(x + vx, y, vx, m.vy, if vx < 0 then LEFT else RIGHT), None)
          else StepOutcome(m.(x := x, y := y), None)
  }

  /** After a turn the actor is back where it started, moving the other way
      and facing the way it now moves; otherwise it has moved by its
      velocity and faces as before. */
  lemma StepTurnsBack(m: Motion, level: seq<seq<int>>)
    requires Step(m, level).raised.None?
    ensures var n := Step(m, level).motion;
      || (n.x == m.x && n.vx == -m.vx && n.facing == (n.vx < 0))
      || (n.x == m.x + m.vx && n.vx == m.vx && n.facing == m.facing)
  {
  }

  /** An actor on the level stays on it: a step that leaves the row is
      undone. */
  lemma StepStaysOnLevel(m: Motion, level: seq<seq<int>>)
    requires |level| > 0 && OnLevel(m, |level[0]| * TILE_W)
    requires Step(m, level).raised.None?
    ensures OnLevel(Step(m, level).motion, |level[0]| * TILE_W)
  {
  }

  /** The frame `draw` shows at time t: `frames[t % count]`, where Python's
      `%` by a positive count is never negative. */
  function FrameAt(frames: seq<int>, t: int): (f: int)
    requires |frames| > 0
    ensures f in frames
  {
    frames[t % |frames|]
  }

  class Actor {
    var spritelist: SpriteList
    var x: int
    var y: int
    var vx: int
    var vy: int
    var framesLeft: seq<int>
    var framesRight: seq<int>
    var lCount: int
    var rCount: int
    var facing: bool

    ghost predicate Valid()
      reads this
    {
      lCount == |framesLeft| && rCount == |framesRight|
    }

    function State(): Motion
      reads this
    {
      Motion(x, y, vx, vy, facing)
    }

    constructor(spritelist: SpriteList, x: int, y: int, framesLeft: seq<int>, framesRight: seq<int>, pingPong: bool)
      ensures this.spritelist == spritelist && Valid()
      ensures State() == Motion(x, y, -1, 0, LEFT)
      ensures this.framesLeft == PingPong(framesLeft, pingPong) && this.framesRight == PingPong(framesRight, pingPong)
    {
      this.spritelist := spritelist;
      this.x, this.y := x, y;
      vx, vy := -1, 0;
      this.framesLeft := PingPong(framesLeft, pingPong);
      this.framesRight := PingPong(framesRight, pingPong);
      lCount := |PingPong(framesLeft, pingPong)|;
      rCount := |PingPong(framesRight, pingPong)|;
      facing := LEFT;
    }

    /** `bounds`: the actor's 16 x 16 tile at its position; the point `update`
        tests is the middle of its top edge. */
    function Bounds(): (b: (int, int, int, int))
      reads this
      ensures b.2 == TILE_W && b.3 == TILE_H
      ensures InBox(b.0, b.1, b.2, b.3, x + 8, y)
    {
      (x, y, TILE_W, TILE_H)
    }

    method Update(level: seq<seq<int>>) returns (raised: Option<Exception>)
      modifies this
      ensures State() == Step(old(State()), level).motion
      ensures raised == Step(old(State()), level).raised
      ensures unchanged(this`spritelist, this`framesLeft, this`framesRight, this`lCount, this`rCount)
    {
      if |level| == 0 {
        return Some(IndexError);
      }
      var levelWidth := |level[0]| * TILE_W;
      x := x + vx;
      y := y + vy;
      var tileX, tileY := TruncDiv(x + 8, TILE_W), TruncDiv(y, TILE_H);
      var row := PyIndex(|level|, tileY + 1);
      if row.None? {
        return Some(IndexError);
      }
      var col := PyIndex(|level[row.value]|, tileX);
      if col.None? {
        return Some(IndexError);
      }
      var below := level[row.value][col.value];
      raised := None;
      if below == 0 || x < 0 || x + TILE_W > levelWidth {
        vx := -vx;
        x := x + vx;
        facing := if vx < 0 then LEFT else RIGHT;
      }
    }

    /** `draw`: queue the frame for time t at the offset position. A side
        with no frames raises ZeroDivisionError from `t % 0`. */
    method Draw(t: int, offsetX: int, offsetY: int) returns (raised: Option<Exception>)
      requires Valid() && spritelist.Valid()
      modifies spritelist
      ensures spritelist.Valid()
      ensures var frames := if facing == LEFT then framesLeft else framesRight;
        if |frames| == 0 then raised == Some(ZeroDivisionError) && spritelist.items == old(spritelist.items)
        else (raised == None
              && spritelist.items == Added(old(spritelist.items), spritelist.maxSprites,
                                           SpriteItem(FrameAt(frames, t), x + offsetX, y + offsetY, 1), false))
    {
      var frame;
      if facing == LEFT {
        if lCount == 0 {
          return Some(ZeroDivisionError);
        }
        frame := framesLeft[t % lCount];
      } else {
        if rCount == 0 {
          return Some(ZeroDivisionError);
        }
        frame := framesRight[t % rCount];
      }
      raised := spritelist.Add(frame, x + offsetX, y + offsetY, 1, false);
    }
  }
}
