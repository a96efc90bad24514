/** The second bouncing-logo demo (examples/bouncing_logo/bouncing_logo.py):
    the same 64 by 64 logos, cut by `load_animation` into four 32 by 32
    sprites, at most MAX_LOGOS of them. Each frame first bounces every logo
    off the edges and off the logos after it in the list, then moves and
    draws them all. The logo objects and the edge and collision rules are
    those of the first demo. */
module BouncingLogoAnim {
  import opened Wrappers
  import opened PySemantics
  import BL = BouncingLogo
  import PG = PicoGraphicsModule
  import DvDisplayHeader

  const DEFAULT_VELOCITY := 20
  const SUB_IMAGE_SIZE := 32
  const MAX_SPRITE_SLOTS := 16
  const MAX_LOGOS := MAX_SPRITE_SLOTS / 4
  const OFFSET := DEFAULT_VELOCITY

  // ---------------------------------------------------------------
  // The display the script asks for

  /** `PicoGraphics(PEN_RGB555, 640, 480)` binds by position: PEN_RGB555
      (the integer PEN_DV_RGB555) becomes the display argument and 640 the
      pen type. No PicoVision pen has type 640, so make_new creates no
      graphics object and sets no mode, and its buffer-clearing loop then
      calls set_pen through the null `graphics`. */
  lemma PositionalConstructorMakesNoPen()
    ensures PG.BindPositional([PG.PEN_DV_RGB555, 640, 480])
            == Some(PG.MakeNewArgs(PG.PEN_DV_RGB555, 640, 480, 240, -1, -1))
    ensures PG.Construct(PG.BindPositional([PG.PEN_DV_RGB555, 640, 480]).value).mode.None?
  {
  }

  /** The display the script evidently means, written with keywords as
      bouncing_logo.py does: an RGB555 frame of the 640 by 480 screen the
      logos bounce in. Whatever display is named, it is the one the rest
      of this module assumes. */
  lemma KeywordConstructorGivesScreen(display: int)
    ensures PG.Construct(PG.MakeNewArgs(display, PG.PEN_DV_RGB555, 640, 480, -1, -1))
            == PG.Setup(BL.WIDTH, BL.HEIGHT, Some(DvDisplayHeader.ModeRgb555))
  {
  }

  // ---------------------------------------------------------------
  // object_collision(j): the logos after j only

  /** The logos after `object_collision(j)` has looked at i = j+1 .. n-1. */
  function CollidedAfter(bs: seq<BL.Box>, j: nat, n: nat): (r: seq<BL.Box>)
    requires j < |bs| && n <= |bs|
    ensures |r| == |bs|
  {
    if n <= j + 1 then bs else BL.PairUpdate(CollidedAfter(bs, j, n - 1), n - 1, j, OFFSET, OFFSET)
  }

  /** `object_collision(j)` leaves every logo before j alone, moves no logo
      and changes no speed: it only turns j and the logos after it. */
  lemma {:induction false} CollidedAfterKeeps(bs: seq<BL.Box>, j: nat, n: nat)
    requires j < |bs| && n <= |bs|
    ensures forall m :: 0 <= m < j ==> CollidedAfter(bs, j, n)[m] == bs[m]
    ensures BL.AllSamePlace(CollidedAfter(bs, j, n), bs)
    ensures BL.AllSameSpeed(CollidedAfter(bs, j, n), bs)
  {
    if n > j + 1 {
      CollidedAfterKeeps(bs, j, n - 1);
    }
  }

  lemma CollideAfterStep(bs: seq<BL.Box>, j: nat, i: nat)
    requires j < i < |bs|
    ensures CollidedAfter(bs, j, i + 1) == BL.PairUpdate(CollidedAfter(bs, j, i), i, j, OFFSET, OFFSET)
  {
  }

  /** Which pairs (i, j) the first loop of a frame tests, in order: for each
      j, `object_collision(j)` takes i from j+1 to the end. */
  function PairsFrom(j: nat, i: nat, n: nat): (r: seq<(nat, nat)>)
    requires i <= n
    ensures |r| == n - i
    ensures forall k :: 0 <= k < |r| ==> r[k] == (i + k, j)
    decreases n - i
  {
    if i == n then [] else [(i, j)] + PairsFrom(j, i + 1, n)
  }

  function PairsTested(n: nat, count: nat): seq<(nat, nat)>
    requires count <= n
  {
    if count == 0 then [] else PairsTested(n, count - 1) + PairsFrom(count - 1, count, n)
  }

  /** Over a frame, (i, j) is tested iff j < i: every unordered pair once,
      with the later logo as i. */
  lemma {:induction false} PairsTestedOnce(n: nat, count: nat)
    requires count <= n
    ensures forall i: nat, j: nat :: (i, j) in PairsTested(n, count) <==> j < count && j < i < n
    ensures forall a, b :: 0 <= a < b < |PairsTested(n, count)| ==> PairsTested(n, count)[a] != PairsTested(n, count)[b]
  {
    if count > 0 {
      PairsTestedOnce(n, count - 1);
      var p: seq<(nat, nat)> := PairsTested(n, count - 1);
      var q: seq<(nat, nat)> := PairsFrom(count - 1, count, n);
      assert PairsTested(n, count) == p + q;
      forall i: nat, j: nat
        ensures (i, j) in p + q <==> j < count && j < i < n
      {
        if (i, j) in q {
          var k :| 0 <= k < |q| && q[k] == (i, j);
        }
        if j == count - 1 && j < i < n {
          assert q[i - count] == (i, j);
        }
      }
      forall a: nat, b: nat | a < b < |p + q|
        ensures (p + q)[a] != (p + q)[b]
      {
        if a < |p| && b >= |p| {
          assert (p + q)[a] == p[a] && p[a] in p;
          assert (p + q)[b] == q[b - |p|];
        }
      }
    }
  }

  /** Every pair of `ps` names two of the n logos. */
  predicate PairsIn(ps: seq<(nat, nat)>, n: nat)
  {
    forall k :: 0 <= k < |ps| ==> ps[k].0 < n && ps[k].1 < n
  }

  /** The pair rule applied to the first count pairs of `ps` in turn. */
  function ApplyPairs(bs: seq<BL.Box>, ps: seq<(nat, nat)>, count: nat): (r: seq<BL.Box>)
    requires count <= |ps| && PairsIn(ps, |bs|)
    ensures |r| == |bs|
  {
    if count == 0 then bs
    else BL.PairUpdate(ApplyPairs(bs, ps, count - 1), ps[count - 1].0, ps[count - 1].1, OFFSET, OFFSET)
  }

  /** `object_collision(j)` is the pair rule applied to exactly the pairs
      PairsFrom enumerates for j, in their order. */
  lemma {:induction false} CollidedAfterIsPairsFrom(bs: seq<BL.Box>, j: nat, n: nat)
    requires j < |bs| && j < n <= |bs|
    ensures PairsIn(PairsFrom(j, j + 1, n), |bs|)
    ensures CollidedAfter(bs, j, n) == ApplyPairs(bs, PairsFrom(j, j + 1, n), n - j - 1)
  {
    var ps := PairsFrom(j, j + 1, |bs|);
    CollidedAfterIsPrefix(bs, j, n, ps);
    var qs := PairsFrom(j, j + 1, n);
    assert forall k :: 0 <= k < |qs| ==> qs[k] == ps[k];
    ApplyPairsPrefix(bs, ps, qs, n - j - 1);
  }

  /** The induction behind CollidedAfterIsPairsFrom, over all the pairs of
      object_collision(j). */
  lemma {:induction false} CollidedAfterIsPrefix(bs: seq<BL.Box>, j: nat, n: nat, ps: seq<(nat, nat)>)
    requires j < |bs| && j < n <= |bs| && ps == PairsFrom(j, j + 1, |bs|)
    ensures PairsIn(ps, |bs|)
    ensures CollidedAfter(bs, j, n) == ApplyPairs(bs, ps, n - j - 1)
  {
    if n > j + 1 {
      CollidedAfterIsPrefix(bs, j, n - 1, ps);
      assert ps[n - j - 2] == (n - 1, j);
    }
  }

  /** Two pair lists that agree on their first count pairs give the same result. */
  lemma {:induction false} ApplyPairsPrefix(bs: seq<BL.Box>, ps: seq<(nat, nat)>, qs: seq<(nat, nat)>, count: nat)
    requires count <= |ps| && count <= |qs| && PairsIn(ps, |bs|) && PairsIn(qs, |bs|)
    requires forall k :: 0 <= k < count ==> ps[k] == qs[k]
    ensures ApplyPairs(bs, ps, count) == ApplyPairs(bs, qs, count)
  {
    if count > 0 {
      ApplyPairsPrefix(bs, ps, qs, count - 1);
    }
  }

  // ---------------------------------------------------------------
  // The two loops of a frame

  /** Logo num's part of the first loop: `edge_collision` and then
      `object_collision(num)`. */
  function EdgeThenCollide(bs: seq<BL.Box>, num: nat): (r: seq<BL.Box>)
    requires num < |bs|
    ensures |r| == |bs|
  {
    CollidedAfter(bs[num := BL.Edge(bs[num])], num, |bs|)
  }

  function BouncedUpTo(bs: seq<BL.Box>, n: nat): (r: seq<BL.Box>)
    requires n <= |bs|
    ensures |r| == |bs|
  {
    if n == 0 then bs else EdgeThenCollide(BouncedUpTo(bs, n - 1), n - 1)
  }

  lemma BouncedStep(bs: seq<BL.Box>, n: nat)
    requires n < |bs|
    ensures BouncedUpTo(bs, n + 1) == EdgeThenCollide(BouncedUpTo(bs, n), n)
  {
  }

  /** The first loop changes no speed and leaves each logo that had its
      edge test on the screen. */
  lemma {:induction false} BouncedOnScreen(bs: seq<BL.Box>, n: nat)
    requires n <= |bs|
    ensures forall m :: 0 <= m < n ==> BL.OnScreen(BouncedUpTo(bs, n)[m])
    ensures BL.AllSameSpeed(BouncedUpTo(bs, n), bs)
  {
    if n > 0 {
      BouncedOnScreen(bs, n - 1);
      var before := BouncedUpTo(bs, n - 1);
      var edged := before[n - 1 := BL.Edge(before[n - 1])];
      CollidedAfterKeeps(edged, n - 1, |edged|);
      var after := BouncedUpTo(bs, n);
      forall m | 0 <= m < n
        ensures BL.OnScreen(after[m])
      {
        assert BL.SamePlace(after[m], edged[m]);
      }
      forall m | 0 <= m < |bs|
        ensures BL.SameSpeed(after[m], bs[m])
      {
        assert BL.SameSpeed(after[m], edged[m]);
        if m == n - 1 {
          BL.EdgeKeepsSpeed(before[m]);
        }
      }
    }
  }

  /** `Logo.draw(k)` with the sub-image indexes `sub` that
      `load_animation` returned: slot 4(k+1)-3+q shows sub[q] at offsets
      0 or SUB_IMAGE_SIZE. Fewer than four indexes make `LOGOSUB[q]` raise
      IndexError after the calls before it. Without the file nothing is
      shown as a sprite. */
  function Draw(k: nat, b: BL.Box, sub: seq<int>, hasSprite: bool): (r: (seq<BL.SpriteCall>, bool))
    ensures r.1 <==> hasSprite && |sub| < 4
  {
    if !hasSprite then ([], false)
    else
      var n := k + 1;
      var all := [BL.SpriteCall(n * 4 - 3, if |sub| > 0 then sub[0] else 0, b.xStart, b.yStart),
                  BL.SpriteCall(n * 4 - 2, if |sub| > 1 then sub[1] else 0, b.xStart + SUB_IMAGE_SIZE, b.yStart),
                  BL.SpriteCall(n * 4 - 1, if |sub| > 2 then sub[2] else 0, b.xStart, b.yStart + SUB_IMAGE_SIZE),
                  BL.SpriteCall(n * 4, if |sub| > 3 then sub[3] else 0, b.xStart + SUB_IMAGE_SIZE, b.yStart + SUB_IMAGE_SIZE)];
      if |sub| < 4 then (all[..|sub|], true) else (all, false)
  }

  /** With four sub-images logo k shows sub-image q in slot 4(k+1)-3+q at
      offset (32 (q mod 2), 32 (q div 2)); the slots of the first
      MAX_LOGOS logos lie in 1..16. */
  lemma DrawSlots(k: nat, b: BL.Box, sub: seq<int>)
    requires |sub| >= 4
    ensures var c := Draw(k, b, sub, true).0;
      |c| == 4 && forall q :: 0 <= q < 4 ==>
        c[q].slot == 4 * (k + 1) - 3 + q && c[q].image == sub[q]
        && c[q].x == b.xStart + SUB_IMAGE_SIZE * (q % 2) && c[q].y == b.yStart + SUB_IMAGE_SIZE * (q / 2)
    ensures k < MAX_LOGOS ==> forall q :: 0 <= q < 4 ==> 1 <= Draw(k, b, sub, true).0[q].slot <= MAX_SPRITE_SLOTS
  {
  }

  /** What the second loop does to the logos and the calls it makes, and
      whether it stopped on IndexError: either every draw raises, so the
      loop stops after moving logo 0, or none does. */
  function MovePass(bs: seq<BL.Box>, sub: seq<int>, hasSprite: bool): (seq<BL.Box>, seq<BL.SpriteCall>, bool)
  {
    if hasSprite && |sub| < 4 && |bs| > 0 then
      var m := BL.Moved(bs[0]);
      (bs[0 := m], Draw(0, m, sub, true).0, true)
    else (MovedUpTo(bs, |bs|), DrawnUpTo(bs, |bs|, sub, hasSprite), false)
  }

  /** The first n logos moved. */
  function MovedUpTo(bs: seq<BL.Box>, n: nat): (r: seq<BL.Box>)
    requires n <= |bs|
    ensures |r| == |bs|
  {
    if n == 0 then bs else MovedUpTo(bs, n - 1)[n - 1 := BL.Moved(bs[n - 1])]
  }

  /** The draws of the first n logos, each after its move. */
  function DrawnUpTo(bs: seq<BL.Box>, n: nat, sub: seq<int>, hasSprite: bool): seq<BL.SpriteCall>
    requires n <= |bs|
  {
    if n == 0 then [] else DrawnUpTo(bs, n - 1, sub, hasSprite) + Draw(n - 1, BL.Moved(bs[n - 1]), sub, hasSprite).0
  }

  /** Logo m after the first n moves. */
  lemma {:induction false} MovedUpToAt(bs: seq<BL.Box>, n: nat, m: nat)
    requires n <= |bs| && m < |bs|
    ensures MovedUpTo(bs, n)[m] == if m < n then BL.Moved(bs[m]) else bs[m]
  {
    if n > 0 {
      MovedUpToAt(bs, n - 1, m);
    }
  }

  /** After a frame that did not raise, every logo's end coordinates are
      its start plus the image size again, and each start moved by its
      velocity. */
  lemma MovedEnds(bs: seq<BL.Box>, sub: seq<int>, hasSprite: bool)
    requires !MovePass(bs, sub, hasSprite).2
    ensures var r := MovePass(bs, sub, hasSprite).0;
      |r| == |bs| && forall m :: 0 <= m < |r| ==>
        r[m].xEnd == r[m].xStart + BL.IMAGE_WIDTH && r[m].yEnd == r[m].yStart + BL.IMAGE_HEIGHT
        && r[m].xStart == bs[m].xStart + bs[m].xVel && r[m].yStart == bs[m].yStart + bs[m].yVel
  {
    forall m | 0 <= m < |bs|
      ensures MovedUpTo(bs, |bs|)[m] == BL.Moved(bs[m])
    {
      MovedUpToAt(bs, |bs|, m);
    }
  }

  // ---------------------------------------------------------------
  // Methods over the logo list

  /** One pass of `object_collision(j)`'s loop, i > j. */
  method TestPair(ls: seq<BL.Logo>, i: nat, j: nat)
    requires BL.Distinct(ls) && j < i < |ls|
    modifies ls
    ensures BL.Boxes(ls) == BL.PairUpdate(old(BL.Boxes(ls)), i, j, OFFSET, OFFSET)
  {
    var bi, bj := ls[i].Snapshot(), ls[j].Snapshot();
    BL.BoxesAt(ls, i);
    BL.BoxesAt(ls, j);
    var h := BL.HitOf(bi, bj, OFFSET, OFFSET);
    BL.BouncePair(ls, i, j, h);
  }

  /** `object_collision(j)`. */
  method ObjectCollision(ls: seq<BL.Logo>, j: nat)
    requires BL.Distinct(ls) && j < |ls|
    modifies ls
    ensures BL.Boxes(ls) == CollidedAfter(old(BL.Boxes(ls)), j, |ls|)
  {
    ghost var b0 := BL.Boxes(ls);
    var i := j + 1;
    while i < |ls|
      invariant j + 1 <= i <= |ls|
      invariant BL.Boxes(ls) == CollidedAfter(b0, j, i)
    {
      CollideAfterStep(b0, j, i);
      TestPair(ls, i, j);
      i := i + 1;
    }
  }

  /** Logo num's part of the first loop. */
  method EdgeStep(ls: seq<BL.Logo>, num: nat)
    requires BL.Distinct(ls) && num < |ls|
    modifies ls
    ensures BL.Boxes(ls) == EdgeThenCollide(old(BL.Boxes(ls)), num)
  {
    ghost var before := BL.Boxes(ls);
    forall m | 0 <= m < |ls|
      ensures before[m] == ls[m].Snapshot()
    {
      BL.BoxesAt(ls, m);
    }
    BL.EdgeCollision(ls[num]);
    ghost var after := before[num := BL.Edge(before[num])];
    forall m | 0 <= m < |ls|
      ensures ls[m].Snapshot() == after[m]
    {
      if m != num {
        assert ls[m] != ls[num] by {
          if m < num { assert ls[m] != ls[num]; } else { assert ls[num] != ls[m]; }
        }
      }
    }
    BL.BoxesFrom(ls, after);
    ObjectCollision(ls, num);
  }

  /** The first loop of a frame. */
  method BouncePass(ls: seq<BL.Logo>)
    requires BL.Distinct(ls)
    modifies ls
    ensures BL.Boxes(ls) == BouncedUpTo(old(BL.Boxes(ls)), |ls|)
  {
    ghost var b0 := BL.Boxes(ls);
    var num := 0;
    while num < |ls|
      invariant num <= |ls|
      invariant BL.Boxes(ls) == BouncedUpTo(b0, num)
    {
      BouncedStep(b0, num);
      EdgeStep(ls, num);
      num := num + 1;
    }
  }

  /** Moving logo num changes its snapshot and no other. */
  method MoveOne(ls: seq<BL.Logo>, num: nat)
    requires BL.Distinct(ls) && num < |ls|
    modifies ls
    ensures BL.Boxes(ls) == old(BL.Boxes(ls))[num := BL.Moved(old(BL.Boxes(ls))[num])]
  {
    ghost var before := BL.Boxes(ls);
    forall m | 0 <= m < |ls|
      ensures before[m] == ls[m].Snapshot()
    {
      BL.BoxesAt(ls, m);
    }
    BL.Move(ls[num]);
    ghost var after := before[num := BL.Moved(before[num])];
    forall m | 0 <= m < |ls|
      ensures ls[m].Snapshot() == after[m]
    {
      if m != num {
        assert ls[m] != ls[num] by {
          if m < num { assert ls[m] != ls[num]; } else { assert ls[num] != ls[m]; }
        }
      }
    }
    BL.BoxesFrom(ls, after);
  }

  lemma MoveStepFacts(bs: seq<BL.Box>, n: nat, sub: seq<int>, hasSprite: bool)
    requires n < |bs|
    ensures MovedUpTo(bs, n + 1) == MovedUpTo(bs, n)[n := BL.Moved(bs[n])]
    ensures DrawnUpTo(bs, n + 1, sub, hasSprite) == DrawnUpTo(bs, n, sub, hasSprite) + Draw(n, BL.Moved(bs[n]), sub, hasSprite).0
  {
  }

  /** The second loop of a frame: each logo moves and is drawn; a draw
      that raises ends the loop. */
  method MoveAndDraw(ls: seq<BL.Logo>, sub: seq<int>, hasSprite: bool) returns (calls: seq<BL.SpriteCall>, raised: Option<Exception>)
    requires BL.Distinct(ls)
    modifies ls
    ensures var r := MovePass(old(BL.Boxes(ls)), sub, hasSprite);
      BL.Boxes(ls) == r.0 && calls == r.1 && (raised.Some? <==> r.2) && (raised.Some? ==> raised.value == IndexError)
  {
    ghost var b0 := BL.Boxes(ls);
    calls := [];
    raised := None;
    var num := 0;
    while num < |ls|
      invariant num <= |ls|
      invariant BL.Boxes(ls) == MovedUpTo(b0, num)
      invariant calls == DrawnUpTo(b0, num, sub, hasSprite)
      invariant num > 0 ==> !(hasSprite && |sub| < 4)
    {
      MoveStepFacts(b0, num, sub, hasSprite);
      MovedUpToAt(b0, num, num);
      MoveOne(ls, num);
      BL.BoxesAt(ls, num);
      var d := Draw(num, ls[num].Snapshot(), sub, hasSprite);
      calls := calls + d.0;
      if d.1 {
        raised := Some(IndexError);
        return;
      }
      num := num + 1;
    }
  }

  // ---------------------------------------------------------------
  // The demo's state

  function Spawn(x: int, y: int, right: bool, down: bool): BL.Box
  {
    BL.Box(x, y, x + BL.IMAGE_WIDTH, y + BL.IMAGE_HEIGHT,
           if right then DEFAULT_VELOCITY else -DEFAULT_VELOCITY, if down then DEFAULT_VELOCITY else -DEFAULT_VELOCITY)
  }

  /** The script's globals: the logo list and the button timer. */
  class Scene {
    var logos: seq<BL.Logo>
    var lastTime: int

    ghost predicate Valid()
      reads this
    {
      BL.Distinct(logos)
    }

    /** The start of the script: `add_logo()` on the empty list and the
        timer started at `now`. */
    constructor (x: int, y: int, right: bool, down: bool, now: int)
      ensures Valid() && BL.Boxes(logos) == [Spawn(x, y, right, down)] && lastTime == now
    {
      var l := new BL.Logo(x, y, DEFAULT_VELOCITY, right, down);
      logos := [l];
      lastTime := now;
      BL.BoxesFrom([l], [Spawn(x, y, right, down)]);
    }

    /** `add_logo`: a new logo at the end while fewer than MAX_LOGOS are
        shown; otherwise the list is left as it was (and a message is
        printed). */
    method AddLogo(x: int, y: int, right: bool, down: bool)
      requires Valid()
      modifies this
      ensures Valid() && lastTime == old(lastTime)
      ensures if old(|logos|) < MAX_LOGOS
              then BL.Boxes(logos) == old(BL.Boxes(logos)) + [Spawn(x, y, right, down)]
                   && |logos| == old(|logos|) + 1 && logos[..old(|logos|)] == old(logos)
              else logos == old(logos)
      ensures old(|logos|) <= MAX_LOGOS ==> |logos| <= MAX_LOGOS
    {
      if |logos| < MAX_LOGOS {
        var l := new BL.Logo(x, y, DEFAULT_VELOCITY, right, down);
        assert (logos + [l])[..|logos|] == logos;
        logos := logos + [l];
      }
    }

    /** The button handling of the main loop: more than 500 ms after the
        last look, a pressed Y button (reading low) calls `add_logo`, and
        the timer restarts. */
    method Poll(now: int, buttonLevel: bool, x: int, y: int, right: bool, down: bool)
      requires Valid()
      modifies this
      ensures Valid()
      ensures lastTime == (if now - old(lastTime) > 500 then now else old(lastTime))
      ensures if now - old(lastTime) > 500 && !buttonLevel && old(|logos|) < MAX_LOGOS
              then BL.Boxes(logos) == old(BL.Boxes(logos)) + [Spawn(x, y, right, down)]
              else logos == old(logos)
      ensures old(|logos|) <= MAX_LOGOS ==> |logos| <= MAX_LOGOS
    {
      if now - lastTime > 500 {
        if !buttonLevel {
          AddLogo(x, y, right, down);
        }
        lastTime := now;
      }
    }

    /** The logo part of one frame: every logo bounces off the edges and
        the logos after it, then every logo moves and is drawn. */
    method Frame(sub: seq<int>, hasSprite: bool) returns (calls: seq<BL.SpriteCall>, raised: Option<Exception>)
      requires Valid()
      modifies logos
      ensures var r := MovePass(BouncedUpTo(old(BL.Boxes(logos)), |logos|), sub, hasSprite);
        BL.Boxes(logos) == r.0 && calls == r.1 && (raised.Some? <==> r.2) && (raised.Some? ==> raised.value == IndexError)
    {
      BouncePass(logos);
      calls, raised := MoveAndDraw(logos, sub, hasSprite);
    }
  }
}
