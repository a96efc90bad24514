/** The bouncing Pimoroni logo demo (examples/bouncing_logo.py): 64 by 64
    logos, each drawn as four 32 by 32 hardware sprites, move across a 640
    by 480 screen, bounce off its edges and off each other, and a four-part
    splatter sprite marks where a collision happened. The logo objects, the
    edge rule and the collision rule are shared with the animated variant
    of the demo. */
module BouncingLogo {

  const WIDTH := 640
  const HEIGHT := 480
  const IMAGE_WIDTH := 64
  const IMAGE_HEIGHT := 64
  const DEFAULT_VELOCITY := 15
  const MAX_SPRITE_SLOTS := 16
  const MAX_LOGOS := MAX_SPRITE_SLOTS / 4
  const X_OFFSET := DEFAULT_VELOCITY / 2
  const Y_OFFSET := DEFAULT_VELOCITY / 2

  // Image indexes of the logo's quarters and of the splatter's quarters.
  const LOGOSUB1_INDEX := 1
  const LOGOSUB2_INDEX := 2
  const LOGOSUB3_INDEX := 3
  const LOGOSUB4_INDEX := 4
  const SPLATSUB1_INDEX := 5
  const SPLATSUB2_INDEX := 6
  const SPLATSUB3_INDEX := 7
  const SPLATSUB4_INDEX := 8

  /** One `display_sprite(slot, image, x, y)` call. */
  datatype SpriteCall = SpriteCall(slot: int, image: int, x: int, y: int)

  /** A logo's fields at one moment. */
  datatype Box = Box(xStart: int, yStart: int, xEnd: int, yEnd: int, xVel: int, yVel: int)

  function Abs(v: int): (r: int)
    ensures r >= 0 && (r == v || r == -v)
  {
    if v < 0 then -v else v
  }

  /** Two boxes that differ at most in their velocities. */
  predicate SamePlace(a: Box, b: Box)
  {
    a.xStart == b.xStart && a.yStart == b.yStart && a.xEnd == b.xEnd && a.yEnd == b.yEnd
  }

  /** Two boxes whose velocity components have the same magnitudes. */
  predicate SameSpeed(a: Box, b: Box)
  {
    Abs(a.xVel) == Abs(b.xVel) && Abs(a.yVel) == Abs(b.yVel)
  }

  /** A logo whose top-left corner lies on the screen with the whole image
      inside it. */
  predicate OnScreen(b: Box)
  {
    0 <= b.xStart <= WIDTH - IMAGE_WIDTH && 0 <= b.yStart <= HEIGHT - IMAGE_HEIGHT
  }

  // ---------------------------------------------------------------
  // edge_collision

  /** The horizontal test: the right edge reaches the screen's or the left
      edge has passed 0. */
  predicate HitsX(b: Box)
  {
    b.xStart + IMAGE_WIDTH >= WIDTH || b.xStart < 0
  }

  /** The vertical test, which unlike the horizontal one also fires with the
      top edge exactly at 0. */
  predicate HitsY(b: Box)
  {
    b.yStart + IMAGE_HEIGHT >= HEIGHT || b.yStart <= 0
  }

  /** `edge_collision`: a test that fires negates that velocity component
      and pulls an edge that went past the screen's back onto it; the end
      coordinates are left as they were. */
  function Edge(b: Box): (r: Box)
    ensures OnScreen(r)
    ensures r.xEnd == b.xEnd && r.yEnd == b.yEnd
    ensures r.xVel == (if HitsX(b) then -b.xVel else b.xVel)
    ensures r.yVel == (if HitsY(b) then -b.yVel else b.yVel)
    ensures OnScreen(b) ==> r.xStart == b.xStart && r.yStart == b.yStart
    ensures b.xStart < 0 ==> r.xStart == 0
    ensures b.xStart + IMAGE_WIDTH > WIDTH ==> r.xStart == WIDTH - IMAGE_WIDTH
    ensures b.yStart < 0 ==> r.yStart == 0
    ensures b.yStart + IMAGE_HEIGHT > HEIGHT ==> r.yStart == HEIGHT - IMAGE_HEIGHT
  {
    var x :=
      if HitsX(b) && b.xStart < 0 then 0
      else if HitsX(b) && b.xStart + IMAGE_WIDTH > WIDTH then WIDTH - IMAGE_WIDTH
      else b.xStart;
    var y :=
      if HitsY(b) && b.yStart < 0 then 0
      else if HitsY(b) && b.yStart + IMAGE_HEIGHT > HEIGHT then HEIGHT - IMAGE_HEIGHT
      else b.yStart;
    Box(x, y, b.xEnd, b.yEnd, if HitsX(b) then -b.xVel else b.xVel, if HitsY(b) then -b.yVel else b.yVel)
  }

  /** The two tests are not symmetric: a logo with its top edge at 0 turns
      round while staying at 0, but one with its left edge at 0 does not
      turn. Either way no velocity changes its magnitude. */
  lemma EdgeAtZero(b: Box)
    requires b.xStart == 0 && b.yStart == 0
    ensures Edge(b).yVel == -b.yVel && Edge(b).yStart == 0
    ensures Edge(b).xVel == b.xVel && Edge(b).xStart == 0
    ensures SameSpeed(Edge(b), b)
  {
  }

  /** The edge rule never changes a velocity's magnitude, and a second
      application leaves the position where the first put it. */
  lemma EdgeKeepsSpeed(b: Box)
    ensures SameSpeed(Edge(b), b)
    ensures SamePlace(Edge(Edge(b)), Edge(b))
  {
  }

  /** `logo.x_start += logo.x_vel` and the rest of the position update at
      the start of each frame: the ends follow the starts again. */
  function Moved(b: Box): (r: Box)
    ensures r.xStart == b.xStart + b.xVel && r.yStart == b.yStart + b.yVel
    ensures r.xEnd == r.xStart + IMAGE_WIDTH && r.yEnd == r.yStart + IMAGE_HEIGHT
    ensures r.xVel == b.xVel && r.yVel == b.yVel
  {
    var x := b.xStart + b.xVel;
    var y := b.yStart + b.yVel;
    Box(x, y, x + IMAGE_WIDTH, y + IMAGE_HEIGHT, b.xVel, b.yVel)
  }

  // ---------------------------------------------------------------
  // Logo-against-logo collisions

  /** Which branch of the collision test's elif chain a pair takes. */
  datatype Hit = NoHit | RightHit | LeftHit | UpHit | DownHit

  predicate RightTest(bi: Box, bj: Box, xOffset: int)
  {
    Abs(bi.xStart - bj.xEnd) < xOffset && Abs(bi.yStart - bj.yStart) <= IMAGE_HEIGHT
  }

  predicate LeftTest(bi: Box, bj: Box, xOffset: int)
  {
    Abs(bj.xStart - bi.xEnd) < xOffset && Abs(bi.yStart - bj.yStart) <= IMAGE_HEIGHT
  }

  predicate UpTest(bi: Box, bj: Box, yOffset: int)
  {
    Abs(bi.yStart - bj.yEnd) < yOffset && Abs(bi.xStart - bj.xStart) <= IMAGE_WIDTH
  }

  predicate DownTest(bi: Box, bj: Box, yOffset: int)
  {
    Abs(bj.yStart - bi.yEnd) < yOffset && Abs(bi.xStart - bj.xStart) <= IMAGE_WIDTH
  }

  /** The first of the four tests, in the source's order, that holds. */
  function HitOf(bi: Box, bj: Box, xOffset: int, yOffset: int): Hit
  {
    if RightTest(bi, bj, xOffset) then RightHit
    else if LeftTest(bi, bj, xOffset) then LeftHit
    else if UpTest(bi, bj, yOffset) then UpHit
    else if DownTest(bi, bj, yOffset) then DownHit
    else NoHit
  }

  /** The elif chain: a pair takes exactly the first branch whose test holds,
      so at most one of the four, and none when no test holds. */
  lemma HitChain(bi: Box, bj: Box, xo: int, yo: int)
    ensures HitOf(bi, bj, xo, yo) == RightHit <==> RightTest(bi, bj, xo)
    ensures HitOf(bi, bj, xo, yo) == LeftHit <==> !RightTest(bi, bj, xo) && LeftTest(bi, bj, xo)
    ensures HitOf(bi, bj, xo, yo) == UpHit <==>
      !RightTest(bi, bj, xo) && !LeftTest(bi, bj, xo) && UpTest(bi, bj, yo)
    ensures HitOf(bi, bj, xo, yo) == DownHit <==>
      !RightTest(bi, bj, xo) && !LeftTest(bi, bj, xo) && !UpTest(bi, bj, yo) && DownTest(bi, bj, yo)
    ensures HitOf(bi, bj, xo, yo) == NoHit <==>
      !RightTest(bi, bj, xo) && !LeftTest(bi, bj, xo) && !UpTest(bi, bj, yo) && !DownTest(bi, bj, yo)
  {
  }

  /** The test looks only at positions, never at velocities. */
  lemma HitOfPlaces(bi: Box, bj: Box, ci: Box, cj: Box, xo: int, yo: int)
    requires SamePlace(bi, ci) && SamePlace(bj, cj)
    ensures HitOf(bi, bj, xo, yo) == HitOf(ci, cj, xo, yo)
  {
  }

  /** What a branch does to the two velocities: only signs are flipped, so
      i is sent away from j along the axis of the collision and j away from
      i; nothing else changes. */
  function Bounce(h: Hit, bi: Box, bj: Box): (r: (Box, Box))
    ensures SamePlace(r.0, bi) && SamePlace(r.1, bj)
    ensures SameSpeed(r.0, bi) && SameSpeed(r.1, bj)
    ensures h == NoHit ==> r == (bi, bj)
    ensures h == RightHit ==> r.0.xVel >= 0 && r.1.xVel <= 0 && r.0.yVel == bi.yVel && r.1.yVel == bj.yVel
    ensures h == LeftHit ==> r.0.xVel <= 0 && r.1.xVel >= 0 && r.0.yVel == bi.yVel && r.1.yVel == bj.yVel
    ensures h == UpHit ==> r.0.yVel >= 0 && r.1.yVel <= 0 && r.0.xVel == bi.xVel && r.1.xVel == bj.xVel
    ensures h == DownHit ==> r.0.yVel <= 0 && r.1.yVel >= 0 && r.0.xVel == bi.xVel && r.1.xVel == bj.xVel
  {
    match h
    case NoHit => (bi, bj)
    case RightHit => (bi.(xVel := Abs(bi.xVel)), bj.(xVel := -Abs(bj.xVel)))
    case LeftHit => (bi.(xVel := -Abs(bi.xVel)), bj.(xVel := Abs(bj.xVel)))
    case UpHit => (bi.(yVel := Abs(bi.yVel)), bj.(yVel := -Abs(bj.yVel)))
    case DownHit => (bi.(yVel := -Abs(bi.yVel)), bj.(yVel := Abs(bj.yVel)))
  }

  /** One pair (i, j) of an `object_collision(j)` loop; i == j is skipped. */
  function PairUpdate(bs: seq<Box>, i: nat, j: nat, xo: int, yo: int): (r: seq<Box>)
    requires i < |bs| && j < |bs|
    ensures |r| == |bs|
  {
    if i == j then bs
    else
      var p := Bounce(HitOf(bs[i], bs[j], xo, yo), bs[i], bs[j]);
      bs[i := p.0][j := p.1]
  }

  /** The logos after `object_collision(j)` has looked at i = 0 .. n-1. */
  function Collided(bs: seq<Box>, j: nat, n: nat, xo: int, yo: int): (r: seq<Box>)
    requires j < |bs| && n <= |bs|
    ensures |r| == |bs|
  {
    if n == 0 then bs else PairUpdate(Collided(bs, j, n - 1, xo, yo), n - 1, j, xo, yo)
  }

  predicate AllSamePlace(a: seq<Box>, b: seq<Box>)
  {
    |a| == |b| && forall m :: 0 <= m < |a| ==> SamePlace(a[m], b[m])
  }

  predicate AllSameSpeed(a: seq<Box>, b: seq<Box>)
  {
    |a| == |b| && forall m :: 0 <= m < |a| ==> SameSpeed(a[m], b[m])
  }

  /** Collisions move nothing and change no speed; they only turn logos. */
  lemma {:induction false} CollidedKeepsPlaces(bs: seq<Box>, j: nat, n: nat, xo: int, yo: int)
    requires j < |bs| && n <= |bs|
    ensures AllSamePlace(Collided(bs, j, n, xo, yo), bs)
    ensures AllSameSpeed(Collided(bs, j, n, xo, yo), bs)
  {
    if n > 0 {
      CollidedKeepsPlaces(bs, j, n - 1, xo, yo);
    }
  }

  // ---------------------------------------------------------------
  // Splatter and logo sprites

  /** `add_splatter(x, y)` (and `clear_splatter`, which puts it at
      (800, 600), off the screen): the four quarters in slots 17 to 20. */
  function Splatter(x: int, y: int): (r: seq<SpriteCall>)
    ensures |r| == 4
  {
    [SpriteCall(17, SPLATSUB1_INDEX, x, y), SpriteCall(18, SPLATSUB2_INDEX, x + 32, y),
     SpriteCall(19, SPLATSUB3_INDEX, x, y + 32), SpriteCall(20, SPLATSUB4_INDEX, x + 32, y + 32)]
  }

  /** The splatter's quarters take slots 17 to 20, above every logo's, and
      sit at offsets 0 and 32 from (x, y). */
  lemma SplatterSlots(x: int, y: int)
    ensures forall k :: 0 <= k < 4 ==>
      var c := Splatter(x, y)[k];
      c.slot == 17 + k && c.slot > MAX_SPRITE_SLOTS && c.image == SPLATSUB1_INDEX + k
      && c.x == x + 32 * (k % 2) && c.y == y + 32 * (k / 2)
  {
  }

  /** The splatter drawn for pair (i, j), if it collides. */
  function SplatStep(bs: seq<Box>, i: nat, j: nat): seq<SpriteCall>
    requires i < |bs| && j < |bs|
  {
    if i != j && HitOf(bs[i], bs[j], X_OFFSET, Y_OFFSET) != NoHit then Splatter(bs[j].xStart, bs[j].yStart)
    else []
  }

  /** The sprite calls of `object_collision(j)` for i = 0 .. n-1: a splatter
      at j's position for every pair that collided. */
  function Splats(bs: seq<Box>, j: nat, n: nat): seq<SpriteCall>
    requires j < |bs| && n <= |bs|
  {
    if n == 0 then [] else Splats(bs, j, n - 1) + SplatStep(Collided(bs, j, n - 1, X_OFFSET, Y_OFFSET), n - 1, j)
  }

  /** No pair among i < n collided with j. */
  predicate NoCollision(bs: seq<Box>, j: nat, n: nat)
    requires j < |bs| && n <= |bs|
  {
    forall i :: 0 <= i < n && i != j ==> HitOf(bs[i], bs[j], X_OFFSET, Y_OFFSET) == NoHit
  }

  /** Every call `object_collision(j)` makes, in order: the splatters, then
      `clear_splatter` when none was drawn. */
  function CollisionCalls(bs: seq<Box>, j: nat): seq<SpriteCall>
    requires j < |bs|
  {
    var s := Splats(bs, j, |bs|);
    s + (if s == [] then Splatter(800, 600) else [])
  }

  lemma SplatStepEmpty(bs: seq<Box>, i: nat, j: nat)
    requires i < |bs| && j < |bs|
    ensures SplatStep(bs, i, j) == [] <==> i == j || HitOf(bs[i], bs[j], X_OFFSET, Y_OFFSET) == NoHit
  {
  }

  lemma NoCollisionStep(bs: seq<Box>, j: nat, n: nat)
    requires j < |bs| && 0 < n <= |bs|
    ensures NoCollision(bs, j, n) <==>
      NoCollision(bs, j, n - 1) && (n - 1 == j || HitOf(bs[n - 1], bs[j], X_OFFSET, Y_OFFSET) == NoHit)
  {
  }

  /** A splatter is drawn for some pair exactly when some logo hit logo j,
      so `clear_splatter` runs iff no pair collided. */
  lemma {:induction false} SplatsEmptyIffNoCollision(bs: seq<Box>, j: nat, n: nat)
    requires j < |bs| && n <= |bs|
    ensures Splats(bs, j, n) == [] <==> NoCollision(bs, j, n)
  {
    if n > 0 {
      SplatsEmptyIffNoCollision(bs, j, n - 1);
      var c := Collided(bs, j, n - 1, X_OFFSET, Y_OFFSET);
      CollidedKeepsPlaces(bs, j, n - 1, X_OFFSET, Y_OFFSET);
      HitOfPlaces(c[n - 1], c[j], bs[n - 1], bs[j], X_OFFSET, Y_OFFSET);
      SplatStepEmpty(c, n - 1, j);
      NoCollisionStep(bs, j, n);
      assert Splats(bs, j, n) == Splats(bs, j, n - 1) + SplatStep(c, n - 1, j);
    }
  }

  /** `Logo.draw(k)` with the sprite file present: the four quarters in
      slots 4(k+1)-3 .. 4(k+1), at offsets 0 and 32. Without the file a
      rectangle and a text are drawn instead, which the model leaves out. */
  function DrawCalls(k: nat, b: Box, hasSprite: bool): seq<SpriteCall>
  {
    if hasSprite then
      var s := k + 1;
      [SpriteCall(s * 4 - 3, LOGOSUB1_INDEX, b.xStart, b.yStart),
       SpriteCall(s * 4 - 2, LOGOSUB2_INDEX, b.xStart + 32, b.yStart),
       SpriteCall(s * 4 - 1, LOGOSUB3_INDEX, b.xStart, b.yStart + 32),
       SpriteCall(s * 4, LOGOSUB4_INDEX, b.xStart + 32, b.yStart + 32)]
    else []
  }

  /** Logo k uses slots 4k+1 .. 4k+4, one per quarter; while k is below
      MAX_LOGOS these lie in 1..16, apart from the splatter's 17..20, and two
      logos never share a slot. */
  lemma DrawSlots(k: nat, b: Box)
    ensures var c := DrawCalls(k, b, true);
      |c| == 4 && forall q :: 0 <= q < 4 ==> c[q].slot == 4 * k + 1 + q && c[q].image == LOGOSUB1_INDEX + q
    ensures k < MAX_LOGOS ==> forall q :: 0 <= q < 4 ==> 1 <= DrawCalls(k, b, true)[q].slot <= MAX_SPRITE_SLOTS
    ensures DrawCalls(k, b, false) == []
  {
  }

  lemma DrawSlotsDisjoint(k1: nat, k2: nat, b1: Box, b2: Box)
    requires k1 != k2
    ensures forall p, q :: 0 <= p < 4 && 0 <= q < 4 ==>
      DrawCalls(k1, b1, true)[p].slot != DrawCalls(k2, b2, true)[q].slot
  {
    DrawSlots(k1, b1);
    DrawSlots(k2, b2);
  }

  // ---------------------------------------------------------------
  // The logo objects

  class Logo {
    var xStart: int
    var yStart: int
    var xEnd: int
    var yEnd: int
    var xVel: int
    var yVel: int

    function Snapshot(): Box
      reads this
    {
      Box(xStart, yStart, xEnd, yEnd, xVel, yVel)
    }

    /** `Logo()`: the random start position (x, y) and the two coin flips
        for the directions are parameters; `speed` is DEFAULT_VELOCITY. */
    constructor (x: int, y: int, speed: int, right: bool, down: bool)
      ensures Snapshot() == Box(x, y, x + IMAGE_WIDTH, y + IMAGE_HEIGHT,
                                if right then speed else -speed, if down then speed else -speed)
    {
      xStart, yStart := x, y;
      xEnd, yEnd := x + IMAGE_WIDTH, y + IMAGE_HEIGHT;
      xVel := if right then speed else -speed;
      yVel := if down then speed else -speed;
    }
  }

  /** `edge_collision(logo)`. The random text colour it also picks is not
      part of the model. */
  method EdgeCollision(logo: Logo)
    modifies logo
    ensures logo.Snapshot() == Edge(old(logo.Snapshot()))
  {
    if logo.xStart + IMAGE_WIDTH >= WIDTH || logo.xStart < 0 {
      logo.xVel := -logo.xVel;
      if logo.xStart < 0 {
        logo.xStart := 0;
      } else if logo.xStart + IMAGE_WIDTH > WIDTH {
        logo.xStart := WIDTH - IMAGE_WIDTH;
      }
    }
    if logo.yStart + IMAGE_HEIGHT >= HEIGHT || logo.yStart <= 0 {
      logo.yVel := -logo.yVel;
      if logo.yStart < 0 {
        logo.yStart := 0;
      } else if logo.yStart + IMAGE_HEIGHT > HEIGHT {
        logo.yStart := HEIGHT - IMAGE_HEIGHT;
      }
    }
  }

  /** The position update of the frame loop. */
  method Move(logo: Logo)
    modifies logo
    ensures logo.Snapshot() == Moved(old(logo.Snapshot()))
  {
    logo.xStart := logo.xStart + logo.xVel;
    logo.yStart := logo.yStart + logo.yVel;
    logo.xEnd := logo.xStart + IMAGE_WIDTH;
    logo.yEnd := logo.yStart + IMAGE_HEIGHT;
  }

  /** One branch of the collision chain applied to two distinct logos, with
      the source's sign flips. */
  method ApplyBounce(a: Logo, b: Logo, h: Hit)
    requires a != b
    modifies a, b
    ensures a.Snapshot() == Bounce(h, old(a.Snapshot()), old(b.Snapshot())).0
    ensures b.Snapshot() == Bounce(h, old(a.Snapshot()), old(b.Snapshot())).1
  {
    match h {
      case NoHit =>
      case RightHit =>
        if a.xVel < 0 { a.xVel := a.xVel * -1; }
        if b.xVel > 0 { b.xVel := b.xVel * -1; }
      case LeftHit =>
        if a.xVel > 0 { a.xVel := a.xVel * -1; }
        if b.xVel < 0 { b.xVel := b.xVel * -1; }
      case UpHit =>
        if a.yVel < 0 { a.yVel := a.yVel * -1; }
        if b.yVel > 0 { b.yVel := b.yVel * -1; }
      case DownHit =>
        if a.yVel > 0 { a.yVel := a.yVel * -1; }
        if b.yVel < 0 { b.yVel := b.yVel * -1; }
    }
  }

  /** The snapshots of a list of logos. */
  function Boxes(ls: seq<Logo>): (r: seq<Box>)
    reads ls
    ensures |r| == |ls|
  {
    if ls == [] then [] else Boxes(ls[..|ls| - 1]) + [ls[|ls| - 1].Snapshot()]
  }

  lemma {:induction false} BoxesAt(ls: seq<Logo>, m: nat)
    requires m < |ls|
    ensures Boxes(ls)[m] == ls[m].Snapshot()
  {
    if m < |ls| - 1 {
      BoxesAt(ls[..|ls| - 1], m);
    }
  }

  /** Boxes is determined elementwise. */
  lemma BoxesFrom(ls: seq<Logo>, bs: seq<Box>)
    requires |ls| == |bs|
    requires forall m :: 0 <= m < |ls| ==> ls[m].Snapshot() == bs[m]
    ensures Boxes(ls) == bs
  {
    forall m | 0 <= m < |ls|
      ensures Boxes(ls)[m] == bs[m]
    {
      BoxesAt(ls, m);
    }
  }

  predicate Distinct(ls: seq<Logo>)
  {
    forall a, b :: 0 <= a < b < |ls| ==> ls[a] != ls[b]
  }

  /** Turning logos i and j of a distinct list by h changes those two
      snapshots and no other. */
  method BouncePair(ls: seq<Logo>, i: nat, j: nat, h: Hit)
    requires Distinct(ls) && i < |ls| && j < |ls| && i != j
    modifies ls
    ensures Boxes(ls) == (var b := old(Boxes(ls));
      var p := Bounce(h, b[i], b[j]);
      b[i := p.0][j := p.1])
  {
    ghost var before := Boxes(ls);
    forall m | 0 <= m < |ls|
      ensures before[m] == ls[m].Snapshot()
    {
      BoxesAt(ls, m);
    }
    assert ls[i] != ls[j] by {
      if i < j { assert ls[i] != ls[j]; } else { assert ls[j] != ls[i]; }
    }
    ApplyBounce(ls[i], ls[j], h);
    ghost var p := Bounce(h, before[i], before[j]);
    ghost var after := before[i := p.0][j := p.1];
    forall m | 0 <= m < |ls|
      ensures ls[m].Snapshot() == after[m]
    {
      if m != i && m != j {
        assert ls[m] != ls[i] && ls[m] != ls[j] by {
          if m < i { assert ls[m] != ls[i]; } else { assert ls[i] != ls[m]; }
          if m < j { assert ls[m] != ls[j]; } else { assert ls[j] != ls[m]; }
        }
      }
    }
    BoxesFrom(ls, after);
  }

  /** Moving logo num and bouncing it off the edges changes its snapshot
      and no other. */
  method MoveStep(ls: seq<Logo>, num: nat)
    requires Distinct(ls) && num < |ls|
    modifies ls
    ensures Boxes(ls) == old(Boxes(ls))[num := Edge(Moved(old(Boxes(ls))[num]))]
  {
    ghost var before := Boxes(ls);
    forall m | 0 <= m < |ls|
      ensures before[m] == ls[m].Snapshot()
    {
      BoxesAt(ls, m);
    }
    Move(ls[num]);
    EdgeCollision(ls[num]);
    ghost var after := before[num := Edge(Moved(before[num]))];
    forall m | 0 <= m < |ls|
      ensures ls[m].Snapshot() == after[m]
    {
      if m != num {
        assert ls[m] != ls[num] by {
          if m < num { assert ls[m] != ls[num]; } else { assert ls[num] != ls[m]; }
        }
      }
    }
    BoxesFrom(ls, after);
  }

  /** One pass of `object_collision(j)`'s loop: the pair (i, j), unless
      i is j, is turned by the branch it takes, and a splatter is drawn at
      j when it took one. */
  method TestPair(ls: seq<Logo>, i: nat, j: nat) returns (c: seq<SpriteCall>)
    requires Distinct(ls) && i < |ls| && j < |ls|
    modifies ls
    ensures Boxes(ls) == PairUpdate(old(Boxes(ls)), i, j, X_OFFSET, Y_OFFSET)
    ensures c == SplatStep(old(Boxes(ls)), i, j)
  {
    c := [];
    if j != i {
      var bi, bj := ls[i].Snapshot(), ls[j].Snapshot();
      BoxesAt(ls, i);
      BoxesAt(ls, j);
      var h := HitOf(bi, bj, X_OFFSET, Y_OFFSET);
      if h != NoHit {
        BouncePair(ls, i, j, h);
        c := Splatter(bj.xStart, bj.yStart);
      } else {
        ghost var b := Boxes(ls);
        assert b[i := b[i]][j := b[j]] == b;
      }
    }
  }

  lemma CollideStep(bs: seq<Box>, j: nat, i: nat)
    requires j < |bs| && i < |bs|
    ensures Collided(bs, j, i + 1, X_OFFSET, Y_OFFSET) == PairUpdate(Collided(bs, j, i, X_OFFSET, Y_OFFSET), i, j, X_OFFSET, Y_OFFSET)
    ensures Splats(bs, j, i + 1) == Splats(bs, j, i) + SplatStep(Collided(bs, j, i, X_OFFSET, Y_OFFSET), i, j)
  {
  }

  /** The loop of `object_collision(j)` over a distinct list of logos:
      the splatters drawn, and whether there was any. */
  method SplatterLoop(ls: seq<Logo>, j: nat) returns (calls: seq<SpriteCall>, splattered: bool)
    requires Distinct(ls) && j < |ls|
    modifies ls
    ensures Boxes(ls) == Collided(old(Boxes(ls)), j, |ls|, X_OFFSET, Y_OFFSET)
    ensures calls == Splats(old(Boxes(ls)), j, |ls|)
    ensures splattered <==> calls != []
  {
    ghost var b0 := Boxes(ls);
    splattered := false;
    calls := [];
    var i := 0;
    while i < |ls|
      invariant i <= |ls|
      invariant Boxes(ls) == Collided(b0, j, i, X_OFFSET, Y_OFFSET)
      invariant calls == Splats(b0, j, i)
      invariant splattered <==> calls != []
    {
      CollideStep(b0, j, i);
      var c := TestPair(ls, i, j);
      calls := calls + c;
      splattered := splattered || c != [];
      i := i + 1;
    }
  }

  /** `object_collision(j)` over a distinct list of logos. */
  method CollideWith(ls: seq<Logo>, j: nat) returns (calls: seq<SpriteCall>, cleared: bool)
    requires Distinct(ls) && j < |ls|
    modifies ls
    ensures Boxes(ls) == Collided(old(Boxes(ls)), j, |ls|, X_OFFSET, Y_OFFSET)
    ensures calls == CollisionCalls(old(Boxes(ls)), j)
    ensures cleared <==> NoCollision(old(Boxes(ls)), j, |ls|)
  {
    ghost var b0 := Boxes(ls);
    var splattered;
    calls, splattered := SplatterLoop(ls, j);
    if !splattered {
      calls := calls + Splatter(800, 600);
    }
    cleared := !splattered;
    SplatsEmptyIffNoCollision(b0, j, |b0|);
  }

  // ---------------------------------------------------------------
  // One frame of the main loop

  /** Logo num's turn in a frame: it moves, bounces off the edges, then
      `object_collision(num)` runs. */
  function StepLogo(bs: seq<Box>, num: nat): (r: seq<Box>)
    requires num < |bs|
    ensures |r| == |bs|
  {
    var moved := bs[num := Edge(Moved(bs[num]))];
    Collided(moved, num, |moved|, X_OFFSET, Y_OFFSET)
  }

  /** The logos after the first n turns of a frame. */
  function FrameUpTo(bs: seq<Box>, n: nat): (r: seq<Box>)
    requires n <= |bs|
    ensures |r| == |bs|
  {
    if n == 0 then bs else StepLogo(FrameUpTo(bs, n - 1), n - 1)
  }

  /** The sprite calls of logo num's turn: its collision calls, then its
      own four sprites. */
  function TurnCalls(bs: seq<Box>, num: nat, hasSprite: bool): seq<SpriteCall>
    requires num < |bs|
  {
    CollisionCalls(bs[num := Edge(Moved(bs[num]))], num) + DrawCalls(num, StepLogo(bs, num)[num], hasSprite)
  }

  /** The sprite calls of the first n turns. */
  function FrameCalls(bs: seq<Box>, n: nat, hasSprite: bool): seq<SpriteCall>
    requires n <= |bs|
  {
    if n == 0 then [] else FrameCalls(bs, n - 1, hasSprite) + TurnCalls(FrameUpTo(bs, n - 1), n - 1, hasSprite)
  }

  /** Logo num's turn: the logo moves and bounces off the edges, then
      `object_collision(num)` and `draw(num)` run. */
  method Turn(ls: seq<Logo>, num: nat, hasSprite: bool) returns (calls: seq<SpriteCall>)
    requires Distinct(ls) && num < |ls|
    modifies ls
    ensures Boxes(ls) == StepLogo(old(Boxes(ls)), num)
    ensures calls == TurnCalls(old(Boxes(ls)), num, hasSprite)
  {
    MoveStep(ls, num);
    var c, _ := CollideWith(ls, num);
    BoxesAt(ls, num);
    calls := c + DrawCalls(num, ls[num].Snapshot(), hasSprite);
  }

  lemma FrameStep(bs: seq<Box>, n: nat, hasSprite: bool)
    requires n < |bs|
    ensures FrameUpTo(bs, n + 1) == StepLogo(FrameUpTo(bs, n), n)
    ensures FrameCalls(bs, n + 1, hasSprite) == FrameCalls(bs, n, hasSprite) + TurnCalls(FrameUpTo(bs, n), n, hasSprite)
  {
  }

  /** The logo loop of a frame over a distinct list of logos. */
  method FrameLoop(ls: seq<Logo>, hasSprite: bool) returns (calls: seq<SpriteCall>)
    requires Distinct(ls)
    modifies ls
    ensures Boxes(ls) == FrameUpTo(old(Boxes(ls)), |ls|)
    ensures calls == FrameCalls(old(Boxes(ls)), |ls|, hasSprite)
  {
    ghost var b0 := Boxes(ls);
    calls := [];
    var num := 0;
    while num < |ls|
      invariant num <= |ls|
      invariant Boxes(ls) == FrameUpTo(b0, num)
      invariant calls == FrameCalls(b0, num, hasSprite)
    {
      FrameStep(b0, num, hasSprite);
      var c := Turn(ls, num, hasSprite);
      calls := calls + c;
      num := num + 1;
    }
  }

  /** After the first n turns of a frame the logos that had their turn lie
      on the screen, whatever later collisions did, and no logo's speed has
      changed. */
  lemma {:induction false} FrameKeepsOnScreen(bs: seq<Box>, n: nat)
    requires n <= |bs|
    ensures forall m :: 0 <= m < n ==> OnScreen(FrameUpTo(bs, n)[m])
    ensures AllSameSpeed(FrameUpTo(bs, n), bs)
  {
    if n > 0 {
      FrameKeepsOnScreen(bs, n - 1);
      var before := FrameUpTo(bs, n - 1);
      var moved := before[n - 1 := Edge(Moved(before[n - 1]))];
      CollidedKeepsPlaces(moved, n - 1, |moved|, X_OFFSET, Y_OFFSET);
      var after := FrameUpTo(bs, n);
      assert after == Collided(moved, n - 1, |moved|, X_OFFSET, Y_OFFSET);
      forall m | 0 <= m < n
        ensures OnScreen(after[m])
      {
        assert SamePlace(after[m], moved[m]);
      }
      forall m | 0 <= m < |bs|
        ensures SameSpeed(after[m], bs[m])
      {
        assert SameSpeed(after[m], moved[m]);
        if m == n - 1 {
          EdgeKeepsSpeed(Moved(before[m]));
        }
      }
    }
  }

  /** After the whole frame every logo lies on the screen. */
  lemma FrameOnScreen(bs: seq<Box>)
    ensures forall m :: 0 <= m < |bs| ==> OnScreen(FrameUpTo(bs, |bs|)[m])
  {
    FrameKeepsOnScreen(bs, |bs|);
  }

  // ---------------------------------------------------------------
  // The demo's state

  /** A new logo at (x, y) with the given directions. */
  function Spawn(x: int, y: int, right: bool, down: bool): Box
  {
    Box(x, y, x + IMAGE_WIDTH, y + IMAGE_HEIGHT,
        if right then DEFAULT_VELOCITY else -DEFAULT_VELOCITY, if down then DEFAULT_VELOCITY else -DEFAULT_VELOCITY)
  }

  /** The script's globals: the logo list, its count and the time the Y
      button was last looked at. */
  class Scene {
    var logos: seq<Logo>
    var logosCount: nat
    var lastTime: int

    ghost predicate Valid()
      reads this
    {
      logosCount == |logos| && Distinct(logos)
    }

    /** The start of the script: one logo, added by `add_logo()`, and the
        button timer started at `now`. */
    constructor (x: int, y: int, right: bool, down: bool, now: int)
      ensures Valid() && Boxes(logos) == [Spawn(x, y, right, down)] && lastTime == now
    {
      var l := new Logo(x, y, DEFAULT_VELOCITY, right, down);
      logos := [l];
      logosCount := 1;
      lastTime := now;
      BoxesFrom([l], [Spawn(x, y, right, down)]);
    }

    /** `add_logo`: a new logo at the end of the list and a count one
        higher. */
    method AddLogo(x: int, y: int, right: bool, down: bool)
      requires Valid()
      modifies this
      ensures Valid() && lastTime == old(lastTime)
      ensures Boxes(logos) == old(Boxes(logos)) + [Spawn(x, y, right, down)]
      ensures |logos| == old(|logos|) + 1 && logos[..old(|logos|)] == old(logos) && fresh(logos[old(|logos|)])
    {
      var l := new Logo(x, y, DEFAULT_VELOCITY, right, down);
      assert (logos + [l])[..|logos|] == logos;
      logos := logos + [l];
      logosCount := logosCount + 1;
    }

    /** The button handling of the main loop: more than 500 ms after the
        last look, a pressed Y button (which reads low) adds a logo while
        fewer than MAX_LOGOS are shown, and the timer restarts. */
    method Poll(now: int, buttonLevel: bool, x: int, y: int, right: bool, down: bool)
      requires Valid()
      modifies this
      ensures Valid()
      ensures lastTime == (if now - old(lastTime) > 500 then now else old(lastTime))
      ensures if now - old(lastTime) > 500 && !buttonLevel && old(logosCount) < MAX_LOGOS
              then Boxes(logos) == old(Boxes(logos)) + [Spawn(x, y, right, down)]
              else logos == old(logos)
      ensures old(logosCount) <= MAX_LOGOS ==> logosCount <= MAX_LOGOS
    {
      if now - lastTime > 500 {
        if !buttonLevel && logosCount < MAX_LOGOS {
          AddLogo(x, y, right, down);
        }
        lastTime := now;
      }
    }

    /** `object_collision(j)`: every other logo i, in order, is tested
        against j and the pair turned by the branch it takes; a splatter
        is drawn at j for each collision, and cleared (`cleared`) when
        there was none. */
    method ObjectCollision(j: nat) returns (calls: seq<SpriteCall>, cleared: bool)
      requires Valid() && j < logosCount
      modifies logos
      ensures Boxes(logos) == Collided(old(Boxes(logos)), j, |logos|, X_OFFSET, Y_OFFSET)
      ensures calls == CollisionCalls(old(Boxes(logos)), j)
      ensures cleared <==> NoCollision(old(Boxes(logos)), j, |logos|)
    {
      calls, cleared := CollideWith(logos, j);
    }

    /** The logo loop of one frame: each logo in turn moves, bounces off
        the edges and off the others, and is drawn. */
    method Frame(hasSprite: bool) returns (calls: seq<SpriteCall>)
      requires Valid()
      modifies logos
      ensures Boxes(logos) == FrameUpTo(old(Boxes(logos)), |logos|)
      ensures calls == FrameCalls(old(Boxes(logos)), |logos|, hasSprite)
    {
      calls := FrameLoop(logos, hasSprite);
    }
  }
}
