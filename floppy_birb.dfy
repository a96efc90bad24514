/** The Floppy Birb example: a level of pipe gaps, the score list of pipes
    passed, the four game states and the countdowns between them, the
    geometry of each pair of pipes and the collision zones built from it.
    The sprite list and the collision list are the same code as the game
    library's and are modelled there (PvGame.SpriteList with capacity 32,
    PvGame.CollisionList). */
module FloppyBirb {
  import opened Wrappers
  import opened PySemantics
  import opened PvGame

  /** The display is 720 x 480. */
  const WIDTH: int := 720
  const HEIGHT: int := 480
  const GAME_WIDTH: int := TruncDiv(WIDTH, 2)
  const GAME_HEIGHT: int := TruncDiv(HEIGHT, 3) * 2
  const SLICES: int := 10
  const SLICE_WIDTH: int := TruncDiv(WIDTH, SLICES)
  const PIPE_WIDTH: int := 20
  const CAP_WIDTH: int := 26
  const CAP_HEIGHT: int := 15
  const N_SCREENS: int := 10
  const LEVEL_SIZE: nat := 100
  const GAME_TOP: int := TruncDiv(HEIGHT - GAME_HEIGHT, 2)
  const GAME_BOTTOM: int := GAME_TOP + GAME_HEIGHT
  const SPRITE_PIPE_HEIGHT: int := 10
  const MAX_VARIANCE: int := 110
  const COUNTDOWN_TIME_MS: int := 3000

  const GAME_GET_READY: int := 0
  const GAME_RUNNING: int := 1
  const GAME_WIN: int := 2
  const GAME_LOSE: int := 3

  lemma Dimensions()
    ensures GAME_WIDTH == 360 && GAME_HEIGHT == 320 && SLICE_WIDTH == 72
    ensures GAME_TOP == 80 && GAME_BOTTOM == 400 && LEVEL_SIZE == N_SCREENS * SLICES
  {
  }

  // ---------------------------------------------------------------
  // new_level

  /** The widths and heights new_level works with for one slice. */
  function ZoneStart(gapWidth: int): int
  {
    50 + CAP_HEIGHT + TruncDiv(gapWidth, 2)
  }

  function ZoneEnd(gapWidth: int): int
  {
    GAME_HEIGHT - 50 - CAP_HEIGHT - TruncDiv(gapWidth, 2)
  }

  /** The range `randint` draws slice n's gap position from: the upper half
      of the zone for odd slices, the lower half for even ones. */
  function GapRange(n: nat, gapWidth: int): (int, int)
  {
    var start, end := ZoneStart(gapWidth), ZoneEnd(gapWidth);
    var half := TruncDiv(end - start, 2);
    if n % 2 == 1 then (start, end - half) else (start + half, end)
  }

  /** The random values new_level draws, as inputs: the variance of slice n
      (int(min(110, log2(n + 1) * 20)), so between 0 and 110), the raw gap
      width drawn from [150 - variance, 200 - variance] and the gap position
      drawn from GapRange of the capped width. */
  ghost predicate RandomDraws(variance: seq<int>, rawWidths: seq<int>, gaps: seq<int>)
  {
    && |variance| == |rawWidths| == |gaps| == LEVEL_SIZE
    && forall n :: 0 <= n < LEVEL_SIZE ==>
         && 0 <= variance[n] <= MAX_VARIANCE
         && 40 + MAX_VARIANCE - variance[n] <= rawWidths[n] <= 200 - variance[n]
         && GapRange(n, Min(190, rawWidths[n])).0 <= gaps[n] <= GapRange(n, Min(190, rawWidths[n])).1
  }

  function Min(a: int, b: int): int
  {
    if a < b then a else b
  }

  // ---------------------------------------------------------------
  // Pipe geometry in main_game_running

  datatype Pipes = Pipes(topHeight: int, bottomHeight: int, topEnd: int, bottomStart: int,
                         topScale: int, bottomScale: int)

  /** The gap and width of level slot i, with the fallback the IndexError
      handler uses past the end of the level (a wide gap in the middle). */
  function SlotGap(pipeGaps: seq<int>, gapWidths: seq<int>, i: int): (int, int)
    requires |pipeGaps| == |gapWidths|
  {
    match PyIndex(|pipeGaps|, i)
    case Some(j) => (pipeGaps[j], gapWidths[j])
    case None => (TruncDiv(GAME_HEIGHT, 2), GAME_HEIGHT - 100 - CAP_HEIGHT - CAP_HEIGHT)
  }

  /** The two pipes around a gap: the top pipe hangs from the top of the
      game area to half a gap width above the gap position, the bottom pipe
      fills the rest, and each is stretched by a vertical scale of at most 32
      sprite heights. */
  function PipeGeometry(gap: int, gapWidth: int): (p: Pipes)
    ensures p.topHeight + gapWidth + p.bottomHeight == GAME_HEIGHT
    ensures p.topEnd == GAME_TOP + p.topHeight && p.bottomStart - p.topEnd == gapWidth
    ensures p.topScale <= 32 && p.bottomScale <= 32
    ensures p.topHeight >= 0 ==> 0 <= p.topScale * SPRITE_PIPE_HEIGHT <= p.topHeight
    ensures p.bottomHeight >= 0 ==> 0 <= p.bottomScale * SPRITE_PIPE_HEIGHT <= p.bottomHeight
  {
    var top := gap - TruncDiv(gapWidth, 2);
    var bottom := GAME_HEIGHT - top - gapWidth;
    var topEnd := GAME_TOP + top;
    Pipes(top, bottom, topEnd, topEnd + gapWidth,
          Min(top / SPRITE_PIPE_HEIGHT, 32), Min(bottom / SPRITE_PIPE_HEIGHT, 32))
  }

  /** Past the end of the level the two pipes are equal, 65 high each. */
  lemma FallbackPipes()
    ensures var g := SlotGap([], [], 0); var p := PipeGeometry(g.0, g.1);
      p.topHeight == 65 && p.bottomHeight == 65
  {
  }

  /** The gaps new_level draws leave both pipes at least as tall as the
      50-pixel margin plus the cap (less one for an odd width), so neither
      pipe ever has a negative height. */
  lemma LevelPipesClear(gap: int, rawWidth: int, n: nat)
    requires 40 <= rawWidth
    requires GapRange(n, Min(190, rawWidth)).0 <= gap <= GapRange(n, Min(190, rawWidth)).1
    ensures var w := Min(190, rawWidth); var p := PipeGeometry(gap, w);
      p.topHeight >= 50 + CAP_HEIGHT && p.bottomHeight >= 50 + CAP_HEIGHT - 1
  {
    var w := Min(190, rawWidth);
    var half := TruncDiv(w, 2);
    assert 2 * half <= w <= 2 * half + 1;
    var zh := ZoneEnd(w) - ZoneStart(w);
    assert zh == 190 - 2 * half >= 0;
    assert 0 <= TruncDiv(zh, 2) <= zh;
  }

  // ---------------------------------------------------------------
  // Collision zones of one pair of pipes

  datatype Action = GameOver | GameWin | ScorePoint(offset: int)

  /** The two fail zones (each a little shorter than its pipe, by half a cap)
      and the score zone, a one-pixel column just past the pipe spanning the
      gap. */
  function PipeZones(pipeX: int, p: Pipes, gapWidth: int, offset: int): (zs: seq<Zone<Action>>)
    ensures |zs| == 3
  {
    [ Zone(pipeX, GAME_TOP, PIPE_WIDTH, p.topHeight - TruncDiv(CAP_HEIGHT, 2), GameOver),
      Zone(pipeX, p.bottomStart + TruncDiv(CAP_HEIGHT, 2), PIPE_WIDTH, p.bottomHeight - TruncDiv(CAP_HEIGHT, 2), GameOver),
      Zone(pipeX + PIPE_WIDTH, p.topEnd, 1, gapWidth, ScorePoint(offset)) ]
  }

  /** The score zone touches neither fail zone: a box that lies within the
      score zone scores without dying. */
  lemma ScoreZoneClearOfPipes(pipeX: int, gap: int, gapWidth: int, offset: int)
    ensures var p := PipeGeometry(gap, gapWidth); var zs := PipeZones(pipeX, p, gapWidth, offset);
      var s := zs[2];
      !Touches(zs[0], s.x, s.y, s.w, s.h) && !Touches(zs[1], s.x, s.y, s.w, s.h)
  {
  }

  // ---------------------------------------------------------------
  // Countdowns and state changes

  /** The countdown shown in the three waiting states, in seconds, never
      below zero. */
  function Countdown(tCurrent: int): (c: real)
    ensures c >= 0.0
  {
    var c := (COUNTDOWN_TIME_MS - tCurrent) as real / 1000.0;
    if c < 0.0 then 0.0 else c
  }

  /** The countdown reads exactly 0 once COUNTDOWN_TIME_MS have passed. */
  lemma CountdownDone(tCurrent: int)
    ensures Countdown(tCurrent) == 0.0 <==> tCurrent >= COUNTDOWN_TIME_MS
  {
  }

  /** The state an action leaves: game_over and game_win call new_state,
      score_point does not change the state. */
  function AfterActions(state: int, actions: seq<Action>): int
  {
    if |actions| == 0 then state
    else
      var s := match actions[|actions| - 1]
               case GameOver => GAME_LOSE
               case GameWin => GAME_WIN
               case ScorePoint(_) => AfterActions(state, actions[..|actions| - 1]);
      s
  }

  /** The state after one pass of the main loop: the waiting states move on
      when their countdown is done, GET_READY to RUNNING (through
      reset_game) and WIN and LOSE to GET_READY; RUNNING goes wherever the
      collision actions it fired take it. */
  function NextState(state: int, tCurrent: int, fired: seq<Action>): int
  {
    if state == GAME_GET_READY then (if Countdown(tCurrent) == 0.0 then GAME_RUNNING else state)
    else if state == GAME_RUNNING then AfterActions(state, fired)
    else if state == GAME_WIN || state == GAME_LOSE then (if Countdown(tCurrent) == 0.0 then GAME_GET_READY else state)
    else state
  }

  /** Each state has its own successors: GET_READY only starts the game, a
      running game only ends in WIN or LOSE, and the end screens only lead
      back to GET_READY. The four states are closed under the loop. */
  lemma {:induction false} NextStateTargets(state: int, tCurrent: int, fired: seq<Action>)
    requires GAME_GET_READY <= state <= GAME_LOSE
    ensures var n := NextState(state, tCurrent, fired);
      && GAME_GET_READY <= n <= GAME_LOSE
      && (state == GAME_GET_READY ==> n == GAME_GET_READY || n == GAME_RUNNING)
      && (state == GAME_RUNNING ==> n != GAME_GET_READY)
      && (state == GAME_WIN || state == GAME_LOSE ==> n == state || n == GAME_GET_READY)
      && (state != GAME_RUNNING ==> (n != state <==> tCurrent >= COUNTDOWN_TIME_MS))
  {
    CountdownDone(tCurrent);
    if state == GAME_RUNNING {
      AfterActionsTargets(state, fired);
    }
  }

  lemma {:induction false} AfterActionsTargets(state: int, actions: seq<Action>)
    requires state == GAME_RUNNING
    ensures AfterActions(state, actions) in {GAME_RUNNING, GAME_WIN, GAME_LOSE}
    decreases |actions|
  {
    if |actions| > 0 {
      AfterActionsTargets(state, actions[..|actions| - 1]);
    }
  }

  /** score_point: mark the pipe at `offset` passed. An offset outside the
      list is ignored, as the IndexError handler does; a negative one counts
      from the end, as Python indexing does. */
  function Scored(score: seq<bool>, offset: int): (r: seq<bool>)
    ensures |r| == |score|
  {
    match PyIndex(|score|, offset)
    case None => score
    case Some(i) => score[i := true]
  }

  /** What score_point redraws for: the entry was not yet set. */
  function ScoreRedraws(score: seq<bool>, offset: int): bool
  {
    match PyIndex(|score|, offset)
    case None => false
    case Some(i) => !score[i]
  }

  /** Scoring sets the entry and no other, and only a first score redraws:
      scoring the same pipe again changes nothing and redraws nothing. */
  lemma ScoredOnce(score: seq<bool>, offset: int)
    ensures var r := Scored(score, offset);
      && (PyIndex(|score|, offset).Some? ==> r[PyIndex(|score|, offset).value])
      && (forall k :: 0 <= k < |score| && Some(k) != PyIndex(|score|, offset) ==> r[k] == score[k])
      && Scored(r, offset) == r && !ScoreRedraws(r, offset)
      && (ScoreRedraws(score, offset) <==> r != score)
  {
  }

  /** The score after the collision actions: each score_point in turn. */
  function ScoredAll(score: seq<bool>, actions: seq<Action>): seq<bool>
  {
    if |actions| == 0 then score
    else
      var s := ScoredAll(score, actions[..|actions| - 1]);
      match actions[|actions| - 1]
      case ScorePoint(o) => Scored(s, o)
      case _ => s
  }

  class Game {
    var gameState: int
    var tStart: int
    var pipeGaps: seq<int>
    var gapWidths: seq<int>
    var score: seq<bool>

    ghost predicate Valid()
      reads this
    {
      |pipeGaps| == LEVEL_SIZE && |gapWidths| == LEVEL_SIZE && |score| == LEVEL_SIZE
    }

    constructor()
      ensures Valid() && gameState == GAME_GET_READY && tStart == 0
      ensures forall n :: 0 <= n < LEVEL_SIZE ==> pipeGaps[n] == 0 && gapWidths[n] == 0 && !score[n]
    {
      gameState, tStart := GAME_GET_READY, 0;
      pipeGaps := seq(LEVEL_SIZE, _ => 0);
      gapWidths := seq(LEVEL_SIZE, _ => 0);
      score := seq(LEVEL_SIZE, _ => false);
    }

    /** new_state, with the clock reading passed in. */
    method NewState(state: int, now: int)
      modifies this
      ensures gameState == state && tStart == now
      ensures pipeGaps == old(pipeGaps) && gapWidths == old(gapWidths) && score == old(score)
    {
      tStart := now;
      gameState := state;
    }

    /** new_level, with the random draws passed in: every gap width is the
        drawn width capped at 190, and every gap position the drawn one. */
    method NewLevel(variance: seq<int>, rawWidths: seq<int>, gaps: seq<int>)
      requires Valid() && RandomDraws(variance, rawWidths, gaps)
      modifies this
      ensures Valid()
      ensures forall n :: 0 <= n < LEVEL_SIZE ==> gapWidths[n] == Min(190, rawWidths[n]) <= 190
      ensures pipeGaps == gaps
      ensures gameState == old(gameState) && tStart == old(tStart) && score == old(score)
    {
      var n := 0;
      while n < LEVEL_SIZE
        invariant 0 <= n <= LEVEL_SIZE && Valid()
        invariant forall k :: 0 <= k < n ==> gapWidths[k] == Min(190, rawWidths[k])
        invariant pipeGaps[..n] == gaps[..n]
        invariant gameState == old(gameState) && tStart == old(tStart) && score == old(score)
      {
        var width := Min(190, rawWidths[n]);
        gapWidths := gapWidths[n := width];
        pipeGaps := pipeGaps[n := gaps[n]];
        n := n + 1;
      }
      assert pipeGaps == pipeGaps[..n];
    }

    /** reset_game: clear every score entry and start running. Resetting the
        bird is floating-point physics and is not modelled. */
    method ResetGame(now: int)
      requires Valid()
      modifies this
      ensures Valid()
      ensures forall x :: 0 <= x < LEVEL_SIZE ==> !score[x]
      ensures gameState == GAME_RUNNING && tStart == now
      ensures pipeGaps == old(pipeGaps) && gapWidths == old(gapWidths)
    {
      var x := 0;
      while x < LEVEL_SIZE
        invariant 0 <= x <= LEVEL_SIZE && Valid()
        invariant forall k :: 0 <= k < x ==> !score[k]
        invariant pipeGaps == old(pipeGaps) && gapWidths == old(gapWidths)
      {
        score := score[x := false];
        x := x + 1;
      }
      NewState(GAME_RUNNING, now);
    }

    /** score_point(offset); returns whether the score is redrawn. */
    method ScorePoint(offset: int) returns (redraw: bool)
      modifies this
      ensures score == Scored(old(score), offset) && redraw == ScoreRedraws(old(score), offset)
      ensures gameState == old(gameState) && tStart == old(tStart)
      ensures pipeGaps == old(pipeGaps) && gapWidths == old(gapWidths)
    {
      var i := PyIndex(|score|, offset);
      if i.None? {
        return false;
      }
      redraw := !score[i.value];
      score := score[i.value := true];
    }

    /** Run the actions the collision test fired, in order. */
    method RunActions(fired: seq<Action>, now: int)
      requires Valid()
      modifies this
      ensures Valid()
      ensures score == ScoredAll(old(score), fired)
      ensures gameState == AfterActions(old(gameState), fired)
      ensures pipeGaps == old(pipeGaps) && gapWidths == old(gapWidths)
    {
      var i := 0;
      while i < |fired|
        invariant 0 <= i <= |fired| && Valid()
        invariant score == ScoredAll(old(score), fired[..i])
        invariant gameState == AfterActions(old(gameState), fired[..i])
        invariant pipeGaps == old(pipeGaps) && gapWidths == old(gapWidths)
      {
        assert fired[..i + 1][..i] == fired[..i];
        match fired[i] {
          case GameOver => NewState(GAME_LOSE, now);
          case GameWin => NewState(GAME_WIN, now);
          case ScorePoint(o) => var _ := ScorePoint(o);
        }
        i := i + 1;
      }
      assert fired[..i] == fired;
    }

    /** One pass of the main loop, from the state's point of view. In
        RUNNING, `fired` are the actions the collision test fired this
        frame; in GET_READY the level is drawn afresh from the random draws
        when the countdown ends. */
    method Tick(tCurrent: int, now: int, fired: seq<Action>,
                variance: seq<int>, rawWidths: seq<int>, gaps: seq<int>)
      requires Valid() && RandomDraws(variance, rawWidths, gaps)
      modifies this
      ensures Valid()
      ensures gameState == NextState(old(gameState), tCurrent, fired)
      ensures old(gameState) == GAME_RUNNING ==> score == ScoredAll(old(score), fired)
      ensures old(gameState) == GAME_GET_READY && Countdown(tCurrent) == 0.0 ==>
        pipeGaps == gaps && forall x :: 0 <= x < LEVEL_SIZE ==> !score[x]
      ensures old(gameState) == GAME_GET_READY && Countdown(tCurrent) == 0.0 ==>
        forall n :: 0 <= n < LEVEL_SIZE ==> gapWidths[n] == Min(190, rawWidths[n])
      ensures !(old(gameState) == GAME_GET_READY && Countdown(tCurrent) == 0.0) ==>
        pipeGaps == old(pipeGaps) && gapWidths == old(gapWidths)
      ensures old(gameState) != GAME_RUNNING && !(old(gameState) == GAME_GET_READY && Countdown(tCurrent) == 0.0) ==>
        score == old(score) && pipeGaps == old(pipeGaps)
    {
      if gameState == GAME_GET_READY {
        if Countdown(tCurrent) == 0.0 {
          NewLevel(variance, rawWidths, gaps);
          ResetGame(now);
        }
      } else if gameState == GAME_RUNNING {
        RunActions(fired, now);
      } else if gameState == GAME_WIN || gameState == GAME_LOSE {
        if Countdown(tCurrent) == 0.0 {
          NewState(GAME_GET_READY, now);
        }
      }
    }
  }
}
