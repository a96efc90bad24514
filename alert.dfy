/** The spaceship alert panel (examples/alert/alert.py): five alert modes
    cycled by the Y button, a pulsing mode title, twelve bar graphs that
    wander within a band set by the mode, and a siren whose pitch climbs
    in RED ALERT and otherwise follows a random bar. The vector border is
    built from corner-cut rectangles. */
module Alert {
  import opened Wrappers

  const MODES: seq<string> := ["NOT ALERT", "RED ALERT", "YELLOW ALERT", "BLUE ALERT", "RAINBOW ALERT"]
  const PULSE_SPEED: real := 0.2
  const RAINBOW_SPEED: real := 0.04
  const SIREN_URGENCY := 8
  const BORDER_THICKNESS := 18
  const GRAPH_BARS := 12

  // ---------------------------------------------------------------
  // The border polygons

  datatype Point = Point(x: int, y: int)

  /** `rectangle(x, y, w, h, cx, cy)`: with both cut sizes positive, the
      eight points of the rectangle with each corner cut off by cx across
      and cy down, clockwise from the left end of the top-left cut;
      otherwise the four corners, clockwise from the top left. */
  function Rectangle(x: int, y: int, w: int, h: int, cx: int, cy: int): (ps: seq<Point>)
    ensures |ps| == (if cx > 0 && cy > 0 then 8 else 4)
    ensures !(cx > 0 && cy > 0) ==> ps == [Point(x, y), Point(x + w, y), Point(x + w, y + h), Point(x, y + h)]
  {
    if cx > 0 && cy > 0 then
      [Point(x, y + cy), Point(x + cx, y),
       Point(x + w - cx, y), Point(x + w, y + cy),
       Point(x + w, y + h - cy), Point(x + w - cx, y + h),
       Point(x + cx, y + h), Point(x, y + h - cy)]
    else
      [Point(x, y), Point(x + w, y), Point(x + w, y + h), Point(x, y + h)]
  }

  /** A point on the outline of the w by h box at (x, y). */
  predicate OnOutline(p: Point, x: int, y: int, w: int, h: int)
  {
    ((p.x == x || p.x == x + w) && y <= p.y <= y + h)
    || ((p.y == y || p.y == y + h) && x <= p.x <= x + w)
  }

  /** When the cuts fit the box every point lies on its outline, and with
      both cuts positive and narrower than the box none of its four corners
      is among them. */
  lemma RectangleOnOutline(x: int, y: int, w: int, h: int, cx: int, cy: int)
    requires w >= 0 && h >= 0
    requires cx > 0 && cy > 0 ==> cx <= w && cy <= h
    ensures forall k :: 0 <= k < |Rectangle(x, y, w, h, cx, cy)| ==> OnOutline(Rectangle(x, y, w, h, cx, cy)[k], x, y, w, h)
    ensures 0 < cx < w && 0 < cy < h ==>
      forall c :: c in [Point(x, y), Point(x + w, y), Point(x + w, y + h), Point(x, y + h)] ==>
        c !in Rectangle(x, y, w, h, cx, cy)
  {
  }

  // ---------------------------------------------------------------
  // Modes

  /** `xs.index(x)`: the first position of x, or None where Python raises
      ValueError. */
  function IndexOf(xs: seq<string>, x: string): (r: Option<nat>)
    ensures r.Some? ==> r.value < |xs| && xs[r.value] == x && forall k :: 0 <= k < r.value ==> xs[k] != x
    ensures r.None? <==> x !in xs
  {
    if |xs| == 0 then None
    else if xs[0] == x then Some(0)
    else match IndexOf(xs[1..], x)
      case None => None
      case Some(k) => Some(k + 1)
  }

  /** An element met for the first time at position i is found there. */
  lemma {:induction false} IndexOfFirst(xs: seq<string>, i: nat)
    requires i < |xs| && forall k :: 0 <= k < i ==> xs[k] != xs[i]
    ensures IndexOf(xs, xs[i]) == Some(i)
  {
    if i > 0 {
      assert xs[1..][i - 1] == xs[i];
      IndexOfFirst(xs[1..], i - 1);
    }
  }

  lemma ModesDistinct()
    ensures forall i, j :: 0 <= i < j < |MODES| ==> MODES[i] != MODES[j]
  {
    assert MODES[0][0] == 'N' && MODES[1][0] == 'R' && MODES[2][0] == 'Y' && MODES[3][0] == 'B';
    assert MODES[4][1] == 'A' && MODES[1][1] == 'E';
  }

  /** The mode after pressing Y. */
  function NextMode(mode: string): (r: Option<string>)
    ensures r.Some? <==> mode in MODES
  {
    match IndexOf(MODES, mode)
    case None => None
    case Some(i) => Some(MODES[(i + 1) % |MODES|])
  }

  /** Pressing Y moves mode i to mode (i+1) mod 5. */
  lemma NextModeCycles(i: nat)
    requires i < |MODES|
    ensures NextMode(MODES[i]) == Some(MODES[(i + 1) % 5])
  {
    ModesDistinct();
    IndexOfFirst(MODES, i);
  }

  /** In particular RAINBOW ALERT wraps round to NOT ALERT. */
  lemma RainbowWrapsToNot()
    ensures NextMode("RAINBOW ALERT") == Some("NOT ALERT")
  {
    NextModeCycles(4);
    assert MODES[4] == "RAINBOW ALERT" && MODES[0] == "NOT ALERT";
  }

  // ---------------------------------------------------------------
  // Graphs and noise

  /** The band the mode keeps each bar in. */
  function Band(mode: string): (r: (int, int))
    ensures 0 <= r.0 < r.1 <= 100
  {
    if mode == "NOT ALERT" then (0, 20)
    else if mode == "RED ALERT" then (80, 100)
    else if mode == "YELLOW ALERT" then (40, 70)
    else (0, 100)
  }

  function Max(a: int, b: int): int { if a >= b then a else b }
  function Min(a: int, b: int): int { if a <= b then a else b }

  /** `max(lo, min(v, hi))` with the mode's band. */
  function Clamp(mode: string, v: int): (r: int)
    ensures Band(mode).0 <= r <= Band(mode).1
    ensures Band(mode).0 <= v <= Band(mode).1 ==> r == v
  {
    Max(Band(mode).0, Min(v, Band(mode).1))
  }

  /** The bars after one frame: each moved by its random step and clamped. */
  function Adjusted(data: seq<int>, steps: seq<int>, mode: string): (r: seq<int>)
    requires |steps| == |data|
    ensures |r| == |data|
  {
    if |data| == 0 then []
    else Adjusted(data[..|data| - 1], steps[..|data| - 1], mode) + [Clamp(mode, data[|data| - 1] + steps[|data| - 1])]
  }

  lemma {:induction false} AdjustedAt(data: seq<int>, steps: seq<int>, mode: string, i: nat)
    requires |steps| == |data| && i < |data|
    ensures Adjusted(data, steps, mode)[i] == Clamp(mode, data[i] + steps[i])
  {
    if i < |data| - 1 {
      AdjustedAt(data[..|data| - 1], steps[..|data| - 1], mode, i);
    }
  }

  /** After an update every bar lies in the mode's band: [0,20] for NOT
      ALERT, [80,100] for RED and [40,70] for YELLOW ALERT, [0,100]
      otherwise; a step of at most one leaves a bar already in the band
      within one of where it was. */
  lemma AdjustedInBand(data: seq<int>, steps: seq<int>, mode: string)
    requires |steps| == |data|
    ensures forall i :: 0 <= i < |data| ==> Band(mode).0 <= Adjusted(data, steps, mode)[i] <= Band(mode).1
    ensures forall i :: 0 <= i < |data| && Band(mode).0 <= data[i] <= Band(mode).1 && -1 <= steps[i] <= 1 ==>
      -1 <= Adjusted(data, steps, mode)[i] - data[i] <= 1
  {
    forall i | 0 <= i < |data|
      ensures Adjusted(data, steps, mode)[i] == Clamp(mode, data[i] + steps[i])
    {
      AdjustedAt(data, steps, mode, i);
    }
  }

  /** The RED ALERT siren: the pitch climbs by SIREN_URGENCY and falls back
      to 440 once it passes 540. */
  function Siren(f: int): (r: int)
    ensures r == (if f + SIREN_URGENCY > 540 then 440 else f + SIREN_URGENCY)
  {
    var g := f + SIREN_URGENCY;
    if g > 540 then 440 else g
  }

  function SirenAfter(f: int, k: nat): int
  {
    if k == 0 then f else Siren(SirenAfter(f, k - 1))
  }

  /** From 440 the siren climbs 448, 456, ... 536 and is back at 440 on the
      thirteenth step; within the band 440..540 it stays there. */
  lemma SirenCycle(f: int)
    ensures 440 <= f <= 540 ==> 440 <= Siren(f) <= 540
    ensures SirenAfter(440, 13) == 440
    ensures forall k :: 0 < k < 13 ==> SirenAfter(440, k) == 440 + 8 * k
  {
    assert SirenAfter(440, 12) == 536 by {
      assert SirenAfter(440, 1) == 448;
      assert SirenAfter(440, 2) == 456;
      assert SirenAfter(440, 3) == 464;
      assert SirenAfter(440, 4) == 472;
      assert SirenAfter(440, 5) == 480;
      assert SirenAfter(440, 6) == 488;
      assert SirenAfter(440, 7) == 496;
      assert SirenAfter(440, 8) == 504;
      assert SirenAfter(440, 9) == 512;
      assert SirenAfter(440, 10) == 520;
      assert SirenAfter(440, 11) == 528;
    }
  }

  /** Outside RED ALERT: the pitch is eight times a chosen bar, but never
      below 1. */
  function Beep(bar: int): (r: int)
    ensures r >= 1 && r >= 8 * bar
    ensures bar >= 1 ==> r == 8 * bar
  {
    Max(1, bar * 8)
  }

  // ---------------------------------------------------------------
  // One frame of the panel

  /** The panel's globals. */
  datatype Panel = Panel(mode: string, pulse: real, pulseDirection: real, textHue: real,
                         graphData: seq<int>, frequency: int)

  /** What the main loop keeps: a known mode, twelve bars, a pulse in
      [0,1] and in RED ALERT a siren pitch in 440..540. */
  predicate Good(p: Panel)
  {
    p.mode in MODES && |p.graphData| == GRAPH_BARS && 0.0 <= p.pulse <= 1.0
    && (p.mode == "RED ALERT" ==> 440 <= p.frequency <= 540)
  }

  /** `full_refresh`: pulse back to 0 and pitch back to 440 (the starfield
      it also redraws is not modelled). */
  function Refreshed(p: Panel): (r: Panel)
    ensures r.pulse == 0.0 && r.frequency == 440
    ensures r.mode == p.mode && r.graphData == p.graphData && r.pulseDirection == p.pulseDirection
  {
    p.(pulse := 0.0, frequency := 440)
  }

  /** The text: NOT ALERT is static, RAINBOW ALERT moves the hue on, and the
      others pulse the brightness between 0 and 1, turning at each end. */
  function Pulsed(p: Panel): (r: Panel)
    ensures r.mode == p.mode && r.graphData == p.graphData && r.frequency == p.frequency
    ensures 0.0 <= p.pulse <= 1.0 ==> 0.0 <= r.pulse <= 1.0
    ensures p.mode !in {"NOT ALERT", "RAINBOW ALERT"} ==> 0.0 <= r.pulse <= 1.0
  {
    if p.mode == "NOT ALERT" then p
    else if p.mode == "RAINBOW ALERT" then p.(textHue := p.textHue + RAINBOW_SPEED)
    else
      var v := p.pulse + p.pulseDirection;
      var q :=
        if v >= 1.0 then p.(pulse := 1.0, pulseDirection := -PULSE_SPEED)
        else if v <= 0.0 then p.(pulse := 0.0, pulseDirection := PULSE_SPEED)
        else p.(pulse := v);
      if p.mode == "RED ALERT" then q.(textHue := 0.0)
      else if p.mode == "YELLOW ALERT" then q.(textHue := 60.0 / 360.0)
      else if p.mode == "BLUE ALERT" then q.(textHue := 230.0 / 360.0)
      else q
  }

  /** The noise, given the bar `random.choice` picked: the new panel and
      the pitch given to the siren. */
  function Noise(p: Panel, pick: nat): (r: (Panel, int))
    requires pick < |p.graphData|
  {
    if p.mode == "RED ALERT" then (p.(frequency := Siren(p.frequency)), p.frequency)
    else var f := Beep(p.graphData[pick]); (p.(frequency := f), f)
  }

  /** One pass of the main loop: an optional press of Y, the text, the
      bars (with their random steps) and the noise. */
  function Frame(p: Panel, pressed: bool, steps: seq<int>, pick: nat): (r: (Panel, int))
    requires Good(p) && |steps| == GRAPH_BARS && pick < GRAPH_BARS
  {
    var p1 := if pressed then Refreshed(p.(mode := NextMode(p.mode).value)) else p;
    var p2 := Pulsed(p1);
    var p3 := p2.(graphData := Adjusted(p2.graphData, steps, p2.mode));
    Noise(p3, pick)
  }

  /** Every frame keeps the panel good; its bars lie in its mode's band; the
      pitch played is in 440..540 in RED ALERT and at least 1 otherwise. */
  lemma FrameKeepsGood(p: Panel, pressed: bool, steps: seq<int>, pick: nat)
    requires Good(p) && |steps| == GRAPH_BARS && pick < GRAPH_BARS
    ensures var r := Frame(p, pressed, steps, pick);
      Good(r.0)
      && (forall i :: 0 <= i < GRAPH_BARS ==> Band(r.0.mode).0 <= r.0.graphData[i] <= Band(r.0.mode).1)
      && (r.0.mode == "RED ALERT" ==> 440 <= r.1 <= 540)
      && (r.0.mode != "RED ALERT" ==> r.1 >= 1 && r.1 == r.0.frequency)
  {
    var p1 := if pressed then Refreshed(p.(mode := NextMode(p.mode).value)) else p;
    if pressed {
      var i :| 0 <= i < |MODES| && MODES[i] == p.mode;
      NextModeCycles(i);
    }
    var p2 := Pulsed(p1);
    AdjustedInBand(p2.graphData, steps, p2.mode);
    SirenCycle(p2.frequency);
  }

  /** The panel as the script keeps it, in its globals. */
  class AlertPanel {
    var mode: string
    var pulse: real
    var pulseDirection: real
    var textHue: real
    var graphData: seq<int>
    var frequency: int

    function State(): Panel
      reads this
    {
      Panel(mode, pulse, pulseDirection, textHue, graphData, frequency)
    }

    /** Set-up: NOT ALERT, the twelve random starting bars, then
        `full_refresh`. */
    constructor (initial: seq<int>)
      requires |initial| == GRAPH_BARS
      ensures State() == Panel(MODES[0], 0.0, PULSE_SPEED, 0.0, initial, 440) && Good(State())
    {
      mode := MODES[0];
      pulse, pulseDirection, textHue := 0.0, PULSE_SPEED, 0.0;
      graphData := initial;
      frequency := 440;
    }

    method FullRefresh()
      modifies this
      ensures State() == Refreshed(old(State()))
    {
      pulse := 0.0;
      frequency := 440;
    }

    method DrawText()
      modifies this
      ensures State() == Pulsed(old(State()))
    {
      if mode == "NOT ALERT" {
      } else if mode == "RAINBOW ALERT" {
        textHue := textHue + RAINBOW_SPEED;
      } else {
        pulse := pulse + pulseDirection;
        if pulse >= 1.0 {
          pulse := 1.0;
          pulseDirection := -PULSE_SPEED;
        } else if pulse <= 0.0 {
          pulse := 0.0;
          pulseDirection := PULSE_SPEED;
        }
        if mode == "RED ALERT" {
          textHue := 0.0;
        } else if mode == "YELLOW ALERT" {
          textHue := 60.0 / 360.0;
        } else if mode == "BLUE ALERT" {
          textHue := 230.0 / 360.0;
        }
      }
    }

    /** The graph loop: `graph_data[i] += step` and the mode's clamp, bar by
        bar. */
    method UpdateGraphs(steps: seq<int>)
      requires |steps| == |graphData|
      modifies this
      ensures State() == old(State()).(graphData := Adjusted(old(graphData), steps, mode))
    {
      var i := 0;
      while i < |graphData|
        invariant 0 <= i <= |graphData| == |old(graphData)|
        invariant graphData[i..] == old(graphData)[i..]
        invariant forall k :: 0 <= k < i ==> graphData[k] == Clamp(mode, old(graphData)[k] + steps[k])
        invariant mode == old(mode) && pulse == old(pulse) && pulseDirection == old(pulseDirection)
        invariant textHue == old(textHue) && frequency == old(frequency)
      {
        assert graphData[i] == old(graphData)[i];
        var v := graphData[i] + steps[i];
        if mode == "NOT ALERT" {
          v := Max(0, Min(v, 20));
        } else if mode == "RED ALERT" {
          v := Max(80, Min(v, 100));
        } else if mode == "YELLOW ALERT" {
          v := Max(40, Min(v, 70));
        } else {
          v := Max(0, Min(v, 100));
        }
        graphData := graphData[i := v];
        i := i + 1;
      }
      forall k | 0 <= k < |graphData|
        ensures graphData[k] == Adjusted(old(graphData), steps, mode)[k]
      {
        AdjustedAt(old(graphData), steps, mode, k);
      }
    }

    /** The noise; `played` is the pitch passed to `siren.frequency`. */
    method MakeNoise(pick: nat) returns (played: int)
      requires pick < |graphData|
      modifies this
      ensures (State(), played) == Noise(old(State()), pick)
    {
      if mode == "RED ALERT" {
        played := frequency;
        frequency := frequency + SIREN_URGENCY;
        if frequency > 540 {
          frequency := 440;
        }
      } else {
        frequency := graphData[pick] * 8;
        frequency := Max(1, frequency);
        played := frequency;
      }
    }

    /** One pass of the main loop. */
    method Tick(pressed: bool, steps: seq<int>, pick: nat) returns (played: int)
      requires Good(State()) && |steps| == GRAPH_BARS && pick < GRAPH_BARS
      modifies this
      ensures (State(), played) == Frame(old(State()), pressed, steps, pick)
      ensures Good(State())
    {
      FrameKeepsGood(State(), pressed, steps, pick);
      if pressed {
        var i := IndexOf(MODES, mode);
        mode := MODES[(i.value + 1) % |MODES|];
        FullRefresh();
      }
      DrawText();
      UpdateGraphs(steps);
      played := MakeNoise(pick);
    }
  }
}
