/** The Sneks and Ladders example: a table of 32 sprite-data slots that
    sprite sheets are cut into, the choice of platform tile for each cell
    of the level, and the fire animation's frame numbers. Its sprite list
    and collision list are the same code as the game library's and are
    modelled there (PvGame.SpriteList with capacity 32, PvGame.CollisionList). */
module SneksAndLadders {
  import opened Wrappers
  import opened PySemantics
  import Bytes

  const DISPLAY_WIDTH: int := 320
  const DISPLAY_HEIGHT: int := 240
  const TILE_W: int := 16
  const TILE_H: int := 16
  /** int(DISPLAY_WIDTH / TILE_W) */
  const TILES_X: int := TruncDiv(DISPLAY_WIDTH, TILE_W)
  /** int(DISPLAY_HEIGHT / TILE_H) - 3: two rows of status bar, one of fire. */
  const TILES_Y: int := TruncDiv(DISPLAY_HEIGHT, TILE_H) - 3
  const NUM_FRAMES: int := 5
  /** The fire frame each of the five columns of a group starts on. */
  const START_FRAME: seq<int> := [0, 2, 1, 4, 3]
  const MAX_SPRITE_DATA_SLOTS: nat := 32

  const LEVEL_DATA: seq<seq<int>> := [
    [0, 0, 0, 0, 0, 0, 0, 0, 0, 0, 0, 0, 0, 0, 0, 0, 0, 0, 0, 0],
    [0, 0, 1, 1, 1, 1, 1, 1, 1, 1, 1, 1, 1, 1, 1, 1, 1, 1, 1, 0],
    [0, 0, 0, 0, 0, 0, 0, 0, 0, 0, 0, 0, 0, 0, 0, 0, 0, 0, 0, 0],
    [0, 0, 1, 1, 1, 1, 1, 1, 1, 1, 1, 1, 1, 1, 1, 1, 1, 1, 1, 0],
    [0, 0, 0, 0, 0, 0, 0, 0, 0, 0, 0, 0, 0, 0, 0, 0, 0, 0, 0, 0],
    [0, 0, 0, 0, 0, 0, 0, 1, 1, 1, 1, 1, 1, 1, 0, 0, 0, 0, 0, 0],
    [0, 0, 0, 0, 0, 0, 0, 0, 0, 0, 0, 0, 0, 0, 0, 0, 0, 0, 0, 0],
    [0, 0, 0, 0, 0, 1, 1, 1, 1, 0, 0, 0, 1, 1, 1, 1, 0, 0, 0, 0],
    [0, 0, 0, 0, 0, 0, 0, 0, 0, 0, 0, 0, 0, 0, 0, 0, 0, 0, 0, 0],
    [0, 1, 1, 1, 1, 1, 0, 0, 1, 1, 1, 1, 1, 0, 0, 1, 1, 1, 1, 1],
    [0, 0, 0, 0, 0, 0, 0, 0, 0, 0, 0, 0, 0, 0, 0, 0, 0, 0, 0, 0],
    [1, 1, 1, 1, 1, 1, 0, 0, 1, 1, 1, 1, 1, 0, 0, 1, 1, 1, 1, 1]
  ]

  // ---------------------------------------------------------------
  // Platform tiles and fire frames

  /** The grid the drawing loop walks, TILES_Y rows of TILES_X cells, is
      exactly the level: every cell and every neighbour it looks at is in
      range. */
  lemma LevelMatchesGrid()
    ensures TILES_X == 20 && TILES_Y == 12
    ensures |LEVEL_DATA| == TILES_Y
    ensures forall y :: 0 <= y < |LEVEL_DATA| ==> |LEVEL_DATA[y]| == TILES_X
  {
    assert TILES_X == 20 && TILES_Y == 12;
  }

  /** The platform piece for a filled cell: the left end (0) when the cell to
      its left is empty, otherwise the right end (2) when the cell to its
      right is empty, otherwise the middle (1). The first and last columns
      never look past the row. */
  function TileType(row: seq<int>, x: int): (t: int)
    requires |row| == TILES_X && 0 <= x < TILES_X
    ensures 0 <= t <= 2
    ensures t == 0 <==> x > 0 && row[x - 1] == 0
    ensures t == 2 <==> !(x > 0 && row[x - 1] == 0) && x < TILES_X - 1 && row[x + 1] == 0
  {
    if x > 0 && row[x - 1] == 0 then 0
    else if x < TILES_X - 1 && row[x + 1] == 0 then 2
    else 1
  }

  /** A one-cell platform with empty cells on both sides is drawn as a left
      end: the left test is made first. */
  lemma LonePlatformIsLeftEnd(row: seq<int>, x: int)
    requires |row| == TILES_X && 0 < x < TILES_X - 1
    requires row[x - 1] == 0 && row[x + 1] == 0
    ensures TileType(row, x) == 0
  {
  }

  /** The frame of the fire shown in column r of group f. */
  function FireFrame(r: nat, f: nat): (frame: int)
    ensures 0 <= frame < NUM_FRAMES
  {
    (START_FRAME[r % NUM_FRAMES] + f) % NUM_FRAMES
  }

  /** The five columns of one group show five different frames. */
  lemma FireFramesDistinct(r1: nat, r2: nat, f: nat)
    requires r1 < NUM_FRAMES && r2 < NUM_FRAMES && r1 != r2
    ensures FireFrame(r1, f) != FireFrame(r2, f)
  {
    var a, b := START_FRAME[r1], START_FRAME[r2];
    var g := f % 5;
    ShiftMod(a, f);
    ShiftMod(b, f);
    SmallMod(a + g);
    SmallMod(b + g);
  }

  /** Adding f moves a residue like adding f mod 5. */
  lemma ShiftMod(a: nat, f: nat)
    ensures (a + f) % 5 == (a + f % 5) % 5
  {
    var g := f % 5;
    Bytes.DivModUnique(a + f, 5, f / 5 + (a + g) / 5, (a + g) % 5);
  }

  lemma SmallMod(v: nat)
    requires v < 10
    ensures v % 5 == if v < 5 then v else v - 5
  {
    if v < 5 {
      Bytes.DivModUnique(v, 5, 0, v);
    } else {
      Bytes.DivModUnique(v, 5, 1, v - 5);
    }
  }

  // ---------------------------------------------------------------
  // SpriteData: 32 slots of (file name, crop)

  datatype Crop = Crop(x: int, y: int, w: int, h: int)

  /** `files.index(None)`: the lowest empty slot, or None when every slot is
      taken (where Python raises ValueError). */
  function FirstFree(files: seq<Option<string>>): (r: Option<nat>)
    ensures r.Some? ==> r.value < |files| && files[r.value].None? && forall k :: 0 <= k < r.value ==> files[k].Some?
    ensures r.None? ==> forall k :: 0 <= k < |files| ==> files[k].Some?
  {
    if |files| == 0 then None
    else if files[0].None? then Some(0)
    else match FirstFree(files[1..])
      case None => None
      case Some(i) => Some(i + 1)
  }

  /** The crops `split` cuts, row by row: row y holds the sprites_x crops
      of that row, left to right. */
  function CropRow(x0: int, y0: int, sw: int, sh: int, y: nat, sx: nat): (r: seq<Crop>)
    ensures |r| == sx
    ensures forall x :: 0 <= x < sx ==> r[x] == Crop(x0 + x * sw, y0 + y * sh, sw, sh)
  {
    seq(sx, x requires 0 <= x < sx => Crop(x0 + x * sw, y0 + y * sh, sw, sh))
  }

  function CropGrid(x0: int, y0: int, sw: int, sh: int, sx: nat, sy: nat): (r: seq<Crop>)
    ensures |r| == sx * sy
  {
    if sy == 0 then [] else CropGrid(x0, y0, sw, sh, sx, sy - 1) + CropRow(x0, y0, sw, sh, sy - 1, sx)
  }

  /** The grid in row-major order: entry k is the crop in column k mod sx
      of row k div sx. */
  lemma {:induction false} CropGridAt(x0: int, y0: int, sw: int, sh: int, sx: nat, sy: nat, k: nat)
    requires k < sx * sy
    ensures CropGrid(x0, y0, sw, sh, sx, sy)[k] == Crop(x0 + (k % sx) * sw, y0 + (k / sx) * sh, sw, sh)
    decreases sy
  {
    var prev := CropGrid(x0, y0, sw, sh, sx, sy - 1);
    assert |prev| == sx * (sy - 1) == sx * sy - sx;
    if k < |prev| {
      CropGridAt(x0, y0, sw, sh, sx, sy - 1, k);
    } else {
      var x := k - |prev|;
      assert 0 <= x < sx;
      Bytes.DivModUnique(k, sx, sy - 1, x);
      assert CropGrid(x0, y0, sw, sh, sx, sy)[k] == CropRow(x0, y0, sw, sh, sy - 1, sx)[x];
    }
  }

  /** Range bound of a Python `range(n)`: a negative count is no steps. */
  function Count(n: int): nat
  {
    if n < 0 then 0 else n
  }

  /** Slots `split` filled: each index holds the file and its crop, was
      empty before, the indexes rise, every slot up to the last one used is
      taken, and the other slots are as they were. */
  ghost predicate Placed(files: seq<Option<string>>, crops: seq<Option<Crop>>,
                         files0: seq<Option<string>>, crops0: seq<Option<Crop>>,
                         filename: string, want: seq<Crop>, idx: seq<nat>)
  {
    && |files| == |files0| == |crops| == |crops0|
    && Entries(files, crops, files0, filename, want, idx)
    && Rising(files, idx)
    && Untouched(files, crops, files0, crops0, idx)
  }

  ghost predicate Entries(files: seq<Option<string>>, crops: seq<Option<Crop>>, files0: seq<Option<string>>,
                          filename: string, want: seq<Crop>, idx: seq<nat>)
  {
    && |crops| == |files| == |files0|
    && |idx| == |want|
    && (forall k :: 0 <= k < |idx| ==> idx[k] < |files|)
    && (forall k :: 0 <= k < |idx| ==> files[idx[k]] == Some(filename) && crops[idx[k]] == Some(want[k]))
    && (forall k :: 0 <= k < |idx| ==> files0[idx[k]].None?)
  }

  ghost predicate Rising(files: seq<Option<string>>, idx: seq<nat>)
  {
    && (forall j, k :: 0 <= j < k < |idx| ==> idx[j] < idx[k])
    && (|idx| > 0 ==> forall s :: 0 <= s <= idx[|idx| - 1] && s < |files| ==> files[s].Some?)
  }

  ghost predicate Untouched(files: seq<Option<string>>, crops: seq<Option<Crop>>,
                            files0: seq<Option<string>>, crops0: seq<Option<Crop>>, idx: seq<nat>)
  {
    && |crops| == |files| == |files0| == |crops0|
    && forall s :: 0 <= s < |files| && s !in idx ==> files[s] == files0[s] && crops[s] == crops0[s]
  }

  class SpriteData {
    var files: seq<Option<string>>
    var crops: seq<Option<Crop>>

    ghost predicate Valid()
      reads this
    {
      |files| == MAX_SPRITE_DATA_SLOTS && |crops| == MAX_SPRITE_DATA_SLOTS
    }

    constructor()
      ensures Valid()
      ensures forall i :: 0 <= i < MAX_SPRITE_DATA_SLOTS ==> files[i].None? && crops[i].None?
    {
      files := seq(MAX_SPRITE_DATA_SLOTS, _ => None);
      crops := seq(MAX_SPRITE_DATA_SLOTS, _ => None);
    }

    /** `add`: store the file and crop in the lowest empty slot and return it;
        ValueError, with nothing stored, when every slot is taken. */
    method Add(filename: string, crop: Option<Crop>) returns (r: Result<nat, Exception>)
      requires Valid()
      modifies this
      ensures Valid()
      ensures match FirstFree(old(files))
        case None => r == Err(ValueError) && files == old(files) && crops == old(crops)
        case Some(s) => r == Ok(s) && files == old(files)[s := Some(filename)] && crops == old(crops)[s := crop]
    {
      var slot := FirstFree(files);
      if slot.None? {
        return Err(ValueError);
      }
      files := files[slot.value := Some(filename)];
      crops := crops[slot.value := crop];
      r := Ok(slot.value);
    }

    /** `split`: cut the bounds into sprites_x by sprites_y crops of the
        sprite size, row by row, adding each one. A zero sprite size raises
        ZeroDivisionError; running out of slots raises ValueError part-way,
        once every slot is taken. */
    method Split(filename: string, bounds: Crop, sw: int, sh: int) returns (r: Result<seq<nat>, Exception>)
      requires Valid()
      modifies this
      ensures Valid()
      ensures sw == 0 || sh == 0 ==> r == Err(ZeroDivisionError) && files == old(files) && crops == old(crops)
      ensures r.Err? && sw != 0 && sh != 0 ==> r.error == ValueError && forall s :: 0 <= s < |files| ==> files[s].Some?
      ensures r.Ok? ==> (sw != 0 && sh != 0 &&
        Placed(files, crops, old(files), old(crops), filename,
               CropGrid(bounds.x, bounds.y, sw, sh, Count(PyIntDiv(bounds.w, sw)), Count(PyIntDiv(bounds.h, sh))), r.value))
    {
      if sw == 0 || sh == 0 {
        return Err(ZeroDivisionError);
      }
      var sx, sy := Count(PyIntDiv(bounds.w, sw)), Count(PyIntDiv(bounds.h, sh));
      var indexes: seq<nat> := [];
      ghost var files0, crops0 := files, crops;
      var y := 0;
      while y < sy
        invariant 0 <= y <= sy && Valid()
        invariant Placed(files, crops, files0, crops0, filename, CropGrid(bounds.x, bounds.y, sw, sh, sx, y), indexes)
      {
        var row := SplitRow(filename, bounds, sw, sh, y, sx, indexes, files0, crops0);
        if row.Err? {
          return Err(ValueError);
        }
        indexes := row.value;
        y := y + 1;
      }
      r := Ok(indexes);
    }

    /** The inner loop of `split`: the crops of row y. */
    method SplitRow(filename: string, bounds: Crop, sw: int, sh: int, y: nat, sx: nat, indexes: seq<nat>,
                    ghost files0: seq<Option<string>>, ghost crops0: seq<Option<Crop>>)
      returns (r: Result<seq<nat>, Exception>)
      requires Valid()
      requires Placed(files, crops, files0, crops0, filename, CropGrid(bounds.x, bounds.y, sw, sh, sx, y), indexes)
      modifies this
      ensures Valid()
      ensures r.Err? ==> r.error == ValueError && forall s :: 0 <= s < |files| ==> files[s].Some?
      ensures r.Ok? ==> Placed(files, crops, files0, crops0, filename, CropGrid(bounds.x, bounds.y, sw, sh, sx, y + 1), r.value)
    {
      ghost var before := CropGrid(bounds.x, bounds.y, sw, sh, sx, y);
      ghost var row := CropRow(bounds.x, bounds.y, sw, sh, y, sx);
      assert CropGrid(bounds.x, bounds.y, sw, sh, sx, y + 1) == before + row;
      var idx := indexes;
      var x := 0;
      while x < sx
        invariant 0 <= x <= sx && Valid()
        invariant Placed(files, crops, files0, crops0, filename, before + row[..x], idx)
      {
        var crop := Crop(bounds.x + x * sw, bounds.y + y * sh, sw, sh);
        assert crop == row[x];
        ghost var fb, cb := files, crops;
        var i := Add(filename, Some(crop));
        if i.Err? {
          return Err(ValueError);
        }
        PlacedStep(files, crops, fb, cb, files0, crops0, filename, before + row[..x], idx, i.value, crop);
        PrefixStep(before, row, x);
        idx := idx + [i.value];
        x := x + 1;
      }
      assert row[..sx] == row;
      r := Ok(idx);
    }
  }

  lemma PrefixStep<T>(before: seq<T>, row: seq<T>, x: nat)
    requires x < |row|
    ensures before + row[..x + 1] == (before + row[..x]) + [row[x]]
  {
    assert row[..x + 1] == row[..x] + [row[x]];
  }

  /** One more `add` extends what `split` has placed. */
  lemma PlacedStep(files: seq<Option<string>>, crops: seq<Option<Crop>>,
                   filesB: seq<Option<string>>, cropsB: seq<Option<Crop>>,
                   files0: seq<Option<string>>, crops0: seq<Option<Crop>>,
                   filename: string, want: seq<Crop>, idx: seq<nat>, s: nat, crop: Crop)
    requires Placed(filesB, cropsB, files0, crops0, filename, want, idx)
    requires FirstFree(filesB) == Some(s)
    requires files == filesB[s := Some(filename)] && crops == cropsB[s := Some(crop)]
    ensures Placed(files, crops, files0, crops0, filename, want + [crop], idx + [s])
  {
    FreshSlot(filesB, filename, want, idx, s, cropsB, files0);
    assert files0[s] == filesB[s];
    EntriesStep(files, crops, filesB, cropsB, files0, filename, want, idx, s, crop);
    RisingStep(files, filesB, idx, s);
    UntouchedStep(files, crops, filesB, cropsB, files0, crops0, idx, s);
  }

  /** The slot `add` picks is none of those already used. */
  lemma FreshSlot(filesB: seq<Option<string>>, filename: string, want: seq<Crop>, idx: seq<nat>, s: nat,
                  cropsB: seq<Option<Crop>>, files0: seq<Option<string>>)
    requires Entries(filesB, cropsB, files0, filename, want, idx)
    requires FirstFree(filesB) == Some(s)
    ensures s !in idx
  {
    forall k | 0 <= k < |idx| ensures idx[k] != s {
      assert filesB[idx[k]].Some?;
    }
  }

  lemma EntriesStep(files: seq<Option<string>>, crops: seq<Option<Crop>>,
                    filesB: seq<Option<string>>, cropsB: seq<Option<Crop>>, files0: seq<Option<string>>,
                    filename: string, want: seq<Crop>, idx: seq<nat>, s: nat, crop: Crop)
    requires Entries(filesB, cropsB, files0, filename, want, idx) && s !in idx
    requires s < |files0| && files0[s].None?
    requires files == filesB[s := Some(filename)] && crops == cropsB[s := Some(crop)]
    ensures Entries(files, crops, files0, filename, want + [crop], idx + [s])
  {
    var idx2, want2 := idx + [s], want + [crop];
    forall k | 0 <= k < |idx2|
      ensures idx2[k] < |files| && files[idx2[k]] == Some(filename) && crops[idx2[k]] == Some(want2[k]) && files0[idx2[k]].None?
    {
      if k < |idx| {
        assert idx2[k] == idx[k] && want2[k] == want[k] && idx[k] != s;
      }
    }
  }

  lemma RisingStep(files: seq<Option<string>>, filesB: seq<Option<string>>, idx: seq<nat>, s: nat)
    requires Rising(filesB, idx) && FirstFree(filesB) == Some(s)
    requires |files| == |filesB| && s < |files|
    requires files == filesB[s := files[s]] && files[s].Some?
    ensures Rising(files, idx + [s])
  {
    var idx2 := idx + [s];
    if |idx| > 0 {
      var last := idx[|idx| - 1];
      assert filesB[s].None?;
      assert last < s;
      forall j, k | 0 <= j < k < |idx2| ensures idx2[j] < idx2[k] {
        if k == |idx| && j < |idx| - 1 {
          assert idx[j] < last;
        }
      }
    }
    forall t | 0 <= t <= s && t < |files| ensures files[t].Some? {
      if t < s {
        assert filesB[t].Some?;
      }
    }
  }

  lemma UntouchedStep(files: seq<Option<string>>, crops: seq<Option<Crop>>,
                      filesB: seq<Option<string>>, cropsB: seq<Option<Crop>>,
                      files0: seq<Option<string>>, crops0: seq<Option<Crop>>, idx: seq<nat>, s: nat)
    requires Untouched(filesB, cropsB, files0, crops0, idx) && s < |filesB|
    requires |files| == |filesB| && |crops| == |cropsB|
    requires forall t :: 0 <= t < |files| && t != s ==> files[t] == filesB[t] && crops[t] == cropsB[t]
    ensures Untouched(files, crops, files0, crops0, idx + [s])
  {
    forall t | 0 <= t < |files| && t !in idx + [s]
      ensures files[t] == files0[t] && crops[t] == crops0[t]
    {
      assert t != s && t !in idx;
    }
  }
}
