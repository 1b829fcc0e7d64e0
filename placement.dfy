/**
 * Synthetic training data (`generate_training_data` in preprocess_activ.py):
 * filler images and Arabic text chips are paired with `zip`; each chip is pasted
 * once into its resized filler at a corner drawn from the legal ranges, the
 * result is written as `Generated_vd00_frame_<counter>.png`, and a `<frame>`
 * record with the chip's rectangle is appended to the ground-truth XML. A pair
 * whose chip leaves no legal corner is skipped and consumes no frame id.
 *
 * Images are numpy buffers: `a[r, c]` is the pixel at row r and column c,
 * `a.Length0` the number of rows and `a.Length1` the number of columns.
 */
module Placement {
  import opened PyBuiltins
  import opened XmlTree

  /** `shape[:2]` of an image: rows, then columns. */
  datatype Shape = Shape(rows: nat, cols: nat)

  /** A top-left corner drawn for a chip. */
  datatype Corner = Corner(row: nat, col: nat)

  /** The attributes of the emitted `<rectangle>`, in the order they are written. */
  datatype Rect = Rect(height: nat, width: nat, y: nat, x: nat)

  /** One emitted `<frame source="vd00" id=...>` record. */
  datatype FrameRecord = FrameRecord(id: nat, rect: Rect)

  /** The pixel values of an image, row by row. */
  datatype Grid = Grid(rows: seq<seq<int>>)

  /** One image written to the Generated training folder: its file name and pixels. */
  datatype SavedImage = SavedImage(name: string, pixels: Grid)

  /** A decoded image has the same number of columns in every row. */
  predicate Rectangular(g: Grid)
  {
    forall r :: 0 <= r < |g.rows| ==> |g.rows[r]| == |g.rows[0]|
  }

  function GridShape(g: Grid): Shape
  {
    Shape(|g.rows|, if |g.rows| == 0 then 0 else |g.rows[0]|)
  }

  function ShapeOf(a: array2<int>): Shape { Shape(a.Length0, a.Length1) }

  function Shapes(images: seq<Grid>): (r: seq<Shape>)
    ensures |r| == |images| && forall i :: 0 <= i < |images| ==> r[i] == GridShape(images[i])
  {
    seq(|images|, i requires 0 <= i < |images| => GridShape(images[i]))
  }

  /** The (resized filler, chip) shapes that the generator's `zip` walks through. */
  function PairShapes(fillers: seq<Grid>, chips: seq<Grid>): (r: seq<(Shape, Shape)>)
    ensures |r| == Min(|fillers|, |chips|)
    ensures forall k :: 0 <= k < |r| ==> r[k] == (GridShape(fillers[k]), GridShape(chips[k]))
  {
    Zip(Shapes(fillers), Shapes(chips))
  }

  /**
   * Whether `range(0, cols - chip_cols)` and `range(0, rows - chip_rows)` are both
   * non-empty, i.e. whether the pair is placed rather than skipped.
   */
  predicate Fits(canvas: Shape, chip: Shape)
  {
    canvas.cols - chip.cols > 0 && canvas.rows - chip.rows > 0
  }

  /** `choice` on each of the two ranges: any legal corner, or none when a range is empty. */
  method ChooseCorner(canvas: Shape, chip: Shape) returns (corner: Option<Corner>)
    ensures corner.None? <==> canvas.cols <= chip.cols || canvas.rows <= chip.rows
    ensures corner.Some? ==>
      corner.value.col < canvas.cols - chip.cols && corner.value.row < canvas.rows - chip.rows
  {
    var columnCount := canvas.cols - chip.cols;
    var rowCount := canvas.rows - chip.rows;
    if columnCount <= 0 || rowCount <= 0 {
      return None;
    }
    var col :| 0 <= col < columnCount;
    var row :| 0 <= row < rowCount;
    return Some(Corner(row, col));
  }

  /** The indices of the pairs that are placed, in order. */
  function FittingPairs(pairs: seq<(Shape, Shape)>): (r: seq<nat>)
    ensures |r| <= |pairs|
    ensures forall i :: 0 <= i < |r| ==> r[i] < |pairs| && Fits(pairs[r[i]].0, pairs[r[i]].1)
    ensures forall i, j :: 0 <= i < j < |r| ==> r[i] < r[j]
  {
    if |pairs| == 0 then []
    else
      var last := |pairs| - 1;
      FittingPairs(pairs[..last]) + if Fits(pairs[last].0, pairs[last].1) then [last] else []
  }

  /** A pair is placed exactly when its chip leaves a legal corner; every other pair is skipped. */
  lemma {:induction false} FittingPairsExactly(pairs: seq<(Shape, Shape)>, k: nat)
    requires k < |pairs|
    ensures k in FittingPairs(pairs) <==> Fits(pairs[k].0, pairs[k].1)
  {
    var last := |pairs| - 1;
    if k < last {
      FittingPairsExactly(pairs[..last], k);
      assert pairs[..last][k] == pairs[k];
    }
  }

  /** The record emitted for the `id`-th placed pair, given its filler and chip shapes. */
  predicate PlacedFor(pair: (Shape, Shape), id: nat, f: FrameRecord)
  {
    var (canvas, chip) := pair;
    && f.id == id
    && f.rect.height == chip.rows && f.rect.width == chip.cols
    && f.rect.y < canvas.rows - chip.rows && f.rect.x < canvas.cols - chip.cols
  }

  /** `frames` is what the loop may emit for the pairs, whatever corners `choice` drew. */
  predicate Placements(pairs: seq<(Shape, Shape)>, frames: seq<FrameRecord>)
  {
    var placed := FittingPairs(pairs);
    |frames| == |placed| &&
    forall i :: 0 <= i < |frames| ==> PlacedFor(pairs[placed[i]], i, frames[i])
  }

  /**
   * The records are numbered 0, 1, 2, ... with no gap, since a skipped pair takes
   * no id, and there are never more of them than pairs.
   */
  lemma FrameIds(pairs: seq<(Shape, Shape)>, frames: seq<FrameRecord>)
    requires Placements(pairs, frames)
    ensures |frames| <= |pairs|
    ensures forall i :: 0 <= i < |frames| ==> frames[i].id == i
  {
    assert forall i :: 0 <= i < |frames| ==> PlacedFor(pairs[FittingPairs(pairs)[i]], i, frames[i]);
  }

  /** The pixels of an image buffer, row by row. */
  function Pixels(a: array2<int>): (g: Grid)
    reads a
    ensures |g.rows| == a.Length0
  {
    Grid(seq(a.Length0, r requires 0 <= r < a.Length0 reads a =>
      seq(a.Length1, c requires 0 <= c < a.Length1 reads a => a[r, c])))
  }

  /** The canvas after `canvas[y:y+rows, x:x+cols] = chip`, for a chip of `rows` by `cols`. */
  function Blitted(canvas: Grid, chip: Grid, y: nat, x: nat): Grid
  {
    var (g, h) := (canvas.rows, chip.rows);
    Grid(seq(|g|, r requires 0 <= r < |g| =>
      seq(|g[r]|, c requires 0 <= c < |g[r]| =>
        if y <= r < y + |h| && x <= c && c - x < |h[r - y]| then h[r - y][c - x] else g[r][c])))
  }

  /** The slice assignment, element by element. */
  method Blit(canvas: array2<int>, chip: array2<int>, y: nat, x: nat)
    requires canvas != chip
    requires y + chip.Length0 <= canvas.Length0 && x + chip.Length1 <= canvas.Length1
    modifies canvas
    ensures forall r, c :: 0 <= r < canvas.Length0 && 0 <= c < canvas.Length1 ==>
      canvas[r, c] == if y <= r < y + chip.Length0 && x <= c < x + chip.Length1
                      then chip[r - y, c - x] else old(canvas[r, c])
    ensures Pixels(canvas) == Blitted(old(Pixels(canvas)), Pixels(chip), y, x)
  {
    for i := 0 to chip.Length0
      invariant forall r, c :: 0 <= r < canvas.Length0 && 0 <= c < canvas.Length1 ==>
        canvas[r, c] == if y <= r < y + i && x <= c < x + chip.Length1
                        then chip[r - y, c - x] else old(canvas[r, c])
    {
      for j := 0 to chip.Length1
        invariant forall r, c :: 0 <= r < canvas.Length0 && 0 <= c < canvas.Length1 ==>
          canvas[r, c] == if (y <= r < y + i && x <= c < x + chip.Length1) || (r == y + i && x <= c < x + j)
                          then chip[r - y, c - x] else old(canvas[r, c])
      {
        canvas[y + i, x + j] := chip[i, j];
      }
    }
    ghost var expected := Blitted(old(Pixels(canvas)), Pixels(chip), y, x).rows;
    forall r | 0 <= r < canvas.Length0
      ensures Pixels(canvas).rows[r] == expected[r]
    {
    }
    assert Pixels(canvas).rows == expected;
  }

  /** What the blit promises pixel by pixel: the chip inside its rectangle, the canvas elsewhere. */
  lemma BlittedAt(canvas: Grid, chip: Grid, y: nat, x: nat, chipCols: nat, r: nat, c: nat)
    requires forall i :: 0 <= i < |chip.rows| ==> |chip.rows[i]| == chipCols
    requires r < |canvas.rows| && c < |canvas.rows[r]|
    ensures |Blitted(canvas, chip, y, x).rows| == |canvas.rows|
    ensures Blitted(canvas, chip, y, x).rows[r][c] ==
      if y <= r < y + |chip.rows| && x <= c < x + chipCols then chip.rows[r - y][c - x] else canvas.rows[r][c]
  {
  }

  /** The name `cv2.imwrite` saves the `id`-th generated image under. */
  function ImageName(id: nat): string
  {
    "Generated_vd00_frame_" + NatToString(id) + ".png"
  }

  const Header := "<?xml version=\"1.0\" encoding=\"UTF-8\"?>\n\n<Protocol4 channel=\"Generated\">\n\n"
  const Footer := "\n</Protocol4>"
  const Indent := "                "

  /** The text appended to `xml_file_output` for one record. */
  function FrameText(f: FrameRecord): string
  {
    "<frame source=\"vd00\" id=\"" + NatToString(f.id) + "\">\n"
    + Indent + "<rectangle id=\"1\" height=\"" + NatToString(f.rect.height)
    + "\" width=\"" + NatToString(f.rect.width) + "\" y=\"" + NatToString(f.rect.y)
    + "\" x=\"" + NatToString(f.rect.x) + "\"/>\n"
    + Indent + "</frame>\n"
  }

  function FramesText(frames: seq<FrameRecord>): string
  {
    if |frames| == 0 then "" else FramesText(frames[..|frames| - 1]) + FrameText(frames[|frames| - 1])
  }

  /** The whole `gtraining_Ge.xml` file. */
  function XmlDocument(frames: seq<FrameRecord>): string
  {
    Header + FramesText(frames) + Footer
  }

  /** The element tree an XML parser builds from `FrameText(f)`. */
  function FrameElement(f: FrameRecord): Frame
  {
    Frame(map["source" := "vd00", "id" := NatToString(f.id)],
          [map["id" := "1", "height" := NatToString(f.rect.height), "width" := NatToString(f.rect.width),
               "y" := NatToString(f.rect.y), "x" := NatToString(f.rect.x)]])
  }

  function FrameElements(frames: seq<FrameRecord>): (r: seq<Frame>)
    ensures |r| == |frames| && forall i :: 0 <= i < |frames| ==> r[i] == FrameElement(frames[i])
  {
    seq(|frames|, i requires 0 <= i < |frames| => FrameElement(frames[i]))
  }

  lemma FramesTextAppend(prefix: string, frames: seq<FrameRecord>, f: FrameRecord)
    ensures prefix + FramesText(frames + [f]) == prefix + FramesText(frames) + FrameText(f)
  {
    assert (frames + [f])[..|frames|] == frames;
  }

  /** The loop's prefix facts after one more pair: placed with the next id, or skipped. */
  lemma PlacementsStep(pairs: seq<(Shape, Shape)>, k: nat, frames: seq<FrameRecord>, f: FrameRecord)
    requires k < |pairs|
    requires Placements(pairs[..k], frames)
    ensures FittingPairs(pairs[..k + 1]) ==
      FittingPairs(pairs[..k]) + if Fits(pairs[k].0, pairs[k].1) then [k] else []
    ensures !Fits(pairs[k].0, pairs[k].1) ==> Placements(pairs[..k + 1], frames)
    ensures Fits(pairs[k].0, pairs[k].1) && PlacedFor(pairs[k], |frames|, f) ==>
      Placements(pairs[..k + 1], frames + [f])
  {
    assert pairs[..k + 1][..k] == pairs[..k];
    assert pairs[..k + 1][k] == pairs[k];
  }

  /** A fresh image buffer holding the pixels: what `cv2.imread` and `cv2.resize` hand back. */
  method NewBuffer(g: Grid) returns (a: array2<int>)
    requires Rectangular(g)
    ensures fresh(a)
    ensures ShapeOf(a) == GridShape(g) && Pixels(a) == g
  {
    var cols := if |g.rows| == 0 then 0 else |g.rows[0]|;
    a := new int[|g.rows|, cols]((r, c) requires 0 <= r < |g.rows| && 0 <= c < cols => g.rows[r][c]);
    forall r | 0 <= r < |g.rows|
      ensures Pixels(a).rows[r] == g.rows[r]
    {
      assert forall c :: 0 <= c < cols ==> a[r, c] == g.rows[r][c];
    }
    assert Pixels(a).rows == g.rows;
  }

  /**
   * One pass of the loop body for a resized filler and its chip: load both into
   * buffers, draw a corner, paste the chip in place, and produce the record and
   * the image written to disk; or skip the pair.
   */
  method PlaceChip(filler: Grid, chip: Grid, counter: nat) returns (placed: Option<(FrameRecord, SavedImage)>)
    requires Rectangular(filler) && Rectangular(chip)
    ensures PlaceOutcome(filler, chip, counter, placed)
  {
    var canvas := NewBuffer(filler);
    var chipBuffer := NewBuffer(chip);
    var corner := ChooseCorner(ShapeOf(canvas), ShapeOf(chipBuffer));
    if corner.None? {
      return None;
    }
    var row, col := corner.value.row, corner.value.col;
    Blit(canvas, chipBuffer, row, col);
    var record := FrameRecord(counter, Rect(chipBuffer.Length0, chipBuffer.Length1, row, col));
    return Some((record, SavedImage(ImageName(counter), Pixels(canvas))));
  }

  /**
   * What one pass may produce: nothing when the chip does not fit; otherwise the
   * record with id `counter` and a corner in range, and the filler with the chip
   * pasted at that corner, saved under the record's image name.
   */
  predicate PlaceOutcome(filler: Grid, chip: Grid, counter: nat, placed: Option<(FrameRecord, SavedImage)>)
  {
    && (placed.None? <==> !Fits(GridShape(filler), GridShape(chip)))
    && (placed.Some? ==>
      && PlacedFor((GridShape(filler), GridShape(chip)), counter, placed.value.0)
      && placed.value.1 == SavedImage(ImageName(counter),
                                      Blitted(filler, chip, placed.value.0.rect.y, placed.value.0.rect.x)))
  }

  /** The images written for the placed pairs `placed`, with the records `frames` drawn for them. */
  function SavedImages(fillers: seq<Grid>, chips: seq<Grid>, placed: seq<nat>, frames: seq<FrameRecord>)
    : (r: seq<SavedImage>)
    requires |placed| == |frames|
    requires forall i :: 0 <= i < |placed| ==> placed[i] < |fillers| && placed[i] < |chips|
    ensures |r| == |frames|
  {
    seq(|frames|, i requires 0 <= i < |frames| =>
      SavedImage(ImageName(i), Blitted(fillers[placed[i]], chips[placed[i]], frames[i].rect.y, frames[i].rect.x)))
  }

  lemma SavedImagesStep(fillers: seq<Grid>, chips: seq<Grid>, placed: seq<nat>, frames: seq<FrameRecord>,
                        k: nat, f: FrameRecord)
    requires |placed| == |frames| && k < |fillers| && k < |chips|
    requires forall i :: 0 <= i < |placed| ==> placed[i] < |fillers| && placed[i] < |chips|
    ensures SavedImages(fillers, chips, placed + [k], frames + [f]) ==
      SavedImages(fillers, chips, placed, frames) + [SavedImage(ImageName(|frames|), Blitted(fillers[k], chips[k], f.rect.y, f.rect.x))]
  {
  }

  /** What holds after the loop has handled the first `k` pairs. */
  predicate Generated(fillers: seq<Grid>, chips: seq<Grid>, k: nat, counter: nat,
                      frames: seq<FrameRecord>, saved: seq<SavedImage>, xml: string)
  {
    var pairs := PairShapes(fillers, chips);
    && k <= |pairs|
    && counter == |frames|
    && Placements(pairs[..k], frames)
    && saved == SavedImages(fillers, chips, FittingPairs(pairs[..k]), frames)
    && xml == Header + FramesText(frames)
  }

  /** One pass of the loop keeps `Generated`, whether the pair was placed or skipped. */
  lemma GeneratedStep(fillers: seq<Grid>, chips: seq<Grid>, k: nat, counter: nat,
                      frames: seq<FrameRecord>, saved: seq<SavedImage>, xml: string,
                      outcome: Option<(FrameRecord, SavedImage)>)
    requires Generated(fillers, chips, k, counter, frames, saved, xml)
    requires k < |fillers| && k < |chips|
    requires PlaceOutcome(fillers[k], chips[k], counter, outcome)
    ensures outcome.None? ==> Generated(fillers, chips, k + 1, counter, frames, saved, xml)
    ensures outcome.Some? ==>
      Generated(fillers, chips, k + 1, counter + 1, frames + [outcome.value.0], saved + [outcome.value.1],
                xml + FrameText(outcome.value.0))
  {
    var pairs := PairShapes(fillers, chips);
    var placed := FittingPairs(pairs[..k]);
    assert forall i :: 0 <= i < |placed| ==> placed[i] < |fillers| && placed[i] < |chips|;
    var f := if outcome.Some? then outcome.value.0 else FrameRecord(0, Rect(0, 0, 0, 0));
    PlacementsStep(pairs, k, frames, f);
    if outcome.Some? {
      assert FittingPairs(pairs[..k + 1]) == placed + [k];
      FramesTextAppend(Header, frames, f);
      SavedImagesStep(fillers, chips, placed, frames, k, f);
    } else {
      assert FittingPairs(pairs[..k + 1]) == placed;
    }
  }

  /** Once every pair is handled, the loop's facts are the generator's promise. */
  lemma GeneratedDone(fillers: seq<Grid>, chips: seq<Grid>, counter: nat, frames: seq<FrameRecord>,
                      saved: seq<SavedImage>, xml: string)
    requires Generated(fillers, chips, Min(|fillers|, |chips|), counter, frames, saved, xml)
    ensures Placements(PairShapes(fillers, chips), frames)
    ensures saved == SavedImages(fillers, chips, FittingPairs(PairShapes(fillers, chips)), frames)
    ensures xml + Footer == XmlDocument(frames)
  {
    var pairs := PairShapes(fillers, chips);
    assert pairs[..|pairs|] == pairs;
  }

  /**
   * The generation loop over `zip(fillers, chips)`. The fillers are the pixels
   * after resizing to the network's input size, the chips as read from disk; each
   * pass works on its own fresh buffers, as the source's `imread`/`resize` give it.
   */
  method GenerateTrainingData(fillers: seq<Grid>, chips: seq<Grid>)
    returns (frames: seq<FrameRecord>, saved: seq<SavedImage>, xml: string)
    requires forall i :: 0 <= i < |fillers| ==> Rectangular(fillers[i])
    requires forall i :: 0 <= i < |chips| ==> Rectangular(chips[i])
    ensures Placements(PairShapes(fillers, chips), frames)
    ensures saved == SavedImages(fillers, chips, FittingPairs(PairShapes(fillers, chips)), frames)
    ensures xml == XmlDocument(frames)
  {
    var n := Min(|fillers|, |chips|);
    assert n <= |fillers| && n <= |chips|;
    frames, saved, xml := [], [], Header;
    var counter := 0;
    for k := 0 to n
      invariant Generated(fillers, chips, k, counter, frames, saved, xml)
    {
      var outcome := PlaceChip(fillers[k], chips[k], counter);
      GeneratedStep(fillers, chips, k, counter, frames, saved, xml, outcome);
      if outcome.Some? {
        var record, image := outcome.value.0, outcome.value.1;
        saved := saved + [image];
        xml := xml + FrameText(record);
        frames := frames + [record];
        counter := counter + 1;
      }
    }
    GeneratedDone(fillers, chips, counter, frames, saved, xml);
    xml := xml + Footer;
  }
}
