/**
 * The generator and the parser meet in `gtraining_Ge.xml`: the records
 * `generate_training_data` writes are read back by `parse_activ.py` under the
 * channel `Generated`. These lemmas state that the parser recovers every box the
 * generator placed, and names the image the generator saved for it.
 */
module RoundTrip {
  import opened PyBuiltins
  import opened XmlTree
  import opened Placement
  import opened Decoding

  /** The example the parser builds for one emitted record. */
  function GeneratedExample(rec: FrameRecord, mode: string, root: string): Example
  {
    var r := rec.rect;
    Example("vd00", NatToString(rec.id), "png",
            Boxes(["1"], [r.x], [r.x + r.width], [r.y], [r.y + r.height]),
            ImageName(rec.id), Some("png"), ImageDir(root, "Generated", mode), "arabic", 1)
  }

  /**
   * One emitted record decodes without an exception, to the box the generator
   * placed (`xmin = x`, `xmax = x + width`, `ymin = y`, `ymax = y + height`), under
   * the file name the generator saved the image as, in PNG with the Arabic label.
   */
  lemma RecordDecodes(rec: FrameRecord, mode: string, root: string)
    ensures FrameExample("Generated", mode, root, FrameElement(rec)) == Ok(GeneratedExample(rec, mode, root))
  {
    RectangleDecodes(rec);
    FileNameOfImage(rec.id);
  }

  /** The `<rectangle>` of a record reads back as the generator's height, width, y and x. */
  lemma RectangleDecodes(rec: FrameRecord)
    ensures var r := rec.rect;
      DecodeRectangles(FrameElement(rec).rectangles) == Ok(Boxes(["1"], [r.x], [r.x + r.width], [r.y], [r.y + r.height]))
  {
    var r := rec.rect;
    ParseIntOfNatToString(r.height);
    ParseIntOfNatToString(r.width);
    ParseIntOfNatToString(r.y);
    ParseIntOfNatToString(r.x);
    var a := FrameElement(rec).rectangles[0];
    assert a["id"] == "1" && a["x"] == NatToString(r.x) && a["width"] == NatToString(r.width);
    assert a["y"] == NatToString(r.y) && a["height"] == NatToString(r.height);
    SingleRectangle(a);
  }

  /** A frame with one well-formed rectangle decodes to one box. */
  lemma SingleRectangle(a: Attributes)
    requires WellFormedRectangle(a)
    ensures var x, y := ParseInt(a["x"]).value, ParseInt(a["y"]).value;
      DecodeRectangles([a]) ==
        Ok(Boxes([a["id"]], [x], [x + ParseInt(a["width"]).value], [y], [y + ParseInt(a["height"]).value]))
  {
    DecodedRectangle(a);
    var box := DecodeRectangle(a).value;
    assert [a][..0] == [];
    assert DecodeRectangles([a][..0]) == Ok(NoBoxes);
    assert AppendBox(NoBoxes, box) == Boxes([box.id], [box.x], [box.x + box.width], [box.y], [box.y + box.height]);
  }

  /** The parser's file name for a record is the name the generator saved its image under. */
  lemma FileNameOfImage(id: nat)
    ensures FileName("Generated", "vd00", NatToString(id), "png") == ImageName(id)
  {
  }

  /**
   * In training mode the parser opens the image of a generated frame where the
   * generator saved it: `Generated/trainingFiles` under the frame's image name.
   */
  lemma GeneratedImagePath(rec: FrameRecord, root: string)
    ensures ImagePath(GeneratedExample(rec, "training", root))
      == Join(Join(Join(root, "Generated"), "trainingFiles"), ImageName(rec.id))
  {
  }

  /**
   * The whole file the generator writes decodes to one example per record, in
   * order, each with its record's box and image name.
   */
  lemma FileDecodes(frames: seq<FrameRecord>, mode: string, root: string)
    ensures FileExamples("Generated", mode, root, FrameElements(frames)).Ok?
    ensures var exs := FileExamples("Generated", mode, root, FrameElements(frames)).value;
      |exs| == |frames| && forall i :: 0 <= i < |frames| ==> exs[i] == GeneratedExample(frames[i], mode, root)
  {
    var elements := FrameElements(frames);
    forall j | 0 <= j < |elements|
      ensures FrameExample("Generated", mode, root, elements[j]) == Ok(GeneratedExample(frames[j], mode, root))
    {
      RecordDecodes(frames[j], mode, root);
    }
    FileExamplesOk("Generated", mode, root, elements);
    FileExamplesAt("Generated", mode, root, elements);
  }

  /**
   * What the parser reads back for a chip pasted into a filler: one box, exactly
   * the chip's size, strictly inside the filler, for the image saved as `name`.
   */
  predicate DecodesPlacement(ex: Example, filler: Grid, chip: Grid, name: string)
  {
    var b := ex.boxes;
    && ex.fileName == name
    && |b.xmins| == |b.xmaxs| == |b.ymins| == |b.ymaxs| == 1
    && b.xmaxs[0] - b.xmins[0] == GridShape(chip).cols
    && b.ymaxs[0] - b.ymins[0] == GridShape(chip).rows
    && 0 <= b.xmins[0] && b.xmaxs[0] < GridShape(filler).cols
    && 0 <= b.ymins[0] && b.ymaxs[0] < GridShape(filler).rows
  }

  /** A record drawn for a filler and chip decodes to that placement. */
  lemma PlacedExample(rec: FrameRecord, filler: Grid, chip: Grid, mode: string, root: string)
    requires PlacedFor((GridShape(filler), GridShape(chip)), rec.id, rec)
    ensures DecodesPlacement(GeneratedExample(rec, mode, root), filler, chip, ImageName(rec.id))
  {
  }

  /**
   * A whole run of the generator, read back by the parser: the i-th example is the
   * i-th placed chip. Its box is exactly the chip's size, lies strictly inside the
   * filler it was pasted into, and its file name is that of the i-th saved image.
   */
  lemma GeneratedRunDecodes(fillers: seq<Grid>, chips: seq<Grid>, frames: seq<FrameRecord>, saved: seq<SavedImage>,
                            mode: string, root: string)
    requires Placements(PairShapes(fillers, chips), frames)
    requires saved == SavedImages(fillers, chips, FittingPairs(PairShapes(fillers, chips)), frames)
    ensures FileExamples("Generated", mode, root, FrameElements(frames)).Ok?
    ensures var exs := FileExamples("Generated", mode, root, FrameElements(frames)).value;
      && |exs| == |frames| == |saved|
      && forall i :: 0 <= i < |exs| ==>
        var k := FittingPairs(PairShapes(fillers, chips))[i];
        && k < |fillers| && k < |chips|
        && DecodesPlacement(exs[i], fillers[k], chips[k], saved[i].name)
  {
    FileDecodes(frames, mode, root);
    PlacedChips(fillers, chips, frames);
    var placed := FittingPairs(PairShapes(fillers, chips));
    PlacementsDecode(fillers, chips, placed, frames, mode, root);
    var exs := FileExamples("Generated", mode, root, FrameElements(frames)).value;
    forall i | 0 <= i < |exs|
      ensures DecodesPlacement(exs[i], fillers[placed[i]], chips[placed[i]], saved[i].name)
    {
      assert exs[i] == GeneratedExample(frames[i], mode, root);
    }
  }

  /** Every record of the run, decoded, is the placement it was drawn for. */
  lemma PlacementsDecode(fillers: seq<Grid>, chips: seq<Grid>, placed: seq<nat>, frames: seq<FrameRecord>,
                         mode: string, root: string)
    requires |placed| == |frames|
    requires forall i :: 0 <= i < |frames| ==>
      && placed[i] < |fillers| && placed[i] < |chips|
      && PlacedFor((GridShape(fillers[placed[i]]), GridShape(chips[placed[i]])), i, frames[i])
    ensures forall i :: 0 <= i < |frames| ==>
      DecodesPlacement(GeneratedExample(frames[i], mode, root), fillers[placed[i]], chips[placed[i]], ImageName(i))
  {
    forall i | 0 <= i < |frames|
      ensures DecodesPlacement(GeneratedExample(frames[i], mode, root), fillers[placed[i]], chips[placed[i]], ImageName(i))
    {
      PlacedExample(frames[i], fillers[placed[i]], chips[placed[i]], mode, root);
    }
  }

  /** The i-th record was drawn for the i-th placed pair, against that filler's and chip's shapes. */
  lemma PlacedChips(fillers: seq<Grid>, chips: seq<Grid>, frames: seq<FrameRecord>)
    requires Placements(PairShapes(fillers, chips), frames)
    ensures var placed := FittingPairs(PairShapes(fillers, chips));
      && |placed| == |frames|
      && forall i :: 0 <= i < |frames| ==>
        && placed[i] < |fillers| && placed[i] < |chips|
        && PlacedFor((GridShape(fillers[placed[i]]), GridShape(chips[placed[i]])), i, frames[i])
  {
    var pairs := PairShapes(fillers, chips);
    var placed := FittingPairs(pairs);
    forall i | 0 <= i < |frames|
      ensures placed[i] < |fillers| && placed[i] < |chips|
      ensures PlacedFor((GridShape(fillers[placed[i]]), GridShape(chips[placed[i]])), i, frames[i])
    {
      var k := placed[i];
      assert k < |pairs|;
      assert pairs[k] == (GridShape(fillers[k]), GridShape(chips[k]));
    }
  }
}
