/**
 * Annotation decoding and record conversion (parse_activ.py): every `<frame>` of
 * the AcTiV ground-truth files listed for a mode becomes an example (boxes in
 * pixel corners, file name, image format, class label); `create_tf_example` then
 * turns each example into a training record or skips it, and the writer counts
 * what it wrote.
 *
 * The file system is a parameter: `load` gives the frames of an XML file, or
 * `None` when it is not a file; `open` gives the size of an image, or `None` when
 * it cannot be opened. A Python exception that ends the script is an `Err`.
 */
module Decoding {
  import opened PyBuiltins
  import opened XmlTree

  const Modes := ["training", "test"]

  const Channels := ["AljazeeraHD", "Negative", "France24", "RussiyaAl-Yaum", "TunisiaNat1", "France24",
                     "RussiyaAl-Yaum", "TunisiaNat1", "Generated"]

  const TrainingFiles := ["gtraining_Aj.xml", "gtraining_Ne.xml", "gtraining_Fr.xml", "gtraining_Rt.xml",
                          "gtraining_Tn.xml", "gtest_Fr.xml", "gtest_Rt.xml", "gtest_Tn.xml", "gtraining_Ge.xml"]

  const TestingFiles := ["gtest_Aj.xml", "gtest_Ne.xml"]

  /** The exceptions that stop the script. */
  datatype Error =
    | MissingAttribute(name: string)  // KeyError on an element's attributes
    | NotAnInteger(text: string)      // ValueError from int()
    | MissingImageFormat              // KeyError on example['image_format']

  datatype Result<+T> = Ok(value: T) | Err(error: Error)

  /** One `<rectangle>`: its id and its integer attributes. */
  datatype Box = Box(id: string, x: int, width: int, y: int, height: int)

  /** The per-rectangle lists of `frame_attributes`, in document order. */
  datatype Boxes = Boxes(itemIds: seq<string>, xmins: seq<int>, xmaxs: seq<int>, ymins: seq<int>, ymaxs: seq<int>)

  /** The `frame_attributes` dictionary built for one frame. */
  datatype Example = Example(
    source: string, frameNum: string, extension: string, boxes: Boxes, fileName: string,
    imageFormat: Option<string>, pathToImage: string, labelText: string, labelNum: int)

  /** `os.path.join` of two parts, for parts that are not absolute and carry no trailing separator. */
  function Join(a: string, b: string): string { a + "/" + b }

  function ImageDir(root: string, channel: string, mode: string): string
  {
    Join(Join(root, channel), mode + "Files")
  }

  function XmlPath(root: string, channel: string, file: string): string
  {
    Join(Join(root, channel), file)
  }

  /** `element.attrib[key]`. */
  function Attr(a: Attributes, key: string): Result<string>
  {
    if key in a then Ok(a[key]) else Err(MissingAttribute(key))
  }

  /** `int(element.attrib[key])`. */
  function IntAttr(a: Attributes, key: string): Result<int>
  {
    match Attr(a, key)
    case Err(e) => Err(e)
    case Ok(text) =>
      match ParseInt(text)
      case None => Err(NotAnInteger(text))
      case Some(v) => Ok(v)
  }

  /** The attributes of a rectangle, read in the order the loop body reads them: id, x, width, y, height. */
  function DecodeRectangle(a: Attributes): Result<Box>
  {
    match Attr(a, "id")
    case Err(e) => Err(e)
    case Ok(id) =>
      match IntAttr(a, "x")
      case Err(e) => Err(e)
      case Ok(x) =>
        match IntAttr(a, "width")
        case Err(e) => Err(e)
        case Ok(width) =>
          match IntAttr(a, "y")
          case Err(e) => Err(e)
          case Ok(y) =>
            match IntAttr(a, "height")
            case Err(e) => Err(e)
            case Ok(height) => Ok(Box(id, x, width, y, height))
  }

  /** A rectangle the loop body reads without an exception. */
  predicate WellFormedRectangle(a: Attributes)
  {
    && "id" in a && "x" in a && "width" in a && "y" in a && "height" in a
    && ParseInt(a["x"]).Some? && ParseInt(a["width"]).Some?
    && ParseInt(a["y"]).Some? && ParseInt(a["height"]).Some?
  }

  /** The five `append`s of the rectangle loop for one more box. */
  function AppendBox(b: Boxes, box: Box): Boxes
  {
    Boxes(b.itemIds + [box.id], b.xmins + [box.x], b.xmaxs + [box.x + box.width],
          b.ymins + [box.y], b.ymaxs + [box.y + box.height])
  }

  const NoBoxes := Boxes([], [], [], [], [])

  /** The lists after the rectangle loop has run over `rects`, or the first exception. */
  function DecodeRectangles(rects: seq<Attributes>): Result<Boxes>
  {
    if |rects| == 0 then Ok(NoBoxes)
    else
      match DecodeRectangles(rects[..|rects| - 1])
      case Err(e) => Err(e)
      case Ok(b) =>
        match DecodeRectangle(rects[|rects| - 1])
        case Err(e) => Err(e)
        case Ok(box) => Ok(AppendBox(b, box))
  }

  /** The first exception in a prefix is the exception of the whole loop. */
  lemma {:induction false} DecodeRectanglesFirstError(rects: seq<Attributes>, j: nat)
    requires j <= |rects|
    requires DecodeRectangles(rects[..j]).Err?
    ensures DecodeRectangles(rects) == DecodeRectangles(rects[..j])
    decreases |rects| - j
  {
    if j < |rects| {
      var next := rects[..j + 1];
      assert next[..j] == rects[..j];
      DecodeRectanglesFirstError(rects, j + 1);
    } else {
      assert rects[..j] == rects;
    }
  }

  /**
   * The rectangle loop succeeds exactly when every rectangle is well formed, and
   * then holds one entry per rectangle in each list: the id, `x`, `x + width`,
   * `y` and `y + height`.
   */
  lemma {:induction false} DecodedBoxes(rects: seq<Attributes>)
    ensures DecodeRectangles(rects).Ok? <==> forall i :: 0 <= i < |rects| ==> WellFormedRectangle(rects[i])
    ensures DecodeRectangles(rects).Ok? ==>
      var b := DecodeRectangles(rects).value;
      && |b.itemIds| == |b.xmins| == |b.xmaxs| == |b.ymins| == |b.ymaxs| == |rects|
      && forall i :: 0 <= i < |rects| ==> BoxAt(b, i, rects[i])
  {
    if |rects| > 0 {
      var n := |rects| - 1;
      var init := rects[..n];
      DecodedBoxes(init);
      var prev := DecodeRectangles(init);
      var last := DecodeRectangle(rects[n]);
      DecodedRectangle(rects[n]);
      if prev.Ok? && last.Ok? {
        var b := AppendBox(prev.value, last.value);
        assert DecodeRectangles(rects) == Ok(b);
        forall i | 0 <= i < |rects|
          ensures WellFormedRectangle(rects[i]) && BoxAt(b, i, rects[i])
        {
          if i < n {
            assert rects[i] == init[i];
            assert BoxAt(prev.value, i, rects[i]);
          }
        }
      } else if prev.Err? {
        assert DecodeRectangles(rects).Err?;
        var i :| 0 <= i < n && !WellFormedRectangle(init[i]);
        assert rects[i] == init[i];
      } else {
        assert DecodeRectangles(rects).Err?;
      }
    }
  }

  /** Entry `i` of the lists holds the id and corners of rectangle `a`. */
  predicate BoxAt(b: Boxes, i: nat, a: Attributes)
    requires i < |b.itemIds| && i < |b.xmins| && i < |b.xmaxs| && i < |b.ymins| && i < |b.ymaxs|
  {
    && WellFormedRectangle(a)
    && b.itemIds[i] == a["id"]
    && b.xmins[i] == ParseInt(a["x"]).value
    && b.xmaxs[i] == ParseInt(a["x"]).value + ParseInt(a["width"]).value
    && b.ymins[i] == ParseInt(a["y"]).value
    && b.ymaxs[i] == ParseInt(a["y"]).value + ParseInt(a["height"]).value
  }

  /** One rectangle reads without an exception exactly when it is well formed, and then yields its attributes. */
  lemma DecodedRectangle(a: Attributes)
    ensures DecodeRectangle(a).Ok? <==> WellFormedRectangle(a)
    ensures DecodeRectangle(a).Ok? ==>
      DecodeRectangle(a).value == Box(a["id"], ParseInt(a["x"]).value, ParseInt(a["width"]).value,
                                      ParseInt(a["y"]).value, ParseInt(a["height"]).value)
  {
  }

  /** `image_format`: set for the extensions the script knows, absent for any other. */
  function ImageFormat(extension: string): (r: Option<string>)
    ensures r.Some? <==> extension in ["jpg", "jpeg", "png"]
    ensures r.Some? ==> r.value == (if extension == "png" then "png" else "jpeg")
  {
    if extension in ["jpg", "jpeg"] then Some("jpeg")
    else if extension in ["png"] then Some("png")
    else None
  }

  /** The class label of a channel: English text for the negative samples, Arabic otherwise. */
  function Label(channel: string): (string, int)
  {
    if channel == "Negative" then ("english", 2) else ("arabic", 1)
  }

  /** The file name of a frame's image: `<channel>_<source>_frame_<id>.<extension>`. */
  function FileName(channel: string, source: string, frameNum: string, extension: string): string
  {
    channel + "_" + source + "_frame_" + frameNum + "." + extension
  }

  /** The example the loop body builds for one frame of a channel's file, or the exception it raises. */
  function FrameExample(channel: string, mode: string, root: string, frame: Frame): Result<Example>
  {
    if "source" !in frame.attrib then Err(MissingAttribute("source"))
    else if "id" !in frame.attrib then Err(MissingAttribute("id"))
    else
      var source, frameNum := frame.attrib["source"], frame.attrib["id"];
      var extension := if "ext" in frame.attrib then frame.attrib["ext"] else "png";
      match DecodeRectangles(frame.rectangles)
      case Err(e) => Err(e)
      case Ok(boxes) =>
        var (labelText, labelNum) := Label(channel);
        Ok(Example(source, frameNum, extension, boxes, FileName(channel, source, frameNum, extension),
                   ImageFormat(extension), ImageDir(root, channel, mode), labelText, labelNum))
  }

  /** What a decoded frame holds, field by field. */
  lemma FrameExampleFields(channel: string, mode: string, root: string, frame: Frame)
    ensures FrameExample(channel, mode, root, frame).Ok? <==>
      && "source" in frame.attrib && "id" in frame.attrib
      && forall i :: 0 <= i < |frame.rectangles| ==> WellFormedRectangle(frame.rectangles[i])
    ensures FrameExample(channel, mode, root, frame).Ok? ==>
      var ex := FrameExample(channel, mode, root, frame).value;
      && ex.extension == (if "ext" in frame.attrib then frame.attrib["ext"] else "png")
      && ex.fileName == channel + "_" + frame.attrib["source"] + "_frame_" + frame.attrib["id"] + "." + ex.extension
      && (ex.extension in ["jpg", "jpeg"] ==> ex.imageFormat == Some("jpeg"))
      && (ex.extension == "png" ==> ex.imageFormat == Some("png"))
      && (ex.extension !in ["jpg", "jpeg", "png"] ==> ex.imageFormat.None?)
      && (channel == "Negative" ==> ex.labelText == "english" && ex.labelNum == 2)
      && (channel != "Negative" ==> ex.labelText == "arabic" && ex.labelNum == 1)
      && |ex.boxes.itemIds| == |ex.boxes.xmins| == |ex.boxes.xmaxs| == |ex.boxes.ymins| == |ex.boxes.ymaxs|
         == |frame.rectangles|
  {
    DecodedBoxes(frame.rectangles);
  }

  /** The body of `for frame in xml_contents`, with its inner `for rectangle in frame` loop. */
  method DecodeFrame(channel: string, mode: string, root: string, frame: Frame) returns (r: Result<Example>)
    ensures r == FrameExample(channel, mode, root, frame)
  {
    if "source" !in frame.attrib {
      return Err(MissingAttribute("source"));
    }
    var source := frame.attrib["source"];
    if "id" !in frame.attrib {
      return Err(MissingAttribute("id"));
    }
    var frameNum := frame.attrib["id"];
    var extension := if "ext" in frame.attrib then frame.attrib["ext"] else "png";
    var itemIds, xmins, xmaxs, ymins, ymaxs := [], [], [], [], [];
    var rects := frame.rectangles;
    for i := 0 to |rects|
      invariant DecodeRectangles(rects[..i]) == Ok(Boxes(itemIds, xmins, xmaxs, ymins, ymaxs))
    {
      assert rects[..i + 1][..i] == rects[..i];
      var box := DecodeRectangle(rects[i]);
      if box.Err? {
        DecodeRectanglesFirstError(rects, i + 1);
        return Err(box.error);
      }
      itemIds := itemIds + [box.value.id];
      xmins := xmins + [box.value.x];
      xmaxs := xmaxs + [box.value.x + box.value.width];
      ymins := ymins + [box.value.y];
      ymaxs := ymaxs + [box.value.y + box.value.height];
    }
    assert rects[..|rects|] == rects;
    var fileName := channel + "_" + source + "_frame_" + frameNum + "." + extension;
    var imageFormat := None;
    if extension in ["jpg", "jpeg"] {
      imageFormat := Some("jpeg");
    } else if extension in ["png"] {
      imageFormat := Some("png");
    }
    var labelText, labelNum := "arabic", 1;
    if channel == "Negative" {
      labelText, labelNum := "english", 2;
    }
    return Ok(Example(source, frameNum, extension, Boxes(itemIds, xmins, xmaxs, ymins, ymaxs), fileName,
                      imageFormat, ImageDir(root, channel, mode), labelText, labelNum));
  }

  /** The examples of one file's frames, in document order, or the first exception. */
  function FileExamples(channel: string, mode: string, root: string, frames: seq<Frame>): Result<seq<Example>>
  {
    if |frames| == 0 then Ok([])
    else
      match FileExamples(channel, mode, root, frames[..|frames| - 1])
      case Err(e) => Err(e)
      case Ok(exs) =>
        match FrameExample(channel, mode, root, frames[|frames| - 1])
        case Err(e) => Err(e)
        case Ok(ex) => Ok(exs + [ex])
  }

  lemma {:induction false} FileExamplesFirstError(channel: string, mode: string, root: string,
                                                  frames: seq<Frame>, j: nat)
    requires j <= |frames|
    requires FileExamples(channel, mode, root, frames[..j]).Err?
    ensures FileExamples(channel, mode, root, frames) == FileExamples(channel, mode, root, frames[..j])
    decreases |frames| - j
  {
    if j < |frames| {
      assert frames[..j + 1][..j] == frames[..j];
      FileExamplesFirstError(channel, mode, root, frames, j + 1);
    } else {
      assert frames[..j] == frames;
    }
  }

  /** A file decodes without an exception exactly when every frame does. */
  lemma {:induction false} FileExamplesOk(channel: string, mode: string, root: string, frames: seq<Frame>)
    ensures FileExamples(channel, mode, root, frames).Ok? <==>
      forall j :: 0 <= j < |frames| ==> FrameExample(channel, mode, root, frames[j]).Ok?
  {
    if |frames| > 0 {
      var n := |frames| - 1;
      var init := frames[..n];
      FileExamplesOk(channel, mode, root, init);
      var prev := FileExamples(channel, mode, root, init);
      var last := FrameExample(channel, mode, root, frames[n]);
      if prev.Err? {
        assert FileExamples(channel, mode, root, frames).Err?;
        var j :| 0 <= j < n && !FrameExample(channel, mode, root, init[j]).Ok?;
        assert frames[j] == init[j];
      } else if last.Err? {
        assert FileExamples(channel, mode, root, frames).Err?;
      } else {
        assert FileExamples(channel, mode, root, frames).Ok?;
        forall j | 0 <= j < |frames|
          ensures FrameExample(channel, mode, root, frames[j]).Ok?
        {
          if j < n {
            assert frames[j] == init[j];
          }
        }
      }
    }
  }

  /** A decoded file holds one example per frame, the j-th from the j-th frame. */
  lemma {:induction false} FileExamplesAt(channel: string, mode: string, root: string, frames: seq<Frame>)
    requires FileExamples(channel, mode, root, frames).Ok?
    ensures var exs := FileExamples(channel, mode, root, frames).value;
      |exs| == |frames| && forall j :: 0 <= j < |frames| ==> FrameExample(channel, mode, root, frames[j]) == Ok(exs[j])
  {
    if |frames| > 0 {
      var n := |frames| - 1;
      var init := frames[..n];
      var prev := FileExamples(channel, mode, root, init);
      var last := FrameExample(channel, mode, root, frames[n]);
      assert prev.Ok? && last.Ok?;
      FileExamplesAt(channel, mode, root, init);
      var exs := prev.value + [last.value];
      assert FileExamples(channel, mode, root, frames) == Ok(exs);
      forall j | 0 <= j < |frames|
        ensures FrameExample(channel, mode, root, frames[j]) == Ok(exs[j])
      {
        if j < n {
          assert frames[j] == init[j];
        }
      }
    }
  }

  /** `for frame in xml_contents`: decode every frame of one file, appending in document order. */
  method DecodeFile(channel: string, mode: string, root: string, frames: seq<Frame>) returns (r: Result<seq<Example>>)
    ensures r == FileExamples(channel, mode, root, frames)
  {
    var examples := [];
    for j := 0 to |frames|
      invariant FileExamples(channel, mode, root, frames[..j]) == Ok(examples)
    {
      assert frames[..j + 1][..j] == frames[..j];
      var example := DecodeFrame(channel, mode, root, frames[j]);
      if example.Err? {
        FileExamplesFirstError(channel, mode, root, frames, j + 1);
        return Err(example.error);
      }
      examples := examples + [example.value];
    }
    assert frames[..|frames|] == frames;
    return Ok(examples);
  }

  function FilesFor(mode: string): seq<string>
  {
    if mode == "training" then TrainingFiles else TestingFiles
  }

  /** The examples of the (channel, file) pairs, file after file, skipping files that do not exist. */
  function ModeExamples(mode: string, root: string, pairs: seq<(string, string)>,
                        load: string -> Option<seq<Frame>>): Result<seq<Example>>
  {
    if |pairs| == 0 then Ok([])
    else
      match ModeExamples(mode, root, pairs[..|pairs| - 1], load)
      case Err(e) => Err(e)
      case Ok(exs) => AddFile(mode, root, pairs[|pairs| - 1], load, exs)
  }

  /** One pass of the loop over the pairs: the examples so far, followed by those of the pair's file if it exists. */
  function AddFile(mode: string, root: string, pair: (string, string), load: string -> Option<seq<Frame>>,
                   exs: seq<Example>): Result<seq<Example>>
  {
    match load(XmlPath(root, pair.0, pair.1))
    case None => Ok(exs)
    case Some(frames) =>
      match FileExamples(pair.0, mode, root, frames)
      case Err(e) => Err(e)
      case Ok(more) => Ok(exs + more)
  }

  lemma {:induction false} ModeExamplesFirstError(mode: string, root: string, pairs: seq<(string, string)>,
                                                  load: string -> Option<seq<Frame>>, j: nat)
    requires j <= |pairs|
    requires ModeExamples(mode, root, pairs[..j], load).Err?
    ensures ModeExamples(mode, root, pairs, load) == ModeExamples(mode, root, pairs[..j], load)
    decreases |pairs| - j
  {
    if j < |pairs| {
      assert pairs[..j + 1][..j] == pairs[..j];
      ModeExamplesFirstError(mode, root, pairs, load, j + 1);
    } else {
      assert pairs[..j] == pairs;
    }
  }

  /** The examples one (channel, file) pair adds: none for a missing file, else those of its frames. */
  function Contributed(mode: string, root: string, pair: (string, string), load: string -> Option<seq<Frame>>)
    : seq<Example>
  {
    match load(XmlPath(root, pair.0, pair.1))
    case None => []
    case Some(frames) =>
      match FileExamples(pair.0, mode, root, frames)
      case Err(_) => []
      case Ok(exs) => exs
  }

  /** The lists of `ss`, joined in order. */
  function Flatten<T>(ss: seq<seq<T>>): seq<T>
  {
    if |ss| == 0 then [] else Flatten(ss[..|ss| - 1]) + ss[|ss| - 1]
  }

  /** A mode's pass raises exactly when some file that exists raises. */
  lemma {:induction false} ModeExamplesOk(mode: string, root: string, pairs: seq<(string, string)>,
                                          load: string -> Option<seq<Frame>>)
    ensures ModeExamples(mode, root, pairs, load).Ok? <==>
      forall j :: 0 <= j < |pairs| && load(XmlPath(root, pairs[j].0, pairs[j].1)).Some? ==>
        FileExamples(pairs[j].0, mode, root, load(XmlPath(root, pairs[j].0, pairs[j].1)).value).Ok?
  {
    if |pairs| > 0 {
      var n := |pairs| - 1;
      var init := pairs[..n];
      ModeExamplesOk(mode, root, init, load);
      assert forall j :: 0 <= j < n ==> init[j] == pairs[j];
    }
  }

  /**
   * Otherwise its examples are those of each pair's file joined in pair order,
   * a missing file adding none.
   */
  lemma {:induction false} ModeExamplesValue(mode: string, root: string, pairs: seq<(string, string)>,
                                             load: string -> Option<seq<Frame>>)
    requires ModeExamples(mode, root, pairs, load).Ok?
    ensures ModeExamples(mode, root, pairs, load).value ==
      Flatten(seq(|pairs|, j requires 0 <= j < |pairs| => Contributed(mode, root, pairs[j], load)))
  {
    if |pairs| > 0 {
      var n := |pairs| - 1;
      var init := pairs[..n];
      var prev := ModeExamples(mode, root, init, load);
      assert prev.Ok?;
      ModeExamplesValue(mode, root, init, load);
      var all := seq(|pairs|, j requires 0 <= j < |pairs| => Contributed(mode, root, pairs[j], load));
      assert all[..n] == seq(|init|, j requires 0 <= j < |init| => Contributed(mode, root, init[j], load));
      assert ModeExamples(mode, root, pairs, load).value == prev.value + Contributed(mode, root, pairs[n], load);
    }
  }

  /** The nine pairs the training pass walks, in order. */
  lemma TrainingPairs()
    ensures Zip(Channels, FilesFor("training")) ==
      [("AljazeeraHD", "gtraining_Aj.xml"), ("Negative", "gtraining_Ne.xml"), ("France24", "gtraining_Fr.xml"),
       ("RussiyaAl-Yaum", "gtraining_Rt.xml"), ("TunisiaNat1", "gtraining_Tn.xml"), ("France24", "gtest_Fr.xml"),
       ("RussiyaAl-Yaum", "gtest_Rt.xml"), ("TunisiaNat1", "gtest_Tn.xml"), ("Generated", "gtraining_Ge.xml")]
  {
    ZipSameLength(Channels, TrainingFiles);
  }

  /** Lists of equal length are paired element by element. */
  lemma ZipSameLength<A, B>(xs: seq<A>, ys: seq<B>)
    requires |xs| == |ys|
    ensures Zip(xs, ys) == seq(|xs|, i requires 0 <= i < |xs| => (xs[i], ys[i]))
  {
  }

  /** The test pass walks only the first two channels: `zip` stops at the two test files. */
  lemma TestPairs()
    ensures Zip(Channels, FilesFor("test")) == [("AljazeeraHD", "gtest_Aj.xml"), ("Negative", "gtest_Ne.xml")]
  {
    assert |Zip(Channels, TestingFiles)| == 2;
  }

  /** The loop over `zip(channels, files)` for one mode, collecting the examples of every file found. */
  method CollectExamples(mode: string, root: string, load: string -> Option<seq<Frame>>)
    returns (r: Result<seq<Example>>)
    ensures r == ModeExamples(mode, root, Zip(Channels, FilesFor(mode)), load)
  {
    var files := if mode == "training" then TrainingFiles else TestingFiles;
    r := CollectPairs(mode, root, Zip(Channels, files), load);
  }

  /** The body of that loop, over any list of (channel, file) pairs. */
  method CollectPairs(mode: string, root: string, pairs: seq<(string, string)>, load: string -> Option<seq<Frame>>)
    returns (r: Result<seq<Example>>)
    ensures r == ModeExamples(mode, root, pairs, load)
  {
    var examples := [];
    for p := 0 to |pairs|
      invariant ModeExamples(mode, root, pairs[..p], load) == Ok(examples)
    {
      assert pairs[..p + 1][..p] == pairs[..p];
      assert ModeExamples(mode, root, pairs[..p + 1], load) == AddFile(mode, root, pairs[p], load, examples);
      var channel, file := pairs[p].0, pairs[p].1;
      var frames := load(XmlPath(root, channel, file));
      if frames.None? {
        continue;
      }
      var decoded := DecodeFile(channel, mode, root, frames.value);
      if decoded.Err? {
        ModeExamplesFirstError(mode, root, pairs, load, p + 1);
        return Err(decoded.error);
      }
      examples := examples + decoded.value;
    }
    assert pairs[..|pairs|] == pairs;
    return Ok(examples);
  }

  /** The configuration constants `INPUT_HEIGHT`, `INPUT_WIDTH` and `ONE_IMAGE_SIZE`. */
  datatype Config = Config(inputHeight: int, inputWidth: int, oneImageSize: bool)

  /** The size PIL reports for an opened image. */
  datatype ImageSize = ImageSize(width: nat, height: nat)

  datatype Codec = Jpeg | Png

  /**
   * The fields of the `tf.train.Example` built for one example. The boxes are the
   * pixel corners the normalised coordinates are computed from, and `size` the
   * size of the image they are divided by.
   */
  datatype TfRecord = TfRecord(
    filename: string, sourceId: string, size: ImageSize, resized: bool, encoding: Codec, format: string,
    boxes: Boxes, classesText: seq<string>, classes: seq<int>)

  /** The rule that drops an image of the wrong size, except in test mode. */
  predicate SizeSkipped(mode: string, cfg: Config, size: ImageSize)
  {
    mode != "test" && cfg.oneImageSize && (size.height != cfg.inputHeight || size.width != cfg.inputWidth)
  }

  /** The trigger of the resize to a width of 1000. */
  predicate NeedsResize(size: ImageSize)
  {
    size.width > 1000 || size.height > 1000
  }

  /** The codec the image bytes are saved with, as the script chooses it: JPEG only for `jpg`. */
  function EncodingAsWritten(extension: string): Codec
  {
    if extension == "jpg" then Jpeg else Png
  }

  /** The codec that agrees with `image_format`: JPEG for `jpg` and `jpeg`. */
  function Encoding(extension: string): Codec
  {
    if extension in ["jpg", "jpeg"] then Jpeg else Png
  }

  function CodecName(c: Codec): string
  {
    match c
    case Jpeg => "jpeg"
    case Png => "png"
  }

  /** For the one extension the two choices disagree on, the record claims JPEG but holds PNG bytes. */
  lemma JpegExtensionEncodedAsPng()
    ensures ImageFormat("jpeg") == Some("jpeg")
    ensures CodecName(EncodingAsWritten("jpeg")) == "png"
  {
  }

  /** With the corrected choice, the bytes are always in the format the record names. */
  lemma EncodingAgreesWithFormat(extension: string)
    ensures ImageFormat(extension).Some? ==> CodecName(Encoding(extension)) == ImageFormat(extension).value
  {
  }

  /**
   * `create_tf_example`: `image` is the size of the opened image, or `None` when it
   * cannot be opened. `Ok(None)` is the `None` the function returns.
   */
  function CreateTfExample(ex: Example, mode: string, cfg: Config, image: Option<ImageSize>): (r: Result<Option<TfRecord>>)
    ensures r == Ok(None) <==> image.None? || SizeSkipped(mode, cfg, image.value)
    ensures r.Err? <==> image.Some? && !SizeSkipped(mode, cfg, image.value) && ex.imageFormat.None?
    ensures r.Ok? && r.value.Some? ==>
      var t := r.value.value;
      && t.filename == ex.fileName && t.sourceId == ex.fileName
      && t.size == image.value && t.resized == NeedsResize(image.value)
      && t.format == ex.imageFormat.value && t.encoding == Encoding(ex.extension)
      && t.boxes == ex.boxes
      && |t.classesText| == |t.classes| == |ex.boxes.xmins|
      && forall i :: 0 <= i < |t.classesText| ==> t.classesText[i] == ex.labelText && t.classes[i] == ex.labelNum
  {
    match image
    case None => Ok(None)
    case Some(size) =>
      if SizeSkipped(mode, cfg, size) then Ok(None)
      else
        match ex.imageFormat
        case None => Err(MissingImageFormat)
        case Some(format) =>
          Ok(Some(TfRecord(ex.fileName, ex.fileName, size, NeedsResize(size), Encoding(ex.extension), format,
                           ex.boxes, seq(|ex.boxes.xmins|, _ => ex.labelText),
                           seq(|ex.boxes.xmins|, _ => ex.labelNum))))
  }

  function ImagePath(ex: Example): string
  {
    Join(ex.pathToImage, ex.fileName)
  }

  /** The conversion of one example, with the file system giving the image. */
  function Convert(ex: Example, mode: string, cfg: Config, open: string -> Option<ImageSize>): Result<Option<TfRecord>>
  {
    CreateTfExample(ex, mode, cfg, open(ImagePath(ex)))
  }

  /** The records written for `examples`, in order, or the first exception. */
  function Converted(mode: string, cfg: Config, open: string -> Option<ImageSize>, examples: seq<Example>)
    : Result<seq<TfRecord>>
  {
    if |examples| == 0 then Ok([])
    else
      match Converted(mode, cfg, open, examples[..|examples| - 1])
      case Err(e) => Err(e)
      case Ok(recs) =>
        match Convert(examples[|examples| - 1], mode, cfg, open)
        case Err(e) => Err(e)
        case Ok(None) => Ok(recs)
        case Ok(Some(t)) => Ok(recs + [t])
  }

  /** How many of `examples` convert to a record. */
  function ConvertibleCount(mode: string, cfg: Config, open: string -> Option<ImageSize>, examples: seq<Example>): nat
  {
    if |examples| == 0 then 0
    else
      ConvertibleCount(mode, cfg, open, examples[..|examples| - 1])
      + (if Convert(examples[|examples| - 1], mode, cfg, open).Ok?
            && Convert(examples[|examples| - 1], mode, cfg, open).value.Some? then 1 else 0)
  }

  /** The writer raises exactly when some example raises. */
  lemma {:induction false} ConvertedOk(mode: string, cfg: Config, open: string -> Option<ImageSize>,
                                       examples: seq<Example>)
    ensures Converted(mode, cfg, open, examples).Ok? <==>
      forall i :: 0 <= i < |examples| ==> Convert(examples[i], mode, cfg, open).Ok?
  {
    if |examples| > 0 {
      var n := |examples| - 1;
      var init := examples[..n];
      ConvertedOk(mode, cfg, open, init);
      if Converted(mode, cfg, open, init).Err? {
        var i :| 0 <= i < n && !Convert(init[i], mode, cfg, open).Ok?;
        assert examples[i] == init[i];
      } else {
        assert forall i :: 0 <= i < n ==> init[i] == examples[i];
      }
    }
  }

  /**
   * Otherwise it writes one record per example that converts, so never more than
   * there are examples, and all of them exactly when none is skipped.
   */
  lemma {:induction false} ConvertedCount(mode: string, cfg: Config, open: string -> Option<ImageSize>,
                                          examples: seq<Example>)
    requires Converted(mode, cfg, open, examples).Ok?
    ensures |Converted(mode, cfg, open, examples).value| == ConvertibleCount(mode, cfg, open, examples) <= |examples|
    ensures ConvertibleCount(mode, cfg, open, examples) == |examples| <==>
      forall i :: 0 <= i < |examples| ==> Convert(examples[i], mode, cfg, open) != Ok(None)
  {
    ConvertedOk(mode, cfg, open, examples);
    if |examples| > 0 {
      var n := |examples| - 1;
      var init := examples[..n];
      assert Converted(mode, cfg, open, init).Ok?;
      ConvertedCount(mode, cfg, open, init);
      assert forall i :: 0 <= i < n ==> init[i] == examples[i];
      if ConvertibleCount(mode, cfg, open, init) < n {
        var i :| 0 <= i < n && Convert(init[i], mode, cfg, open) == Ok(None);
        assert examples[i] == init[i];
      }
    }
  }

  lemma {:induction false} ConvertedFirstError(mode: string, cfg: Config, open: string -> Option<ImageSize>,
                                               examples: seq<Example>, j: nat)
    requires j <= |examples|
    requires Converted(mode, cfg, open, examples[..j]).Err?
    ensures Converted(mode, cfg, open, examples) == Converted(mode, cfg, open, examples[..j])
    decreases |examples| - j
  {
    if j < |examples| {
      assert examples[..j + 1][..j] == examples[..j];
      ConvertedFirstError(mode, cfg, open, examples, j + 1);
    } else {
      assert examples[..j] == examples;
    }
  }

  /**
   * The write loop: converts every example, writes the records that are not `None`
   * and counts them; `total` is `len(examples)`.
   */
  method WriteRecords(mode: string, cfg: Config, open: string -> Option<ImageSize>, examples: seq<Example>)
    returns (r: Result<seq<TfRecord>>, count: nat, total: nat)
    ensures r == Converted(mode, cfg, open, examples)
    ensures r.Ok? ==> count == |r.value| == ConvertibleCount(mode, cfg, open, examples) && count <= total
    ensures total == |examples|
  {
    count := 0;
    total := |examples|;
    var written := [];
    for i := 0 to |examples|
      invariant Converted(mode, cfg, open, examples[..i]) == Ok(written)
      invariant count == |written|
    {
      assert examples[..i + 1][..i] == examples[..i];
      var record := CreateTfExample(examples[i], mode, cfg, open(ImagePath(examples[i])));
      if record.Err? {
        ConvertedFirstError(mode, cfg, open, examples, i + 1);
        return Err(record.error), count, total;
      }
      if record.value.Some? {
        written := written + [record.value.value];
        count := count + 1;
      }
    }
    assert examples[..|examples|] == examples;
    ConvertedCount(mode, cfg, open, examples);
    r := Ok(written);
  }

  /** The records of one mode's `.tfrecord` file, or the exception that ends the script. */
  function ModeRecords(mode: string, root: string, cfg: Config, load: string -> Option<seq<Frame>>,
                       open: string -> Option<ImageSize>): Result<seq<TfRecord>>
  {
    match ModeExamples(mode, root, Zip(Channels, FilesFor(mode)), load)
    case Err(e) => Err(e)
    case Ok(exs) => Converted(mode, cfg, open, exs)
  }

  /** The records of the files of `modes`, in order, or the first exception. */
  function DatasetRecords(modes: seq<string>, root: string, cfg: Config, load: string -> Option<seq<Frame>>,
                          open: string -> Option<ImageSize>): Result<seq<seq<TfRecord>>>
  {
    if |modes| == 0 then Ok([])
    else
      match DatasetRecords(modes[..|modes| - 1], root, cfg, load, open)
      case Err(e) => Err(e)
      case Ok(files) =>
        match ModeRecords(modes[|modes| - 1], root, cfg, load, open)
        case Err(e) => Err(e)
        case Ok(records) => Ok(files + [records])
  }

  lemma {:induction false} DatasetRecordsFirstError(modes: seq<string>, root: string, cfg: Config,
                                                    load: string -> Option<seq<Frame>>,
                                                    open: string -> Option<ImageSize>, j: nat)
    requires j <= |modes|
    requires DatasetRecords(modes[..j], root, cfg, load, open).Err?
    ensures DatasetRecords(modes, root, cfg, load, open) == DatasetRecords(modes[..j], root, cfg, load, open)
    decreases |modes| - j
  {
    if j < |modes| {
      assert modes[..j + 1][..j] == modes[..j];
      DatasetRecordsFirstError(modes, root, cfg, load, open, j + 1);
    } else {
      assert modes[..j] == modes;
    }
  }

  /**
   * The run produces the training file and then the test file, and fails exactly
   * when either pass raises.
   */
  lemma DatasetFiles(root: string, cfg: Config, load: string -> Option<seq<Frame>>, open: string -> Option<ImageSize>)
    ensures DatasetRecords(Modes, root, cfg, load, open).Err? <==>
      ModeRecords("training", root, cfg, load, open).Err? || ModeRecords("test", root, cfg, load, open).Err?
    ensures DatasetRecords(Modes, root, cfg, load, open).Ok? ==>
      DatasetRecords(Modes, root, cfg, load, open).value ==
        [ModeRecords("training", root, cfg, load, open).value, ModeRecords("test", root, cfg, load, open).value]
  {
    DatasetRecordsOfTwo("training", "test", root, cfg, load, open);
  }

  lemma DatasetRecordsOfTwo(a: string, b: string, root: string, cfg: Config, load: string -> Option<seq<Frame>>,
                            open: string -> Option<ImageSize>)
    ensures DatasetRecords([a, b], root, cfg, load, open).Err? <==>
      ModeRecords(a, root, cfg, load, open).Err? || ModeRecords(b, root, cfg, load, open).Err?
    ensures DatasetRecords([a, b], root, cfg, load, open).Ok? ==>
      DatasetRecords([a, b], root, cfg, load, open).value ==
        [ModeRecords(a, root, cfg, load, open).value, ModeRecords(b, root, cfg, load, open).value]
  {
    var first := ModeRecords(a, root, cfg, load, open);
    var second := ModeRecords(b, root, cfg, load, open);
    assert [a][..0] == [];
    assert DatasetRecords([], root, cfg, load, open) == Ok([]);
    if first.Ok? {
      assert [] + [first.value] == [first.value];
    }
    var one := DatasetRecords([a], root, cfg, load, open);
    assert one == if first.Err? then Err(first.error) else Ok([first.value]);
    assert [a, b][..1] == [a];
    assert DatasetRecords([a, b], root, cfg, load, open)
        == if one.Err? then one else if second.Err? then Err(second.error) else Ok(one.value + [second.value]);
  }

  /** `main`: for each mode in turn, collect the examples and write their records to the mode's file. */
  method ConvertDataset(root: string, cfg: Config, load: string -> Option<seq<Frame>>,
                        open: string -> Option<ImageSize>) returns (r: Result<seq<seq<TfRecord>>>)
    ensures r == DatasetRecords(Modes, root, cfg, load, open)
  {
    r := ConvertModes(Modes, root, cfg, load, open);
  }

  /** The loop of `main` over a list of modes. */
  method ConvertModes(modes: seq<string>, root: string, cfg: Config, load: string -> Option<seq<Frame>>,
                      open: string -> Option<ImageSize>) returns (r: Result<seq<seq<TfRecord>>>)
    ensures r == DatasetRecords(modes, root, cfg, load, open)
  {
    var files := [];
    for m := 0 to |modes|
      invariant DatasetRecords(modes[..m], root, cfg, load, open) == Ok(files)
    {
      assert modes[..m + 1][..m] == modes[..m];
      var mode := modes[m];
      var examples := CollectExamples(mode, root, load);
      if examples.Err? {
        DatasetRecordsFirstError(modes, root, cfg, load, open, m + 1);
        return Err(examples.error);
      }
      var records, count, total := WriteRecords(mode, cfg, open, examples.value);
      if records.Err? {
        DatasetRecordsFirstError(modes, root, cfg, load, open, m + 1);
        return Err(records.error);
      }
      files := files + [records.value];
    }
    assert modes[..|modes|] == modes;
    return Ok(files);
  }
}
