# scimitar dataset preparation, modelled in Dafny

This project models the deterministic core of the scripts that prepare the
AcTiV Arabic-text dataset for training a text detector:

- **Ticker redaction** (`redact_ticker`, module `Redaction`). France24 frames of
  720×576 and AljazeeraHD frames of 1920×1080 have a fixed band painted black in
  place. Every other pixel, and every frame of any other size, is left alone.
- **Synthetic training data** (`generate_training_data`, module `Placement`).
  Resized filler images and Arabic text chips are paired with `zip`. A pair is
  skipped when either range of legal top-left corners is empty, and then takes
  no frame id. Otherwise one corner is drawn, the chip is pasted into the
  filler, the image is saved as `Generated_vd00_frame_<id>.png`, and a
  `<frame>`/`<rectangle>` record is appended to `gtraining_Ge.xml`.
- **Annotation decoding and record conversion** (`parse_activ.py`, module
  `Decoding`). Each `<frame>` of the ground-truth files listed for a mode
  becomes an example: pixel box corners, extension (default `png`), file name,
  image format and class label. `create_tf_example` turns an example into a
  training record or skips it. The writer counts the records it writes.
- **The round trip between the two scripts** (module `RoundTrip`). The parser,
  reading the generator's records under channel `Generated`, recovers every
  placed box and the name of the image the generator saved for it.

The code places exactly one chip per filler, with no occupancy check and no
retry; the model follows it. `random.choice` is an arbitrary element of its range
(`:|`), so every property about the generator holds for every draw. The file
system is a parameter: `load` gives the frames of an XML file, or `None` when
`isfile` fails, and `open` gives the size of an image, or `None` when
`Image.open` raises. A Python exception that ends a script is an `Err` of a
`Result`. `str` and `int` on integers are modelled in `PyBuiltins`, and the
element tree of an annotation file is the `XmlTree.Frame` datatype.

Redaction images are indexed `[x, y]`, as PIL's `putpixel` is. Generator
buffers are indexed `[row, column]`, as numpy arrays are.

## Model

| member | source | states |
|---|---|---|
| PyBuiltins.Zip | parse_activ.py:100 | `zip` pairs the i-th elements of both lists and has the length of the shorter list |
| PyBuiltins.NatToString | preprocess_activ.py:151-153 | `str` of a count or size is a non-empty string of decimal digits with no leading zero unless it is `0` |
| PyBuiltins.ParseInt | parse_activ.py:133-138 | `int` succeeds exactly on an optionally signed digit string, with the sign of the result following the sign character; otherwise it raises |
| PyBuiltins.DigitsValueOfNatToString | preprocess_activ.py:151-153 | the digits `str` writes for `n` have the decimal value `n` |
| PyBuiltins.ParseIntOfNatToString | parse_activ.py:133-138 | `int(str(n)) == n` for every non-negative `n`: the parser reads back what the generator wrote |
| Redaction.FillBox | preprocess_activ.py:32-34 | every pixel in the half-open box becomes black and every pixel outside it keeps its old value |
| Redaction.RedactImage | preprocess_activ.py:29-39 | France24 at 720×576 has 60≤x<665, 490≤y<526 black; AljazeeraHD at 1920×1080 has 0≤x<1700, 980≤y<1040 black; no pixel outside the channel's band changes; any other channel or size leaves the image unchanged |
| Redaction.RedactFolder | preprocess_activ.py:27-41 | every image of the folder is redacted as `RedactImage` states, each image independently |
| Placement.PairShapes | preprocess_activ.py:123 | the generator walks `min(#fillers, #chips)` pairs, the k-th being the k-th filler's and k-th chip's shapes |
| Placement.ChooseCorner | preprocess_activ.py:134-142 | no corner exactly when `cols ≤ chip_cols` or `rows ≤ chip_rows` (so a chip as wide or as tall as the canvas is skipped); otherwise any corner with `col < cols - chip_cols` and `row < rows - chip_rows` |
| Placement.FittingPairs | preprocess_activ.py:137-140 | the placed pairs, in increasing order, each one whose chip fits |
| Placement.FittingPairsExactly | preprocess_activ.py:137-140 | pair k is placed if and only if its chip leaves a legal corner |
| Placement.FrameIds | preprocess_activ.py:151-154 | emitted ids are 0, 1, 2, … with no gap, and there are at most as many frames as pairs |
| Placement.Blit | preprocess_activ.py:144 | inside the placed rectangle pixel (r, c) is `chip[r - row, c - col]`; every other pixel is unchanged; the buffer's pixels equal `Blitted` of the old ones |
| Placement.BlittedAt | preprocess_activ.py:144 | the pasted image holds the chip's pixel inside the rectangle and the canvas pixel elsewhere |
| Placement.PlacementsStep | preprocess_activ.py:137-154 | a skipped pair leaves the records as they were; a placed pair adds the record with the next id |
| Placement.NewBuffer | preprocess_activ.py:125-129 | a fresh buffer with the image's shape and pixels |
| Placement.PlaceChip | preprocess_activ.py:125-148 | no output exactly when the chip does not fit; otherwise a record with id `counter`, the chip's height and width, an in-range corner, and the filler with the chip pasted at that corner saved as `Generated_vd00_frame_<counter>.png` |
| Placement.GeneratedStep | preprocess_activ.py:123-154 | one pass of the loop keeps the run's invariant: records, saved images, XML text and counter agree with the pairs handled so far |
| Placement.GeneratedDone | preprocess_activ.py:156-157 | after the last pair the records are a valid placement of all pairs and the XML text plus the closing tag is the whole file |
| Placement.GenerateTrainingData | preprocess_activ.py:117-157 | the records are a placement of every fitting pair in order, with ids 0, 1, 2, …; the saved images are the fillers with their chips pasted at the recorded corners; the XML is the header, one `<frame>` per record and the footer |
| Decoding.DecodedRectangle | parse_activ.py:132-138 | one rectangle reads without an exception exactly when it has the five attributes with integer `x`, `width`, `y`, `height`, and then yields them |
| Decoding.DecodedBoxes | parse_activ.py:125-138 | the rectangle loop succeeds exactly when every rectangle is well formed; the five lists then have one entry per rectangle in document order, with `xmax = x + width` and `ymax = y + height` |
| Decoding.ImageFormat | parse_activ.py:150-153 | the format is `jpeg` for `jpg`/`jpeg`, `png` for `png`, and unset for any other extension |
| Decoding.FrameExampleFields | parse_activ.py:113-163 | a frame decodes exactly when it has `source`, `id` and well-formed rectangles; the example then has the `ext` attribute or `png`, the file name `channel_source_frame_id.ext`, the format by extension, `english`/2 for `Negative` and `arabic`/1 otherwise, and one box per rectangle |
| Decoding.DecodeFrame | parse_activ.py:115-163 | the loop body builds exactly `FrameExample`, or raises the first exception |
| Decoding.FileExamplesOk | parse_activ.py:113-167 | a file decodes without an exception exactly when every frame does |
| Decoding.FileExamplesAt | parse_activ.py:113-167 | a decoded file holds one example per frame, the j-th from the j-th frame |
| Decoding.DecodeFile | parse_activ.py:113-167 | the frame loop yields exactly `FileExamples`: the examples in document order, or the first exception |
| Decoding.ModeExamplesOk | parse_activ.py:100-167 | a mode's pass raises exactly when some (channel, file) pair whose file exists has a file that raises |
| Decoding.ModeExamplesValue | parse_activ.py:100-167 | otherwise the mode's examples are each pair's file examples joined in pair order, a missing file adding none |
| Decoding.TrainingPairs | parse_activ.py:82-86 | training decodes the nine (channel, file) pairs in listed order |
| Decoding.TestPairs | parse_activ.py:82-86 | `zip` truncates the test pass to (AljazeeraHD, gtest_Aj.xml) and (Negative, gtest_Ne.xml) |
| Decoding.CollectExamples | parse_activ.py:93-167 | one mode's examples are those of each existing file, file after file and frame after frame, missing files skipped |
| Decoding.CollectPairs | parse_activ.py:100-167 | the loop over (channel, file) pairs yields exactly `ModeExamples` of the pairs |
| Decoding.JpegExtensionEncodedAsPng | parse_activ.py:42-45 | as written, extension `jpeg` gets format `jpeg` but PNG-encoded bytes |
| Decoding.EncodingAgreesWithFormat | parse_activ.py:42-45 | with JPEG chosen for `jpg` and `jpeg`, the bytes are always in the format the record names |
| Decoding.CreateTfExample | parse_activ.py:10-56 | no record exactly when the image cannot be opened or the size rule skips it (mode not `test`, `ONE_IMAGE_SIZE`, size differs); an exception exactly when a kept example has no image format; otherwise file name and source id are the example's file name, the resize trigger is `width > 1000 or height > 1000`, the format is the example's, and the class text and id lists have one entry per box, all equal to the label |
| Decoding.ConvertedOk | parse_activ.py:173-180 | the write loop raises exactly when some example's conversion raises |
| Decoding.ConvertedCount | parse_activ.py:171-182 | the number written is the number of examples whose conversion is not `None`; it never exceeds the example count, and equals it exactly when no example is skipped |
| Decoding.WriteRecords | parse_activ.py:171-182 | the loop writes exactly `Converted` of the examples; `counter` is the number of records written and `len_examples` the number of examples |
| Decoding.DatasetFiles | parse_activ.py:88-184 | the run yields the training file and then the test file, and fails exactly when either pass raises |
| Decoding.ConvertDataset | parse_activ.py:88-184 | `main` yields exactly `DatasetRecords` over `training` then `test` |
| Decoding.ConvertModes | parse_activ.py:88-184 | the loop over modes collects and writes each mode in turn, stopping at the first exception |
| RoundTrip.RecordDecodes | preprocess_activ.py:151-153 | an emitted record decodes under channel `Generated` without an exception, to the box the generator placed, under the generator's image name, as PNG with label `arabic`/1 |
| RoundTrip.RectangleDecodes | preprocess_activ.py:152 | the emitted `<rectangle>` reads back as `xmin = x`, `xmax = x + width`, `ymin = y`, `ymax = y + height` |
| RoundTrip.SingleRectangle | parse_activ.py:131-138 | a frame with one well-formed rectangle decodes to exactly one box |
| RoundTrip.FileNameOfImage | preprocess_activ.py:148 | the parser's file name for frame N is the `Generated_vd00_frame_N.png` the generator saved |
| RoundTrip.GeneratedImagePath | preprocess_activ.py:148 | in training mode the parser opens the image where the generator saved it, `Generated/trainingFiles/<image name>` |
| RoundTrip.FileDecodes | preprocess_activ.py:151-157 | the whole generated file decodes to one example per record, in order |
| RoundTrip.PlacedExample | preprocess_activ.py:132-153 | a record drawn for a filler and chip decodes to one box of exactly the chip's size, strictly inside the filler |
| RoundTrip.GeneratedRunDecodes | preprocess_activ.py:123-157 | a whole generator run, read back, gives one example per saved image; the i-th has the i-th saved image's name and one box of exactly its chip's size, strictly inside its filler |

## Left out

- Image codecs and resampling (`Image.open/save/convert/resize`, `cv2.imread/resize/imwrite`) are not modelled. Images are integer pixel grids, and the generator receives fillers already resized.
- `USE_GRAYSCALE` colour conversion is left out: it changes pixels, not the fields modelled.
- Decoding.CreateTfExample: keeps the pixel box corners and the opened size, not the floating-point normalisation `x / width`. The `ZeroDivisionError` for a zero-width or zero-height image with boxes is therefore not modelled.
- Decoding.CreateTfExample: models only the resize trigger `width > 1000 or height > 1000`, not the new height `int(height * 1000 / width)` (floating point).
- Decoding.CreateTfExample: uses the corrected codec choice from the finding below. `Decoding.EncodingAsWritten` models the code as written.
- `tf.train.Example` serialisation, `dataset_util` and the `TFRecordWriter` are left out as an external library. A record is a Dafny datatype of its fields.
- Parsing XML text is not modelled. `Placement.FrameElement` is the element tree the text of `Placement.FrameText` denotes, and the round trip starts from that tree.
- Decoding.Join: stands for `os.path.join` only on parts that are relative and carry no trailing separator.
- PyBuiltins.ParseInt: Python's `int` also accepts surrounding whitespace, `_` digit separators and non-ASCII Unicode decimal digits (such as `٣` or `５`). The model raises on them. The generator does not write them.
- The `seed(41)` generator is not modelled. `choice` is an arbitrary element of its range.
- `redact_ticker`'s outer loops over the two channels and two modes, `os.listdir` and its `.png` filter, are not modelled, because directory order is unspecified. `Redaction.RedactFolder` takes the folder's images as a list of distinct buffers.
- Downloading and hashing of filler images, CSV reading and the chip directory listing (preprocess_activ.py:46-108) are not modelled, because they are network and file-system I/O. get_md5.py is not part of this model, because it is a foreign hash over file I/O.
- Decoding.ConvertModes: on an exception returns only the `Err`. The `.tfrecord` files of earlier modes, already written and closed, are not represented.
- Decoding.WriteRecords: on an exception returns only the `Err`. The records the failing pass wrote before the exception are not represented.
- `print` logging, including the per-channel frame counter of parse_activ.py:165, is not modelled. The argument parsing of both scripts is left out too.
- The `mkdir` calls for the output folders are not modelled.
- `INPUT_HEIGHT`, `INPUT_WIDTH` and `ONE_IMAGE_SIZE` come from configuration modules that are not part of this model. They are the fields of `Decoding.Config`.

## Findings

| source | as written | input that shows it | evidently intended | confidence | as-written member | corrected member |
|---|---|---|---|---|---|---|
| parse_activ.py:42-45 | the image bytes are JPEG only when the extension is `jpg`; lines 150-151 set `image_format` to `jpeg` for both `jpg` and `jpeg` | an example with extension `jpeg`: its record says `jpeg` but holds PNG bytes | JPEG bytes for `jpg` and `jpeg`, matching `image_format` | not executed | Decoding.JpegExtensionEncodedAsPng | Decoding.EncodingAgreesWithFormat |
