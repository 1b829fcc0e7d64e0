/**
 * Ticker redaction (`redact_ticker` in preprocess_activ.py): broadcast frames of
 * France24 and AljazeeraHD that have the channel's nominal size get the band of
 * the on-screen news ticker painted black, pixel by pixel, in place.
 *
 * An image is a PIL image: `image[x, y]` is the pixel at column x and row y,
 * `image.Length0` is the width and `image.Length1` the height.
 */
module Redaction {
  import opened PyBuiltins

  /** The value `putpixel` writes. */
  const Black := 0

  /** A half-open box of pixel positions: x0 <= x < x1 and y0 <= y < y1. */
  datatype Box = Box(x0: int, x1: int, y0: int, y1: int) {
    predicate Contains(x: int, y: int) { x0 <= x < x1 && y0 <= y < y1 }
  }

  /** The ticker band of a channel's image of the given size, if the image is one to redact. */
  function TickerBox(channel: string, width: int, height: int): Option<Box>
  {
    if channel == "France24" && width == 720 && height == 576 then Some(Box(60, 665, 490, 526))
    else if channel == "AljazeeraHD" && width == 1920 && height == 1080 then Some(Box(0, 1700, 980, 1040))
    else None
  }

  predicate InTicker(channel: string, width: int, height: int, x: int, y: int)
  {
    TickerBox(channel, width, height).Some? && TickerBox(channel, width, height).value.Contains(x, y)
  }

  /** The nested `for x` / `for y` loops that `putpixel` black over a box. */
  method FillBox(image: array2<int>, box: Box)
    requires 0 <= box.x0 <= box.x1 <= image.Length0 && 0 <= box.y0 <= box.y1 <= image.Length1
    modifies image
    ensures forall x, y :: 0 <= x < image.Length0 && 0 <= y < image.Length1 ==>
      image[x, y] == if box.Contains(x, y) then Black else old(image[x, y])
  {
    for x := box.x0 to box.x1
      invariant forall i, j :: 0 <= i < image.Length0 && 0 <= j < image.Length1 ==>
        image[i, j] == if box.x0 <= i < x && box.y0 <= j < box.y1 then Black else old(image[i, j])
    {
      for y := box.y0 to box.y1
        invariant forall i, j :: 0 <= i < image.Length0 && 0 <= j < image.Length1 ==>
          image[i, j] == if (box.x0 <= i < x && box.y0 <= j < box.y1) || (i == x && box.y0 <= j < y)
                         then Black else old(image[i, j])
      {
        image[x, y] := Black;
      }
    }
  }

  /** One image of the channel: black out the ticker band when the size matches, otherwise leave it alone. */
  method RedactImage(channel: string, image: array2<int>)
    modifies image
    ensures forall x, y :: 0 <= x < image.Length0 && 0 <= y < image.Length1 ==>
      image[x, y] == if InTicker(channel, image.Length0, image.Length1, x, y) then Black else old(image[x, y])
    ensures channel == "France24" && image.Length0 == 720 && image.Length1 == 576 ==>
      forall x, y :: 60 <= x < 665 && 490 <= y < 526 ==> image[x, y] == Black
    ensures channel == "AljazeeraHD" && image.Length0 == 1920 && image.Length1 == 1080 ==>
      forall x, y :: 0 <= x < 1700 && 980 <= y < 1040 ==> image[x, y] == Black
    ensures TickerBox(channel, image.Length0, image.Length1).None? ==>
      forall x, y :: 0 <= x < image.Length0 && 0 <= y < image.Length1 ==> image[x, y] == old(image[x, y])
  {
    var width, height := image.Length0, image.Length1;
    if channel == "France24" && width == 720 && height == 576 {
      FillBox(image, Box(60, 665, 490, 526));
    }
    if channel == "AljazeeraHD" && width == 1920 && height == 1080 {
      FillBox(image, Box(0, 1700, 980, 1040));
    }
  }

  /** Every image of one channel's folder, in listing order; each is its own buffer. */
  method RedactFolder(channel: string, images: seq<array2<int>>)
    requires forall i, j :: 0 <= i < j < |images| ==> images[i] != images[j]
    modifies set i | 0 <= i < |images| :: images[i]
    ensures forall k, x, y :: 0 <= k < |images| && 0 <= x < images[k].Length0 && 0 <= y < images[k].Length1 ==>
      images[k][x, y] == if InTicker(channel, images[k].Length0, images[k].Length1, x, y) then Black
                         else old(images[k][x, y])
  {
    for n := 0 to |images|
      invariant forall k, x, y :: 0 <= k < n && 0 <= x < images[k].Length0 && 0 <= y < images[k].Length1 ==>
        images[k][x, y] == if InTicker(channel, images[k].Length0, images[k].Length1, x, y) then Black
                           else old(images[k][x, y])
      invariant forall k, x, y :: n <= k < |images| && 0 <= x < images[k].Length0 && 0 <= y < images[k].Length1 ==>
        images[k][x, y] == old(images[k][x, y])
    {
      RedactImage(channel, images[n]);
    }
  }
}
