/**
  The "Hello ML" button: centre-crop the picture to a square whose side is the shorter of its
  two sides (`min(image.width, image.height)`), then scale it to `imageSize` x `imageSize` (`Encoding.ImageSize`).
*/
module Preprocess {
  /** Width and height of a bitmap, in pixels. */
  datatype Size = Size(width: nat, height: nat)

  /** `min(image.width, image.height)`: the side of the largest square that fits the picture. */
  function CropSide(width: nat, height: nat): (side: nat)
    ensures side <= width && side <= height
    ensures side == width || side == height
  {
    if width <= height then width else height
  }

  /** No square larger than the crop fits inside the picture. */
  lemma CropSideIsLargest(width: nat, height: nat, side: nat)
    requires side <= width && side <= height
    ensures side <= CropSide(width, height)
  {
  }

  /** A square picture is not cropped at all. */
  lemma SquareImageUncropped(side: nat)
    ensures CropSide(side, side) == side
  {
  }

  /** The size of the picture after `extractThumbnail(image, dimension, dimension)`. */
  function Thumbnail(image: Size): (square: Size)
    ensures square.width == square.height == CropSide(image.width, image.height)
    ensures square.width <= image.width && square.height <= image.height
  {
    var dimension := CropSide(image.width, image.height);
    Size(dimension, dimension)
  }
}
