/** The square crop window taken from each source frame before it is scaled
    into a grid cell: the side is the frame's shorter edge, and the anchor
    mode decides where the window sits along the longer one. */
module CropGeometry {
  import opened Basics

  /** The width and height a probe reports for a clip's video stream. */
  datatype Dims = Dims(width: int, height: int)

  /** `crop=size:size:x:y`. */
  datatype Window = Window(size: int, x: int, y: int)

  /** The window lies inside a `width` x `height` frame. */
  predicate Fits(win: Window, width: int, height: int)
  {
    && 0 <= win.x && win.x + win.size <= width
    && 0 <= win.y && win.y + win.size <= height
  }

  /** The crop window for `mode` (`get_video_crop_params` and the inlined
      copies in the other generators). Modes other than `top` and `bottom`,
      `center` included, centre the window; a centred offset rounds down. */
  function Crop(width: int, height: int, mode: string): (win: Window)
    ensures win.size <= width && win.size <= height
    ensures win.size == width || win.size == height
    ensures Fits(win, width, height)
    ensures 0 <= (width - win.size) - 2 * win.x <= 1
    ensures mode == "top" ==> win.y == 0
    ensures mode == "bottom" ==> win.y == height - win.size
    ensures mode != "top" && mode != "bottom" ==> 0 <= (height - win.size) - 2 * win.y <= 1
  {
    var size := Min(width, height);
    var x := (width - size) / 2;
    if mode == "center" then Window(size, x, (height - size) / 2)
    else if mode == "top" then Window(size, x, 0)
    else if mode == "bottom" then Window(size, x, height - size)
    else Window(size, x, (height - size) / 2)
  }

  /** An unrecognised mode is treated exactly like `center`. */
  lemma UnknownModeIsCenter(width: int, height: int, mode: string)
    requires mode != "center" && mode != "top" && mode != "bottom"
    ensures Crop(width, height, mode) == Crop(width, height, "center")
  {
  }

  /** The only crop the basic generator knows: always centred. */
  function CenterCrop(width: int, height: int): (win: Window)
    ensures win == Crop(width, height, "center")
    ensures Fits(win, width, height)
  {
    var size := Min(width, height);
    Window(size, (width - size) / 2, (height - size) / 2)
  }

  /** A 1920x1080 frame cropped around its centre keeps the middle
      1080x1080 square, 420 pixels in from the left. */
  lemma CenterCropOfFullHd()
    ensures Crop(1920, 1080, "center") == Window(1080, 420, 0)
  {
  }
}
