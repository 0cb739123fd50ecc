/** Images as the game logic sees them. Pixels are not modelled: an image is
    its bounding-box size and how it has been transformed from the picture
    that was loaded, namely whether it is mirrored left-to-right and by how
    many degrees (counter-clockwise) it has been turned after mirroring. */
module Images {
  import opened Geometry

  datatype Image = Image(size: Size, mirrored: bool, angle: int)

  /** The bounding-box size of `pygame.transform.rotate(image, degrees)`.
      It depends on trigonometry done in floating point inside pygame, so
      the model takes it as a parameter instead of computing it. */
  type RotatedSize = (Size, int) -> Size

  /** The picture as `load_image` returns it: neither mirrored nor turned. */
  function Loaded(size: Size): Image { Image(size, false, 0) }

  /** `pygame.transform.flip(image, 1, 0)`: a left-to-right mirror. Mirroring
      a turned picture reverses the sense of the turn. */
  function Flip(img: Image): (r: Image)
    ensures r.size == img.size && r.mirrored == !img.mirrored
  {
    Image(img.size, !img.mirrored, -img.angle)
  }

  /** `pygame.transform.rotate(image, degrees)`: turns the picture further and
      takes the size `rot` gives for the result. */
  function Rotate(img: Image, degrees: int, rot: RotatedSize): (r: Image)
    ensures r.mirrored == img.mirrored && r.size == rot(img.size, degrees)
    ensures r.angle == img.angle + degrees
  {
    Image(rot(img.size, degrees), img.mirrored, img.angle + degrees)
  }

  /** Flipping twice gives the image back: two reversals of the chimp restore
      its orientation. */
  lemma FlipTwice(img: Image)
    ensures Flip(Flip(img)) == img
  {
  }
}
