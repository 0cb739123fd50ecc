/** The chimp sprite: walks left and right across the play area, turning round
    at its edges, and spins once when punched. `ChimpState` is a snapshot of
    the sprite's fields; the `...Step` functions say what each method does to
    it, and the class `Chimp` performs the same steps in place. */
module ChimpSprite {
  import opened Geometry
  import opened Images

  datatype Option<T> = None | Some(value: T)

  /** Horizontal speed in pixels per frame. */
  const SPEED := 9
  /** Degrees added to `dizzy` on every spinning frame. */
  const SPIN_STEP := 12
  /** A spin ends once `dizzy` reaches this many degrees. */
  const FULL_TURN := 360
  /** Number of frames a spin lasts, counted from `dizzy == 1`. */
  const SPIN_FRAMES := 30

  /** The fields of a Chimp. `original` is absent until the first punch. */
  datatype ChimpState = ChimpState(
    rect: Rect,
    move: int,
    dizzy: int,
    image: Image,
    original: Option<Image>)

  /** A freshly made chimp: the loaded image with its rect's top-left corner
      at (10, 10), walking right, not dizzy. */
  function Initial(size: Size): (s: ChimpState)
    ensures !s.original.Some? && s.dizzy == 0 && s.move == SPEED
    ensures s.rect.x == 10 && s.rect.y == 10 && s.rect.Dims() == size
    ensures s.image.size == size && !s.image.mirrored && s.image.angle == 0
  {
    ChimpState(Rect(10, 10, size.w, size.h), SPEED, 0, Loaded(size), None)
  }

  /** What holds of the chimp between frames: it walks at full speed one way
      or the other; its rect is exactly as large as its image; while it walks
      its image is unturned; while it spins `dizzy` is 1 + 12k below 360 and
      the image is `original` turned by `dizzy` degrees (not yet turned when
      `dizzy` is 1, just after the punch). */
  ghost predicate Inv(s: ChimpState, rot: RotatedSize) {
    && (s.move == SPEED || s.move == -SPEED)
    && s.rect.Dims() == s.image.size
    && (s.original.Some? ==> s.original.value.angle == 0)
    && (s.dizzy == 0 ==> s.image.angle == 0)
    && (s.dizzy != 0 ==>
          && s.original.Some?
          && 1 <= s.dizzy < FULL_TURN
          && s.dizzy % SPIN_STEP == 1
          && s.image == if s.dizzy == 1 then s.original.value
                        else Rotate(s.original.value, s.dizzy, rot))
  }

  /** A spinning chimp has an `original` to turn; `_spin` would fail without. */
  predicate SpinReady(s: ChimpState) {
    s.dizzy != 0 ==> s.original.Some?
  }

  /** The turning-round condition of `_walk`: the next position would leave
      the area and the chimp already sticks out past its left or right edge. */
  predicate Reverses(s: ChimpState, area: Rect)
    ensures Reverses(s, area) ==> !area.Contains(s.rect)
  {
    && !area.Contains(s.rect.Move(s.move, 0))
    && (s.rect.Left() < area.Left() || s.rect.Right() > area.Right())
  }

  /** `_walk`. As written, the rect is only reassigned when the prospective
      position is NOT inside the area. */
  function WalkStep(s: ChimpState, area: Rect): (r: ChimpState)
    ensures r.dizzy == s.dizzy && r.original == s.original
    ensures r.rect.y == s.rect.y && r.rect.Dims() == s.rect.Dims()
    ensures r.image.size == s.image.size
    ensures Reverses(s, area) ==> r.move == -s.move
    ensures !Reverses(s, area) ==> r.move == s.move
    ensures r.image.mirrored != s.image.mirrored <==> Reverses(s, area)
    ensures Reverses(s, area) ==> r.image == Flip(s.image)
    ensures !Reverses(s, area) ==> r.image == s.image
    ensures area.Contains(s.rect.Move(s.move, 0)) ==> r.rect == s.rect
    ensures !area.Contains(s.rect.Move(s.move, 0)) ==> r.rect == s.rect.Move(r.move, 0)
  {
    var newpos := s.rect.Move(s.move, 0);
    if area.Contains(newpos) then s
    else if s.rect.Left() < area.Left() || s.rect.Right() > area.Right() then
      var move := -s.move;
      s.(move := move, rect := s.rect.Move(move, 0), image := Flip(s.image))
    else
      s.(rect := newpos)
  }

  /** `_spin`: advance `dizzy` by 12 and show `original` turned that far, or,
      at 360 or more, stop spinning and show `original` again; in both cases
      the new rect is centred where the old one was. */
  function SpinStep(s: ChimpState, rot: RotatedSize): (r: ChimpState)
    requires s.original.Some?
    ensures r.move == s.move && r.original == s.original
    ensures r.rect.Center() == s.rect.Center()
    ensures r.rect.Dims() == r.image.size
    ensures s.dizzy + SPIN_STEP >= FULL_TURN ==> r.dizzy == 0 && r.image == s.original.value
    ensures s.dizzy + SPIN_STEP < FULL_TURN ==>
              r.dizzy == s.dizzy + SPIN_STEP && r.image == Rotate(s.original.value, r.dizzy, rot)
  {
    var center := s.rect.Center();
    var dizzy := s.dizzy + SPIN_STEP;
    var image := if dizzy >= FULL_TURN then s.original.value else Rotate(s.original.value, dizzy, rot);
    s.(dizzy := if dizzy >= FULL_TURN then 0 else dizzy, image := image, rect := CenteredAt(image.size, center))
  }

  /** `update`: spin while dizzy, walk otherwise. */
  function UpdateStep(s: ChimpState, area: Rect, rot: RotatedSize): (r: ChimpState)
    requires SpinReady(s)
    ensures s.dizzy != 0 ==> r.move == s.move && r.rect.Center() == s.rect.Center()
    ensures s.dizzy == 0 ==> r.dizzy == 0 && r.original == s.original && r.rect.y == s.rect.y
  {
    if s.dizzy != 0 then SpinStep(s, rot) else WalkStep(s, area)
  }

  /** `punched`: start a spin, unless one is already under way. */
  function PunchedStep(s: ChimpState): (r: ChimpState)
    ensures r.rect == s.rect && r.move == s.move && r.image == s.image
    ensures r.dizzy != 0
    ensures s.dizzy == 0 ==> r.dizzy == 1 && r.original == Some(s.image)
    ensures s.dizzy != 0 ==> r == s
  {
    if s.dizzy == 0 then s.(dizzy := 1, original := Some(s.image)) else s
  }

  /** The state after n calls of `update`. */
  ghost function Ticks(s: ChimpState, n: nat, area: Rect, rot: RotatedSize): (r: ChimpState)
    requires Inv(s, rot)
    ensures Inv(r, rot)
    decreases n
  {
    if n == 0 then s
    else
      var p := Ticks(s, n - 1, area, rot);
      UpdateKeepsInv(p, area, rot);
      UpdateStep(p, area, rot)
  }

  /** `update` keeps the invariant. */
  lemma UpdateKeepsInv(s: ChimpState, area: Rect, rot: RotatedSize)
    requires Inv(s, rot)
    ensures Inv(UpdateStep(s, area, rot), rot)
  {
  }

  /** `punched` keeps the invariant. */
  lemma PunchedKeepsInv(s: ChimpState, rot: RotatedSize)
    requires Inv(s, rot)
    ensures Inv(PunchedStep(s), rot)
  {
  }

  /** The made chimp satisfies the invariant. */
  lemma InitialInv(size: Size, rot: RotatedSize)
    ensures Inv(Initial(size), rot)
  {
  }

  /** While walking, |move| stays 9 and only a reversal changes the facing. */
  lemma WalkKeepsSpeed(s: ChimpState, area: Rect, rot: RotatedSize)
    requires Inv(s, rot) && s.dizzy == 0
    ensures var r := UpdateStep(s, area, rot);
            (r.move == SPEED || r.move == -SPEED)
            && (r.move != s.move <==> Reverses(s, area))
            && (r.image.mirrored != s.image.mirrored <==> r.move != s.move)
  {
  }

  /** Two reversals in a row restore the original direction and image. */
  lemma TwoReversalsRestore(s: ChimpState, area: Rect)
    requires Reverses(s, area) && Reverses(WalkStep(s, area), area)
    ensures WalkStep(WalkStep(s, area), area).move == s.move
    ensures WalkStep(WalkStep(s, area), area).image == s.image
  {
    FlipTwice(s.image);
  }

  /** Counting from `dizzy == 1`, the k-th update (k < 30) leaves
      `dizzy == 1 + 12k`: the chimp is still spinning, has kept its
      direction, and its rect is still centred where it was. */
  lemma {:induction false} SpinProgress(s: ChimpState, k: nat, area: Rect, rot: RotatedSize)
    requires Inv(s, rot) && s.dizzy == 1
    requires k < SPIN_FRAMES
    ensures var t := Ticks(s, k, area, rot);
            && t.dizzy == 1 + SPIN_STEP * k
            && t.move == s.move
            && t.original == s.original
            && t.rect.Center() == s.rect.Center()
  {
    if k > 0 {
      SpinProgress(s, k - 1, area, rot);
    }
  }

  /** The 30th update from `dizzy == 1` ends the spin: `dizzy` is back to 0,
      the image is `original` again and the rect is exactly where it was. */
  lemma SpinEnds(s: ChimpState, area: Rect, rot: RotatedSize)
    requires Inv(s, rot) && s.dizzy == 1
    ensures var t := Ticks(s, SPIN_FRAMES, area, rot);
            t.dizzy == 0 && t.image == s.original.value && t.rect == s.rect && t.move == s.move
  {
    SpinProgress(s, SPIN_FRAMES - 1, area, rot);
    CenteredAtOwnCenter(s.rect);
  }

  /** A punch while walking is followed by exactly 30 spinning updates, after
      which the chimp is back in the state it was punched in, except that
      `original` now records its image. */
  lemma PunchSpinsThirtyFrames(s: ChimpState, area: Rect, rot: RotatedSize)
    requires Inv(s, rot) && s.dizzy == 0
    ensures Inv(PunchedStep(s), rot)
    ensures forall k: nat :: k < SPIN_FRAMES ==> Ticks(PunchedStep(s), k, area, rot).dizzy != 0
    ensures Ticks(PunchedStep(s), SPIN_FRAMES, area, rot) == s.(original := Some(s.image))
  {
    var p := PunchedStep(s);
    PunchedKeepsInv(s, rot);
    forall k: nat | k < SPIN_FRAMES
      ensures Ticks(p, k, area, rot).dizzy != 0
    {
      SpinProgress(p, k, area, rot);
    }
    SpinEnds(p, area, rot);
  }

  /** The state after n calls of `_walk`. */
  function Walks(s: ChimpState, n: nat, area: Rect): ChimpState
    decreases n
  {
    if n == 0 then s else WalkStep(Walks(s, n - 1, area), area)
  }

  /** How many of the first n walking steps turn the chimp round. */
  function ReversalCount(s: ChimpState, n: nat, area: Rect): nat
    decreases n
  {
    if n == 0 then 0
    else ReversalCount(s, n - 1, area) + (if Reverses(Walks(s, n - 1, area), area) then 1 else 0)
  }

  /** Whether the chimp has turned round an odd number of times in the
      first n walking steps, counted as a running parity. */
  function OddReversals(s: ChimpState, n: nat, area: Rect): bool
    decreases n
  {
    if n == 0 then false
    else OddReversals(s, n - 1, area) != Reverses(Walks(s, n - 1, area), area)
  }

  /** The running parity is the parity of the count. */
  lemma {:induction false} OddReversalsParity(s: ChimpState, n: nat, area: Rect)
    ensures OddReversals(s, n, area) <==> ReversalCount(s, n, area) % 2 == 1
  {
    if n > 0 {
      OddReversalsParity(s, n - 1, area);
      ParityStep(ReversalCount(s, n - 1, area), Reverses(Walks(s, n - 1, area), area));
    }
  }

  /** Adding one flips the parity; adding nothing keeps it. */
  lemma ParityStep(k: nat, b: bool)
    ensures (k + (if b then 1 else 0)) % 2 == 1 <==> (k % 2 == 1) != b
  {
  }

  /** A walking chimp never starts spinning by itself: `update` on a chimp
      that is not dizzy is `_walk`, step after step. */
  lemma {:induction false} WalkingTicks(s: ChimpState, n: nat, area: Rect, rot: RotatedSize)
    requires Inv(s, rot) && s.dizzy == 0
    ensures Ticks(s, n, area, rot) == Walks(s, n, area)
    ensures Walks(s, n, area).dizzy == 0
  {
    if n > 0 {
      WalkingTicks(s, n - 1, area, rot);
    }
  }

  /** One walking step turns the chimp round, negating its direction and
      mirroring its image, or leaves both as they are. */
  lemma WalkTurn(t: ChimpState, area: Rect)
    ensures Reverses(t, area) ==> WalkStep(t, area).move == -t.move && WalkStep(t, area).image == Flip(t.image)
    ensures !Reverses(t, area) ==> WalkStep(t, area).move == t.move && WalkStep(t, area).image == t.image
  {
  }

  /** However far it walks, with any amount of ordinary walking between the
      bounces, the chimp's direction and image are the starting ones,
      negated and mirrored exactly when it has turned round an odd number of
      times so far. */
  lemma {:induction false} WalkParity(s: ChimpState, n: nat, area: Rect)
    ensures var t := Walks(s, n, area);
            && t.move == (if OddReversals(s, n, area) then -s.move else s.move)
            && t.image == (if OddReversals(s, n, area) then Flip(s.image) else s.image)
  {
    if n > 0 {
      WalkParity(s, n - 1, area);
      WalkTurn(Walks(s, n - 1, area), area);
      FlipTwice(s.image);
    }
  }

  /** The same, stated with the number of reversals. */
  lemma WalkFacing(s: ChimpState, n: nat, area: Rect)
    ensures var t := Walks(s, n, area);
            var odd := ReversalCount(s, n, area) % 2 == 1;
            && t.move == (if odd then -s.move else s.move)
            && t.image == (if odd then Flip(s.image) else s.image)
  {
    WalkParity(s, n, area);
    OddReversalsParity(s, n, area);
  }

  /** As written, a walking chimp whose next position lies inside the area
      keeps its rect, so it stays where it is on every later frame too. */
  lemma {:induction false} StallsInside(s: ChimpState, n: nat, area: Rect, rot: RotatedSize)
    requires Inv(s, rot) && s.dizzy == 0
    requires area.Contains(s.rect.Move(s.move, 0))
    ensures Ticks(s, n, area, rot) == s
  {
    if n > 0 {
      StallsInside(s, n - 1, area, rot);
    }
  }

  /** A punch while spinning changes nothing. */
  lemma PunchWhileSpinning(s: ChimpState)
    requires s.dizzy != 0
    ensures PunchedStep(s) == s
  {
  }

  /** The chimp sprite. `area` is the screen rectangle it walks in, `rot` the
      size of a rotated image. */
  class Chimp {
    var rect: Rect
    var move: int
    var dizzy: int
    var image: Image
    var original: Option<Image>
    const area: Rect
    const rot: RotatedSize

    ghost function State(): ChimpState
      reads this
    {
      ChimpState(rect, move, dizzy, image, original)
    }

    ghost predicate Valid()
      reads this
    {
      Inv(State(), rot)
    }

    /** `Chimp()`: the loaded image of the given size at (10, 10) walking
        right; `area` is the screen's rectangle. */
    constructor (size: Size, area: Rect, rot: RotatedSize)
      ensures Valid()
      ensures State() == Initial(size) && this.area == area && this.rot == rot
    {
      image := Loaded(size);
      var loaded := Rect(0, 0, size.w, size.h);
      this.area := area;
      this.rot := rot;
      rect := loaded.(x := 10, y := 10);
      move := SPEED;
      dizzy := 0;
      original := None;
    }

    /** `update`. */
    method Update()
      requires Valid()
      modifies this
      ensures Valid()
      ensures State() == UpdateStep(old(State()), area, rot)
    {
      UpdateKeepsInv(State(), area, rot);
      if dizzy != 0 {
        Spin();
      } else {
        Walk();
      }
    }

    /** `_walk`. */
    method Walk()
      modifies this
      ensures State() == WalkStep(old(State()), area)
    {
      var newpos := rect.Move(move, 0);
      if !area.Contains(newpos) {
        if rect.Left() < area.Left() || rect.Right() > area.Right() {
          move := -move;
          newpos := rect.Move(move, 0);
          image := Flip(image);
        }
        rect := newpos;
      }
    }

    /** `_spin`; `original` is set by the punch that started the spin. */
    method Spin()
      requires original.Some?
      modifies this
      ensures State() == SpinStep(old(State()), rot)
    {
      var center := rect.Center();
      dizzy := dizzy + SPIN_STEP;
      if dizzy >= FULL_TURN {
        dizzy := 0;
        image := original.value;
      } else {
        image := Rotate(original.value, dizzy, rot);
      }
      rect := CenteredAt(image.size, center);
    }

    /** `punched`. */
    method Punched()
      requires Valid()
      modifies this
      ensures Valid()
      ensures State() == PunchedStep(old(State()))
    {
      PunchedKeepsInv(State(), rot);
      if dizzy == 0 {
        dizzy := 1;
        original := Some(image);
      }
    }
  }
}
