/** The fist sprite: follows the mouse pointer and strikes. Its `punching`
    flag makes a strike edge-triggered: after one button-down only a
    button-up re-arms the collision test. */
module FistSprite {
  import opened Geometry
  import ChimpSprite

  /** The hitbox is the fist's rect shrunk by this much in each dimension. */
  const HITBOX_SHRINK := -5
  /** How far a punching fist is pushed from the pointer. */
  const PUNCH_OFFSET := Point(5, 10)

  /** The fields of a Fist that the game logic changes. */
  datatype FistState = FistState(rect: Rect, punching: bool)

  /** The result of `punch`: the new fist and whether it hit the target. */
  datatype PunchOutcome = PunchOutcome(fist: FistState, hit: bool)

  /** The area the fist strikes with. */
  function Hitbox(f: FistState): (r: Rect)
    ensures r.Dims() == Size(f.rect.w - 5, f.rect.h - 5)
    ensures f.rect.w >= 5 && f.rect.h >= 5 ==> f.rect.Contains(r)
  {
    f.rect.Inflate(HITBOX_SHRINK, HITBOX_SHRINK)
  }

  /** `update`: put the middle of the rect's top edge at the pointer, and
      push it by (5, 10) while punching. */
  function UpdateStep(f: FistState, pointer: Point): (r: FistState)
    ensures r.punching == f.punching && r.rect.Dims() == f.rect.Dims()
    ensures !f.punching ==> r.rect.MidTop() == pointer
    ensures f.punching ==> r.rect.MidTop() == Point(pointer.x + PUNCH_OFFSET.x, pointer.y + PUNCH_OFFSET.y)
  {
    var placed := f.rect.WithMidTop(pointer);
    FistState(if f.punching then placed.Move(PUNCH_OFFSET.x, PUNCH_OFFSET.y) else placed, f.punching)
  }

  /** `punch(target)`: when not already punching, start punching and report
      whether the hitbox overlaps the target; when already punching, report
      no hit (the source returns None) and change nothing. The rect is never
      changed. */
  function PunchStep(f: FistState, target: Rect): (r: PunchOutcome)
    ensures r.fist.punching && r.fist.rect == f.rect
    ensures f.punching ==> r == PunchOutcome(f, false)
    ensures !f.punching ==> (r.hit <==> Hitbox(f).CollidesWith(target))
  {
    if !f.punching then PunchOutcome(f.(punching := true), Hitbox(f).CollidesWith(target))
    else PunchOutcome(f, false)
  }

  /** `unpunch`: stop punching. */
  function UnpunchStep(f: FistState): (r: FistState)
    ensures !r.punching && r.rect == f.rect
  {
    f.(punching := false)
  }

  /** A second punch before a release never hits and changes nothing,
      whatever it is aimed at. */
  lemma SecondPunchMisses(f: FistState, t1: Rect, t2: Rect)
    ensures var first := PunchStep(f, t1).fist;
            PunchStep(first, t2) == PunchOutcome(first, false)
  {
  }

  /** Releasing re-arms the test: after `unpunch`, `punch` tests the hitbox. */
  lemma UnpunchRearms(f: FistState, t: Rect)
    ensures PunchStep(UnpunchStep(f), t).hit <==> Hitbox(f).CollidesWith(t)
  {
  }

  /** `unpunch` is idempotent. */
  lemma UnpunchIdempotent(f: FistState)
    ensures UnpunchStep(UnpunchStep(f)) == UnpunchStep(f)
  {
  }

  /** The fist sprite. Its image never changes and is not modelled; its rect
      starts as the loaded image's rect, at the origin. */
  class Fist {
    var rect: Rect
    var punching: bool

    ghost function State(): FistState
      reads this
    {
      FistState(rect, punching)
    }

    /** `Fist()`. */
    constructor (size: Size)
      ensures State() == FistState(Rect(0, 0, size.w, size.h), false)
    {
      rect := Rect(0, 0, size.w, size.h);
      punching := false;
    }

    /** `update`, with the mouse position passed in. */
    method Update(pointer: Point)
      modifies this
      ensures State() == UpdateStep(old(State()), pointer)
    {
      rect := rect.WithMidTop(pointer);
      if punching {
        rect := rect.Move(PUNCH_OFFSET.x, PUNCH_OFFSET.y);
      }
    }

    /** `punch(target)`; the target is only read. */
    method Punch(target: ChimpSprite.Chimp) returns (hit: bool)
      modifies this
      ensures PunchOutcome(State(), hit) == PunchStep(old(State()), target.rect)
      ensures unchanged(target)
    {
      hit := false;
      if !punching {
        punching := true;
        var hitbox := rect.Inflate(HITBOX_SHRINK, HITBOX_SHRINK);
        hit := hitbox.CollidesWith(target.rect);
      }
    }

    /** `unpunch`. */
    method Unpunch()
      modifies this
      ensures State() == UnpunchStep(old(State()))
    {
      punching := false;
    }
  }
}
