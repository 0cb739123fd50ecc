# Chimp game logic in Dafny

A model of the per-frame game logic of the pygame "monkey fever" demo
(`chimp.py`). Each frame the game handles its input events and then updates
two sprites:

- The **fist** follows the mouse pointer. Its `punching` flag makes a strike
  edge-triggered. Only the first button-down after a button-up tests its
  hitbox against the chimp. The hitbox is the fist's rect shrunk by 5 in each
  dimension.
- The **chimp** walks left and right by `move` (±9) pixels per frame. It turns
  round, mirroring its image, when it runs past an edge of the window. When
  punched it spins. The spin is driven by the counter `dizzy`: a punch sets it
  to 1, every frame adds 12, and the spin ends, restoring the image, once
  `dizzy` reaches 360.
- The **loop body of `main`** handles the frame's events in order. A quit or
  Escape stops everything at once. A button-down punches, playing the punch
  sound and spinning the chimp on a hit, and the whiff sound otherwise. A
  button-up pulls the fist back. Only after all events are handled are both
  sprites updated.

Files:

- `geometry.dfy`: pygame's `Rect` as an integer value type. It covers `move`,
  `inflate`, `contains`, `colliderect`, the `midtop` setter and
  `get_rect(center=...)`, and writes out C's truncating `/ 2`.
- `images.dfy`: an image as its size, a mirror flag and a rotation angle.
  The size of a rotated image is a function parameter (`RotatedSize`).
- `chimp.dfy`: `ChimpState` and the step functions of `update`, `_walk`,
  `_spin` and `punched`, the invariant and spin-cycle lemmas, and the class
  `Chimp`, which performs the same steps in place.
- `fist.dfy`: `FistState`, the step functions of `update`, `punch` and
  `unpunch`, the edge-triggering lemmas, and the class `Fist`.
- `game.dfy`: event classification and dispatch (`Dispatch`, `HandleEvents`,
  `FrameStep`), the lemmas about them, and the method `Frame`. `Frame` runs
  chimp.py:154-168 on the two sprite objects.

Each class method's postcondition sets the object's new field values equal to
its step function applied to the old ones. The lemmas prove what the source
promises about those step functions.

These details of the code are easy to misread; the model follows them
exactly:

- `punched` sets `dizzy` to 1, not 12. A spin therefore runs through
  13, 25, …, 349 and ends on the 30th update (chimp.py:108).
- `self.rect = newpos` is inside `if not self.area.contains(newpos)`
  (chimp.py:90). The walking chimp's rect changes only when the next position
  would not be fully inside the window. A chimp whose next step stays inside
  never moves again (`StallsInside`, `SmallChimpStays`). A chimp taller than
  50 pixels at y = 10 is never fully inside the 60-pixel-high window, so it
  keeps walking (`TallChimpKeepsWalking`).
- A reversal also needs the current rect to stick out past the window's left
  or right edge. A next position that leaves the window is not enough
  (chimp.py:85).
- A button-down does not move the fist to the pointer first. It punches from
  where the last `update` left it (chimp.py:159-160, 45-50).

## Model

| member | source | states |
|---|---|---|
| `Geometry.Rect.Move` | chimp.py:83 | `rect.move(dx, dy)` keeps the size and shifts the centre by exactly (dx, dy) |
| `Geometry.Rect.Inflate` | chimp.py:56 | `inflate(dw, dh)` changes the size by exactly (dw, dh) |
| `Geometry.InflateKeepsCenter` | chimp.py:56 | for non-negative sizes before and after, `inflate` moves each coordinate of the centre by at most 1 |
| `Geometry.Rect.Contains` | chimp.py:84 | `contains` needs a rect of positive width and height at least as large as the inner one; so an outer rect of zero width or height contains nothing, not even an empty rect inside it |
| `Geometry.Rect.CollidesWith` | chimp.py:57 | pygame 2 `colliderect`: a rect with zero width or height collides with nothing; for positive sizes it holds exactly when the two rects overlap on both axes |
| `Geometry.Rect.WithMidTop` | chimp.py:48 | setting `midtop` keeps the size and puts the middle of the top edge at the given point |
| `Geometry.CenteredAt` | chimp.py:103 | `get_rect(center=c)` has the image's size and centre c |
| `Geometry.CenteredAtOwnCenter` | chimp.py:95-103 | re-centring a rect at its own size on its own centre gives the same rect |
| `Geometry.HitboxInside` | chimp.py:56 | for a rect of at least 5 by 5, the hitbox `inflate(-5, -5)` is contained in the rect |
| `Geometry.HitboxHitIsRectHit` | chimp.py:56-57 | a hitbox collision is also a collision of the full rect |
| `Geometry.HitboxCenter` | chimp.py:56 | shrinking by 5 moves the centre by 0 or 1 toward the top-left, because of integer rounding |
| `Geometry.CollidesSymmetric` | chimp.py:57 | `colliderect` is symmetric |
| `Images.Flip` | chimp.py:89 | a horizontal flip keeps the size and toggles the mirror flag |
| `Images.Rotate` | chimp.py:101-102 | a rotation keeps the mirror flag, adds the given degrees to the turn, and takes the rotated bounding-box size |
| `Images.FlipTwice` | chimp.py:89 | flipping twice restores the image |
| `ChimpSprite.Initial` | chimp.py:65-72 | a new chimp has its top-left corner at (10, 10) and the loaded image's size, shows the loaded image unmirrored and unturned, walks right at speed 9, is not dizzy, and has no `original` yet |
| `ChimpSprite.Reverses` | chimp.py:84-85 | the chimp turns round only when its rect is not already inside the area |
| `ChimpSprite.WalkStep` | chimp.py:81-90 | `move` is negated and the image's mirroring toggled exactly when the reversal condition holds; a prospective rect inside the area leaves the rect unchanged, otherwise the rect becomes the old rect moved by the new `move`; y, width, height, `dizzy` and `original` never change; the image is mirrored by `Flip` on a reversal and kept otherwise |
| `ChimpSprite.SpinStep` | chimp.py:93-103 | the centre and `move` are kept; below 360 `dizzy` grows by 12 and the image is `original` rotated by `dizzy`; at 360 or more `dizzy` becomes 0 and the image is `original`; the rect fits the image |
| `ChimpSprite.UpdateStep` | chimp.py:74-79 | a dizzy chimp keeps `move` and its centre; a walking chimp keeps `dizzy == 0`, `original` and its rect's y |
| `ChimpSprite.PunchedStep` | chimp.py:105-109 | rect, `move` and image are unchanged and the chimp is dizzy afterwards; from `dizzy == 0` it sets `dizzy` to 1 and records the image as `original`; otherwise it changes nothing |
| `ChimpSprite.Ticks` | chimp.py:74-79 | any number of updates keeps the chimp invariant |
| `ChimpSprite.InitialInv` | chimp.py:65-72 | a new chimp satisfies the invariant |
| `ChimpSprite.UpdateKeepsInv` | chimp.py:74-103 | `update` keeps the invariant: `move` is ±9, the rect has the image's size, and `dizzy` is 0 or 1 + 12k < 360 with the image being `original` rotated by `dizzy` |
| `ChimpSprite.PunchedKeepsInv` | chimp.py:105-109 | `punched` keeps the invariant |
| `ChimpSprite.WalkKeepsSpeed` | chimp.py:81-89 | walking keeps \|move\| = 9; `move` changes exactly when the reversal condition holds, and exactly then is the image mirrored |
| `ChimpSprite.TwoReversalsRestore` | chimp.py:85-89 | two reversals in a row restore the original `move` and image |
| `ChimpSprite.WalkingTicks` | chimp.py:74-79 | a chimp that is not dizzy never starts spinning by itself: its updates are walking steps only |
| `ChimpSprite.OddReversalsParity` | chimp.py:85-86 | the running parity of reversals is the parity of their number |
| `ChimpSprite.WalkParity` | chimp.py:81-89 | after any number of walking steps, `move` and the image are the starting ones, negated and mirrored exactly when the running parity of reversals is odd |
| `ChimpSprite.WalkFacing` | chimp.py:81-89 | after any number of walking steps, `move` and the image are the starting ones, negated and mirrored exactly when the number of reversals is odd |
| `ChimpSprite.SpinProgress` | chimp.py:93-103 | from `dizzy == 1`, after k < 30 updates `dizzy == 1 + 12k`, with `move`, `original` and the rect's centre unchanged |
| `ChimpSprite.SpinEnds` | chimp.py:93-103 | from `dizzy == 1`, the 30th update sets `dizzy` to 0 and restores `original` as the image, with the rect and `move` exactly as before |
| `ChimpSprite.PunchSpinsThirtyFrames` | chimp.py:74-79 | after a punch while walking the chimp spins on exactly the next 30 updates, then is back in its pre-punch state, except that `original` is now set |
| `ChimpSprite.StallsInside` | chimp.py:83-90 | as written, a walking chimp whose next position is inside the area stays put for any number of updates |
| `ChimpSprite.PunchWhileSpinning` | chimp.py:105-109 | `punched` while dizzy is a no-op |
| `ChimpSprite.Chimp.constructor` | chimp.py:65-72 | the new object's fields are `Initial` of the image size, and it satisfies the invariant |
| `ChimpSprite.Chimp.Update` | chimp.py:74-79 | the fields become `UpdateStep` of the old fields; the invariant is kept |
| `ChimpSprite.Chimp.Walk` | chimp.py:81-90 | the fields become `WalkStep` of the old fields |
| `ChimpSprite.Chimp.Spin` | chimp.py:93-103 | the fields become `SpinStep` of the old fields |
| `ChimpSprite.Chimp.Punched` | chimp.py:105-109 | the fields become `PunchedStep` of the old fields; the invariant is kept |
| `FistSprite.Hitbox` | chimp.py:56 | the hitbox is 5 pixels narrower and 5 pixels lower than the fist, and lies inside a fist of at least 5 by 5 |
| `FistSprite.UpdateStep` | chimp.py:45-50 | the size and `punching` are kept; `midtop` is the pointer, pushed by (5, 10) exactly when punching |
| `FistSprite.PunchStep` | chimp.py:52-57 | afterwards the fist is punching with its rect unchanged; when not already punching, the hit is whether the hitbox collides with the target; when already punching, there is no hit and nothing changes |
| `FistSprite.UnpunchStep` | chimp.py:59-61 | `punching` is cleared and the rect kept |
| `FistSprite.SecondPunchMisses` | chimp.py:52-57 | a second punch before a release misses and changes nothing, at any target |
| `FistSprite.UnpunchRearms` | chimp.py:52-61 | after `unpunch`, `punch` hits exactly when the hitbox collides with the target |
| `FistSprite.UnpunchIdempotent` | chimp.py:59-61 | `unpunch` is idempotent |
| `FistSprite.Fist.constructor` | chimp.py:40-43 | the rect is the loaded image's rect at the origin, not punching |
| `FistSprite.Fist.Update` | chimp.py:45-50 | the fields become `UpdateStep` of the old fields and the pointer |
| `FistSprite.Fist.Punch` | chimp.py:52-57 | the fields and result are `PunchStep` of the old fields and the chimp's rect; the chimp is unchanged |
| `FistSprite.Fist.Unpunch` | chimp.py:59-61 | the fields become `UnpunchStep` of the old fields |
| `Game.IsQuit` | chimp.py:155-158 | a window-close event and an Escape key-down end the game; mouse events, other events and other keys never do |
| `Game.Dispatch` | chimp.py:155-166 | stops exactly on Quit or Escape; a button-down punches, plays exactly one sound (the punch sound iff the punch hit), and calls `punched` iff it hit; a button-up unpunches; no other event changes the chimp or plays a sound |
| `Game.HandleEvents` | chimp.py:154-166 | handling the events keeps the condition that a dizzy chimp has an `original` |
| `Game.FrameStep` | chimp.py:154-168 | sounds and the stop flag are those of event handling; on a stop no sprite is updated; otherwise the fist and then the chimp are updated after all events |
| `Game.HandleEventsKeepsInv` | chimp.py:154-166 | event handling keeps the chimp invariant |
| `Game.QuitSticks` | chimp.py:155-158 | once a prefix of the events has ended the game, the remaining events change nothing |
| `Game.QuitEndsHandling` | chimp.py:155-158 | a Quit or Escape ends handling, and the events after it are ignored |
| `Game.QuitIff` | chimp.py:155-158 | event handling stops exactly when some event is a Quit or Escape |
| `Game.OneHitPerPress` | chimp.py:159-166 | with no button-up among the events, at most one punch sound is played, and none if the fist was already punching |
| `Game.NoHitKeepsChimp` | chimp.py:159-164 | if no punch sound was played, the chimp is unchanged |
| `Game.OneSoundPerButtonDown` | chimp.py:159-164 | without a quit, the number of sounds equals the number of button-downs |
| `Game.QuitSkipsUpdates` | chimp.py:155-168 | a frame with a Quit or Escape stops, and neither sprite is updated |
| `Game.TallChimpKeepsWalking` | chimp.py:83-90 | a walking chimp taller than 50 pixels at y = 10 is never inside the 60-pixel-high window, so each `_walk` moves it by its new `move` and it stays at y = 10 |
| `Game.SmallChimpStays` | chimp.py:83-90 | as written, a 20 by 20 chimp starting at (10, 10) in the 468 by 60 window never moves |
| `Game.LeftEdgeBounce` | chimp.py:81-90 | a 66 by 60 chimp at x = -3 walking left turns right, mirrors, and moves to x = 6 |
| `Game.HitStartsSpin` | chimp.py:159-168 | a first button-down whose hitbox overlaps a walking chimp plays the punch sound, and after this frame's update the chimp's `dizzy` is 13 |
| `Game.Frame` | chimp.py:154-168 | the sprites' new fields, the sounds and the stop flag are `FrameStep` of the old fields, the events and the pointer; the chimp invariant is kept |

## Left out

- `load_image` and `load_sound` (chimp.py:10-35) are file I/O. This covers
  the colorkey handling and the failure exit. A sprite's constructor takes the
  loaded image's size instead. The fist's image never changes and is not
  modelled.
- Display, font, background and caption setup, blitting, drawing and
  `display.flip` (chimp.py:114-133, 144, 171-173) are rendering. The
  draw order is therefore not modelled.
- `clock.tick(60)` (chimp.py:151) is real-time rate limiting. The unbounded
  `while 1` loop (chimp.py:149) is not modelled as a loop: `Game.Frame` is one
  pass of its body.
- `pygame.mouse.get_pos()` and `pygame.event.get()` are inputs: the pointer
  position at update time and the frame's event sequence.
- Sound playback is only recorded as a punch or whiff trigger in the returned
  sequence. A silent `NoneSound` when the mixer is missing records the same
  triggers.
- Pixels are not modelled, and neither is the exact size of a rotated image,
  which pygame computes with floating point. An image is its size, mirror flag
  and angle, and the rotated size is the parameter `RotatedSize`.
- Rect arithmetic: pygame stores rect fields as C ints. The model uses unbounded
  integers, so 32-bit overflow is not modelled.
- FistSprite.PunchStep: `punch` returns `None` when already punching. The
  model returns `false`, the only thing the caller tests. `punching` holds 0 or
  1 in the source and is a `bool` here.
- ChimpSprite.SpinStep: requires an `original`. In the source, `_spin` without
  one would raise `AttributeError`. The invariant shows this never happens,
  because `dizzy` only becomes non-zero in `punched`, which sets `original`.
- The chimp's play area is the screen rectangle passed to the
  constructor, where the source reads it from the display surface.
