/** One pass of the main loop's body: handle the frame's input events in
    order, stopping at a quit or Escape, then update both sprites. The events
    and the mouse position are inputs; sounds are recorded as triggers. */
module Game {
  import opened Geometry
  import opened Images
  import opened ChimpSprite
  import opened FistSprite

  /** pygame's key code for Escape. */
  const K_ESCAPE := 27

  /** The play area: the 468 by 60 window's rectangle. */
  const SCREEN := Rect(0, 0, 468, 60)

  /** Input events; every other kind of event is `Other`. */
  datatype Event = Quit | KeyDown(key: int) | MouseButtonDown | MouseButtonUp | Other

  datatype Sound = PunchSound | WhiffSound

  /** The two sprites' states. */
  datatype World = World(fist: FistState, chimp: ChimpState)

  /** Where event handling got to: the sprites, the sounds triggered so far
      and whether the game was told to stop. */
  datatype Handled = Handled(world: World, sounds: seq<Sound>, quit: bool)

  /** The result of one frame. */
  datatype FrameOutcome = FrameOutcome(world: World, sounds: seq<Sound>, quit: bool)

  /** Events that end the game: a quit request or the Escape key. */
  predicate IsQuit(e: Event)
    ensures IsQuit(e) ==> !e.MouseButtonDown? && !e.MouseButtonUp? && !e.Other?
    ensures e.KeyDown? && e.key != K_ESCAPE ==> !IsQuit(e)
    ensures e.Quit? || e == KeyDown(K_ESCAPE) ==> IsQuit(e)
  {
    e.Quit? || (e.KeyDown? && e.key == K_ESCAPE)
  }

  /** Number of punch sounds among the triggered sounds. */
  function Hits(sounds: seq<Sound>): nat {
    if |sounds| == 0 then 0
    else Hits(sounds[..|sounds| - 1]) + (if sounds[|sounds| - 1] == PunchSound then 1 else 0)
  }

  /** One event. A button-down punches at the chimp: a hit plays the punch
      sound and makes the chimp spin, anything else plays the whiff sound. A
      button-up pulls the fist back. */
  function Dispatch(w: World, e: Event): (d: Handled)
    ensures d.quit <==> IsQuit(e)
    ensures !e.MouseButtonDown? ==> d.sounds == [] && d.world.chimp == w.chimp
    ensures e.MouseButtonDown? ==>
              var p := PunchStep(w.fist, w.chimp.rect);
              && d.world.fist == p.fist
              && d.sounds == [if p.hit then PunchSound else WhiffSound]
              && d.world.chimp == (if p.hit then PunchedStep(w.chimp) else w.chimp)
    ensures e.MouseButtonUp? ==> d.world.fist == UnpunchStep(w.fist)
    ensures !e.MouseButtonDown? && !e.MouseButtonUp? ==> d.world == w
  {
    match e
    case Quit => Handled(w, [], true)
    case KeyDown(k) => Handled(w, [], k == K_ESCAPE)
    case MouseButtonDown =>
      var p := PunchStep(w.fist, w.chimp.rect);
      if p.hit then Handled(World(p.fist, PunchedStep(w.chimp)), [PunchSound], false)
      else Handled(World(p.fist, w.chimp), [WhiffSound], false)
    case MouseButtonUp => Handled(World(UnpunchStep(w.fist), w.chimp), [], false)
    case Other => Handled(w, [], false)
  }

  /** The `for event in ...` loop: events are handled in order, and once one
      of them ends the game the rest are not looked at. */
  function HandleEvents(w: World, events: seq<Event>): (h: Handled)
    ensures SpinReady(w.chimp) ==> SpinReady(h.world.chimp)
  {
    if |events| == 0 then Handled(w, [], false)
    else
      var h := HandleEvents(w, events[..|events| - 1]);
      if h.quit then h
      else
        var d := Dispatch(h.world, events[|events| - 1]);
        Handled(d.world, h.sounds + d.sounds, d.quit)
  }

  /** Lines 154-168: handle the events; unless the game ended, then update the
      fist (to the pointer position) and the chimp. */
  function FrameStep(w: World, events: seq<Event>, pointer: Point, area: Rect, rot: RotatedSize): (r: FrameOutcome)
    requires Inv(w.chimp, rot)
    ensures var h := HandleEvents(w, events);
            && r.sounds == h.sounds && r.quit == h.quit
            && (h.quit ==> r.world == h.world)
            && (!h.quit ==> r.world == World(FistSprite.UpdateStep(h.world.fist, pointer),
                                             ChimpSprite.UpdateStep(h.world.chimp, area, rot)))
  {
    var h := HandleEvents(w, events);
    HandleEventsKeepsInv(w, events, rot);
    if h.quit then FrameOutcome(h.world, h.sounds, true)
    else
      FrameOutcome(World(FistSprite.UpdateStep(h.world.fist, pointer),
                         ChimpSprite.UpdateStep(h.world.chimp, area, rot)),
                   h.sounds, false)
  }

  /** Event handling keeps the chimp's invariant. */
  lemma {:induction false} HandleEventsKeepsInv(w: World, events: seq<Event>, rot: RotatedSize)
    requires Inv(w.chimp, rot)
    ensures Inv(HandleEvents(w, events).world.chimp, rot)
  {
    if |events| > 0 {
      var h := HandleEvents(w, events[..|events| - 1]);
      HandleEventsKeepsInv(w, events[..|events| - 1], rot);
      PunchedKeepsInv(h.world.chimp, rot);
    }
  }

  /** Once handling has ended the game at some prefix, the remaining events
      change nothing. */
  lemma {:induction false} QuitSticks(w: World, events: seq<Event>, j: nat)
    requires j <= |events|
    requires HandleEvents(w, events[..j]).quit
    ensures HandleEvents(w, events) == HandleEvents(w, events[..j])
    decreases |events| - j
  {
    if j < |events| {
      var n := |events|;
      assert events[..n - 1][..j] == events[..j];
      QuitSticks(w, events[..n - 1], j);
    } else {
      assert events[..j] == events;
    }
  }

  /** A quit or Escape ends event handling at once: the events after it are
      ignored. */
  lemma QuitEndsHandling(w: World, before: seq<Event>, e: Event, after: seq<Event>)
    requires IsQuit(e)
    ensures HandleEvents(w, before + [e]).quit
    ensures HandleEvents(w, before + [e] + after) == HandleEvents(w, before + [e])
  {
    var evs := before + [e] + after;
    assert (before + [e])[..|before|] == before;
    assert evs[..|before| + 1] == before + [e];
    QuitSticks(w, evs, |before| + 1);
  }

  /** Handling ends the game exactly when some event is a quit or Escape. */
  lemma {:induction false} QuitIff(w: World, events: seq<Event>)
    ensures HandleEvents(w, events).quit <==> exists i :: 0 <= i < |events| && IsQuit(events[i])
  {
    if |events| > 0 {
      var n := |events|;
      var prefix := events[..n - 1];
      QuitIff(w, prefix);
      assert forall i :: 0 <= i < n - 1 ==> prefix[i] == events[i];
      if HandleEvents(w, prefix).quit {
        var i :| 0 <= i < n - 1 && IsQuit(prefix[i]);
        assert IsQuit(events[i]);
      }
    }
  }

  /** Between two button-ups at most one punch can hit, and none can if the
      fist was already punching: only the first button-down tests the
      collision. */
  lemma {:induction false} OneHitPerPress(w: World, events: seq<Event>)
    requires forall i :: 0 <= i < |events| ==> !events[i].MouseButtonUp?
    ensures var h := HandleEvents(w, events);
            && Hits(h.sounds) <= (if w.fist.punching then 0 else 1)
            && (w.fist.punching || Hits(h.sounds) == 1 ==> h.world.fist.punching)
  {
    if |events| > 0 {
      var n := |events|;
      var prefix := events[..n - 1];
      var e := events[n - 1];
      assert forall i :: 0 <= i < n - 1 ==> prefix[i] == events[i];
      OneHitPerPress(w, prefix);
      var h := HandleEvents(w, prefix);
      if !h.quit {
        var d := Dispatch(h.world, e);
        assert HandleEvents(w, events) == Handled(d.world, h.sounds + d.sounds, d.quit);
        HitsAppend(h.sounds, d.sounds);
        if e.MouseButtonDown? {
          HitsSingle(d.sounds[0]);
          if h.world.fist.punching {
            assert d.sounds == [WhiffSound] && d.world.fist.punching;
          } else {
            assert d.world.fist.punching;
          }
        } else {
          assert d.sounds == [] && d.world == h.world;
        }
      }
    }
  }

  lemma HitsSingle(x: Sound)
    ensures Hits([x]) == (if x == PunchSound then 1 else 0)
  {
    assert [x][..0] == [];
  }

  /** Event handling changes the chimp only through a hit. */
  lemma {:induction false} NoHitKeepsChimp(w: World, events: seq<Event>)
    requires Hits(HandleEvents(w, events).sounds) == 0
    ensures HandleEvents(w, events).world.chimp == w.chimp
  {
    if |events| > 0 {
      var n := |events|;
      var h := HandleEvents(w, events[..n - 1]);
      if !h.quit {
        var d := Dispatch(h.world, events[n - 1]);
        HitsAppend(h.sounds, d.sounds);
      }
      NoHitKeepsChimp(w, events[..n - 1]);
    }
  }

  /** Every button-down handled triggers exactly one sound, and nothing else
      triggers one. */
  lemma {:induction false} OneSoundPerButtonDown(w: World, events: seq<Event>)
    requires forall i :: 0 <= i < |events| ==> !IsQuit(events[i])
    ensures |HandleEvents(w, events).sounds| == ButtonDowns(events)
  {
    QuitIff(w, events);
    if |events| > 0 {
      var n := |events|;
      OneSoundPerButtonDown(w, events[..n - 1]);
      QuitIff(w, events[..n - 1]);
    }
  }

  /** Number of button-down events. */
  function ButtonDowns(events: seq<Event>): nat {
    if |events| == 0 then 0
    else ButtonDowns(events[..|events| - 1]) + (if events[|events| - 1].MouseButtonDown? then 1 else 0)
  }

  lemma {:induction false} HitsAppend(a: seq<Sound>, b: seq<Sound>)
    requires |b| <= 1
    ensures Hits(a + b) == Hits(a) + Hits(b)
  {
    if |b| == 1 {
      assert (a + b)[..|a|] == a;
      assert b[..0] == [];
    } else {
      assert a + b == a;
    }
  }

  /** When any event of a frame is a quit or Escape, neither sprite is
      updated in that frame. */
  lemma QuitSkipsUpdates(w: World, before: seq<Event>, e: Event, after: seq<Event>,
                         pointer: Point, area: Rect, rot: RotatedSize)
    requires Inv(w.chimp, rot) && IsQuit(e)
    ensures var r := FrameStep(w, before + [e] + after, pointer, area, rot);
            r.quit && r.world == HandleEvents(w, before + [e]).world
  {
    QuitEndsHandling(w, before, e, after);
  }

  /** A chimp whose 20 by 20 image fits in the window never walks: from its
      start at (10, 10) every step would stay inside the screen. */
  lemma SmallChimpStays(n: nat, rot: RotatedSize)
    ensures Inv(Initial(Size(20, 20)), rot)
    ensures Ticks(Initial(Size(20, 20)), n, SCREEN, rot) == Initial(Size(20, 20))
  {
    InitialInv(Size(20, 20), rot);
    StallsInside(Initial(Size(20, 20)), n, SCREEN, rot);
  }

  /** A walking chimp taller than 50 pixels at y = 10 never fits in the
      60-pixel-high window, so the commit at line 90 always moves it. */
  lemma TallChimpKeepsWalking(s: ChimpState)
    requires s.dizzy == 0 && s.rect.y == 10 && s.rect.h > 50
    ensures var r := WalkStep(s, SCREEN);
            r.rect == s.rect.Move(r.move, 0) && r.rect.y == 10
  {
  }

  /** A 66 by 60 chimp three pixels past the left edge, walking left, turns
      round: it now walks right, faces the other way, and moves 9 to the
      right of where it was. */
  lemma LeftEdgeBounce(img: Image)
    requires img.size == Size(66, 60)
    ensures var s := ChimpState(Rect(-3, 10, 66, 60), -SPEED, 0, img, None);
            var r := WalkStep(s, SCREEN);
            r.move == SPEED && r.rect == Rect(6, 10, 66, 60) && r.image.mirrored == !img.mirrored
  {
  }

  /** A first button-down whose hitbox overlaps a walking chimp plays the
      punch sound and starts the chimp's spin; the frame's update then turns
      it by 13 degrees. */
  lemma HitStartsSpin(w: World, pointer: Point, rot: RotatedSize)
    requires Inv(w.chimp, rot) && w.chimp.dizzy == 0 && !w.fist.punching
    requires Hitbox(w.fist).CollidesWith(w.chimp.rect)
    ensures var r := FrameStep(w, [MouseButtonDown], pointer, SCREEN, rot);
            && r.sounds == [PunchSound] && !r.quit
            && r.world.chimp.dizzy == 13
            && r.world.chimp.original == Some(w.chimp.image)
            && r.world.fist.punching
  {
    var evs := [MouseButtonDown];
    assert evs[..0] == [];
    assert HandleEvents(w, evs[..0]) == Handled(w, [], false);
    var d := Dispatch(w, MouseButtonDown);
    assert d.sounds == [PunchSound] && d.world.chimp == PunchedStep(w.chimp);
    assert HandleEvents(w, evs) == Handled(d.world, [] + d.sounds, false);
    PunchedKeepsInv(w.chimp, rot);
  }

  /** The body of the main loop for one frame, given the frame's events and
      the mouse position at the time the sprites are updated. */
  method Frame(fist: Fist, chimp: Chimp, events: seq<Event>, pointer: Point)
    returns (sounds: seq<Sound>, quit: bool)
    requires chimp.Valid()
    modifies fist, chimp
    ensures chimp.Valid()
    ensures FrameOutcome(World(fist.State(), chimp.State()), sounds, quit)
            == FrameStep(World(old(fist.State()), old(chimp.State())), events, pointer, chimp.area, chimp.rot)
  {
    ghost var w0 := World(fist.State(), chimp.State());
    sounds := [];
    for i := 0 to |events|
      invariant chimp.Valid()
      invariant HandleEvents(w0, events[..i]) == Handled(World(fist.State(), chimp.State()), sounds, false)
    {
      var event := events[i];
      assert events[..i + 1][..i] == events[..i];
      if event.Quit? {
        QuitSticks(w0, events, i + 1);
        return sounds, true;
      } else if event.KeyDown? && event.key == K_ESCAPE {
        QuitSticks(w0, events, i + 1);
        return sounds, true;
      } else if event.MouseButtonDown? {
        var hit := fist.Punch(chimp);
        if hit {
          sounds := sounds + [PunchSound];
          chimp.Punched();
        } else {
          sounds := sounds + [WhiffSound];
        }
      } else if event.MouseButtonUp? {
        fist.Unpunch();
      }
    }
    assert events[..|events|] == events;
    fist.Update(pointer);
    chimp.Update();
    quit := false;
  }
}
