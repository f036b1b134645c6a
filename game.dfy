/**
 * The state the main loop of Stellar Explorer keeps between frames, and one
 * iteration of that loop (`Tick`): move, count down the spawn timers and
 * spawn, collect stars, bounce off hazards, draw the popup.
 */
module Game {
  import opened Geometry
  import opened Entities
  import opened Popups

  const PlayerSize: nat := 50
  /** Pixels per tick per pressed arrow key. */
  const Speed: int := 5
  /** A star is spawned once the star timer exceeds this, a hazard once the hazard timer exceeds the other. */
  const StarSpawnThreshold: nat := 60
  const HazardSpawnThreshold: nat := 300
  /** How many of the latest cards the card list shows. */
  const ShownCards: nat := 5

  /** The arrow keys held down in this tick. */
  datatype Keys = Keys(left: bool, right: bool, up: bool, down: bool)

  /** The player's displacement along one axis, given the keys towards lower and higher coordinates. */
  function AxisStep(back: bool, forward: bool): (d: int)
    ensures d == 0 <==> back == forward
    ensures d == Speed <==> forward && !back
    ensures d == -Speed <==> back && !forward
  {
    (if forward then Speed else 0) - (if back then Speed else 0)
  }

  function PlayerRectAt(x: int, y: int): Rect
  {
    Rect(x, y, PlayerSize, PlayerSize)
  }

  /** Where the player stands after this tick's keys, before any hazard reset. */
  function MovedPlayer(x: int, y: int, keys: Keys): Rect
  {
    PlayerRectAt(x + AxisStep(keys.left, keys.right), y + AxisStep(keys.up, keys.down))
  }

  /** The player's starting place and the place a hazard sends it back to: centred on the screen. */
  const StartRect: Rect := CenteredRect(Width / 2, Height / 2, PlayerSize, PlayerSize)

  /**
   * One tick of a spawn timer: it is incremented, and when it exceeds the
   * threshold it goes back to 0 and a spawn happens. Returns the new timer
   * and whether a spawn happens.
   */
  function Cadence(timer: nat, threshold: nat): (r: (nat, bool))
    ensures r.1 <==> timer + 1 > threshold
    ensures r.1 <==> r.0 == 0
    ensures !r.1 ==> r.0 == timer + 1
    ensures timer <= threshold ==> r.0 <= threshold
  {
    if timer + 1 > threshold then (0, true) else (timer + 1, false)
  }

  /** A spawn timer's value after n ticks from 0. */
  function TimerAfter(n: nat, threshold: nat): (t: nat)
    ensures t <= threshold
  {
    if n == 0 then 0 else Cadence(TimerAfter(n - 1, threshold), threshold).0
  }

  lemma {:induction false} TimerAfterCycles(k: nat, r: nat, threshold: nat)
    requires r <= threshold
    ensures TimerAfter(k * (threshold + 1) + r, threshold) == r
    decreases k, r
  {
    var m := threshold + 1;
    if r > 0 {
      TimerAfterCycles(k, r - 1, threshold);
    } else if k > 0 {
      assert k * m + r - 1 == (k - 1) * m + threshold;
      TimerAfterCycles(k - 1, threshold, threshold);
    }
  }

  /** After n ticks from 0 the timer reads n modulo (threshold + 1). */
  lemma TimerAfterIsTickCountMod(n: nat, threshold: nat)
    ensures TimerAfter(n, threshold) == n % (threshold + 1)
  {
    var m := threshold + 1;
    assert n == (n / m) * m + n % m;
    TimerAfterCycles(n / m, n % m, threshold);
  }

  /**
   * From a fresh start a spawn happens on tick n exactly when n is a multiple
   * of threshold + 1: stars on ticks 61, 122, 183, ..., hazards every 301 ticks.
   */
  lemma SpawnTicks(n: nat, threshold: nat)
    requires n >= 1
    ensures Cadence(TimerAfter(n - 1, threshold), threshold).1 <==> n % (threshold + 1) == 0
  {
    TimerAfterIsTickCountMod(n, threshold);
  }

  /** One tick of a timer that has run n ticks: it now reads as after n + 1, and it fires exactly on multiples of threshold + 1. */
  lemma CadenceStep(n: nat, timer: nat, threshold: nat)
    requires timer == TimerAfter(n, threshold)
    ensures Cadence(timer, threshold).0 == TimerAfter(n + 1, threshold)
    ensures Cadence(timer, threshold).1 <==> (n + 1) % (threshold + 1) == 0
  {
    SpawnTicks(n + 1, threshold);
  }

  /** A group after its moves and kills, with the newcomer appended when the timer fires. */
  function Arrivals(group: seq<Entity>, moves: seq<Delta>, timer: nat, threshold: nat, newcomer: Entity): seq<Entity>
    requires |moves| == |group|
  {
    Survivors(group, moves) + (if Cadence(timer, threshold).1 then [newcomer] else [])
  }

  /** `collected_cards[-5:]`: the last five cards, or all of them when there are fewer, oldest first. */
  function VisibleCards(cards: seq<string>): (shown: seq<string>)
    ensures |shown| == if |cards| < ShownCards then |cards| else ShownCards
    ensures forall i :: 0 <= i < |shown| ==> shown[i] == cards[|cards| - |shown| + i]
  {
    if |cards| <= ShownCards then cards else cards[|cards| - ShownCards..]
  }

  /** Collecting a card slides the window: the oldest shown card drops out once five are shown, and the new one is last. */
  lemma NewestCardShownLast(cards: seq<string>, c: string)
    ensures VisibleCards(cards + [c]) ==
            VisibleCards(cards)[(if |cards| < ShownCards then 0 else 1)..] + [c]
  {
    if |cards| >= ShownCards {
      var n := |cards|;
      assert VisibleCards(cards)[1..] == cards[n - ShownCards + 1..];
      assert (cards + [c])[n + 1 - ShownCards..] == cards[n + 1 - ShownCards..] + [c];
    }
  }

  const FoundPrefix: string := "You discovered a "
  const FoundSuffix: string := " star!\nAdded to HR Diagram and Cards."
  const DangerPrefix: string := "Danger! You hit a "
  const DangerSuffix: string := "!\nTeleporting to safe zone."

  /** The popup text for a collected star; the star's type can be read back from it. */
  function FoundText(kind: string): (t: string)
    ensures |t| == |FoundPrefix| + |kind| + |FoundSuffix|
    ensures t[|FoundPrefix|..|FoundPrefix| + |kind|] == kind
  {
    var t := FoundPrefix + kind + FoundSuffix;
    assert t[|FoundPrefix|..|FoundPrefix| + |kind|] == kind;
    t
  }

  /** The popup text for a hazard hit; the hazard's type can be read back from it. */
  function DangerText(kind: string): (t: string)
    ensures |t| == |DangerPrefix| + |kind| + |DangerSuffix|
    ensures t[|DangerPrefix|..|DangerPrefix| + |kind|] == kind
  {
    var t := DangerPrefix + kind + DangerSuffix;
    assert t[|DangerPrefix|..|DangerPrefix| + |kind|] == kind;
    t
  }

  /** The module-level state of the game loop. */
  class GameState {
    /** Top-left corner of the player's 50x50 rectangle. */
    var playerX: int
    var playerY: int
    var stars: seq<Entity>
    var hazards: seq<Entity>
    var spawnTimer: nat
    var hazardTimer: nat
    var collectedCards: seq<string>
    var popup: Popup?
    /** Ticks run since the start. */
    ghost var ticks: nat

    ghost predicate Valid()
      reads this, popup
    {
      spawnTimer == TimerAfter(ticks, StarSpawnThreshold) &&
      hazardTimer == TimerAfter(ticks, HazardSpawnThreshold) &&
      WellFormed(stars, StarSize, StarTypes) &&
      WellFormed(hazards, HazardSize, HazardTypes) &&
      (forall c :: c in collectedCards ==> c in StarTypes) &&
      (popup != null ==> popup.Valid() && popup.active)
    }

    function PlayerRect(): Rect
      reads this
    {
      PlayerRectAt(playerX, playerY)
    }

    /** The set-up before the loop: the player centred, nothing spawned, no cards, no popup. */
    constructor ()
      ensures Valid()
      ensures PlayerRect() == StartRect && playerX == 475 && playerY == 325
      ensures stars == [] && hazards == [] && collectedCards == [] && popup == null
      ensures spawnTimer == 0 && hazardTimer == 0 && ticks == 0
    {
      playerX, playerY := Width / 2 - PlayerSize / 2, Height / 2 - PlayerSize / 2;
      stars, hazards := [], [];
      spawnTimer, hazardTimer := 0, 0;
      collectedCards := [];
      popup := null;
      ticks := 0;
    }

    /** `Player.update`: each axis moves by its own keys only, 5 per key, opposite keys cancelling. */
    method MovePlayer(keys: Keys)
      modifies this`playerX, this`playerY
      ensures playerX == old(playerX) + AxisStep(keys.left, keys.right)
      ensures playerY == old(playerY) + AxisStep(keys.up, keys.down)
    {
      if keys.left {
        playerX := playerX - Speed;
      }
      if keys.right {
        playerX := playerX + Speed;
      }
      if keys.up {
        playerY := playerY - Speed;
      }
      if keys.down {
        playerY := playerY + Speed;
      }
    }

    /** `reset_player`: the player is centred on the screen whatever its position was. */
    method ResetPlayer()
      modifies this`playerX, this`playerY
      ensures PlayerRect() == StartRect
      ensures PlayerRect().CenterX() == Width / 2 && PlayerRect().CenterY() == Height / 2
    {
      playerX := Width / 2 - PlayerSize / 2;
      playerY := Height / 2 - PlayerSize / 2;
    }

    /**
     * The loop over this tick's star hits: each hit's type is appended to the
     * cards and raises a new popup, so the last hit's popup is the one kept.
     */
    method RecordFinds(hits: seq<Entity>)
      modifies this`collectedCards, this`popup
      ensures collectedCards == old(collectedCards) + Kinds(hits)
      ensures hits == [] ==> popup == old(popup)
      ensures hits != [] ==>
                popup != null && fresh(popup) && popup.Valid() && popup.active &&
                popup.timer == DisplayTicks && popup.text == FoundText(hits[|hits| - 1].kind)
    {
      var i := 0;
      while i < |hits|
        invariant 0 <= i <= |hits|
        invariant collectedCards == old(collectedCards) + Kinds(hits[..i])
        invariant i == 0 ==> popup == old(popup)
        invariant i > 0 ==>
                    popup != null && fresh(popup) && popup.Valid() && popup.active &&
                    popup.timer == DisplayTicks && popup.text == FoundText(hits[i - 1].kind)
      {
        collectedCards := collectedCards + [hits[i].kind];
        popup := new Popup(FoundText(hits[i].kind));
        assert hits[..i + 1][..i] == hits[..i];
        i := i + 1;
      }
      assert hits[..i] == hits;
    }

    /** Step 1: the player moves by the keys, then every star and hazard moves and the off-screen ones are killed. */
    method MoveAll(keys: Keys, starMoves: seq<Delta>, hazardMoves: seq<Delta>)
      requires |starMoves| == |stars| && |hazardMoves| == |hazards|
      requires WellFormed(stars, StarSize, StarTypes) && WellFormed(hazards, HazardSize, HazardTypes)
      modifies this`playerX, this`playerY, this`stars, this`hazards
      ensures PlayerRect() == MovedPlayer(old(playerX), old(playerY), keys)
      ensures stars == Survivors(old(stars), starMoves)
      ensures hazards == Survivors(old(hazards), hazardMoves)
      ensures WellFormed(stars, StarSize, StarTypes) && WellFormed(hazards, HazardSize, HazardTypes)
    {
      MovePlayer(keys);
      SurvivorsWellFormed(stars, starMoves, StarSize, StarTypes);
      SurvivorsWellFormed(hazards, hazardMoves, HazardSize, HazardTypes);
      stars := UpdateGroup(stars, starMoves);
      hazards := UpdateGroup(hazards, hazardMoves);
    }

    /** Step 2: both timers tick; a timer past its threshold spawns one entity and restarts at 0. */
    method AdvanceTimers(starDraw: SpawnDraw, hazardDraw: SpawnDraw)
      requires StarDrawOk(starDraw) && HazardDrawOk(hazardDraw)
      requires spawnTimer == TimerAfter(ticks, StarSpawnThreshold)
      requires hazardTimer == TimerAfter(ticks, HazardSpawnThreshold)
      requires WellFormed(stars, StarSize, StarTypes) && WellFormed(hazards, HazardSize, HazardTypes)
      modifies this`spawnTimer, this`hazardTimer, this`stars, this`hazards, this`ticks
      ensures ticks == old(ticks) + 1
      ensures spawnTimer == TimerAfter(ticks, StarSpawnThreshold) == Cadence(old(spawnTimer), StarSpawnThreshold).0
      ensures hazardTimer == TimerAfter(ticks, HazardSpawnThreshold) == Cadence(old(hazardTimer), HazardSpawnThreshold).0
      ensures Cadence(old(spawnTimer), StarSpawnThreshold).1 <==> ticks % (StarSpawnThreshold + 1) == 0
      ensures Cadence(old(hazardTimer), HazardSpawnThreshold).1 <==> ticks % (HazardSpawnThreshold + 1) == 0
      ensures stars == old(stars) + (if Cadence(old(spawnTimer), StarSpawnThreshold).1 then [NewStar(starDraw)] else [])
      ensures hazards == old(hazards) + (if Cadence(old(hazardTimer), HazardSpawnThreshold).1 then [NewHazard(hazardDraw)] else [])
      ensures WellFormed(stars, StarSize, StarTypes) && WellFormed(hazards, HazardSize, HazardTypes)
    {
      CadenceStep(ticks, spawnTimer, StarSpawnThreshold);
      CadenceStep(ticks, hazardTimer, HazardSpawnThreshold);
      ticks := ticks + 1;
      spawnTimer := spawnTimer + 1;
      hazardTimer := hazardTimer + 1;
      if spawnTimer > StarSpawnThreshold {
        WellFormedAppend(stars, NewStar(starDraw), StarSize, StarTypes);
        stars := stars + [NewStar(starDraw)];
        spawnTimer := 0;
      }
      if hazardTimer > HazardSpawnThreshold {
        WellFormedAppend(hazards, NewHazard(hazardDraw), HazardSize, HazardTypes);
        hazards := hazards + [NewHazard(hazardDraw)];
        hazardTimer := 0;
      }
    }

    /** Step 3: the stars touching the player are removed and recorded as cards; the rest stay. */
    method CollectStars()
      requires WellFormed(stars, StarSize, StarTypes)
      requires forall c :: c in collectedCards ==> c in StarTypes
      modifies this`stars, this`collectedCards, this`popup
      ensures stars == Misses(old(stars), PlayerRect())
      ensures collectedCards == old(collectedCards) + Kinds(Hits(old(stars), PlayerRect()))
      ensures WellFormed(stars, StarSize, StarTypes)
      ensures forall c :: c in collectedCards ==> c in StarTypes
      ensures var found := Hits(old(stars), PlayerRect());
              if found == [] then popup == old(popup)
              else popup != null && fresh(popup) && popup.Valid() && popup.active &&
                   popup.timer == DisplayTicks && popup.text == FoundText(found[|found| - 1].kind)
    {
      var found, rest := SpriteCollide(stars, PlayerRect());
      HitsExactly(stars, PlayerRect());
      MissesExactly(stars, PlayerRect());
      KindsWithin(found, StarSize, StarTypes);
      stars := rest;
      RecordFinds(found);
    }

    /** Step 4: touching any hazard sends the player back to the centre and raises the danger popup. */
    method HitHazards()
      modifies this`playerX, this`playerY, this`popup
      ensures var dangers := Hits(hazards, old(PlayerRect()));
              if dangers == [] then
                PlayerRect() == old(PlayerRect()) && popup == old(popup)
              else
                PlayerRect() == StartRect &&
                popup != null && fresh(popup) && popup.Valid() && popup.active &&
                popup.timer == DisplayTicks && popup.text == DangerText(dangers[0].kind)
    {
      var dangers, untouched := SpriteCollide(hazards, PlayerRect());
      if dangers != [] {
        popup := new Popup(DangerText(dangers[0].kind));
        ResetPlayer();
      }
    }

    /** Step 5: an active popup is drawn once, and dropped in the same tick when its countdown reaches 0. */
    method DrawPopup()
      requires popup != null ==> popup.Valid() && popup.active
      modifies this`popup, popup
      ensures old(popup) == null ==> popup == null
      ensures old(popup) != null ==>
                if old(popup.timer) == 1 then popup == null
                else popup == old(popup) && popup.Valid() && popup.active &&
                     popup.timer == old(popup.timer) - 1 && popup.text == old(popup.text)
    {
      if popup != null {
        popup.Draw();
        if !popup.active {
          popup := null;
        }
      }
    }

    /** Steps 1 and 2 of a tick: everything moves, the timers count, and what is due spawns. */
    method MoveAndSpawn(keys: Keys, starMoves: seq<Delta>, hazardMoves: seq<Delta>,
                        starDraw: SpawnDraw, hazardDraw: SpawnDraw)
      requires Valid()
      requires |starMoves| == |stars| && |hazardMoves| == |hazards|
      requires StarDrawOk(starDraw) && HazardDrawOk(hazardDraw)
      modifies this`playerX, this`playerY, this`stars, this`hazards, this`spawnTimer, this`hazardTimer, this`ticks
      ensures Valid()
      ensures ticks == old(ticks) + 1
      ensures spawnTimer == Cadence(old(spawnTimer), StarSpawnThreshold).0
      ensures hazardTimer == Cadence(old(hazardTimer), HazardSpawnThreshold).0
      ensures Cadence(old(spawnTimer), StarSpawnThreshold).1 <==> ticks % (StarSpawnThreshold + 1) == 0
      ensures Cadence(old(hazardTimer), HazardSpawnThreshold).1 <==> ticks % (HazardSpawnThreshold + 1) == 0
      ensures PlayerRect() == MovedPlayer(old(playerX), old(playerY), keys)
      ensures stars == Arrivals(old(stars), starMoves, old(spawnTimer), StarSpawnThreshold, NewStar(starDraw))
      ensures hazards == Arrivals(old(hazards), hazardMoves, old(hazardTimer), HazardSpawnThreshold, NewHazard(hazardDraw))
    {
      MoveAll(keys, starMoves, hazardMoves);
      AdvanceTimers(starDraw, hazardDraw);
    }

    /** Steps 4 and 5 of a tick: hazard contact, then the popup draw. */
    method BounceAndDraw()
      requires popup != null ==> popup.Valid() && popup.active
      modifies this`playerX, this`playerY, this`popup, popup
      ensures popup != null ==> popup.Valid() && popup.active
      ensures var dangers := Hits(hazards, old(PlayerRect()));
              if dangers != [] then
                PlayerRect() == StartRect &&
                popup != null && fresh(popup) && popup.timer == DisplayTicks - 1 &&
                popup.text == DangerText(dangers[0].kind)
              else
                PlayerRect() == old(PlayerRect()) &&
                if old(popup) == null || old(popup.timer) == 1 then popup == null
                else popup == old(popup) && popup.timer == old(popup.timer) - 1 && popup.text == old(popup.text)
    {
      HitHazards();
      DrawPopup();
    }

    /** Steps 3 to 5 of a tick: star hits, hazard hits, and the popup draw, all against the player's place on entry. */
    method Resolve()
      requires Valid()
      modifies this`stars, this`collectedCards, this`popup, this`playerX, this`playerY, popup
      ensures Valid()
      ensures stars == Misses(old(stars), old(PlayerRect()))
      ensures collectedCards == old(collectedCards) + Kinds(Hits(old(stars), old(PlayerRect())))
      ensures var dangers := Hits(hazards, old(PlayerRect()));
              if dangers != [] then
                PlayerRect() == StartRect &&
                popup != null && fresh(popup) && popup.text == DangerText(dangers[0].kind)
              else
                PlayerRect() == old(PlayerRect())
      ensures var found := Hits(old(stars), old(PlayerRect()));
              if Hits(hazards, old(PlayerRect())) != [] || found != [] then
                popup != null && fresh(popup) && popup.active && popup.timer == DisplayTicks - 1 &&
                (Hits(hazards, old(PlayerRect())) == [] ==> popup.text == FoundText(found[|found| - 1].kind))
              else if old(popup) == null || old(popup.timer) == 1 then
                popup == null
              else
                popup == old(popup) && popup.timer == old(popup.timer) - 1 && popup.text == old(popup.text)
    {
      CollectStars();
      BounceAndDraw();
    }

    /**
     * One iteration of the main loop, given this tick's keys, the displacement
     * of every star and hazard, and the random draws for a spawn.
     */
    method Tick(keys: Keys, starMoves: seq<Delta>, hazardMoves: seq<Delta>,
                starDraw: SpawnDraw, hazardDraw: SpawnDraw)
      requires Valid()
      requires |starMoves| == |stars| && |hazardMoves| == |hazards|
      requires StarDrawOk(starDraw) && HazardDrawOk(hazardDraw)
      modifies this, popup
      ensures Valid()
      ensures ticks == old(ticks) + 1
      // timers and spawning
      ensures spawnTimer == Cadence(old(spawnTimer), StarSpawnThreshold).0
      ensures hazardTimer == Cadence(old(hazardTimer), HazardSpawnThreshold).0
      ensures Cadence(old(spawnTimer), StarSpawnThreshold).1 <==> ticks % (StarSpawnThreshold + 1) == 0
      ensures Cadence(old(hazardTimer), HazardSpawnThreshold).1 <==> ticks % (HazardSpawnThreshold + 1) == 0
      // hazards move and are killed off screen, but never on contact
      ensures hazards == Arrivals(old(hazards), hazardMoves, old(hazardTimer), HazardSpawnThreshold, NewHazard(hazardDraw))
      // star hits, against the moved player
      ensures var p := MovedPlayer(old(playerX), old(playerY), keys);
              var field := Arrivals(old(stars), starMoves, old(spawnTimer), StarSpawnThreshold, NewStar(starDraw));
              stars == Misses(field, p) && collectedCards == old(collectedCards) + Kinds(Hits(field, p))
      // hazard hits: reset and danger popup
      ensures var p := MovedPlayer(old(playerX), old(playerY), keys);
              var dangers := Hits(hazards, p);
              if dangers != [] then
                PlayerRect() == StartRect &&
                popup != null && fresh(popup) && popup.text == DangerText(dangers[0].kind)
              else
                PlayerRect() == p
      // the popup: a new one is drawn once this tick; an old one counts down and is dropped at 0
      ensures var p := MovedPlayer(old(playerX), old(playerY), keys);
              var field := Arrivals(old(stars), starMoves, old(spawnTimer), StarSpawnThreshold, NewStar(starDraw));
              var found := Hits(field, p);
              if Hits(hazards, p) != [] || found != [] then
                popup != null && fresh(popup) && popup.active && popup.timer == DisplayTicks - 1 &&
                (Hits(hazards, p) == [] ==> popup.text == FoundText(found[|found| - 1].kind))
              else if old(popup) == null || old(popup.timer) == 1 then
                popup == null
              else
                popup == old(popup) && popup.timer == old(popup.timer) - 1 && popup.text == old(popup.text)
    {
      ghost var shown := popup;
      MoveAndSpawn(keys, starMoves, hazardMoves, starDraw, hazardDraw);
      assert popup == shown && (shown != null ==> unchanged(shown));
      Resolve();
    }
  }
}
