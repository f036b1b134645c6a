/**
 * Stars and hazards: their types, how one is spawned from the random draws,
 * and the two per-tick operations on a whole group of them (moving with the
 * off-screen kill, and the collision test against the player).
 * A group is a sequence in insertion order, the order in which a pygame
 * `Group` yields its sprites.
 */
module Entities {
  import opened Geometry

  const StarSize: nat := 20
  const HazardSize: nat := 25

  /** The names of STAR_TYPES, in the order of the table. */
  const StarTypes: seq<string> := [
    "Main Sequence", "Red Giant", "Blue Giant", "Red Supergiant", "Blue Supergiant",
    "White Dwarf", "Brown Dwarf", "Subgiant", "Neutron Star", "Protostar", "The Sun"
  ]

  /** The weights of STAR_TYPES in hundredths (0.4 is 40), same order as StarTypes. */
  const StarWeights: seq<nat> := [40, 10, 5, 5, 2, 10, 5, 5, 1, 12, 5]

  /** The choices of `Hazard.hazard_type`. */
  const HazardTypes: seq<string> := ["Black Hole", "Pulsar", "Quasar", "Supernova"]

  /** A star or a hazard: its rectangle and its type name. */
  datatype Entity = Entity(rect: Rect, kind: string)

  /** The whole-pixel displacement of one entity in one tick. */
  datatype Delta = Delta(dx: int, dy: int)

  /**
   * The random values behind one spawn: the centre, drawn by
   * `randint(0, WIDTH)` and `randint(0, HEIGHT)`, and the type draw.
   */
  datatype SpawnDraw = SpawnDraw(cx: int, cy: int, pick: int)

  function Sum(ws: seq<nat>): nat
    decreases |ws|
  {
    if ws == [] then 0 else Sum(ws[..|ws| - 1]) + ws[|ws| - 1]
  }

  /** Adding the next weight never lowers a running total. */
  lemma {:induction false} PrefixSumMonotone(ws: seq<nat>, i: nat, j: nat)
    requires i <= j <= |ws|
    ensures Sum(ws[..i]) <= Sum(ws[..j])
    decreases j
  {
    if i < j {
      assert ws[..j][..j - 1] == ws[..j - 1];
      PrefixSumMonotone(ws, i, j - 1);
    }
  }

  /** The running totals of StarWeights, as `random.choices` accumulates them. */
  const CumulativeStarWeights: seq<nat> := [40, 50, 55, 60, 62, 72, 77, 82, 83, 95, 100]

  /** Entry k of the cumulative table is the total weight of the first k + 1 star types. */
  lemma {:induction false} CumulativeIsRunningSum(k: nat)
    requires k < |StarWeights|
    ensures CumulativeStarWeights[k] == Sum(StarWeights[..k + 1])
  {
    var ws, cum := StarWeights, CumulativeStarWeights;
    assert ws[..k + 1][..k] == ws[..k];
    if k == 0 {
      assert ws[..0] == [];
    } else {
      CumulativeIsRunningSum(k - 1);
      assert cum[k] == cum[k - 1] + ws[k] by {
        assert k in {1, 2, 3, 4, 5, 6, 7, 8, 9, 10};
      }
    }
  }

  /**
   * `bisect_right` on a cumulative table: the first index at or after `lo`
   * whose entry exceeds x, or |cum| when there is none.
   */
  function FirstAbove(cum: seq<nat>, x: int, lo: nat): (i: nat)
    requires lo <= |cum|
    ensures lo <= i <= |cum|
    ensures i < |cum| ==> x < cum[i]
    ensures forall j :: lo <= j < i ==> cum[j] <= x
    decreases |cum| - lo
  {
    if lo == |cum| || x < cum[lo] then lo else FirstAbove(cum, x, lo + 1)
  }

  /** `weighted_star_type`: the star type the draw u in [0, 100) selects from the cumulative table. */
  function WeightedStarType(u: int): (t: string)
    requires 0 <= u < 100
    ensures t in StarTypes
  {
    var i := FirstAbove(CumulativeStarWeights, u, 0);
    assert i < |CumulativeStarWeights|;
    StarTypes[i]
  }

  /**
   * Type i is selected exactly by the draws in its band
   * [weight of the types before it, that plus its own weight), so each type
   * is chosen by as many of the 100 draws as its weight in hundredths.
   */
  lemma WeightedStarTypeBands(u: int, i: nat)
    requires 0 <= u < 100 && i < |StarTypes|
    ensures FirstAbove(CumulativeStarWeights, u, 0) == i <==>
            Sum(StarWeights[..i]) <= u < Sum(StarWeights[..i + 1])
  {
    var cum := CumulativeStarWeights;
    var j := FirstAbove(cum, u, 0);
    assert j < |cum|;
    CumulativeIsRunningSum(j);
    if j > 0 {
      CumulativeIsRunningSum(j - 1);
    }
    CumulativeIsRunningSum(i);
    if i > 0 {
      CumulativeIsRunningSum(i - 1);
    }
    if i < j {
      PrefixSumMonotone(StarWeights, i + 1, j);
    } else if j < i {
      PrefixSumMonotone(StarWeights, j + 1, i);
    }
  }

  predicate StarDrawOk(d: SpawnDraw)
  {
    0 <= d.cx <= Width && 0 <= d.cy <= Height && 0 <= d.pick < 100
  }

  predicate HazardDrawOk(d: SpawnDraw)
  {
    0 <= d.cx <= Width && 0 <= d.cy <= Height && 0 <= d.pick < |HazardTypes|
  }

  /** `Star()`: a 20x20 star centred on the drawn point, with a weighted type. */
  function NewStar(d: SpawnDraw): (s: Entity)
    requires StarDrawOk(d)
    ensures s.rect.CenterX() == d.cx && s.rect.CenterY() == d.cy
    ensures s.rect.w == StarSize && s.rect.h == StarSize
    ensures s.kind in StarTypes
    ensures !OffScreen(s.rect)
  {
    Entity(CenteredRect(d.cx, d.cy, StarSize, StarSize), WeightedStarType(d.pick))
  }

  /** `Hazard()`: a 25x25 hazard centred on the drawn point, of one of the four types. */
  function NewHazard(d: SpawnDraw): (z: Entity)
    requires HazardDrawOk(d)
    ensures z.rect.CenterX() == d.cx && z.rect.CenterY() == d.cy
    ensures z.rect.w == HazardSize && z.rect.h == HazardSize
    ensures z.kind in HazardTypes
    ensures !OffScreen(z.rect)
  {
    Entity(CenteredRect(d.cx, d.cy, HazardSize, HazardSize), HazardTypes[d.pick])
  }

  /** Every member of a live group has the given size and a type from `kinds`, and is not off screen. */
  ghost predicate WellFormed(es: seq<Entity>, size: nat, kinds: seq<string>)
  {
    forall e :: e in es ==> e.rect.w == size && e.rect.h == size && e.kind in kinds && !OffScreen(e.rect)
  }

  /** A spawn keeps a group well formed when the newcomer is. */
  lemma WellFormedAppend(es: seq<Entity>, e: Entity, size: nat, kinds: seq<string>)
    requires WellFormed(es, size, kinds)
    requires e.rect.w == size && e.rect.h == size && e.kind in kinds && !OffScreen(e.rect)
    ensures WellFormed(es + [e], size, kinds)
  {
  }

  /** One entity after this tick's displacement. */
  function Moved(e: Entity, d: Delta): Entity
  {
    e.(rect := e.rect.(left := e.rect.left + d.dx, top := e.rect.top + d.dy))
  }

  /** A move keeps the size and the type, and shifts the centre by exactly (dx, dy). */
  lemma MovedShiftsCentre(e: Entity, d: Delta)
    ensures Moved(e, d).kind == e.kind
    ensures Moved(e, d).rect.w == e.rect.w && Moved(e, d).rect.h == e.rect.h
    ensures Moved(e, d).rect.CenterX() == e.rect.CenterX() + d.dx
    ensures Moved(e, d).rect.CenterY() == e.rect.CenterY() + d.dy
  {
  }

  // ---------------------------------------------------------------------------
  // `group.update()`: every member moves by its delta, then kills itself if off screen.

  /** The members left after every one of `es` has moved by its delta and the off-screen ones are killed. */
  function Survivors(es: seq<Entity>, ds: seq<Delta>): seq<Entity>
    requires |ds| == |es|
    decreases |es|
  {
    if es == [] then []
    else
      var n := |es| - 1;
      var m := Moved(es[n], ds[n]);
      Survivors(es[..n], ds[..n]) + (if OffScreen(m.rect) then [] else [m])
  }

  /** An entity survives exactly when it is some member after its move and is not off screen. */
  lemma {:induction false} SurvivorsMembership(es: seq<Entity>, ds: seq<Delta>, e: Entity)
    requires |ds| == |es|
    ensures e in Survivors(es, ds) <==>
            !OffScreen(e.rect) && exists i :: 0 <= i < |es| && e == Moved(es[i], ds[i])
    decreases |es|
  {
    if es != [] {
      var n := |es| - 1;
      SurvivorsMembership(es[..n], ds[..n], e);
      if e in Survivors(es, ds) && e !in Survivors(es[..n], ds[..n]) {
        assert e == Moved(es[n], ds[n]);
      }
      if !OffScreen(e.rect) && exists i :: 0 <= i < |es| && e == Moved(es[i], ds[i]) {
        var i :| 0 <= i < |es| && e == Moved(es[i], ds[i]);
        if i < n {
          assert e == Moved(es[..n][i], ds[..n][i]);
        }
      }
    }
  }

  /** Moving and killing keeps a group well formed: sizes and types are kept, and the off-screen ones are gone. */
  lemma SurvivorsWellFormed(es: seq<Entity>, ds: seq<Delta>, size: nat, kinds: seq<string>)
    requires |ds| == |es|
    requires forall e :: e in es ==> e.rect.w == size && e.rect.h == size && e.kind in kinds
    ensures WellFormed(Survivors(es, ds), size, kinds)
  {
    forall e | e in Survivors(es, ds)
      ensures e.rect.w == size && e.rect.h == size && e.kind in kinds && !OffScreen(e.rect)
    {
      SurvivorsMembership(es, ds, e);
      var i :| 0 <= i < |es| && e == Moved(es[i], ds[i]);
      assert es[i] in es;
    }
  }

  /** `group.update()` for stars or hazards, with the moves of this tick. */
  method UpdateGroup(es: seq<Entity>, ds: seq<Delta>) returns (live: seq<Entity>)
    requires |ds| == |es|
    ensures live == Survivors(es, ds)
  {
    live := [];
    var i := 0;
    while i < |es|
      invariant 0 <= i <= |es|
      invariant live == Survivors(es[..i], ds[..i])
    {
      var m := Moved(es[i], ds[i]);
      if !OffScreen(m.rect) {
        live := live + [m];
      }
      assert es[..i + 1][..i] == es[..i];
      assert ds[..i + 1][..i] == ds[..i];
      i := i + 1;
    }
    assert es[..i] == es;
    assert ds[..i] == ds;
  }

  // ---------------------------------------------------------------------------
  // `pygame.sprite.spritecollide(player, group, dokill)`.

  /** The members of `es` whose rectangle collides with `p`, in group order. */
  function Hits(es: seq<Entity>, p: Rect): seq<Entity>
    decreases |es|
  {
    if es == [] then []
    else
      var n := |es| - 1;
      Hits(es[..n], p) + (if Collides(p, es[n].rect) then [es[n]] else [])
  }

  /** The members of `es` that do not collide with `p`, in group order. */
  function Misses(es: seq<Entity>, p: Rect): seq<Entity>
    decreases |es|
  {
    if es == [] then []
    else
      var n := |es| - 1;
      Misses(es[..n], p) + (if Collides(p, es[n].rect) then [] else [es[n]])
  }

  /** A member is a hit exactly when it collides with `p`. */
  lemma {:induction false} HitsExactly(es: seq<Entity>, p: Rect)
    ensures forall e :: e in Hits(es, p) <==> e in es && Collides(p, e.rect)
    decreases |es|
  {
    if es != [] {
      var n := |es| - 1;
      HitsExactly(es[..n], p);
      assert es == es[..n] + [es[n]];
    }
  }

  /** A member stays (is a miss) exactly when it does not collide with `p`. */
  lemma {:induction false} MissesExactly(es: seq<Entity>, p: Rect)
    ensures forall e :: e in Misses(es, p) <==> e in es && !Collides(p, e.rect)
    decreases |es|
  {
    if es != [] {
      var n := |es| - 1;
      MissesExactly(es[..n], p);
      assert es == es[..n] + [es[n]];
    }
  }

  /** The hits and the misses together are the group: nothing lost, nothing doubled. */
  lemma {:induction false} CollisionPartition(es: seq<Entity>, p: Rect)
    ensures multiset(Hits(es, p)) + multiset(Misses(es, p)) == multiset(es)
    decreases |es|
  {
    if es != [] {
      var n := |es| - 1;
      var init, x := es[..n], es[n];
      CollisionPartition(init, p);
      assert es == init + [x];
      var hits, misses := Hits(init, p), Misses(init, p);
      if Collides(p, x.rect) {
        assert Hits(es, p) == hits + [x] && Misses(es, p) == misses;
        assert multiset(hits + [x]) == multiset(hits) + multiset{x};
      } else {
        assert Hits(es, p) == hits && Misses(es, p) == misses + [x];
        assert multiset(misses + [x]) == multiset(misses) + multiset{x};
      }
      assert multiset(init + [x]) == multiset(init) + multiset{x};
    }
  }

  /** The first hit is the earliest colliding member of the group, and there is a hit iff some member collides. */
  lemma {:induction false} FirstHitIsEarliest(es: seq<Entity>, p: Rect)
    ensures Hits(es, p) != [] <==> exists i :: 0 <= i < |es| && Collides(p, es[i].rect)
    ensures Hits(es, p) != [] ==>
            exists i :: 0 <= i < |es| && es[i] == Hits(es, p)[0] && Collides(p, es[i].rect) &&
                        forall j :: 0 <= j < i ==> !Collides(p, es[j].rect)
    decreases |es|
  {
    if es != [] {
      var n := |es| - 1;
      FirstHitIsEarliest(es[..n], p);
      if Hits(es[..n], p) != [] {
        var i :| 0 <= i < n && es[..n][i] == Hits(es[..n], p)[0] && Collides(p, es[..n][i].rect) &&
                 forall j :: 0 <= j < i ==> !Collides(p, es[..n][j].rect);
        assert Hits(es, p)[0] == Hits(es[..n], p)[0];
        assert forall j :: 0 <= j < i ==> es[j] == es[..n][j];
      } else {
        assert forall j :: 0 <= j < n ==> es[j] == es[..n][j];
      }
    }
  }

  /** One pass of `spritecollide` over the group: the hits, and the members that stay. */
  method SpriteCollide(group: seq<Entity>, p: Rect) returns (hits: seq<Entity>, rest: seq<Entity>)
    ensures hits == Hits(group, p)
    ensures rest == Misses(group, p)
  {
    hits, rest := [], [];
    var i := 0;
    while i < |group|
      invariant 0 <= i <= |group|
      invariant hits == Hits(group[..i], p)
      invariant rest == Misses(group[..i], p)
    {
      if Collides(p, group[i].rect) {
        hits := hits + [group[i]];
      } else {
        rest := rest + [group[i]];
      }
      assert group[..i + 1][..i] == group[..i];
      i := i + 1;
    }
    assert group[..i] == group;
  }

  /** The type names of `es`, one per member, in order. */
  function Kinds(es: seq<Entity>): (ks: seq<string>)
    ensures |ks| == |es|
    ensures forall i :: 0 <= i < |es| ==> ks[i] == es[i].kind
    decreases |es|
  {
    if es == [] then [] else Kinds(es[..|es| - 1]) + [es[|es| - 1].kind]
  }

  /** Every type name taken from a well-formed group is one of the group's types. */
  lemma {:induction false} KindsWithin(es: seq<Entity>, size: nat, kinds: seq<string>)
    requires WellFormed(es, size, kinds)
    ensures forall c :: c in Kinds(es) ==> c in kinds
  {
    forall c | c in Kinds(es)
      ensures c in kinds
    {
      var i :| 0 <= i < |Kinds(es)| && Kinds(es)[i] == c;
      assert es[i] in es;
    }
  }
}
