# Stellar Explorer: the game loop's state, verified

Stellar Explorer is a small pygame game:
- The player steers a 50x50 square with the arrow keys.
- Stars (20x20) and hazards (25x25) drift across a 1000x700 window.
- Touching a star collects its type as a card and raises a popup.
- Touching a hazard sends the player back to the centre and raises a danger popup.

This project models the state the game keeps between frames, and one frame of the main loop, in Dafny:

- `geometry.dfy` (module `Geometry`): the screen and integer rectangles. It covers centring a rectangle on a point, the `colliderect` overlap test (strict: touching edges do not collide) and the off-screen kill test.
- `entities.dfy` (module `Entities`): stars and hazards as values (a rectangle and a type name). It covers:
  - the 11 weighted star types and the 4 hazard types;
  - how a spawn turns the random draws into a new entity;
  - the two group operations, as loops proved against recursive specification functions: `group.update()` (move every member, kill the off-screen ones) and `spritecollide` (split a group into the members that touch the player and those that do not).
- `popup.dfy` (module `Popups`): the `Popup` class and its countdown, with lemmas on how many draws a popup lives.
- `game.dfy` (module `Game`): the module-level state of the game as the class `GameState`, and `GameState.Tick`, one iteration of the `while running` loop. `Tick` keeps the loop's order:
  1. move the player, the stars and the hazards;
  2. count the spawn timers and spawn;
  3. collect the stars touching the player;
  4. bounce off hazards;
  5. draw the popup.

  `Tick`'s contract states the whole new state in terms of the old state and the inputs. `GameState.Valid` is the invariant every tick keeps:
  - both timers equal their value after `ticks` ticks from 0, so they stay within 0..60 and 0..300;
  - every live star or hazard has its size and a listed type and is on screen;
  - every card is a star type;
  - a popup that is kept is active.

Everything random or external comes in as a parameter of `Tick`:
- the arrow keys held down;
- each star's and hazard's whole-pixel displacement for the tick;
- for a spawn, the centre and the type draw.

Behaviour worth knowing:
- A star type collected twice is recorded twice. `collected_cards` is a plain list, appended once per star hit, with no deduplication (stellar_explorer.py:183).
- The only cards are the star types collected; a hazard hit adds no card.
- There is no HR-diagram coordinate mapping. The HR overlay is a plain grey surface (stellar_explorer.py:35-36).
- Only the last popup raised in a tick is kept: a hazard's popup replaces a star's, and of several star hits the last one's popup wins.
- A popup's timer only moves when it is drawn, and the loop draws it on every tick it exists. So a new popup has its first countdown in the tick that creates it, and is dropped in the tick its 180th draw ends it.

## Model

| member | source | states |
|---|---|---|
| Geometry.CollidesIffSharedPixel | stellar_explorer.py:181 | `colliderect` (`Collides`) as `spritecollide` uses it: for rectangles of positive size, two rectangles collide iff they share a pixel, so rectangles touching only along an edge or at a corner do not collide |
| Geometry.KeptIffTouchingScreen | stellar_explorer.py:89-90 | the kill test (`OffScreen`: right < 0, left > WIDTH, bottom < 0 or top > HEIGHT) keeps a rectangle iff, grown by one pixel on every side, it overlaps the screen, i.e. it overlaps or touches the screen; every rectangle overlapping the screen is kept |
| Geometry.CenteredRect | stellar_explorer.py:63 | `get_rect(center=...)`: the rectangle has the requested size and its centre (left + w/2, top + h/2) is the given point |
| Entities.WeightedStarType | stellar_explorer.py:54-56 | the weighted draw always yields one of the 11 names of STAR_TYPES |
| Entities.FirstAbove | stellar_explorer.py:56 | the index `random.choices` picks from a cumulative table: the first entry above the draw, with every earlier entry at or below it |
| Entities.CumulativeIsRunningSum | stellar_explorer.py:40-52 | the cumulative table used by the draw is the running total of the STAR_TYPES weights, in hundredths |
| Entities.WeightedStarTypeBands | stellar_explorer.py:40-56 | type i is picked exactly by the draws in [sum of earlier weights, that plus its own weight), so each type has as many of the 100 draws as its weight |
| Entities.NewStar | stellar_explorer.py:78-82 | a new star is 20x20, centred on the drawn point, of a listed star type, and not off screen |
| Entities.NewHazard | stellar_explorer.py:94-98 | a new hazard is 25x25, centred on the drawn point, of one of Black Hole, Pulsar, Quasar, Supernova, and not off screen |
| Entities.MovedShiftsCentre | stellar_explorer.py:87-88 | the per-tick move (`Moved`) keeps an entity's size and type and shifts its centre by exactly its delta |
| Entities.SurvivorsMembership | stellar_explorer.py:86-90 | after `update`, an entity is in the group exactly when it is some member moved by its delta and its rectangle is not wholly outside the screen |
| Entities.SurvivorsWellFormed | stellar_explorer.py:102-106 | moving and killing keeps sizes and types, and leaves nothing off screen |
| Entities.UpdateGroup | stellar_explorer.py:166-167 | the loop over a group computes exactly the survivors, in group order |
| Entities.HitsExactly | stellar_explorer.py:181 | a member is among the hits exactly when it overlaps the player |
| Entities.MissesExactly | stellar_explorer.py:181 | a member stays in the group exactly when it does not overlap the player |
| Entities.CollisionPartition | stellar_explorer.py:181 | hits and remaining members together are the original group as a multiset: nothing lost, nothing doubled |
| Entities.FirstHitIsEarliest | stellar_explorer.py:187-189 | there is a hit iff some member overlaps the player, and `dangers[0]` is the earliest overlapping member |
| Entities.SpriteCollide | stellar_explorer.py:181 | one pass over the group returns the hits and the others, each in group order |
| Entities.Kinds | stellar_explorer.py:182-183 | the recorded types are one per hit, in order, each the type of that hit |
| Popups.Popup.constructor | stellar_explorer.py:110-113 | a new popup holds its text, is active and has 180 draws left |
| Popups.Popup.Draw | stellar_explorer.py:115-127 | an active popup loses one draw and turns inactive when none are left; an inactive one is untouched; the countdown stays in 0..180, active exactly while positive |
| Popups.InactiveIsFrozen | stellar_explorer.py:116 | any number of draws leaves an inactive popup's timer unchanged |
| Popups.CountsDown | stellar_explorer.py:125-127 | while draws remain, n draws take exactly n from the timer, and the popup stays active until the timer reaches 0 |
| Popups.PopupLifetime | stellar_explorer.py:113-127 | a new popup is active before its n-th draw iff n <= 180, so it is drawn exactly 180 times and then stays at (0, inactive) |
| Game.AxisStep | stellar_explorer.py:66-74 | per axis: no move iff both or neither key is held, +5 iff only the forward key, -5 iff only the backward key |
| Game.GameState.MovePlayer | stellar_explorer.py:66-74 | x changes only by the left/right keys and y only by the up/down keys, by the step above |
| Game.GameState.ResetPlayer | stellar_explorer.py:140-141 | whatever the position, the player ends up as the 50x50 square centred on (500, 350) |
| Game.GameState.constructor | stellar_explorer.py:130-157 | the start state: player at (475, 325) (centred), no stars, no hazards, no cards, no popup, both timers 0; the invariant holds |
| Game.Cadence | stellar_explorer.py:169-178 | one timer tick: a spawn happens iff the incremented timer exceeds the threshold, which is iff the timer becomes 0; otherwise it is one more; it stays within 0..threshold |
| Game.TimerAfter | stellar_explorer.py:169-174 | after any number of ticks from 0 a timer is within 0..threshold |
| Game.TimerAfterIsTickCountMod | stellar_explorer.py:169-174 | after n ticks from 0 the timer reads n mod (threshold + 1) |
| Game.SpawnTicks | stellar_explorer.py:169-178 | from a fresh start a spawn happens on tick n iff n is a multiple of threshold + 1: stars on ticks 61, 122, ..., hazards every 301 ticks |
| Game.CadenceStep | stellar_explorer.py:169-178 | a timer that has run n ticks reads as after n + 1 ticks after one more, and fires iff n + 1 is a multiple of threshold + 1 |
| Game.GameState.AdvanceTimers | stellar_explorer.py:169-178 | both timers tick; each group gains the new entity exactly on its firing ticks (tick count a multiple of 61 or 301); groups stay well formed |
| Game.GameState.MoveAll | stellar_explorer.py:165-167 | the player moves by the keys, and each group becomes its survivors after the moves |
| Game.GameState.MoveAndSpawn | stellar_explorer.py:165-178 | steps 1 and 2: player moved, groups moved, killed and extended by the due spawn, timers ticked; the invariant is kept |
| Game.GameState.RecordFinds | stellar_explorer.py:182-184 | the cards grow by exactly the hits' types in order; with hits, a fresh active popup for the last hit's type with 180 draws; without, the popup is untouched |
| Game.GameState.CollectStars | stellar_explorer.py:181-184 | the overlapping stars are removed and their types appended to the cards in order, duplicates kept; the other stars stay in order; the popup is the last hit's, or unchanged without hits |
| Entities.KindsWithin | stellar_explorer.py:183 | every card taken from well-formed stars is a star type |
| Game.FoundText | stellar_explorer.py:184 | the star popup text is as long as its fixed prefix ("You discovered a "), the type and its fixed suffix together, and the star's type sits right after the prefix, so it can be read back |
| Game.DangerText | stellar_explorer.py:189 | the danger popup text is as long as its fixed prefix ("Danger! You hit a "), the type and its fixed suffix together, and the hazard's type sits right after the prefix, so it can be read back |
| Game.GameState.HitHazards | stellar_explorer.py:187-190 | hazards are never removed; on any overlap the player is centred and the popup is a fresh danger popup naming the first hazard hit; with none, player and popup are unchanged |
| Game.GameState.DrawPopup | stellar_explorer.py:197-200 | no popup stays none; a popup with one draw left is dropped this tick; any other loses one draw and keeps its text |
| Game.GameState.BounceAndDraw | stellar_explorer.py:187-200 | steps 4 and 5: a danger popup, already drawn once, replaces any popup; without danger the player stays and the old popup counts down or is dropped |
| Game.GameState.Resolve | stellar_explorer.py:181-200 | steps 3 to 5 against the player's position on entry: star hits collected, danger reset, and a popup raised this tick (danger over star) already drawn once with 179 left; the invariant is kept |
| Game.GameState.Tick | stellar_explorer.py:159-210 | one loop iteration: the tick count grows by 1, each timer fires exactly on multiples of 61 / 301 ticks, hazards move and spawn but never leave on contact, stars touching the moved player become cards in order, a hazard hit resets the player and shows the danger popup, and otherwise the popup counts down and is dropped at 0; the invariant is kept |
| Game.VisibleCards | stellar_explorer.py:204 | `collected_cards[-5:]`: at most five cards, the newest ones, in collection order |
| Game.NewestCardShownLast | stellar_explorer.py:204 | collecting a card shows it last; once five are shown the oldest shown one drops out |

## Left out

- Rendering and windowing are not modelled: the screen fill, sprite drawing, the HR overlay surface, the card labels and the popup's box and text rendering. They are calls into pygame with no state the loop reads back.
- Event polling and the quit flag (stellar_explorer.py:160-163) are input. The held keys are a parameter of `Tick`; quitting is outside one tick.
- `clock.tick(60)` is wall-clock pacing and is not modelled.
- The random generator is not modelled. `randint`, `uniform`, `choice` and `choices` become the parameters `SpawnDraw` and `Delta`, and no sampling distribution is proved.
- Entities.WeightedStarType: the weights are taken in hundredths and the draw as a whole number below 100. The floating-point draw of `random.choices`, and its rounding at band edges, are not modelled. Type membership and the band layout are.
- Entities.UpdateGroup: the float velocity added to integer `Rect` fields (stellar_explorer.py:87-88, 103-104), with pygame's truncation, is replaced by a given whole-pixel delta per entity and tick.
- Geometry.Collides: pygame stores `Rect` fields as C ints, and the model's integers are unbounded, so overflow is not modelled. Stars and hazards are killed long before. The player is never killed: holding one arrow key for about 4.3 * 10^8 ticks would overflow its position in pygame, while `Game.GameState.MovePlayer` lets it grow without bound.
- Popups.Popup.Draw: the text is not split into lines or rendered (stellar_explorer.py:117-124). Only the countdown is modelled.
- The `all_sprites` group only serves drawing and is not modelled. A kill removes a sprite from it as well, which the model does not need.
- Game.GameState.Tick: the ghost field `ticks` exists only to state the spawn cadence by tick count; the game has no such counter.
