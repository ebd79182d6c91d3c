# Navy — a Dafny model of the battleship game's rules

Navy is a two-player battleship game written in Python on top of pygame.
This project models its rules, not its screens. There are two parts:

- **The battle** (`navy/game.py`). Each side has a 10x10 board. A board keeps
  a per-cell state map (`BOX_NO_HIT`, `BOX_HATCH`, `BOX_CROSS`,
  `BOX_SHIP_DESTROYED`), a set of struck ("disabled") boxes and a list of
  ships. The model covers:
  - how one attack is resolved on the local player's board
    (`PlayerNavy.box_hit`) and on the computer's hidden fleet
    (`OppositeNavy.ai_box_hit`);
  - how a sunk ship is revealed with a moat of hatched boxes
    (`hit_all_boxes_around_ship`);
  - when a fleet counts as destroyed;
  - the computer opponent (`AI.play`, `track_ship`, `find_ship`);
  - who shoots next after each attack (`Gameplay.hit_a_box`, `set_turn`).
- **The placement editor** (`setup_navy.py`), reduced to its cell
  bookkeeping: which ship owns each box, the boxes each ship covers, and its
  orientation. The model covers:
  - the neighbourhood test `valid_box`;
  - the search for first boxes where a ship fits;
  - random placement;
  - rotating and dropping a ship;
  - resetting the grid;
  - the start condition and the countdown.

Dafny files:

| file | module | contents |
|---|---|---|
| `grid.dfy` | `Grid` | the grid, positions, `Option`, neighbourhood predicates |
| `fleet.dfy` | `Fleet` | `Navy`, `PlayerNavy`, `OppositeNavy` as classes; reveal specification functions and lemmas |
| `ai.dfy` | `Ai` | the `AI` class; the filter and sort specification functions; lemmas about its targets |
| `battle.dfy` | `Battle` | the turn rule and the `Gameplay` class |
| `setup.dfy` | `Setup` | the `NavySetup` editor as a class; the no-touch invariant `Separated`; the rotation finding |

Modelling choices:

- The code mutates objects in place, so each such object is a Dafny `class`
  whose methods say exactly how its fields change.
- Python inheritance (`PlayerNavy(Navy)`, `OppositeNavy(Navy)`) becomes
  composition: each holds a `navy: Navy`.
- A button's `DISABLED` state is the set `Navy.disabled`. The class invariant
  ties it to the cells whose state is no longer `BOX_NO_HIT`.
- `random.choice` becomes a nondeterministic pick (`:|`). Picking from an
  empty list (an `IndexError`, or in `find_ship` the `NameError` raised just before its `exit(1)`) becomes `None`.
- `player.send` becomes an append to an outbound message log.
- In the editor a box's owner (`box.ship`) is the index of the ship in the
  roster, in the insertion order of `NavySetup.ships`.

## Model

| member | source | states |
|---|---|---|
| Fleet.FirstCovering | navy/game.py:183-184 | the index the ship scan stops at is the first ship covering the box, and no earlier ship covers it |
| Fleet.NewMap | navy/game.py:95-101 | the map built by `Navy.__init__` has exactly the 100 grid cells as keys, each `BOX_NO_HIT` |
| Fleet.Navy.constructor | navy/game.py:92-106 | a fresh board is consistent, holds the given ships, has no struck box, and every cell is `BOX_NO_HIT` |
| Fleet.Navy.SetBoxHit | navy/game.py:148-153 | the box is struck and its cell becomes the hatch or cross state of the image; nothing else changes, and the board stays consistent |
| Fleet.Navy.HatchAround | navy/game.py:169-174 | each of the eight offsets that lands on a still-normal in-grid box hatches it; off-grid offsets and already struck boxes are skipped |
| Fleet.Navy.MarkDestroyed | navy/game.py:168 | one struck ship box becomes `BOX_SHIP_DESTROYED`, keeping the board consistent |
| Fleet.Navy.RevealBox | navy/game.py:166-174 | one pass of the outer loop extends the revealed prefix of the ship's boxes by one box |
| Fleet.Navy.HitAllBoxesAroundShip | navy/game.py:155-174 | the board ends as `Revealed`: the ship's cells destroyed, the unhit cells of its moat hatched and struck, every other cell unchanged |
| Fleet.ReachedAround | navy/game.py:156-165 | the eight offsets reach exactly the in-grid cells touching a cell |
| Fleet.MoatOfShip | navy/game.py:164-174 | the cells hatched over the whole loop are exactly the in-grid cells touching a covered cell of the ship |
| Fleet.RevealStep | navy/game.py:164-174 | marking a box destroyed and then hatching around it equals revealing one more box of the prefix |
| Fleet.RevealedCells | navy/game.py:155-174 | after a reveal, covered cells are destroyed, unhit moat cells are hatched, and all other cells keep their state |
| Fleet.PlayerNavy.constructor | navy/game.py:177-180 | the local board starts with the given ships, no struck box, an empty message log, and all cells `BOX_NO_HIT` |
| Fleet.PlayerNavy.BoxHit | navy/game.py:182-197 | (as `Attacked`) the ships stay; true iff some ship covers the box; a miss hatches and strikes the box, changing no other cell, and sends "attack_failed"; a hit crosses and strikes it, then reveals the first covering ship and sends "ship_destroyed" with it when that was its last box, else sends "attack_success" |
| Fleet.OppositeNavy.constructor | navy/game.py:204-207 | the opposing board starts with no visible ship and the whole hidden fleet in `ai_setup` |
| Fleet.OppositeNavy.AiBoxHit | navy/game.py:214-230 | (as `Attacked`) true iff a hidden ship covers the box; a miss hatches the box and nothing else changes; a hit crosses it and, when that was the ship's last box, moves the ship from `ai_setup` to the visible ships and reveals it; hidden plus visible ships stay the dealt fleet |
| Fleet.OppositeNavy.StrikeHidden | navy/game.py:217-227 | crossing the box of the first covering hidden ship reveals that ship, and moves it from `ai_setup` to the visible ships, exactly when the box was its last unstruck one |
| Fleet.StillDestroyed | navy/game.py:71-72 | striking more boxes never makes a destroyed ship undestroyed |
| Fleet.DestroyedMeansStruck | navy/game.py:129-130 | on a consistent board, `destroyed()` holds iff there are exactly ten ships and no covered box of any of them is still `BOX_NO_HIT` |
| Fleet.OppositeDestroyedIffAllSunk | navy/game.py:214-227 | with a ten-ship hidden fleet, the opposing board is destroyed iff `ai_setup` is empty, i.e. iff all ten hidden ships have been sunk |
| Ai.HavingMember | navy/game.py:296-299 | a cell is kept by the filter iff it is in the list and its map value is the given state |
| Ai.NotHavingMember | navy/game.py:294-295 | a cell is kept iff it is in the list and its map value is not the given state |
| Ai.Neighbours | navy/game.py:319-326 | the four cells `find_ship` tries are exactly the side neighbours of the crossed cell |
| Ai.Insert | navy/game.py:307 | inserting into a sorted list gives a sorted list with the same elements plus the new one |
| Ai.Sort | navy/game.py:307 | `box_hitted.sort()` yields a sorted permutation, in Python's tuple order |
| Ai.KeepUnsunk | navy/game.py:294-295 | the first loop of `play` keeps, in order, the crossed cells whose cell is not `BOX_SHIP_DESTROYED` |
| Ai.SortOut | navy/game.py:296-299 | the second loop keeps the unhit possibilities and collects the crossed ones, both in order |
| Ai.AI.constructor | navy/game.py:289-291 | no crossed cell; the possibilities are all 100 cells, line by line |
| Ai.AI.FindShip | navy/game.py:318-337 | the target is picked among the unhit side neighbours, or fails when there are none; nothing changes |
| Ai.AI.TrackShip | navy/game.py:304-316 | with one crossed cell, the pick among its unhit side neighbours; otherwise the crossed cells are sorted and the pick is among the unhit cells just past the two ends; failure when no candidate is left |
| Ai.AI.Resync | navy/game.py:294-299 | the crossed cells become the old ones not yet destroyed, followed by the newly crossed possibilities; the possibilities become the still-unhit ones |
| Ai.AI.Play | navy/game.py:293-302 | (as `Played`) the unhit possibilities are kept and the crossed ones join the unsunk tracked cells; after this resync, with no crossed cell the target is one of the possibilities (or failure), otherwise as `track_ship` gives it; any target is an in-grid `BOX_NO_HIT` cell |
| Ai.ResyncedLists | navy/game.py:294-299 | after the resync, every possibility is `BOX_NO_HIT`, no followed cell is `BOX_SHIP_DESTROYED`, and every crossed possibility is followed |
| Ai.SortKeepsCells | navy/game.py:305-308 | `track_ship` keeps the same set of crossed cells |
| Ai.FindShipTarget | navy/game.py:318-337 | the target is a side neighbour that is `BOX_NO_HIT`; it fails iff no side neighbour is an unhit cell |
| Ai.SortedEnds | navy/game.py:307-311 | after sorting, the first and last crossed cells are the lexicographically smallest and largest |
| Ai.TrackShipTarget | navy/game.py:307-316 | with two or more crossed cells the target is one step before the smallest or past the largest, along the columns when these share a line, and `BOX_NO_HIT`; it fails iff neither end cell is unhit |
| Ai.TargetIsOpen | navy/game.py:293-337 | every target the computer returns is an in-grid `BOX_NO_HIT` cell |
| Battle.NextTurn | navy/game.py:448-451 | no turn once the attacked board is destroyed; otherwise the shooter keeps the turn iff the shot hit |
| Battle.Gameplay.constructor | navy/game.py:393-404 | two distinct consistent boards, every in-grid box unhit and none struck: the local one with the player's ships and an empty outbox, the opposing one with no visible ship and the hidden AI fleet; a fresh AI (nothing tracked, all 100 cells in line order possible); turn set to the default and the opposing board clickable |
| Battle.Gameplay.HitABox | navy/game.py:444-454 | the attack is resolved on the chosen board exactly as `BoxHit` or `AiBoxHit` state it, the other board untouched; the next turn is `NextTurn`; a lost turn makes the opposing board unclickable |
| Battle.Gameplay.HitOpposite | navy/game.py:444-454 | an attack on the computer's board changes it exactly as `AiBoxHit` states; the next turn follows `NextTurn` and a lost turn makes the board unclickable |
| Battle.Gameplay.HitPlayer | navy/game.py:444-454 | an attack on the local board changes it exactly as `BoxHit` states; the next turn follows `NextTurn` and a lost turn makes the opposing board unclickable |
| Battle.Gameplay.SetTurn | navy/game.py:456-461 | the turn arrow is set; the local player's turn makes the opposing board clickable; the computer plays iff it is its turn and the local board is not destroyed |
| Battle.Gameplay.ComputerTurn | navy/game.py:461 | the AI's lists are resynced against the local board and its pick is as `AI.Play` states it; a pick is an unhit in-grid cell whose attack is resolved as `BoxHit` and `hit_a_box` state; after a failed pick, the resync is the only change |
| Setup.Line | setup_navy.py:337-342 | a ship's boxes start at the chosen box and each one lies one step past the previous one, along i when horizontal and along j when vertical |
| Setup.GridOrderCells | setup_navy.py:265-273 | `cases_rect.values()` enumerates exactly the 100 grid boxes |
| Setup.StartsMember | setup_navy.py:350-366 | a box is returned iff each of the ship's boxes from it exists and passes `valid_box` |
| Setup.KeepMember | setup_navy.py:116-120 | a box is collected iff it is highlighted |
| Setup.ClaimKeepsApart | setup_navy.py:292-311 | giving a ship boxes that pass `valid_box` keeps every two ships from sharing or touching a box |
| Setup.ReleasedApart | setup_navy.py:121-125 | releasing a ship and laying it on boxes that are its own or pass `valid_box` keeps the ships apart |
| Setup.HighlightedInOrder | setup_navy.py:116-121 | the collected list holds exactly the highlighted boxes, and is non-empty iff some box is highlighted |
| Setup.NavySetup.constructor | setup_navy.py:202-245 | all boxes free, no ship placed, every ship horizontal, 30 s on the clock, game not started |
| Setup.NavySetup.InitCases | setup_navy.py:265-273 | one box with no ship per grid cell |
| Setup.NavySetup.ValidBox | setup_navy.py:292-311 | true iff no box of the 3x3 block around the box (itself included) belongs to a ship other than the given one |
| Setup.NavySetup.GetAvailableBoxes | setup_navy.py:350-366 | returns, in grid order, exactly the boxes from which the ship fits |
| Setup.NavySetup.Fits | setup_navy.py:353-364 | one box passes iff each box of the ship laid from it exists and passes `valid_box` |
| Setup.NavySetup.ReleaseCells | setup_navy.py:109-110 | the ship's boxes get no owner and its cover is cleared; nothing else changes |
| Setup.NavySetup.ClaimCells | setup_navy.py:111-113 | each box gets the ship as owner and is appended to its cover, in order |
| Setup.NavySetup.SetRandomPosition | setup_navy.py:330-348 | an orientation is chosen; the pick fails iff no first box fits; otherwise the ship's `ship_size` boxes from a fitting first box are appended to its cover and owned by it; the ships stay apart |
| Setup.NavySetup.Turn | setup_navy.py:102-113 | the orientation flips and the cover becomes the first box plus the new boxes; owners follow; ships stay apart if the new boxes pass `valid_box` |
| Setup.NavySetup.RotateShip | setup_navy.py:82-113 | a ship on the grid turns about its first box iff each new box exists and is not in use; otherwise nothing changes |
| Setup.NavySetup.RotateShipApart | setup_navy.py:82-113 | the same rotation with the `valid_box` test on the new boxes; it keeps the ships apart |
| Setup.NavySetup.PlaceShip | setup_navy.py:115-132 | commits iff some box is highlighted and every highlighted box passes `valid_box`; then the cover becomes the highlighted boxes in grid order and the owners follow; otherwise nothing changes; the ships stay apart |
| Setup.NavySetup.Collect | setup_navy.py:116-120 | collects the highlighted boxes in grid order |
| Setup.NavySetup.AllFree | setup_navy.py:121 | true iff every collected box passes `valid_box`; nothing changes |
| Setup.NavySetup.MoveShip | setup_navy.py:121-125 | the old boxes are released and the new ones claimed; the ships stay apart if each new box is an old one or passes `valid_box` |
| Setup.NavySetup.ReinitAllShips | setup_navy.py:313-323 | no box has an owner, no ship covers a box, and each previously placed ship is horizontal |
| Setup.NavySetup.FreeAllBoxes | setup_navy.py:322-323 | every box ends with no owner |
| Setup.NavySetup.RandomPositions | setup_navy.py:325-328 | the ships never touch; it succeeds with every ship laid as one straight line of its size, and fails only when some ship is off the grid with no available start in its orientation (`random.choice` on an empty list) |
| Setup.NavySetup.Play | setup_navy.py:286-290 | `start_game` is set iff every ship covers at least one box; nothing else changes |
| Setup.NavySetup.UpdateTimer | setup_navy.py:275-284 | the clock loses one second; before zero nothing else changes; at zero every ship that was off the grid is laid at random and the game starts, unless some off-grid ship has no available start; placed ships keep their boxes and orientation, and the ships stay apart |
| Setup.NavySetup.PlaceRemaining | setup_navy.py:277-280 | every ship that was off the grid is laid as a straight line, or it fails because some ship is off the grid with no available start; placed ships keep their boxes and orientation; the ships stay apart |
| Setup.NavySetup.PlaceIfOff | setup_navy.py:278-280 | a ship on the grid is left as it was; an off-grid ship is laid at random, or, when it has no available start in its new orientation, the boxes stay as they were and the pass fails |
| Setup.RotateCanTouch | setup_navy.py:88-101 | a concrete state where the rotation test passes but the rotated ship touches another ship |

## Left out

- Rendering, images, sound effects, widget geometry, the turn arrow's drawing, and `highlight_ships`: pixels, not rules.
- The window event loop and the `after` scheduling. The delays in `hit_a_box`, `set_turn` and `update_timer` are dropped.
  - `Battle.Gameplay.HitABox` returns the next turn instead of scheduling `set_turn`.
  - `Setup.NavySetup.UpdateTimer` models one tick and leaves the rescheduling out.
- `Gameplay.update` (the end-of-game check and `FinishWindow`), `finish`, and the `stop()` inside `NavySetup.play`: window life cycle.
- Networking, for these reasons:
  - `OppositeNavy.player_box_hit` and the connected branches of `box_hit` and `hit_a_box` wait on a peer whose code is not part of this model.
- `show_all_non_destroyed_ships` and `PlayerNavy.send_non_destroyed_ships` are end-of-game display, called only from `Gameplay.update` (left out above). Offline, the first returns the ships still in `ai_setup` (navy/game.py:255-256) and the second does nothing (navy/game.py:200).
  - Only the offline game against the AI is modelled.
  - `send` becomes an append to a message log, and JSON encoding is dropped.
- `ShipSetup.reposition`, `move_event`, `show_cases` and `vector.py`: floating-point pixel geometry and animation.
  - `Setup.NavySetup.PlaceShip` takes the highlighted boxes as an argument.
  - It applies `valid_box` to them when the ship is dropped. The source reads each box's colour. At the last mouse move, `move_event` (setup_navy.py:156-158) set every shown box red when any of them failed `valid_box`, and `show_cases` set them green otherwise.
- The distribution of `random.choice`: a pick is any member of the list.
- The `print` calls of `find_ship`: any output is dropped.
- `Ai.AI.FindShip`: with no candidate, the source prints the board, then raises a `NameError` on the undefined `e` (navy/game.py:335), so its `exit(1)` is never reached. That failure is modelled as the `None` result.
- `Fleet.Navy.HitAllBoxesAroundShip` requires every covered box of the ship to be struck. The source does not check this, but both modelled callers only call it for a destroyed ship. The networked `player_box_hit` (navy/game.py:246) is left out.
- `Battle.Gameplay.HitABox` requires an in-grid position.
  - The source accepts any tuple; for an off-grid one, `get_box` returns `None`, and the attack then fails on that `None`.
  - All callers pass in-grid positions: board clicks, and AI targets, which `Ai.TargetIsOpen` proves in-grid.
- A repeated attack is not a no-op: the code crosses or hatches the cell again. The model follows the code, so `BoxHit` and `AiBoxHit` do not require an unhit box.
- The code does not check the fleet when a board is built. The editor's no-touch invariant is stated separately as `Setup.Separated`.
- `AI.play` iterates over a copy and removes items. The model builds the filtered lists directly; the resulting lists and their order are the same.
- The editor keeps one `NavySetup` object holding the owner of each box and each ship's cover and orientation. `ShipSetup` methods take the ship's index in the roster.

## Findings

| source | as written | input that shows it | evidently intended | confidence | as-written member | corrected member |
|---|---|---|---|---|---|---|
| setup_navy.py:88-101 | `rotate_ship` accepts a new box that exists and is not in use, without the `valid_box` neighbourhood test the rest of the editor applies | destroyer_1 lies horizontally on (0, 0) and (1, 0), and patroal_1 on (1, 2). Rotating the destroyer puts its second box on (0, 1), which is free but diagonal to (1, 2). | a rotation, like every other placement, must leave no two ships sharing or touching a box | medium, not executed | Setup.NavySetup.RotateShip, Setup.RotateCanTouch | Setup.NavySetup.RotateShipApart |
