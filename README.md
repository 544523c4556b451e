# Battle-snake session store, modelled in Dafny

This project models the stateful core of a battle-snake game server. A referee
drives each game through `/start`, `/move` and `/end` requests. The server
keeps a process-wide registry from game id to that game's state. A game's
state (`GameState`) is an ordered map from turn number to the board the
referee sent for that turn. `would_collide` asks whether a coordinate is a
body segment of any snake on the board with the largest turn number.

Modules, one per source file, plus a helper module:

- `Wrappers` (`wrappers.dfy`): stands for Rust's own `Option` and `Result`; it models no file of the repository.
- `Codec` (`codec.dfy`): the records of `crates/aspirin/src/codec.rs` that the
  core walks (`Coord`, `BattleSnake`, `Board`, `Action`, `Distance`). It also
  holds the derived ordering of `Coord` and `Coord::distance`, with the `as i32`
  casts and the `i32` subtraction written out as two's-complement wrap-around.
- `Aspirin` (`game_state.dfy`): `GameState` from `crates/aspirin/src/lib.rs`.
  It is a class whose `history: map<U32, Board>` field `Push` updates in place.
  `WouldCollide` is a read-only method with the source's nested loops. It is
  proved equal to the predicate `Collides`, which the lemmas reason about.
  `LastKey` is `BTreeMap::last_key_value`: the unique largest turn.
- `Server` (`server.dfy`): the registry effects of the handlers in
  `src/main.rs`. `Registry` is a class holding `map<string, GameState>`, with
  one method per handler. The pure step function `Apply` specifies each method
  over the ghost view `Histories()`. `Run` folds `Apply` over a sequence of
  requests. The single-handler lemmas (`StartReplaces`, `MoveChangesNothing`,
  `GameOverRemoves`) are stated over one `Apply` step. The lifecycle lemmas
  over many requests are stated over `Run`.

The move handler is modelled as the code is written. It pushes the new board
onto a clone of the stored state and drops the clone, so the registry never
changes on a move. The handlers' intended behaviour is that a move records its
board in the game's history; the code does not do that, and this model follows
the code. The corrected step is modelled separately (see "## Findings").

Collision queries exist only on a single `GameState` (`would_collide`), not as
a registry operation keyed by game id. No handler calls them. The board record's
optional second dimension is named `weight` in the source, and the model keeps
that name.

## Model

| member | source | states |
|---|---|---|
| `Codec.Cmp` | crates/aspirin/src/codec.rs:147-151 | derived `Ord` on `Coord`: equal iff both fields are equal; less iff `x` is smaller, or `x` ties and `y` is smaller |
| `Codec.CoordEquality` | crates/aspirin/src/codec.rs:147-151 | derived equality: two coordinates are equal iff their `x` and their `y` are equal |
| `Codec.CmpAntisymmetric` | crates/aspirin/src/codec.rs:147-151 | swapping the operands of the comparison reverses its result |
| `Codec.LeIsTotalOrder` | crates/aspirin/src/codec.rs:147-151 | the derived `<=` is reflexive, antisymmetric, transitive and total |
| `Codec.AsI32` | crates/aspirin/src/codec.rs:155-156 | `u32 as i32` keeps the 32 bits: the result is congruent to the input modulo 2^32, unchanged up to `i32::MAX` and negative above it |
| `Codec.WrappingSub` | crates/aspirin/src/codec.rs:155-156 | `i32` subtraction is the true difference modulo 2^32, and exact when the difference fits in `i32` |
| `Codec.CoordDistance` | crates/aspirin/src/codec.rs:154-158 | each component of `a.distance(b)` is congruent to the true difference of that axis modulo 2^32 |
| `Codec.DistanceIsExact` | crates/aspirin/src/codec.rs:154-158 | when all components are at most `i32::MAX`, the distance is `(a.x - b.x, a.y - b.y)` with no wrap-around |
| `Codec.DistanceToSelf` | crates/aspirin/src/codec.rs:154-158 | `a.distance(a)` is `(0, 0)` for every coordinate |
| `Codec.DistanceAntisymmetric` | crates/aspirin/src/codec.rs:154-158 | within the bound, `b.distance(a)` is the componentwise negation of `a.distance(b)` |
| `Codec.DistanceBounded` | crates/aspirin/src/codec.rs:154-158 | within the bound, each component lies in `[-i32::MAX, i32::MAX]` |
| `Codec.DistanceWrapsPastBound` | crates/aspirin/src/codec.rs:155 | the bound is needed: `x = 2^31` casts to `i32::MIN`, so a point to the right gets distance `i32::MIN` |
| `Codec.ActionHasFourVariants` | crates/aspirin/src/codec.rs:73-80 | `Action` has exactly the four variants `Up`, `Down`, `Left`, `Right` |
| `Aspirin.LastKey` | crates/aspirin/src/lib.rs:18 | the key `last_key_value` finds: a recorded turn that is at least every recorded turn |
| `Aspirin.EmptyHistoryNeverCollides` | crates/aspirin/src/lib.rs:18-21 | with no board recorded, no coordinate collides |
| `Aspirin.PushIsKeyedInsert` | crates/aspirin/src/lib.rs:13-15 | after inserting turn `t`, `t` maps to the board; other turns keep their boards; the keys gain `{t}`; a repeated turn does not grow the key count |
| `Aspirin.PushNewestDecides` | crates/aspirin/src/lib.rs:13-30 | after pushing a turn at least as late as every recorded one, that turn is the last key and only its board decides the collision answer |
| `Aspirin.PushStaleIgnored` | crates/aspirin/src/lib.rs:13-30 | pushing a turn older than the newest one changes neither the last key nor any collision answer |
| `Aspirin.StaleBoardsIgnored` | crates/aspirin/src/lib.rs:17-30 | removing any board other than the newest changes no collision answer: segments on older boards never count |
| `Aspirin.ExactMatchOnly` | crates/aspirin/src/lib.rs:22-28 | a snake with body (2,2), (2,3), (3,3) collides at (2,2) and not at (2,4) |
| `Aspirin.GameState.constructor` | crates/aspirin/src/lib.rs:7-10 | `GameState::default()` has an empty history |
| `Aspirin.GameState.Push` | crates/aspirin/src/lib.rs:13-15 | the new history is the old one with the turn mapped to the board |
| `Aspirin.GameState.Clone` | crates/aspirin/src/lib.rs:7 | the derived clone is a new object with an equal history |
| `Aspirin.GameState.WouldCollide` | crates/aspirin/src/lib.rs:17-30 | true iff some snake on the board at the largest turn has the coordinate in its body; false on an empty history; reads only |
| `Server.ActionOfRoll` | src/main.rs:132-137 | the `rand % 4` match: each roll selects the action whose residue is `roll % 4` (0 up, 1 down, 2 left, 3 right) |
| `Server.EveryActionReachable` | src/main.rs:132-137 | every action is chosen by some roll |
| `Server.Apply` | src/main.rs:110-157 | one handler's effect on the registry as written: only the request's id can change; `/start` stores exactly `{turn: board}` under it (insert at line 113); `/move` leaves the registry equal to the old one, because the push at line 131 goes to a dropped clone; `/end` removes the id (line 157) |
| `Server.MoveReply` | src/main.rs:125-137 | the move handler fails with `GameNotFound(id)` exactly when the id is not registered, and otherwise answers the action the roll selects |
| `Server.StartReplaces` | src/main.rs:110-113 | after `/start`, the id's history is exactly `{turn: board}`, any earlier one discarded, and every other id is unchanged |
| `Server.MoveChangesNothing` | src/main.rs:125-131 | `/move` leaves the registry unchanged; for an unknown id it fails and creates no entry |
| `Server.GameOverRemoves` | src/main.rs:157 | `/end` removes the id and leaves every other id unchanged; an absent id is a no-op; ending twice equals ending once |
| `Server.UntouchedEntryKept` | src/main.rs:110-157 | over any requests with no `/start` or `/end` for an id, that id's presence and history stay as they were |
| `Server.RunKeepsOneBoardEach` | src/main.rs:110-131 | from a registry where every game holds one board (the empty one included), every game holds exactly one board after any requests |
| `Server.StoredStateReflectsStart` | src/main.rs:110-131 | after `/start` and any moves, the stored history is `{turn: board}` and its collision answer depends only on the start board |
| `Server.MoveIsNotRecorded` | src/main.rs:125-131 | as written, a move's board is never seen: a segment present only in the start board still collides after a later move without it |
| `Server.ApplyRecorded` | src/main.rs:125-131 | corrected move step: for a known id the history becomes the old one with the turn inserted by key (other turns kept); an unknown id gets no entry; other ids and the other handlers are as in `Apply` |
| `Server.RecordedMoveIsVisible` | src/main.rs:125-131 | with the clone written back, a move at a turn no earlier than the recorded ones decides the collision answer of the state right after that move, and an unknown id still gets no entry |
| `Server.Registry.constructor` | src/main.rs:161-162 | the registry starts empty |
| `Server.Registry.HandleStart` | src/main.rs:103-115 | the registry afterwards is the `/start` step applied to the old one |
| `Server.Registry.HandleMove` | src/main.rs:117-145 | answers `MoveReply` and leaves the registry as it was: the push goes to a clone |
| `Server.Registry.HandleGameOver` | src/main.rs:147-159 | the registry afterwards is the old one without the id |
| `Server.Registry.RecordMove` | src/main.rs:125-131 | corrected move handler: same answer, and the pushed clone replaces the stored state |

## Left out

- HTTP routing, filters, rejection recovery, status and JSON-body mapping (`handle_recover`, `convert_rejection`, `Error::into_pair`, `impl Reply for Error`): transport plumbing with no state.
- `handle_catch_all`: not routed, so it is never reached.
- `async`, the `RwLock` and the `OnceLock` around the registry: the model is sequential. Each handler is one atomic step, so concurrent interleavings are not modelled.
- `rand::random`: the move's random byte is the `roll` parameter. The second random byte, and the shout it picks from `shouts::SHOUTS`, are left out. The `shouts` module is not part of this model.
- Serde derives, the config file, the root `/` details reply, logging and `setup_logging`: I/O and library glue.
- Records that nothing reads (`Game`, `RuleSet`, its settings, `Customizations`, `Source`, `Details`, `MoveAction`) are not modelled. A request carries only the game id, turn, board and roll. `BattleSnake` keeps `id`, `name`, `health`, `body`, `head` and `length`.
- Codec.WrappingSub: follows a release build, where `i32` subtraction wraps. A debug build panics on overflow instead. Both agree within the `i32::MAX` bound that the distance lemmas assume.

## Findings

| source | as written | input that shows it | evidently intended | confidence | as-written member | corrected member |
|---|---|---|---|---|---|---|
| src/main.rs:125-131 | the move handler clones the stored state, pushes the new board onto the clone and drops it, so the registry keeps only the start board | `/start` of game "g" at turn 0 with a snake at (2,2), then `/move` of "g" at turn 1 with no snakes: the stored state still reports a collision at (2,2) | the pushed state is written back, so each move's board becomes the newest board of the stored history | medium, not executed | `Server.MoveIsNotRecorded` | `Server.RecordedMoveIsVisible` |
