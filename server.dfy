/**
  The process-wide game registry and the effect of the three lifecycle
  handlers on it: `/start` stores a fresh one-board state, `/move` looks the
  game up and answers with a move, `/end` forgets the game.
*/
module Server {
  import opened Wrappers
  import opened Codec
  import opened Aspirin

  /** The registry's abstract value: each game id's turn history. */
  type Games = map<string, History>

  /** The handler errors. */
  datatype Error = GameNotFound(id: string) | UndefinedRoute(httpMethod: string, path: string)

  /** A lifecycle request, reduced to what the handlers use; `roll` is the random byte a move draws. */
  datatype Event =
    | Start(id: string, turn: U32, board: Board)
    | Move(id: string, turn: U32, board: Board, roll: U8)
    | GameOver(id: string)

  // ---------------------------------------------------------------------------
  // Choosing the move

  /** `rand % 4` picks the move: 0 up, 1 down, 2 left, anything else right.
      Each roll selects exactly the action whose residue is `roll % 4`. */
  function ActionOfRoll(roll: U8): (a: Action)
    ensures RollResidue(a) == roll % 4
  {
    match roll % 4
    case 0 => Up
    case 1 => Down
    case 2 => Left
    case _ => Right
  }

  /** The residue modulo 4 that selects `a`: the inverse of `ActionOfRoll`. */
  function RollResidue(a: Action): (r: nat)
    ensures r < 4
  {
    match a
    case Up => 0
    case Down => 1
    case Left => 2
    case Right => 3
  }

  /** Every action is chosen by some roll: the one equal to its residue. */
  lemma EveryActionReachable(a: Action)
    ensures ActionOfRoll(RollResidue(a)) == a
    ensures exists roll: U8 :: ActionOfRoll(roll) == a
  {
    var roll: U8 := RollResidue(a);
    assert ActionOfRoll(roll) == a;
  }

  // ---------------------------------------------------------------------------
  // The registry as a state machine

  /** The effect of one handler on the registry, as the code is written:
      `/start` stores a one-board history under the id, replacing any earlier one;
      `/move` pushes onto a clone and so leaves the registry as it was;
      `/end` removes the id, if present. */
  function Apply(games: Games, e: Event): (after: Games)
    ensures forall other :: other != e.id ==> (other in after <==> other in games)
    ensures forall other :: other != e.id && other in games ==> after[other] == games[other]
    ensures e.Start? ==> e.id in after && after[e.id].Keys == {e.turn} && after[e.id][e.turn] == e.board
    ensures e.Move? ==> after == games
    ensures e.GameOver? ==> e.id !in after
  {
    match e
    case Start(id, turn, board) => games[id := map[turn := board]]
    case Move(_, _, _, _) => games
    case GameOver(id) => games - {id}
  }

  /** The registry after handling `events` in order. */
  function Run(games: Games, events: seq<Event>): Games
    decreases |events|
  {
    if events == [] then games else Run(Apply(games, events[0]), events[1..])
  }

  /** What `/move` answers: the action its roll picks, or `GameNotFound` for an unknown id. */
  function MoveReply(games: Games, id: string, roll: U8): (r: Result<Action, Error>)
    ensures r.Err? <==> id !in games
    ensures r.Err? ==> r.error == GameNotFound(id)
    ensures r.Ok? ==> RollResidue(r.value) == roll % 4
  {
    if id in games then Ok(ActionOfRoll(roll)) else Err(GameNotFound(id))
  }

  /** `/start` discards any earlier history for the id, stores exactly one board, and touches no other id. */
  lemma StartReplaces(games: Games, id: string, turn: U32, board: Board)
    ensures id in Apply(games, Start(id, turn, board))
    ensures Apply(games, Start(id, turn, board))[id] == map[turn := board]
    ensures forall other :: other != id ==>
      (other in Apply(games, Start(id, turn, board)) <==> other in games)
    ensures forall other :: other != id && other in games ==>
      Apply(games, Start(id, turn, board))[other] == games[other]
  {
  }

  /** `/move` never changes the registry, found or not; for an unknown id it fails and creates no entry. */
  lemma MoveChangesNothing(games: Games, id: string, turn: U32, board: Board, roll: U8)
    ensures Apply(games, Move(id, turn, board, roll)) == games
    ensures id !in games ==> MoveReply(games, id, roll) == Err(GameNotFound(id))
  {
  }

  /** `/end` removes the id and nothing else; ending an absent id does nothing; ending twice is ending once. */
  lemma GameOverRemoves(games: Games, id: string)
    ensures id !in Apply(games, GameOver(id))
    ensures forall other :: other != id ==>
      (other in Apply(games, GameOver(id)) <==> other in games)
    ensures forall other :: other != id && other in games ==>
      Apply(games, GameOver(id))[other] == games[other]
    ensures id !in games ==> Apply(games, GameOver(id)) == games
    ensures Apply(Apply(games, GameOver(id)), GameOver(id)) == Apply(games, GameOver(id))
  {
  }

  /** The event starts or ends game `id`; only such events change that game's entry. */
  predicate Touches(e: Event, id: string)
  {
    (e.Start? || e.GameOver?) && e.id == id
  }

  /** A run with no `/start` or `/end` for `id` leaves that entry exactly as it was:
      however many moves arrive, the stored history never advances. */
  lemma {:induction false} UntouchedEntryKept(games: Games, id: string, events: seq<Event>)
    requires forall i :: 0 <= i < |events| ==> !Touches(events[i], id)
    ensures id in Run(games, events) <==> id in games
    ensures id in games ==> Run(games, events)[id] == games[id]
    decreases |events|
  {
    if events != [] {
      UntouchedEntryKept(Apply(games, events[0]), id, events[1..]);
    }
  }

  /** Every stored game holds exactly one board. */
  predicate OneBoardEach(games: Games)
  {
    forall id :: id in games ==> |games[id]| == 1
  }

  /** Starting from an empty (or one-board-each) registry, every stored game holds exactly one board
      after any run: `/start` stores one and `/move` never writes back. */
  lemma {:induction false} RunKeepsOneBoardEach(games: Games, events: seq<Event>)
    requires OneBoardEach(games)
    ensures OneBoardEach(Run(games, events))
    decreases |events|
  {
    if events != [] {
      if events[0].Start? {
        var e := events[0];
        assert |map[e.turn := e.board]| == 1;
      }
      RunKeepsOneBoardEach(Apply(games, events[0]), events[1..]);
    }
  }

  /** After `/start` and any number of moves, the stored state's collision answer reflects the
      start board only. */
  lemma StoredStateReflectsStart(games: Games, id: string, turn: U32, board: Board, events: seq<Event>, c: Coord)
    requires forall i :: 0 <= i < |events| ==> !Touches(events[i], id)
    ensures id in Run(games, [Start(id, turn, board)] + events)
    ensures Run(games, [Start(id, turn, board)] + events)[id] == map[turn := board]
    ensures Collides(Run(games, [Start(id, turn, board)] + events)[id], c) <==> Occupied(board, c)
  {
    var started := Apply(games, Start(id, turn, board));
    assert ([Start(id, turn, board)] + events)[1..] == events;
    UntouchedEntryKept(started, id, events);
    PushNewestDecides(map[], turn, board, c);
  }

  /** As written, a move's board is never seen: with a snake at (2,2) at turn 0 and no snakes at turn 1,
      the stored state still reports a collision at (2,2). */
  lemma MoveIsNotRecorded(b0: Board, b1: Board, roll: U8)
    requires |b0.snakes| == 1 && b0.snakes[0].body == [Coord(2, 2)]
    requires b1.snakes == []
    ensures !Occupied(b1, Coord(2, 2))
    ensures "g" in Run(map[], [Start("g", 0, b0), Move("g", 1, b1, roll)])
    ensures Collides(Run(map[], [Start("g", 0, b0), Move("g", 1, b1, roll)])["g"], Coord(2, 2))
  {
    var events := [Move("g", 1, b1, roll)];
    assert !Touches(events[0], "g");
    assert [Start("g", 0, b0)] + events == [Start("g", 0, b0), Move("g", 1, b1, roll)];
    assert b0.snakes[0] in b0.snakes;
    StoredStateReflectsStart(map[], "g", 0, b0, events, Coord(2, 2));
  }

  // ---------------------------------------------------------------------------
  // The move step as evidently intended

  /** A `/move` that writes the pushed clone back, so the registry records the turn. */
  function ApplyRecorded(games: Games, e: Event): (after: Games)
    ensures forall other :: other != e.id ==> (other in after <==> other in games)
    ensures forall other :: other != e.id && other in games ==> after[other] == games[other]
    ensures e.Move? ==> (e.id in after <==> e.id in games)
    ensures e.Move? && e.id in games ==>
      after[e.id].Keys == games[e.id].Keys + {e.turn} && after[e.id][e.turn] == e.board &&
      forall k :: k in games[e.id] && k != e.turn ==> after[e.id][k] == games[e.id][k]
    ensures !e.Move? ==> after == Apply(games, e)
  {
    match e
    case Move(id, turn, board, _) =>
      if id in games then
        var pushed: History := games[id][turn := board];
        games[id := pushed]
      else games
    case _ => Apply(games, e)
  }

  /** With the write-back, a move for a known game at a turn no earlier than the recorded ones
      decides the collision answer of the state right after that move; an unknown game still
      gets no entry. */
  lemma RecordedMoveIsVisible(games: Games, id: string, turn: U32, board: Board, roll: U8, c: Coord)
    requires id in games ==> forall k :: k in games[id] ==> k <= turn
    ensures id in ApplyRecorded(games, Move(id, turn, board, roll)) <==> id in games
    ensures id in games ==>
      (Collides(ApplyRecorded(games, Move(id, turn, board, roll))[id], c) <==> Occupied(board, c))
  {
    if id in games {
      PushNewestDecides(games[id], turn, board, c);
    }
  }

  // ---------------------------------------------------------------------------
  // The registry object

  /** The process-wide map from game id to that game's state. */
  class Registry {
    var games: map<string, GameState>

    /** The registry's contents: each id's history. */
    ghost function Histories(): Games
      reads this, games.Values
    {
      map id | id in games :: games[id].history
    }

    /** `get_states` on first use: an empty registry. */
    constructor ()
      ensures games == map[]
      ensures Histories() == map[]
    {
      games := map[];
    }

    /** `handle_start`: a default state with the start board pushed, inserted under the id. */
    method HandleStart(id: string, turn: U32, board: Board)
      modifies this
      ensures Histories() == Apply(old(Histories()), Start(id, turn, board))
    {
      var state := new GameState();
      state.Push(turn, board);
      games := games[id := state];
    }

    /** `handle_move`: look the id up, push the board onto a clone of its state, pick the move from
        the roll. The clone is dropped, so the registry is left as it was. */
    method HandleMove(id: string, turn: U32, board: Board, roll: U8) returns (r: Result<Action, Error>)
      ensures r == MoveReply(Histories(), id, roll)
      ensures Histories() == Apply(old(Histories()), Move(id, turn, board, roll))
    {
      if id !in games {
        return Err(GameNotFound(id));
      }
      var copy := games[id].Clone();
      copy.Push(turn, board);
      r := Ok(ActionOfRoll(roll));
    }

    /** `handle_game_over`: remove the id; an absent id is no error. */
    method HandleGameOver(id: string)
      modifies this
      ensures Histories() == Apply(old(Histories()), GameOver(id))
    {
      games := games - {id};
    }

    /** The corrected `handle_move`: as `HandleMove`, but the pushed clone replaces the stored state. */
    method RecordMove(id: string, turn: U32, board: Board, roll: U8) returns (r: Result<Action, Error>)
      modifies this
      ensures r == MoveReply(old(Histories()), id, roll)
      ensures Histories() == ApplyRecorded(old(Histories()), Move(id, turn, board, roll))
    {
      if id !in games {
        return Err(GameNotFound(id));
      }
      var copy := games[id].Clone();
      copy.Push(turn, board);
      games := games[id := copy];
      r := Ok(ActionOfRoll(roll));
    }
  }
}
