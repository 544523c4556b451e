/**
  Per-game turn history: an ordered map from turn number to the board the
  referee sent for that turn, and the collision query over its newest board.
*/
module Aspirin {
  import opened Codec

  /** The turn-ordered history of one game (a `BTreeMap<u32, Board>`). */
  type History = map<U32, Board>

  /** A non-empty set of turns has a largest element. */
  lemma {:induction false} LargestTurnExists(turns: set<U32>)
    requires turns != {}
    ensures exists m :: m in turns && forall k :: k in turns ==> k <= m
  {
    var k :| k in turns;
    if turns != {k} {
      LargestTurnExists(turns - {k});
      var m :| m in turns - {k} && forall j :: j in turns - {k} ==> j <= m;
      forall j | j in turns
        ensures j <= m || j == k
      {
        if j != k {
          assert j in turns - {k};
        }
      }
      if k > m {
        assert forall j :: j in turns ==> j <= k;
      }
    }
  }

  /** The key `last_key_value` finds: the largest turn recorded. */
  function LastKey(h: History): (m: U32)
    requires h != map[]
    ensures m in h
    ensures forall k :: k in h ==> k <= m
  {
    LargestTurnExists(h.Keys);
    var m :| m in h && forall k :: k in h ==> k <= m;
    m
  }

  /** Some snake on `board` has a body segment at `c`. */
  predicate Occupied(board: Board, c: Coord)
  {
    exists s :: s in board.snakes && c in s.body
  }

  /** What `would_collide` answers: `c` is a body segment on the newest board, and false with no board. */
  predicate Collides(h: History, c: Coord)
  {
    h != map[] && Occupied(h[LastKey(h)], c)
  }

  /** A state with no board never reports a collision. */
  lemma EmptyHistoryNeverCollides(c: Coord)
    ensures !Collides(map[], c)
  {
  }

  /** Inserting by key: the board is stored under its turn, every other turn keeps its board,
      and a repeated turn overwrites instead of adding an entry. */
  lemma PushIsKeyedInsert(h: History, t: U32, b: Board)
    ensures h[t := b][t] == b
    ensures h[t := b].Keys == h.Keys + {t}
    ensures forall k :: k in h && k != t ==> h[t := b][k] == h[k]
    ensures t in h ==> |h[t := b]| == |h|
    ensures t !in h ==> |h[t := b]| == |h| + 1
  {
  }

  /** Once a turn at least as late as every recorded one is pushed, only its board decides. */
  lemma PushNewestDecides(h: History, t: U32, b: Board, c: Coord)
    requires forall k :: k in h ==> k <= t
    ensures t in h[t := b]
    ensures LastKey(h[t := b]) == t
    ensures Collides(h[t := b], c) <==> Occupied(b, c)
  {
    assert t in h[t := b];
    var m := LastKey(h[t := b]);
    assert m <= t && t <= m;
  }

  /** Pushing a turn older than the newest one leaves every answer as it was. */
  lemma PushStaleIgnored(h: History, t: U32, b: Board, c: Coord)
    requires h != map[] && t < LastKey(h)
    ensures LastKey(h[t := b]) == LastKey(h)
    ensures Collides(h[t := b], c) <==> Collides(h, c)
  {
    assert t in h[t := b];
    var m, m' := LastKey(h), LastKey(h[t := b]);
    assert m in h[t := b];
    assert m' == t || m' in h;
    assert m' <= m && m <= m';
  }

  /** A board that is not the newest never matters: dropping it changes no answer. */
  lemma StaleBoardsIgnored(h: History, t: U32, c: Coord)
    requires t in h && t != LastKey(h)
    ensures h - {t} != map[] && LastKey(h - {t}) == LastKey(h)
    ensures Collides(h - {t}, c) <==> Collides(h, c)
  {
    var m := LastKey(h);
    assert m in h - {t};
    var m' := LastKey(h - {t});
    assert m' <= m && m <= m';
  }

  /** A body segment `{(2,2), (2,3), (3,3)}` collides at (2,2) and not at (2,4): only exact matches count. */
  lemma ExactMatchOnly(b: Board)
    requires |b.snakes| == 1 && b.snakes[0].body == [Coord(2, 2), Coord(2, 3), Coord(3, 3)]
    ensures Collides(map[0 := b], Coord(2, 2))
    ensures !Collides(map[0 := b], Coord(2, 4))
  {
    var h := map[0 := b];
    assert 0 in h;
    assert LastKey(h) == 0;
    assert b.snakes[0] in b.snakes;
  }

  /** One game's state: its turn history. */
  class GameState {
    var history: History

    /** `GameState::default()`: no board recorded yet. */
    constructor ()
      ensures history == map[]
    {
      history := map[];
    }

    /** `push(i, board)`: insert by turn; a repeated turn overwrites its board. */
    method Push(i: U32, board: Board)
      modifies this
      ensures history == old(history)[i := board]
    {
      history := history[i := board];
    }

    /** The derived `clone`: a new state with an equal history. */
    method Clone() returns (copy: GameState)
      ensures fresh(copy)
      ensures copy.history == history
    {
      copy := new GameState();
      copy.history := history;
    }

    /** `would_collide(coord)`: walk every snake's body on the newest board, stopping at the first match. */
    method WouldCollide(coord: Coord) returns (collides: bool)
      ensures history == map[] ==> !collides
      ensures collides <==> Collides(history, coord)
    {
      if history == map[] {
        return false;
      }
      var board := history[LastKey(history)];
      var i := 0;
      while i < |board.snakes|
        invariant 0 <= i <= |board.snakes|
        invariant forall k :: 0 <= k < i ==> coord !in board.snakes[k].body
      {
        var body := board.snakes[i].body;
        var j := 0;
        while j < |body|
          invariant 0 <= j <= |body|
          invariant coord !in body[..j]
        {
          if coord == body[j] {
            return true;
          }
          assert body[..j + 1] == body[..j] + [body[j]];
          j := j + 1;
        }
        assert body[..j] == body;
        i := i + 1;
      }
      return false;
    }
  }
}
