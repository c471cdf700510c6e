/** Two invariants of the game state and their preservation by every operation.

    Grid alignment: every coordinate of the snake, its tail and the apples is a
    multiple of the cell size.

    Chain: each segment stands one cell ahead of the segment behind it, along
    the heading stored in that segment behind; the head stands one cell ahead
    of the first tail part. So the snake is always a connected path of cells
    that the head has walked.
 */
module Invariants {
  import opened Geometry
  import opened Entities
  import opened Engine
  import opened Input
  import opened Rules

  predicate PartAligned(p: TailPart)
  {
    Aligned(p.x) && Aligned(p.y)
  }

  predicate SnakeAligned(s: Snake)
  {
    Aligned(s.x) && Aligned(s.y) && forall i :: 0 <= i < |s.tail| ==> PartAligned(s.tail[i])
  }

  predicate ApplesAligned(apples: seq<Apple>)
  {
    forall i :: 0 <= i < |apples| ==> Aligned(apples[i].x) && Aligned(apples[i].y)
  }

  predicate GameAligned(g: Game)
  {
    SnakeAligned(g.snake) && ApplesAligned(g.apples)
  }

  /** The cell one move ahead of a part, along its stored heading. */
  function Ahead(p: TailPart): (int, int)
  {
    Step(p.x, p.y, p.direction, Speed * RectScale)
  }

  predicate Chain(s: Snake)
  {
    && (|s.tail| > 0 ==> Ahead(s.tail[0]) == (s.x, s.y))
    && forall i :: 0 <= i < |s.tail| - 1 ==> Ahead(s.tail[i + 1]) == (s.tail[i].x, s.tail[i].y)
  }

  /** The game as first built, a new snake and one new apple, satisfies both
      invariants; the preservation lemmas below carry them through every tick. */
  lemma InitialGameInvariants(b: Board, d: SpawnDraw, kd: int, ad: PlaceDraw)
    requires ValidSpawn(b, d) && IsDraw(0, 4, 1, kd) && ValidPlace(b, ad)
    ensures GameAligned(Game(NewSnake(b, d, kd), [NewApple(b, ad)]))
    ensures Chain(NewSnake(b, d, kd))
  {
  }

  // Grid alignment

  lemma MovePreservesAlignment(s: Snake)
    requires SnakeAligned(s)
    ensures SnakeAligned(Move(s))
  {
    var r := Move(s);
    forall i | 0 <= i < |r.tail|
      ensures PartAligned(r.tail[i])
    {
      if i > 0 {
        assert r.tail[i] == s.tail[i - 1];
      }
    }
  }

  lemma EatPreservesAlignment(s: Snake)
    requires SnakeAligned(s)
    ensures SnakeAligned(Eat(s))
  {
    var r := Eat(s);
    var n := |s.tail|;
    forall i | 0 <= i < |r.tail|
      ensures PartAligned(r.tail[i])
    {
      if i < n {
        assert r.tail[i] == r.tail[..n][i];
      }
    }
  }

  lemma RespawnIsAlignedChain(b: Board, d: SpawnDraw)
    requires ValidSpawn(b, d)
    ensures SnakeAligned(Respawn(b, d)) && Chain(Respawn(b, d))
  {
  }

  lemma {:induction false} FeedPreservesAlignment(b: Board, s: Snake, apples: seq<Apple>, draws: seq<PlaceDraw>)
    requires ValidDraws(b, apples, draws)
    requires SnakeAligned(s)
    ensures SnakeAligned(Feed(b, s, apples, draws).0)
    decreases |apples|
  {
    if |apples| > 0 {
      var s1 := if AtHead(s, apples[0]) then Eat(s) else s;
      if AtHead(s, apples[0]) {
        EatPreservesAlignment(s);
      }
      FeedPreservesAlignment(b, s1, apples[1..], draws[1..]);
    }
  }

  lemma ResolvePreservesAlignment(b: Board, g: Game, terminal: bool, spawn: SpawnDraw, draws: seq<PlaceDraw>)
    requires ValidSpawn(b, spawn) && ValidDraws(b, g.apples, draws)
    requires GameAligned(g)
    ensures GameAligned(Resolve(b, g, terminal, spawn, draws))
  {
    if !terminal {
      FeedPreservesAlignment(b, g.snake, g.apples, draws);
    }
  }

  /** One tick of the game keeps every coordinate on the grid. */
  lemma TickPreservesAlignment(b: Board, g: Game, spawn: SpawnDraw, draws: seq<PlaceDraw>)
    requires ValidSpawn(b, spawn) && ValidDraws(b, g.apples, draws)
    requires GameAligned(g)
    ensures GameAligned(Tick(b, g, spawn, draws))
    ensures GameAligned(TickOnBoard(b, g, spawn, draws))
  {
    MovePreservesAlignment(g.snake);
    var m := Game(Move(g.snake), g.apples);
    ResolvePreservesAlignment(b, m, Terminal(b, m.snake), spawn, draws);
    ResolvePreservesAlignment(b, m, TerminalOnBoard(b, m.snake), spawn, draws);
  }

  // Chain

  lemma MovePreservesChain(s: Snake)
    requires Chain(s)
    ensures Chain(Move(s))
  {
    var r := Move(s);
    forall i | 0 <= i < |r.tail| - 1
      ensures Ahead(r.tail[i + 1]) == (r.tail[i].x, r.tail[i].y)
    {
      assert r.tail[i + 1] == s.tail[i];
      if i > 0 {
        assert r.tail[i] == s.tail[i - 1];
      }
    }
  }

  lemma EatPreservesChain(s: Snake)
    requires Chain(s)
    ensures Chain(Eat(s))
  {
    var r := Eat(s);
    var n := |s.tail|;
    forall i | 0 <= i < |r.tail| - 1
      ensures Ahead(r.tail[i + 1]) == (r.tail[i].x, r.tail[i].y)
    {
      assert r.tail[i] == r.tail[..n][i];
      if i + 1 < n {
        assert r.tail[i + 1] == r.tail[..n][i + 1];
      }
    }
    if n > 0 {
      assert r.tail[0] == r.tail[..n][0];
    }
  }

  lemma {:induction false} FeedPreservesChain(b: Board, s: Snake, apples: seq<Apple>, draws: seq<PlaceDraw>)
    requires ValidDraws(b, apples, draws)
    requires Chain(s)
    ensures Chain(Feed(b, s, apples, draws).0)
    decreases |apples|
  {
    if |apples| > 0 {
      var s1 := if AtHead(s, apples[0]) then Eat(s) else s;
      if AtHead(s, apples[0]) {
        EatPreservesChain(s);
      }
      FeedPreservesChain(b, s1, apples[1..], draws[1..]);
    }
  }

  lemma ResolvePreservesChain(b: Board, g: Game, terminal: bool, spawn: SpawnDraw, draws: seq<PlaceDraw>)
    requires ValidSpawn(b, spawn) && ValidDraws(b, g.apples, draws)
    requires Chain(g.snake)
    ensures Chain(Resolve(b, g, terminal, spawn, draws).snake)
  {
    if !terminal {
      FeedPreservesChain(b, g.snake, g.apples, draws);
    }
  }

  /** One tick of the game keeps the snake a connected chain of cells. */
  lemma TickPreservesChain(b: Board, g: Game, spawn: SpawnDraw, draws: seq<PlaceDraw>)
    requires ValidSpawn(b, spawn) && ValidDraws(b, g.apples, draws)
    requires Chain(g.snake)
    ensures Chain(Tick(b, g, spawn, draws).snake)
    ensures Chain(TickOnBoard(b, g, spawn, draws).snake)
  {
    MovePreservesChain(g.snake);
    var m := Game(Move(g.snake), g.apples);
    ResolvePreservesChain(b, m, Terminal(b, m.snake), spawn, draws);
    ResolvePreservesChain(b, m, TerminalOnBoard(b, m.snake), spawn, draws);
  }

  /** A key press changes only the head's heading, which the chain does not read. */
  lemma TurnPreservesChain(s: Snake, keyCode: int)
    requires Chain(s)
    ensures Chain(s.(direction := Turn(s.direction, keyCode)))
  {
  }

  // Reversal

  /** A snake of at least two parts that heads back the way its first part came
      bites its own tail on the next move. */
  lemma ReversalBitesTail(s: Snake)
    requires Chain(s) && |s.tail| >= 2
    requires s.direction == Opposite(s.tail[0].direction)
    ensures EatsSelf(Move(s))
  {
    var r := Move(s);
    assert r.tail[1] == s.tail[0];
    assert r.x == r.tail[1].x && r.y == r.tail[1].y;
  }

  /** After a move the first part carries the head's heading, so one key press
      before the next move can never reverse onto it. */
  lemma SinglePressCannotReverse(s: Snake, keyCode: int)
    requires |s.tail| > 0
    ensures Turn(Move(s).direction, keyCode) != Opposite(Move(s).tail[0].direction)
  {
  }

  /** Two presses can: a moving snake of at least two parts heading right that
      gets up then left before its next move bites itself. */
  lemma TwoPressesBite(s: Snake)
    requires Chain(s) && |s.tail| >= 2 && s.direction == Right
    ensures var m := Move(s);
              EatsSelf(Move(m.(direction := Turn(Turn(m.direction, KeyUp), KeyLeft))))
  {
    var m := Move(s);
    MovePreservesChain(s);
    ReversalBitesTail(m.(direction := Turn(Turn(m.direction, KeyUp), KeyLeft)));
  }
}
