/** The rules run after every move: leaving the board or biting the tail
    restarts the snake in place; otherwise every apple under the head is eaten
    and respawned. One tick of the game loop is a move followed by these rules.
 */
module Rules {
  import opened Geometry
  import opened Entities
  import opened Engine

  /** The whole game state: the snake and the apples on the board. */
  datatype Game = Game(snake: Snake, apples: seq<Apple>)

  /** The score shown after each tick: the number of tail parts. */
  function Score(g: Game): nat
  {
    |g.snake.tail|
  }

  /** The boundary test of `processCollision` as the source writes it: strict on the
      far edges, so a head exactly at x == width or y == height is still in play. */
  predicate Escapes(b: Board, x: int, y: int)
  {
    x > b.width || x < 0 || y > b.height || y < 0
  }

  /** The boundary test the board's extent calls for: the head is outside
      [0, width) × [0, height), the area the generator places objects in. */
  predicate OffBoard(b: Board, x: int, y: int)
  {
    x >= b.width || x < 0 || y >= b.height || y < 0
  }

  predicate AtHead(s: Snake, a: Apple)
  {
    a.x == s.x && a.y == s.y
  }

  /** How many apples stand on the cell (x, y). */
  function ApplesAt(apples: seq<Apple>, x: int, y: int): (n: nat)
    ensures n <= |apples|
    ensures n == 0 <==> forall i :: 0 <= i < |apples| ==> !(apples[i].x == x && apples[i].y == y)
  {
    if |apples| == 0 then 0
    else (if apples[0].x == x && apples[0].y == y then 1 else 0) + ApplesAt(apples[1..], x, y)
  }

  /** One respawn draw per apple; an apple uses its draw only if it is eaten. */
  predicate ValidDraws(b: Board, apples: seq<Apple>, draws: seq<PlaceDraw>)
  {
    |draws| == |apples| && forall i :: 0 <= i < |draws| ==> ValidPlace(b, draws[i])
  }

  /** The apple loop of `processCollision`: in order, each apple under the head
      makes the snake eat and is given a new cell. Eating never moves the head,
      so every apple is compared with the same cell. */
  function Feed(b: Board, s: Snake, apples: seq<Apple>, draws: seq<PlaceDraw>): (r: (Snake, seq<Apple>))
    requires ValidDraws(b, apples, draws)
    ensures r.0.x == s.x && r.0.y == s.y && r.0.direction == s.direction
    ensures |r.0.tail| == |s.tail| + ApplesAt(apples, s.x, s.y)
    ensures r.0.tail[..|s.tail|] == s.tail
    ensures |r.1| == |apples|
    ensures forall i :: 0 <= i < |apples| && AtHead(s, apples[i]) ==> r.1[i] == NewApple(b, draws[i])
    ensures forall i :: 0 <= i < |apples| && !AtHead(s, apples[i]) ==> r.1[i] == apples[i]
    decreases |apples|
  {
    if |apples| == 0 then (s, [])
    else
      var eaten := AtHead(s, apples[0]);
      var s1 := if eaten then Eat(s) else s;
      var a1 := if eaten then NewApple(b, draws[0]) else apples[0];
      var (s2, rest) := Feed(b, s1, apples[1..], draws[1..]);
      assert s2.tail[..|s.tail|] == s2.tail[..|s1.tail|][..|s.tail|];
      (s2, [a1] + rest)
  }

  /** `processCollision` with its terminal decision given: on a terminal collision
      the snake is respawned and no apple is touched; otherwise the apples under
      the head are eaten. */
  function Resolve(b: Board, g: Game, terminal: bool, spawn: SpawnDraw, draws: seq<PlaceDraw>): (r: Game)
    requires ValidSpawn(b, spawn) && ValidDraws(b, g.apples, draws)
    ensures terminal ==> r.snake.tail == [] && r.apples == g.apples
    ensures terminal ==> Cell(r.snake.x, b.width) && Cell(r.snake.y, b.height)
    ensures terminal ==> CodeOf(r.snake.direction) == spawn.kd
    ensures !terminal ==> r.snake.x == g.snake.x && r.snake.y == g.snake.y
    ensures !terminal ==> r.snake.direction == g.snake.direction
    ensures !terminal ==> |g.snake.tail| <= |r.snake.tail| && r.snake.tail[..|g.snake.tail|] == g.snake.tail
    ensures !terminal ==> Score(r) == Score(g) + ApplesAt(g.apples, g.snake.x, g.snake.y)
    ensures !terminal ==> |r.apples| == |g.apples|
    ensures !terminal ==> forall i :: 0 <= i < |g.apples| && AtHead(g.snake, g.apples[i])
                             ==> Cell(r.apples[i].x, b.width) && Cell(r.apples[i].y, b.height)
    ensures !terminal ==> forall i :: 0 <= i < |g.apples| && !AtHead(g.snake, g.apples[i])
                             ==> r.apples[i] == g.apples[i]
  {
    if terminal then Game(Respawn(b, spawn), g.apples)
    else
      var (s, apples) := Feed(b, g.snake, g.apples, draws);
      Game(s, apples)
  }

  /** The terminal condition of `processCollision` as written. */
  predicate Terminal(b: Board, s: Snake)
  {
    Escapes(b, s.x, s.y) || EatsSelf(s)
  }

  /** `processCollision`: a reset on a terminal collision (score back to 0, no
      apple eaten), otherwise growth by one part per apple under the head. */
  function ProcessCollision(b: Board, g: Game, spawn: SpawnDraw, draws: seq<PlaceDraw>): (r: Game)
    requires ValidSpawn(b, spawn) && ValidDraws(b, g.apples, draws)
    ensures Terminal(b, g.snake) ==> Score(r) == 0 && r.apples == g.apples
    ensures Terminal(b, g.snake) ==> Cell(r.snake.x, b.width) && Cell(r.snake.y, b.height)
    ensures Terminal(b, g.snake) ==> CodeOf(r.snake.direction) == spawn.kd
    ensures !Terminal(b, g.snake) ==> r.snake.x == g.snake.x && r.snake.y == g.snake.y
    ensures !Terminal(b, g.snake) ==> Score(r) == Score(g) + ApplesAt(g.apples, g.snake.x, g.snake.y)
  {
    Resolve(b, g, Terminal(b, g.snake), spawn, draws)
  }

  /** One tick of `gameLoop` without its drawing: move, then the rules. */
  function Tick(b: Board, g: Game, spawn: SpawnDraw, draws: seq<PlaceDraw>): (r: Game)
    requires ValidSpawn(b, spawn) && ValidDraws(b, g.apples, draws)
    ensures var m := Move(g.snake);
              Terminal(b, m) ==> Score(r) == 0 && r.apples == g.apples
    ensures var m := Move(g.snake);
              !Terminal(b, m) ==> r.snake.x == m.x && r.snake.y == m.y
                                  && Score(r) == Score(g) + ApplesAt(g.apples, m.x, m.y)
  {
    ProcessCollision(b, Game(Move(g.snake), g.apples), spawn, draws)
  }

  /** The terminal condition with the boundary test the board calls for. */
  predicate TerminalOnBoard(b: Board, s: Snake)
  {
    OffBoard(b, s.x, s.y) || EatsSelf(s)
  }

  /** One tick with the corrected boundary test: after it, the head is always
      on the board. */
  function TickOnBoard(b: Board, g: Game, spawn: SpawnDraw, draws: seq<PlaceDraw>): (r: Game)
    requires ValidSpawn(b, spawn) && ValidDraws(b, g.apples, draws)
    ensures b.width > 0 && b.height > 0 ==> !OffBoard(b, r.snake.x, r.snake.y)
    ensures var m := Move(g.snake);
              TerminalOnBoard(b, m) ==> Score(r) == 0 && r.apples == g.apples
    ensures var m := Move(g.snake);
              !TerminalOnBoard(b, m) ==> r.snake.x == m.x && r.snake.y == m.y
                                         && Score(r) == Score(g) + ApplesAt(g.apples, m.x, m.y)
  {
    var m := Move(g.snake);
    Resolve(b, Game(m, g.apples), TerminalOnBoard(b, m), spawn, draws)
  }

  /** The as-written boundary test lets a head that has just stepped onto the far
      edge (x == width) through: the tick keeps it there, outside the board,
      although a terminal collision was due. */
  lemma FarEdgeIsNotTerminal(b: Board, g: Game, spawn: SpawnDraw, draws: seq<PlaceDraw>)
    requires ValidSpawn(b, spawn) && ValidDraws(b, g.apples, draws)
    requires Move(g.snake).x == b.width && 0 <= Move(g.snake).y <= b.height
    requires !EatsSelf(Move(g.snake))
    ensures OffBoard(b, Tick(b, g, spawn, draws).snake.x, Tick(b, g, spawn, draws).snake.y)
    ensures TerminalOnBoard(b, Move(g.snake)) && !Terminal(b, Move(g.snake))
  {
  }

  /** A concrete instance: on a 400 × 400 board a snake at (380, 100) heading right
      ends the tick at (400, 100), off the board, with its score kept. */
  lemma FarEdgeExample(spawn: SpawnDraw, draws: seq<PlaceDraw>)
    requires ValidSpawn(Board(400, 400), spawn) && ValidDraws(Board(400, 400), [Apple(0, 0)], draws)
    ensures var r := Tick(Board(400, 400), Game(Snake(380, 100, Right, [TailPart(360, 100, Right)]), [Apple(0, 0)]), spawn, draws);
              r.snake.x == 400 && r.snake.y == 100 && Score(r) == 1
  {
  }

  /** Eating example: on a 400 × 400 board a snake at (100, 100) heading right
      with an apple at (120, 100) moves onto the apple, grows one part at its old
      cell, and scores 1. */
  lemma EatExample(spawn: SpawnDraw, draws: seq<PlaceDraw>)
    requires ValidSpawn(Board(400, 400), spawn) && ValidDraws(Board(400, 400), [Apple(120, 100)], draws)
    ensures var r := Tick(Board(400, 400), Game(Snake(100, 100, Right, []), [Apple(120, 100)]), spawn, draws);
              r.snake.x == 120 && r.snake.y == 100 && r.snake.tail == [TailPart(100, 100, Right)]
              && Score(r) == 1 && Cell(r.apples[0].x, 400) && Cell(r.apples[0].y, 400)
  {
  }

  /** The respawned apple may land on the cell it was eaten on: nothing in the
      generator excludes it. */
  lemma AppleMayRespawnInPlace()
    ensures ValidPlace(Board(400, 400), PlaceDraw(6, 5))
    ensures NewApple(Board(400, 400), PlaceDraw(6, 5)) == Apple(120, 100)
  {
  }

  /** Boundary example: a snake at (0, 100) heading left steps to (-20, 100) and is
      respawned on the board with no tail and score 0. */
  lemma LeaveBoardExample(spawn: SpawnDraw, draws: seq<PlaceDraw>, tail: seq<TailPart>)
    requires ValidSpawn(Board(400, 400), spawn) && ValidDraws(Board(400, 400), [Apple(120, 100)], draws)
    ensures var r := Tick(Board(400, 400), Game(Snake(0, 100, Left, tail), [Apple(120, 100)]), spawn, draws);
              r.snake.tail == [] && Score(r) == 0
              && 0 <= r.snake.x < 400 && 0 <= r.snake.y < 400
  {
  }
}
