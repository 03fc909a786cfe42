/** The Snake game engine of game.js: a head-first body on a square grid of
    `tileCount` x `tileCount` cells, a food cell, a heading (dx, dy), the score,
    the high score and the two lifecycle flags `isGameRunning` and `isPaused`.
    Drawing, the DOM, timers and local storage are not part of this module. */
module Snake {

  datatype Cell = Cell(x: int, y: int)

  /** A heading: the change of the head's coordinates on every tick
      (y grows downwards, as on the canvas). */
  datatype Delta = Delta(dx: int, dy: int)

  /** The keys the keydown handler distinguishes. */
  datatype Key = ArrowUp | ArrowDown | ArrowLeft | ArrowRight | Space | OtherKey

  const POINTS_PER_FOOD: int := 10
  const START_BODY: seq<Cell> := [Cell(10, 10), Cell(9, 10), Cell(8, 10)]
  const START_HEADING: Delta := Delta(1, 0)

  predicate InGrid(c: Cell, n: int) {
    0 <= c.x < n && 0 <= c.y < n
  }

  /** Every random draw is a cell of the grid (Math.floor(Math.random() * n) on both axes). */
  predicate ValidDraws(draws: seq<Cell>, n: int) {
    forall k :: 0 <= k < |draws| ==> InGrid(draws[k], n)
  }

  /** The rejection loop of generateFood stops: some draw misses the body. */
  predicate SomeDrawFree(draws: seq<Cell>, body: seq<Cell>) {
    exists k :: 0 <= k < |draws| && draws[k] !in body
  }

  /** The index of the draw generateFood keeps: the first one not on the body. */
  function FirstFreeIndex(draws: seq<Cell>, body: seq<Cell>): (k: nat)
    requires SomeDrawFree(draws, body)
    ensures k < |draws| && draws[k] !in body
    ensures forall j :: 0 <= j < k ==> draws[j] in body
  {
    if draws[0] !in body then 0
    else
      assert SomeDrawFree(draws[1..], body) by {
        var k :| 0 <= k < |draws| && draws[k] !in body;
        assert draws[1..][k - 1] == draws[k];
      }
      1 + FirstFreeIndex(draws[1..], body)
  }

  function Step(c: Cell, d: Delta): Cell {
    Cell(c.x + d.dx, c.y + d.dy)
  }

  /** The body after one move of moveSnake: the new head is prepended and, unless it
      lands on the food, the tail cell is dropped. */
  function Advance(body: seq<Cell>, d: Delta, food: Cell): (r: seq<Cell>)
    requires |body| > 0
    ensures |r| == if Step(body[0], d) == food then |body| + 1 else |body|
    ensures r[0] == Step(body[0], d)
    ensures r[1..] == body[..|r| - 1]
  {
    var head := Step(body[0], d);
    if head == food then [head] + body else [head] + body[..|body| - 1]
  }

  /** What checkCollision detects: the head off the grid, or on a later body cell. */
  function Collides(body: seq<Cell>, n: int): (hit: bool)
    requires |body| > 0
    ensures hit <==> !InGrid(body[0], n) || body[0] in body[1..]
  {
    assert forall i :: 1 <= i < |body| ==> body[i] == body[1..][i - 1];
    !InGrid(body[0], n) || exists i :: 1 <= i < |body| && body[i] == body[0]
  }

  predicate IsUnitAxis(d: Delta) {
    (d.dx == 0 && (d.dy == 1 || d.dy == -1)) || (d.dy == 0 && (d.dx == 1 || d.dx == -1))
  }

  function Reverse(d: Delta): Delta {
    Delta(-d.dx, -d.dy)
  }

  predicate IsVertical(key: Key) {
    key == ArrowUp || key == ArrowDown
  }

  predicate IsHorizontal(key: Key) {
    key == ArrowLeft || key == ArrowRight
  }

  /** Two headings along different axes. */
  predicate Perpendicular(a: Delta, b: Delta) {
    (a.dx == 0 && b.dy == 0) || (a.dy == 0 && b.dx == 0)
  }

  /** The heading an arrow key asks for. */
  function KeyHeading(key: Key): Delta
    requires IsVertical(key) || IsHorizontal(key)
  {
    match key
    case ArrowUp => Delta(0, -1)
    case ArrowDown => Delta(0, 1)
    case ArrowLeft => Delta(-1, 0)
    case ArrowRight => Delta(1, 0)
  }

  /** The direction rule of the keydown handler: Up/Down are taken only while not moving
      vertically (dy == 0), Left/Right only while not moving horizontally (dx == 0). */
  function Steer(key: Key, d: Delta): (r: Delta)
    ensures (IsVertical(key) && d.dy == 0) || (IsHorizontal(key) && d.dx == 0) ==>
              r == KeyHeading(key) && r != d && Perpendicular(r, d)
    ensures !((IsVertical(key) && d.dy == 0) || (IsHorizontal(key) && d.dx == 0)) ==> r == d
  {
    if IsVertical(key) && d.dy == 0 then KeyHeading(key)
    else if IsHorizontal(key) && d.dx == 0 then KeyHeading(key)
    else d
  }

  /** The arrow key of the opposite direction is ignored. */
  lemma ReverseKeyIgnored(key: Key, d: Delta)
    requires IsUnitAxis(d) && (IsVertical(key) || IsHorizontal(key))
    requires KeyHeading(key) == Reverse(d)
    ensures Steer(key, d) == d
  {
    assert !Perpendicular(KeyHeading(key), d);
  }

  /** A single key never reverses a unit heading and keeps it a unit heading. */
  lemma SteerKeepsUnitAxis(key: Key, d: Delta)
    requires IsUnitAxis(d)
    ensures IsUnitAxis(Steer(key, d)) && Steer(key, d) != Reverse(d)
  {
    if (IsVertical(key) && d.dy == 0) || (IsHorizontal(key) && d.dx == 0) {
      assert Perpendicular(Steer(key, d), d);
    }
  }

  /** The rule compares a key with the stored heading, not with the last move, so two
      turns between ticks can reverse the snake onto its own neck. */
  lemma TwoTurnsCanReverse()
    ensures Steer(ArrowLeft, Steer(ArrowUp, START_HEADING)) == Reverse(START_HEADING)
  {
  }

  function Max(a: int, b: int): int {
    if a < b then b else a
  }

  class SnakeGame {
    const tileCount: int
    var snake: seq<Cell>
    var food: Cell
    var dx: int
    var dy: int
    var score: int
    var highScore: int
    var isGameRunning: bool
    var isPaused: bool

    /** The state every handler keeps: the score counts the cells the snake has grown
        by, the high score bounds it, the food sits on a free grid cell, the heading is a
        unit step along one axis and the game is only paused while it runs. */
    ghost predicate Valid()
      reads this
    {
      && 10 < tileCount
      && |snake| >= 3
      && score == POINTS_PER_FOOD * (|snake| - 3)
      && score <= highScore
      && InGrid(food, tileCount) && food !in snake
      && IsUnitAxis(Delta(dx, dy))
      && (isPaused ==> isGameRunning)
    }

    /** While the game runs, every cell of the body is on the grid: a move off the grid
        ends the game in the same tick. (moveSnake alone may leave the head off the grid,
        so this is kept by the handlers and not by moveSnake.) */
    ghost predicate OnBoard()
      reads this
    {
      isGameRunning ==> forall c :: c in snake ==> InGrid(c, tileCount)
    }

    /** The state initGame leaves behind, with `draws` as the random cells it drew. */
    ghost predicate JustInitialised(draws: seq<Cell>)
      reads this
    {
      && snake == START_BODY
      && Delta(dx, dy) == START_HEADING
      && score == 0
      && SomeDrawFree(draws, START_BODY)
      && food == draws[FirstFreeIndex(draws, START_BODY)]
    }

    function NextHead(): Cell
      reads this
      requires |snake| > 0
    {
      Step(snake[0], Delta(dx, dy))
    }

    /** Loading the script: the flags start cleared, the high score comes from storage
        and initGame runs once. */
    constructor (tileCount: int, storedHighScore: nat, draws: seq<Cell>)
      requires 10 < tileCount
      requires ValidDraws(draws, tileCount) && SomeDrawFree(draws, START_BODY)
      ensures Valid() && OnBoard() && JustInitialised(draws)
      ensures this.tileCount == tileCount && highScore == storedHighScore
      ensures !isGameRunning && !isPaused
    {
      this.tileCount := tileCount;
      highScore := storedHighScore;
      isGameRunning, isPaused := false, false;
      new;
      InitGame(draws);
    }

    /** initGame: the starting body and heading, a zero score and fresh food. */
    method InitGame(draws: seq<Cell>)
      requires 10 < tileCount && 0 <= highScore && (isPaused ==> isGameRunning)
      requires ValidDraws(draws, tileCount) && SomeDrawFree(draws, START_BODY)
      modifies this
      ensures Valid() && OnBoard() && JustInitialised(draws)
      ensures highScore == old(highScore)
      ensures isGameRunning == old(isGameRunning) && isPaused == old(isPaused)
    {
      snake := START_BODY;
      dx, dy := 1, 0;
      score := 0;
      GenerateFood(draws);
    }

    /** The inner scan of generateFood: is the cell one of the body's segments? */
    method OnSnake(c: Cell) returns (isOnSnake: bool)
      ensures isOnSnake <==> c in snake
    {
      for i := 0 to |snake|
        invariant forall j :: 0 <= j < i ==> snake[j] != c
      {
        if snake[i] == c {
          return true;
        }
      }
      return false;
    }

    /** generateFood: draw cells until one is off the snake and put the food there. */
    method GenerateFood(draws: seq<Cell>)
      requires ValidDraws(draws, tileCount) && SomeDrawFree(draws, snake)
      modifies this`food
      ensures food == draws[FirstFreeIndex(draws, snake)]
      ensures InGrid(food, tileCount) && food !in snake
    {
      ghost var kept := FirstFreeIndex(draws, snake);
      var k := 0;
      var foodPosition := draws[0];
      var isOnSnake := true;
      while isOnSnake
        invariant isOnSnake ==> k <= kept
        invariant !isOnSnake ==> k - 1 == kept && foodPosition == draws[kept]
        decreases kept + 1 - k
      {
        foodPosition := draws[k];
        k := k + 1;
        isOnSnake := OnSnake(foodPosition);
      }
      food := foodPosition;
    }

    /** moveSnake: prepend the new head; on the food, score 10, raise the high score if
        it is beaten and place new food; otherwise drop the tail. */
    method MoveSnake(draws: seq<Cell>)
      requires Valid() && ValidDraws(draws, tileCount)
      requires NextHead() == food ==> SomeDrawFree(draws, [NextHead()] + snake)
      modifies this
      ensures Valid()
      ensures snake == Advance(old(snake), old(Delta(dx, dy)), old(food))
      ensures old(NextHead()) == old(food) ==>
                score == old(score) + POINTS_PER_FOOD && food == draws[FirstFreeIndex(draws, snake)]
      ensures old(NextHead()) != old(food) ==> score == old(score) && food == old(food)
      ensures highScore == Max(old(highScore), score)
      ensures dx == old(dx) && dy == old(dy)
      ensures isGameRunning == old(isGameRunning) && isPaused == old(isPaused)
    {
      var head := NextHead();
      snake := [head] + snake;
      if head == food {
        score := score + POINTS_PER_FOOD;
        if score > highScore {
          highScore := score;
        }
        GenerateFood(draws);
      } else {
        snake := snake[..|snake| - 1];
      }
    }

    /** checkCollision: the head off the grid, or equal to a body cell after it. */
    method CheckCollision() returns (hit: bool)
      requires |snake| > 0
      ensures hit <==> Collides(snake, tileCount)
    {
      var head := snake[0];
      if head.x < 0 || head.x >= tileCount || head.y < 0 || head.y >= tileCount {
        return true;
      }
      for i := 1 to |snake|
        invariant forall j :: 1 <= j < i ==> snake[j] != head
      {
        if head == snake[i] {
          return true;
        }
      }
      return false;
    }

    /** gameOver: both flags cleared (the overlay it draws is not modelled). */
    method GameOver()
      requires Valid()
      modifies this`isGameRunning, this`isPaused
      ensures Valid() && OnBoard()
      ensures !isGameRunning && !isPaused
    {
      isGameRunning := false;
      isPaused := false;
    }

    /** gameUpdate, one timer tick: nothing while paused; otherwise move, then end the
        game on a collision. */
    method Tick(draws: seq<Cell>)
      requires Valid() && OnBoard() && ValidDraws(draws, tileCount)
      requires !isPaused && NextHead() == food ==> SomeDrawFree(draws, [NextHead()] + snake)
      modifies this
      ensures Valid() && OnBoard()
      ensures old(isPaused) ==> unchanged(this)
      ensures !old(isPaused) ==>
                && snake == Advance(old(snake), old(Delta(dx, dy)), old(food))
                && score == old(score) + (if old(NextHead()) == old(food) then POINTS_PER_FOOD else 0)
                && (old(NextHead()) == old(food) ==> food == draws[FirstFreeIndex(draws, snake)])
                && (old(NextHead()) != old(food) ==> food == old(food))
                && highScore == Max(old(highScore), score)
                && dx == old(dx) && dy == old(dy)
                && !isPaused
                && isGameRunning == (old(isGameRunning) && !Collides(snake, tileCount))
    {
      if isPaused {
        return;
      }
      MoveSnake(draws);
      var hit := CheckCollision();
      if hit {
        GameOver();
        return;
      }
      assert forall c :: c in snake ==> c == snake[0] || c in old(snake);
    }

    /** startGame: a no-op while already running; from a stopped game it re-initialises
        and sets the running flag; in both other cases it clears the pause flag. */
    method StartGame(draws: seq<Cell>)
      requires Valid() && OnBoard() && ValidDraws(draws, tileCount)
      requires !isGameRunning ==> SomeDrawFree(draws, START_BODY)
      modifies this
      ensures Valid() && OnBoard()
      ensures isGameRunning && !isPaused
      ensures !old(isGameRunning) ==> JustInitialised(draws) && highScore == old(highScore)
      ensures old(isGameRunning) ==>
                snake == old(snake) && food == old(food) && score == old(score)
                && highScore == old(highScore) && dx == old(dx) && dy == old(dy)
    {
      if isGameRunning && !isPaused {
        return;
      }
      if !isGameRunning {
        InitGame(draws);
        isGameRunning := true;
      }
      isPaused := false;
    }

    /** pauseGame: ignored unless the game runs; otherwise flips the pause flag. */
    method PauseGame()
      requires Valid() && OnBoard()
      modifies this`isPaused
      ensures Valid() && OnBoard()
      ensures isPaused == if old(isGameRunning) then !old(isPaused) else old(isPaused)
    {
      if !isGameRunning {
        return;
      }
      if isPaused {
        isPaused := false;
      } else {
        isPaused := true;
      }
    }

    /** restartGame: both flags cleared, then initGame. */
    method RestartGame(draws: seq<Cell>)
      requires Valid() && ValidDraws(draws, tileCount) && SomeDrawFree(draws, START_BODY)
      modifies this
      ensures Valid() && OnBoard() && JustInitialised(draws)
      ensures !isGameRunning && !isPaused
      ensures highScore == old(highScore)
    {
      isGameRunning := false;
      isPaused := false;
      InitGame(draws);
    }

    /** The keydown handler: Space toggles the pause; arrows steer only while the game
        runs and is not paused. */
    method KeyDown(key: Key)
      requires Valid() && OnBoard()
      modifies this`dx, this`dy, this`isPaused
      ensures Valid() && OnBoard()
      ensures key == Space ==>
                dx == old(dx) && dy == old(dy)
                && isPaused == if old(isGameRunning) then !old(isPaused) else old(isPaused)
      ensures key != Space ==> isPaused == old(isPaused)
      ensures key != Space && (!old(isGameRunning) || old(isPaused)) ==> dx == old(dx) && dy == old(dy)
      ensures key != Space && old(isGameRunning) && !old(isPaused) ==>
                Delta(dx, dy) == Steer(key, old(Delta(dx, dy)))
    {
      if key == Space {
        PauseGame();
        return;
      }
      if !isGameRunning || isPaused {
        return;
      }
      SteerKeepsUnitAxis(key, Delta(dx, dy));
      var d := Steer(key, Delta(dx, dy));
      dx, dy := d.dx, d.dy;
    }
  }

  /** The first scenarios of a fresh game on the 20 x 20 board: after Start, one tick
      either moves the body one cell right or, with the food just ahead, grows it. */
  method FirstTickScenario(draws: seq<Cell>)
    requires ValidDraws(draws, 20) && SomeDrawFree(draws, START_BODY)
  {
    var free := Cell(0, 0);
    var game := new SnakeGame(20, 0, draws);
    game.StartGame(draws);
    assert game.NextHead() == Cell(11, 10);
    var grown := [Cell(11, 10)] + START_BODY;
    assert free !in grown;
    assert SomeDrawFree([free], grown) by {
      assert [free][0] == free;
    }
    var eats := game.food == Cell(11, 10);
    game.Tick([free]);
    if eats {
      assert game.snake == [Cell(11, 10), Cell(10, 10), Cell(9, 10), Cell(8, 10)];
      assert game.score == 10 && game.isGameRunning;
    } else {
      assert game.snake == [Cell(11, 10), Cell(10, 10), Cell(9, 10)];
      assert game.score == 0 && game.isGameRunning;
    }
  }

  /** A running snake at the left edge heading left: the next tick moves its head off
      the grid and ends the game. */
  method LeftWallScenario() returns (snake: seq<Cell>, running: bool)
    ensures snake == [Cell(-1, 10), Cell(0, 10), Cell(1, 10)] && !running
  {
    assert SomeDrawFree([Cell(5, 5)], START_BODY) by {
      assert [Cell(5, 5)][0] !in START_BODY;
    }
    var game := new SnakeGame(20, 0, [Cell(5, 5)]);
    game.snake := [Cell(0, 10), Cell(1, 10), Cell(2, 10)];
    game.dx, game.dy := -1, 0;
    game.isGameRunning := true;
    game.Tick([]);
    assert !InGrid(game.snake[0], 20);
    return game.snake, game.isGameRunning;
  }

  /** A running five-cell snake that turns down into its own body: the next tick puts
      the head on a body cell and ends the game. */
  method SelfCollisionScenario() returns (snake: seq<Cell>, running: bool)
    ensures snake == [Cell(5, 6), Cell(5, 5), Cell(6, 5), Cell(6, 6), Cell(5, 6)] && !running
  {
    assert SomeDrawFree([Cell(0, 0)], START_BODY) by {
      assert [Cell(0, 0)][0] !in START_BODY;
    }
    var game := new SnakeGame(20, 20, [Cell(0, 0)]);
    game.snake := [Cell(5, 5), Cell(6, 5), Cell(6, 6), Cell(5, 6), Cell(4, 6)];
    game.dx, game.dy := 0, 1;
    game.score := 20;
    game.isGameRunning := true;
    game.Tick([]);
    assert game.snake[4] == game.snake[0];
    return game.snake, game.isGameRunning;
  }
}
