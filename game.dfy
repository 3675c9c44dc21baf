/** The structs of the game and their methods, with their fields updated in
    place as the Rust code does. Every `u16` and `i16` operation is checked
    against its range. Each state-changing method is proved to produce the
    state the matching function of module `Rules` describes, so the properties
    proved there carry over. */
module Game {
  import opened Platform
  import Rules

  /** `Player`: a paddle's top-left cell and its owner's score. */
  class Player {
    var score: u16
    var x: u16
    var y: u16

    /** `Player::new`. */
    constructor (x: u16, y: u16)
      ensures score == 0 && this.x == x && this.y == y
    {
      score := 0;
      this.x := x;
      this.y := y;
    }

    /** `Player::get_position`. */
    function GetPosition(): (p: (u16, u16))
      reads this
      ensures p.0 == x && p.1 == y
    {
      (x, y)
    }
  }

  /** `PongBall`: the ball's cell as a `Rect` and its velocity. */
  class PongBall {
    var dimensions: Rect
    var velocity: (i16, i16)

    /** `PongBall::new`: the ball starts moving right and down. */
    constructor (dimensions: Rect)
      ensures this.dimensions == dimensions && velocity == (1, 1)
    {
      this.dimensions := dimensions;
      velocity := (1, 1);
    }

    /** `switch_x_direction`: reverse the horizontal velocity (`*= -1`, which
        overflows only for `i16::MIN`). */
    method SwitchXDirection()
      requires velocity.0 != -0x8000
      modifies this`velocity
      ensures velocity == (-old(velocity.0), old(velocity.1))
    {
      velocity := (velocity.0 * -1, velocity.1);
    }
  }

  ghost function PaddleView(p: Player): Rules.Paddle
    reads p
  {
    Rules.Paddle(p.score as int, p.x as int, p.y as int)
  }

  ghost function BallView(b: PongBall): Rules.Ball
    reads b
  {
    Rules.Ball(b.dimensions.x as int, b.dimensions.y as int, b.velocity.0 as int, b.velocity.1 as int)
  }

  /** `GameState`: the two paddles, the ball, the arena and the paddle size. */
  class GameState {
    const player: Player
    const opponent: Player
    const pongBall: PongBall
    const dimensions: Rect
    const paddleSize: (u16, u16)

    ghost function View(): Rules.GameView
      reads this, player, opponent, pongBall
    {
      Rules.GameView(PaddleView(player), PaddleView(opponent), BallView(pongBall), dimensions)
    }

    ghost predicate Valid()
      reads this, player, opponent, pongBall
    {
      && player != opponent
      && paddleSize == (Rules.PaddleWidth as u16, Rules.PaddleHeight as u16)
      && pongBall.dimensions.width == 1
      && pongBall.dimensions.height == 1
      && Rules.Inv(View())
    }

    /** `GameState::new`, computed in `u16` as the source does. */
    constructor (dimensions: Rect)
      requires Rules.ArenaOk(dimensions)
      ensures Valid() && View() == Rules.Initial(dimensions)
      ensures fresh(player) && fresh(opponent) && fresh(pongBall)
    {
      var paddleSize: (u16, u16) := (2, 4);
      var paddleYStartPos := (dimensions.y + dimensions.height) / 2 - paddleSize.1 / 2;
      player := new Player(dimensions.x + 1, paddleYStartPos);
      opponent := new Player((dimensions.x + dimensions.width) - (paddleSize.0 + 1), paddleYStartPos);
      pongBall := new PongBall(Rect(
        (dimensions.x + dimensions.width) / 2,
        (dimensions.y + dimensions.height) / 2,
        1,
        1));
      this.dimensions := dimensions;
      this.paddleSize := (2, 4);
    }

    /** `get_player_paddle_pos`: the player's paddle cell. */
    function GetPlayerPaddlePos(): (p: (u16, u16))
      reads this, player
      ensures p.0 == player.x && p.1 == player.y
    {
      player.GetPosition()
    }

    /** `get_opponent_paddle_pos`: the same for the opponent. */
    function GetOpponentPaddlePos(): (p: (u16, u16))
      reads this, opponent
      ensures p.0 == opponent.x && p.1 == opponent.y
    {
      opponent.GetPosition()
    }

    /** `get_game_borders`: (top, bottom, left, right), enclosing exactly the
        arena's rows and columns. */
    function GetGameBorders(): (b: (u16, u16, u16, u16))
      reads this
      requires Rules.Bottom(dimensions) <= Rules.U16Max && Rules.RightEdge(dimensions) <= Rules.U16Max
      ensures b.0 == dimensions.y && b.2 == dimensions.x
      ensures b.0 <= b.1 && b.1 as int - b.0 as int == dimensions.height as int
      ensures b.2 <= b.3 && b.3 as int - b.2 as int == dimensions.width as int
    {
      var Rect(x, y, width, height) := dimensions;
      (y, y + height, x, x + width)
    }

    /** `reset_pong_position`: the ball back on the cell ((x + width) / 2,
        (y + height) / 2), its velocity kept. */
    method ResetPongPosition()
      requires Rules.Bottom(dimensions) <= Rules.U16Max && Rules.RightEdge(dimensions) <= Rules.U16Max
      modifies pongBall`dimensions
      ensures pongBall.dimensions.x as int == Rules.CentreX(dimensions)
      ensures pongBall.dimensions.y as int == Rules.CentreY(dimensions)
      ensures pongBall.dimensions.width == 1 && pongBall.dimensions.height == 1
    {
      var Rect(x, y, width, height) := dimensions;
      pongBall.dimensions := Rect((x + width) / 2, (y + height) / 2, 1, 1);
    }

    /** `move_pong_ball`: one tick of the ball, as `Rules.BallMoved`. The
        conditions all test the ball cell read before anything moves. */
    method MovePongBall()
      requires Valid() && Rules.ScoreRoom(View())
      modifies player`score, opponent`score, pongBall
      ensures Valid() && View() == Rules.BallMoved(old(View()))
    {
      ghost var g := View();
      var Rect(x, y, _, _) := pongBall.dimensions;
      BounceOffWalls(y);
      BounceOffPaddles(x, y);
      ScorePoints(x);
      Rules.StepInRange(g);
      StepBall();
      assert View() == Rules.BallMoved(g);
    }

    /** The wall check of `move_pong_ball`: the vertical velocity reverses when
        the row `y` is at most one below the top border or at least one above
        the bottom border. */
    method BounceOffWalls(y: u16)
      requires Rules.ArenaOk(dimensions) && Rules.Unit(pongBall.velocity.1 as int)
      modifies pongBall`velocity
      ensures pongBall.velocity.0 == old(pongBall.velocity.0)
      ensures pongBall.velocity.1 as int == Rules.Flip(old(pongBall.velocity.1) as int, Rules.NearWall(dimensions, y as int))
    {
      var (borderTop, borderBottom, _, _) := GetGameBorders();
      if y <= borderTop + 1 || y >= borderBottom - 1 {
        pongBall.velocity := (pongBall.velocity.0, pongBall.velocity.1 * -1);
      }
    }

    /** The two paddle checks of `move_pong_ball`: each paddle the cell (x, y)
        touches reverses the horizontal velocity. */
    method BounceOffPaddles(x: u16, y: u16)
      requires Rules.ArenaOk(dimensions) && Rules.Unit(pongBall.velocity.0 as int)
      requires paddleSize == (Rules.PaddleWidth as u16, Rules.PaddleHeight as u16)
      requires player.x as int == Rules.LeftEdge(dimensions) + 1
      requires opponent.x as int == Rules.RightEdge(dimensions) - (Rules.PaddleWidth + 1)
      requires Rules.PaddleInside(PaddleView(player), dimensions)
      requires Rules.PaddleInside(PaddleView(opponent), dimensions)
      modifies pongBall`velocity
      ensures pongBall.velocity.1 == old(pongBall.velocity.1)
      ensures pongBall.velocity.0 as int ==
        Rules.Flip(Rules.Flip(old(pongBall.velocity.0) as int, Rules.HitsPlayer(PaddleView(player), x as int, y as int)),
                   Rules.HitsOpponent(PaddleView(opponent), x as int, y as int))
    {
      var playerPaddle := GetPlayerPaddlePos();
      var opponentPaddle := GetOpponentPaddlePos();

      if x == playerPaddle.0 + paddleSize.0 && y >= playerPaddle.1 && y <= playerPaddle.1 + paddleSize.1 {
        pongBall.SwitchXDirection();
      }
      if x == opponentPaddle.0 - 1 && y >= opponentPaddle.1 && y <= opponentPaddle.1 + paddleSize.1 {
        pongBall.SwitchXDirection();
      }
    }

    /** The two edge checks of `move_pong_ball`: a column `x` at or left of the
        left border is a point for the opponent, one at or right of the last
        column a point for the player; each point reverses the ball and puts
        it back on the centre cell. */
    method ScorePoints(x: u16)
      requires Rules.ArenaOk(dimensions) && Rules.Unit(pongBall.velocity.0 as int)
      requires player != opponent
      requires Rules.PastLeft(dimensions, x as int) ==> opponent.score as int < Rules.U16Max
      requires Rules.PastRight(dimensions, x as int) ==> player.score as int < Rules.U16Max
      modifies player`score, opponent`score, pongBall
      ensures player.score as int == old(player.score) as int + Rules.Point(Rules.PastRight(dimensions, x as int))
      ensures opponent.score as int == old(opponent.score) as int + Rules.Point(Rules.PastLeft(dimensions, x as int))
      ensures pongBall.velocity.1 == old(pongBall.velocity.1)
      ensures pongBall.velocity.0 as int ==
        Rules.Flip(Rules.Flip(old(pongBall.velocity.0) as int, Rules.PastLeft(dimensions, x as int)),
                   Rules.PastRight(dimensions, x as int))
      ensures if Rules.PastLeft(dimensions, x as int) || Rules.PastRight(dimensions, x as int)
              then pongBall.dimensions.x as int == Rules.CentreX(dimensions)
                   && pongBall.dimensions.y as int == Rules.CentreY(dimensions)
                   && pongBall.dimensions.width == 1 && pongBall.dimensions.height == 1
              else pongBall.dimensions == old(pongBall.dimensions)
    {
      if x <= dimensions.x {
        opponent.score := opponent.score + 1;
        pongBall.SwitchXDirection();
        ResetPongPosition();
      }
      if x >= dimensions.x + dimensions.width - 1 {
        player.score := player.score + 1;
        pongBall.SwitchXDirection();
        ResetPongPosition();
      }
    }

    /** The step of `move_pong_ball`: one cell in each axis, in the direction
        of the final velocity. */
    method StepBall()
      requires 0 <= Rules.StepToward(pongBall.dimensions.x as int, pongBall.velocity.0 as int) <= Rules.U16Max
      requires 0 <= Rules.StepToward(pongBall.dimensions.y as int, pongBall.velocity.1 as int) <= Rules.U16Max
      modifies pongBall`dimensions
      ensures pongBall.dimensions == old(pongBall.dimensions).(
        x := Rules.StepToward(old(pongBall.dimensions.x) as int, pongBall.velocity.0 as int) as u16,
        y := Rules.StepToward(old(pongBall.dimensions.y) as int, pongBall.velocity.1 as int) as u16)
    {
      if pongBall.velocity.1 < 0 {
        pongBall.dimensions := pongBall.dimensions.(y := pongBall.dimensions.y - 1);
      } else {
        pongBall.dimensions := pongBall.dimensions.(y := pongBall.dimensions.y + 1);
      }
      if pongBall.velocity.0 < 0 {
        pongBall.dimensions := pongBall.dimensions.(x := pongBall.dimensions.x - 1);
      } else {
        pongBall.dimensions := pongBall.dimensions.(x := pongBall.dimensions.x + 1);
      }
    }

    /** `move_paddle`: one row up or down for the paddle the key names, as
        `Rules.PaddleMoved`; only the paddles' rows can change. */
    method MovePaddle(key: KeyCode)
      requires Valid()
      modifies player`y, opponent`y
      ensures Valid() && View() == Rules.PaddleMoved(old(View()), key)
    {
      var (borderTop, borderBottom, _, _) := GetGameBorders();
      match key {
        case Char(c) =>
          if c == 'w' {
            if player.y - 1 > borderTop {
              player.y := player.y - 1;
            }
          } else if c == 's' {
            if (player.y + paddleSize.1) + 1 < borderBottom {
              player.y := player.y + 1;
            }
          }
        case Up =>
          if opponent.y - 1 > borderTop {
            opponent.y := opponent.y - 1;
          }
        case Down =>
          if (opponent.y + paddleSize.1) + 1 < borderBottom {
            opponent.y := opponent.y + 1;
          }
        case OtherKey =>
      }
    }
  }

  /** `TerminalOutput`: the game state driven by key events. Drawing and the
      terminal itself are not part of the model. */
  class TerminalOutput {
    const gameState: GameState

    ghost predicate Valid()
      reads this, gameState, gameState.player, gameState.opponent, gameState.pongBall
    {
      gameState.Valid()
    }

    ghost function View(): Rules.GameView
      reads this, gameState, gameState.player, gameState.opponent, gameState.pongBall
    {
      gameState.View()
    }

    /** `TerminalOutput::new`: a game on the arena with its corner at (0, 0).
        ratatui's `Rect::new` keeps the given size only while its area fits in
        a `u16` (it shrinks larger rectangles), so the arena is limited to that. */
    constructor (width: u16, height: u16)
      requires width as int * height as int <= Rules.U16Max
      requires Rules.ArenaOk(Rect(0, 0, width, height))
      ensures Valid() && View() == Rules.Initial(Rect(0, 0, width, height))
      ensures fresh(gameState) && fresh(gameState.player) && fresh(gameState.opponent) && fresh(gameState.pongBall)
    {
      gameState := new GameState(Rect(0, 0, width, height));
    }

    /** `read_key` on the event `event::read` returned: `false` for Ctrl-C,
        a paddle move for an unmodified steering key, nothing otherwise. */
    method ReadKey(e: Event) returns (running: bool)
      requires Valid()
      modifies gameState.player`y, gameState.opponent`y
      ensures Valid()
      ensures running <==> Rules.KeyDispatch(e) != Rules.Quit
      ensures View() == if Rules.KeyDispatch(e).Steer?
                        then Rules.PaddleMoved(old(View()), Rules.KeyDispatch(e).code)
                        else old(View())
    {
      if e.Key? {
        var key := e.key;
        if key.code == Char('c') && key.modifiers == {Control} {
          return false;
        } else if (key.code == Char('w') || key.code == Char('s') || key.code == Up || key.code == Down)
                  && key.modifiers == {} {
          gameState.MovePaddle(key.code);
        }
      }
      return true;
    }

    /** One pass of the loop of `run`: the polled event, if any, to
        `ReadKey` (leaving on a quit), then the ball's move. */
    method Tick(poll: Option<Event>) returns (running: bool)
      requires Valid() && (Rules.IsQuit(poll) || Rules.ScoreRoom(View()))
      modifies gameState.player, gameState.opponent, gameState.pongBall
      ensures Valid() && (View(), running) == Rules.Ticked(old(View()), poll)
    {
      if poll.Some? {
        running := ReadKey(poll.value);
        if !running {
          return;
        }
      }
      gameState.MovePongBall();
      running := true;
    }

    /** The loop of `run` over a finite run of poll results. Returns whether
        it ended on a quit. */
    method Run(polls: seq<Option<Event>>) returns (quit: bool)
      requires Valid() && Rules.Budget(View(), |polls|)
      modifies gameState.player, gameState.opponent, gameState.pongBall
      ensures Valid() && View() == Rules.Played(old(View()), polls)
      ensures quit <==> exists i :: 0 <= i < |polls| && Rules.IsQuit(polls[i])
    {
      var i := 0;
      while i < |polls|
        invariant 0 <= i <= |polls|
        invariant Valid() && Rules.Budget(View(), |polls| - i)
        invariant Rules.Played(View(), polls[i..]) == Rules.Played(old(View()), polls)
        invariant forall j :: 0 <= j < i ==> !Rules.IsQuit(polls[j])
      {
        assert polls[i..][0] == polls[i] && polls[i..][1..] == polls[i + 1..];
        var running := Tick(polls[i]);
        if !running {
          return true;
        }
        i := i + 1;
      }
      return false;
    }
  }
}
