/**
 * The panel of gametest.java: the same simulation as Game.java, plus a
 * player name asked for in a dialog and a score that is reported when the
 * game ends. The server is modelled by the entries submitted to it and a
 * flag saying whether it accepted the submission; the local score file by the
 * entries it holds (empty when it does not exist or cannot be read).
 */
module GameTestPanel {
  import opened Simulation
  import GamePanel
  import Leaderboard
  import NameInput

  class GameTest {
    var playerX: int
    var playerY: int
    var playerVelocityY: int
    var onPlatform: bool
    var platforms: seq<Rect>
    /** The ID of `platforms[i]` is `platformIds[i]`. */
    var platformIds: seq<int>
    /** The IDs already credited, in the order they were credited. */
    var hitPlatformIds: seq<int>
    var nextPlatformId: int
    var score: int
    var isGameOver: bool
    var moveLeft: bool
    var moveRight: bool
    /** The name scores are reported under. */
    var playerName: string
    /** Every score whose submission to the server was attempted, oldest first. */
    var submitted: seq<Leaderboard.Entry>
    /** The contents of the local score file `leaderboard.dat`. */
    var localFile: seq<Leaderboard.Entry>

    /** The simulation fields as a simulation state (all but `onPlatform`). */
    ghost function State(): World
      reads this
    {
      World(playerX, playerY, playerVelocityY, platforms, platformIds, hitPlatformIds,
            nextPlatformId, score, isGameOver, moveLeft, moveRight)
    }

    /** Between calls `onPlatform` is false and the simulation invariant holds. */
    ghost predicate Valid()
      reads this
    {
      !onPlatform && Inv(State())
    }

    /**
     * The panel's field initialisers followed by `createPlatforms`; `xs` are
     * the four layout draws and `file` is what `leaderboard.dat` holds.
     */
    constructor (xs: seq<int>, file: seq<Leaderboard.Entry>)
      requires ValidDraws(xs, PlatformCount - 1, LayoutRange)
      ensures Valid()
      ensures State() == Simulation.CreatePlatforms(Blank(), xs)
      ensures playerName == "Player" && submitted == [] && localFile == file
    {
      playerX, playerY, playerVelocityY := 0, 0, 0;
      onPlatform := false;
      platforms, platformIds, hitPlatformIds := [], [], [];
      nextPlatformId, score := 0, 0;
      isGameOver, moveLeft, moveRight := false, false, false;
      playerName := "Player";
      submitted, localFile := [], file;
      new;
      CreatePlatforms(xs);
      CreatePlatformsLayout(Blank(), xs);
    }

    /** `createPlatforms`; `xs[i - 1]` is the `nextInt(300)` draw for platform `i`. */
    method CreatePlatforms(xs: seq<int>)
      requires ValidDraws(xs, PlatformCount - 1, LayoutRange)
      modifies this`platforms, this`platformIds, this`hitPlatformIds, this`nextPlatformId, this`playerX, this`playerY
      ensures State() == Simulation.CreatePlatforms(old(State()), xs)
    {
      // The lists are cleared and the first platform, with ID 0, is added.
      var firstPlatform := Rect(200, 400, PlatformWidth, PlatformHeight);
      platforms, platformIds, hitPlatformIds, nextPlatformId := [firstPlatform], [0], [], 1;

      playerX := firstPlatform.x + firstPlatform.width / 2 - PlayerSize / 2;
      playerY := firstPlatform.y - PlayerSize;
      AddRandomPlatforms(xs);
    }

    /** The loop of `createPlatforms` that stacks platforms 1 to 4 above the first one. */
    method AddRandomPlatforms(xs: seq<int>)
      requires ValidDraws(xs, PlatformCount - 1, LayoutRange)
      requires platforms == LayoutPrefix(xs, 1) && platformIds == Naturals(1) && nextPlatformId == 1
      modifies this`platforms, this`platformIds, this`nextPlatformId
      ensures platforms == LayoutPrefix(xs, PlatformCount) && platformIds == Naturals(PlatformCount)
      ensures nextPlatformId == PlatformCount
    {
      for i := 1 to PlatformCount
        invariant platforms == LayoutPrefix(xs, i) && platformIds == Naturals(i) && nextPlatformId == i
      {
        platforms := platforms + [Rect(xs[i - 1], 400 - i * 100, PlatformWidth, PlatformHeight)];
        platformIds := platformIds + [nextPlatformId];
        nextPlatformId := nextPlatformId + 1;
        assert platforms == LayoutPrefix(xs, i + 1);
        assert platformIds == Naturals(i + 1);
      }
    }

    /**
     * `actionPerformed`: one tick. `draws[i]` is the `nextInt(400)` draw used
     * if slot `i` is recycled; `serverAccepts` is whether the server answers
     * the submission made if this tick ends the game. The score reported is
     * the one reached before the fatal fall, and it is saved locally only when
     * the server does not accept it.
     */
    method ActionPerformed(draws: seq<int>, serverAccepts: bool)
      requires Valid() && ValidDraws(draws, PlatformCount, RespawnRange)
      modifies this`playerX, this`playerY, this`playerVelocityY, this`onPlatform, this`isGameOver, this`score
      modifies this`platforms, this`platformIds, this`hitPlatformIds, this`nextPlatformId
      modifies this`submitted, this`localFile
      ensures Valid()
      ensures State() == Tick(old(State()), draws)
      ensures var e := Leaderboard.Entry(old(playerName), old(score));
        && submitted == old(submitted) + (if EndsGame(old(State())) then [e] else [])
        && localFile == (if EndsGame(old(State())) && !serverAccepts
                         then Leaderboard.TopOf(Leaderboard.SortByScore(old(localFile) + [e]))
                         else old(localFile))
    {
      TickKeepsInv(State(), draws);
      if isGameOver {
        return;
      }

      MoveVertically(serverAccepts);

      BounceIfOnPlatform();
      ghost var bounced := State();

      if moveLeft && playerX > 0 {
        playerX := playerX - HorizontalStep;
      }
      if moveRight && playerX < RightLimit {
        playerX := playerX + HorizontalStep;
      }

      ghost var moved := State();
      assert moved == MoveHorizontally(bounced);
      MovePlatforms(draws);
    }

    /**
     * `gameOver`: the game is over and the score is submitted under the
     * player's name; if the server does not accept it, it is saved in the
     * local file, which keeps the ten best entries highest first.
     */
    method GameOver(serverAccepts: bool)
      modifies this`isGameOver, this`submitted, this`localFile
      ensures isGameOver
      ensures var e := Leaderboard.Entry(playerName, score);
        && submitted == old(submitted) + [e]
        && localFile == (if serverAccepts then old(localFile)
                         else Leaderboard.TopOf(Leaderboard.SortByScore(old(localFile) + [e])))
    {
      isGameOver := true;

      submitted := submitted + [Leaderboard.Entry(playerName, score)];
      var scoreSaved := serverAccepts;

      if !scoreSaved {
        localFile := Leaderboard.SaveLocalScore(localFile, playerName, score);
      }
    }

    /**
     * The vertical step at the start of `actionPerformed`: the player moves by
     * its velocity, and a player below the screen ends the game, which
     * reports the score.
     */
    method MoveVertically(serverAccepts: bool)
      requires !isGameOver
      modifies this`playerY, this`isGameOver, this`submitted, this`localFile
      ensures State() == Fall(old(State()))
      ensures var e := Leaderboard.Entry(playerName, score);
        && submitted == old(submitted) + (if EndsGame(old(State())) then [e] else [])
        && localFile == (if EndsGame(old(State())) && !serverAccepts
                         then Leaderboard.TopOf(Leaderboard.SortByScore(old(localFile) + [e]))
                         else old(localFile))
    {
      playerY := playerY + playerVelocityY;
      if playerY > ScreenHeight {
        GameOver(serverAccepts);
      }
    }

    /**
     * The scroll loop at the end of `actionPerformed`: every platform moves
     * down; one that passes the bottom edge is recycled at the top with the
     * draw for its slot and the next unused ID.
     */
    method MovePlatforms(draws: seq<int>)
      requires Shaped(State()) && |draws| == |platforms|
      modifies this`platforms, this`platformIds, this`nextPlatformId
      ensures State() == Scroll(old(State()), draws)
    {
      ghost var start := State();
      for i := 0 to |platforms|
        invariant State() == ScrollUpTo(start, draws, i)
      {
        ghost var before := State();
        platforms := platforms[i := platforms[i].(y := platforms[i].y + ScrollSpeed)];
        if platforms[i].y > ScreenHeight {
          platforms := platforms[i := platforms[i].(y := RespawnY, x := draws[i])];
          platformIds := platformIds[i := nextPlatformId];
          nextPlatformId := nextPlatformId + 1;
        }
        assert platforms == before.platforms[i := Scrolled(before.platforms[i], draws[i])];
        assert State() == ScrollSlot(before, draws, i);
      }
    }

    /** `bounceIfOnPlatform`: the landing loop over all platforms, then gravity if none was touched. */
    method BounceIfOnPlatform()
      requires !onPlatform && Shaped(State())
      modifies this`onPlatform, this`playerVelocityY, this`score, this`hitPlatformIds
      ensures !onPlatform
      ensures State() == Bounce(old(State()))
    {
      ghost var start := State();
      for i := 0 to |platforms|
        invariant State() == BounceUpTo(start, i)
        invariant onPlatform == TouchedBefore(start, i)
      {
        var platform := platforms[i];
        var platformId := platformIds[i];
        if Touches(playerX, playerY, platform) {
          onPlatform := true;
          playerVelocityY := BounceVelocity;
          if platformId !in hitPlatformIds {
            score := score + 1;
            hitPlatformIds := hitPlatformIds + [platformId];
          }
        }
      }
      if !onPlatform {
        playerVelocityY := playerVelocityY + Gravity;
      }
      onPlatform := false;
    }

    /**
     * The name dialog shown before a game: `presses` are the texts of the
     * name field at each press of OK. A name the dialog accepts replaces the
     * player's name; closing it without one keeps the old name.
     */
    method AskPlayerName(presses: seq<string>)
      modifies this`playerName
      ensures playerName == (if NameInput.DialogName(presses).Some?
                             then NameInput.DialogName(presses).value else old(playerName))
    {
      var name := NameInput.DialogName(presses);
      if name.Some? {
        playerName := name.value;
      }
    }

    /** `restartGame`: ask for a name, reset the game, and lay out new platforms with the draws `xs`. */
    method RestartGame(presses: seq<string>, xs: seq<int>)
      requires ValidDraws(xs, PlatformCount - 1, LayoutRange)
      modifies this`isGameOver, this`score, this`playerVelocityY, this`moveLeft, this`moveRight, this`onPlatform
      modifies this`platforms, this`platformIds, this`hitPlatformIds, this`nextPlatformId, this`playerX, this`playerY
      modifies this`playerName
      ensures Valid()
      ensures State() == Restart(old(State()), xs)
      ensures playerName == (if NameInput.DialogName(presses).Some?
                             then NameInput.DialogName(presses).value else old(playerName))
    {
      AskPlayerName(presses);

      isGameOver := false;
      score := 0;
      playerVelocityY := 0;
      moveLeft := false;
      moveRight := false;
      onPlatform := false;
      CreatePlatforms(xs);
      RestartResets(old(State()), xs);
    }

    /** `keyPressed`: the left and right arrows set their move flags. */
    method KeyPressed(keyCode: int)
      requires Valid()
      modifies this`moveLeft, this`moveRight
      ensures Valid()
      ensures State() == old(State()).(moveLeft := keyCode == GamePanel.VkLeft || old(moveLeft),
                                       moveRight := keyCode == GamePanel.VkRight || old(moveRight))
    {
      if keyCode == GamePanel.VkLeft {
        moveLeft := true;
      }
      if keyCode == GamePanel.VkRight {
        moveRight := true;
      }
    }

    /** `keyReleased`: the left and right arrows clear their move flags. */
    method KeyReleased(keyCode: int)
      requires Valid()
      modifies this`moveLeft, this`moveRight
      ensures Valid()
      ensures State() == old(State()).(moveLeft := keyCode != GamePanel.VkLeft && old(moveLeft),
                                       moveRight := keyCode != GamePanel.VkRight && old(moveRight))
    {
      if keyCode == GamePanel.VkLeft {
        moveLeft := false;
      }
      if keyCode == GamePanel.VkRight {
        moveRight := false;
      }
    }
  }
}
