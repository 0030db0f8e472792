/**
 * The game panel of Game.java. The simulation state lives in fields that the
 * timer tick, the landing test, the layout, the restart and the key handlers
 * update in place; each method is proved to do what the matching function of
 * Simulation describes, and to keep the simulation invariant.
 */
module GamePanel {
  import opened Simulation

  /** java.awt.event.KeyEvent.VK_LEFT */
  const VkLeft := 37
  /** java.awt.event.KeyEvent.VK_RIGHT */
  const VkRight := 39

  class Game {
    var playerX: int
    var playerY: int
    var playerVelocityY: int
    var onPlatform: bool
    var platforms: seq<Rect>
    /** The ID of `platforms[i]` is `platformIds[i]`. */
    var platformIds: seq<int>
    /** The IDs already credited, in the order they were credited. */
    var hitPlatformIds: seq<int>
    var nextPlatformId: int
    var score: int
    var isGameOver: bool
    var moveLeft: bool
    var moveRight: bool

    /** The fields as a simulation state (all but `onPlatform`). */
    ghost function State(): World
      reads this
    {
      World(playerX, playerY, playerVelocityY, platforms, platformIds, hitPlatformIds,
            nextPlatformId, score, isGameOver, moveLeft, moveRight)
    }

    /** Between calls `onPlatform` is false and the simulation invariant holds. */
    ghost predicate Valid()
      reads this
    {
      !onPlatform && Inv(State())
    }

    /** The panel's field initialisers followed by `createPlatforms`; `xs` are the four layout draws. */
    constructor (xs: seq<int>)
      requires ValidDraws(xs, PlatformCount - 1, LayoutRange)
      ensures Valid()
      ensures State() == Simulation.CreatePlatforms(Blank(), xs)
    {
      playerX, playerY, playerVelocityY := 0, 0, 0;
      onPlatform := false;
      platforms, platformIds, hitPlatformIds := [], [], [];
      nextPlatformId, score := 0, 0;
      isGameOver, moveLeft, moveRight := false, false, false;
      new;
      CreatePlatforms(xs);
      CreatePlatformsLayout(Blank(), xs);
    }

    /** `createPlatforms`; `xs[i - 1]` is the `nextInt(300)` draw for platform `i`. */
    method CreatePlatforms(xs: seq<int>)
      requires ValidDraws(xs, PlatformCount - 1, LayoutRange)
      modifies this`platforms, this`platformIds, this`hitPlatformIds, this`nextPlatformId, this`playerX, this`playerY
      ensures State() == Simulation.CreatePlatforms(old(State()), xs)
    {
      // The lists are cleared and the first platform, with ID 0, is added.
      var firstPlatform := Rect(200, 400, PlatformWidth, PlatformHeight);
      platforms, platformIds, hitPlatformIds, nextPlatformId := [firstPlatform], [0], [], 1;

      playerX := firstPlatform.x + firstPlatform.width / 2 - PlayerSize / 2;
      playerY := firstPlatform.y - PlayerSize;
      AddRandomPlatforms(xs);
    }

    /** The loop of `createPlatforms` that stacks platforms 1 to 4 above the first one. */
    method AddRandomPlatforms(xs: seq<int>)
      requires ValidDraws(xs, PlatformCount - 1, LayoutRange)
      requires platforms == LayoutPrefix(xs, 1) && platformIds == Naturals(1) && nextPlatformId == 1
      modifies this`platforms, this`platformIds, this`nextPlatformId
      ensures platforms == LayoutPrefix(xs, PlatformCount) && platformIds == Naturals(PlatformCount)
      ensures nextPlatformId == PlatformCount
    {
      for i := 1 to PlatformCount
        invariant platforms == LayoutPrefix(xs, i) && platformIds == Naturals(i) && nextPlatformId == i
      {
        platforms := platforms + [Rect(xs[i - 1], 400 - i * 100, PlatformWidth, PlatformHeight)];
        platformIds := platformIds + [nextPlatformId];
        nextPlatformId := nextPlatformId + 1;
        assert platforms == LayoutPrefix(xs, i + 1);
        assert platformIds == Naturals(i + 1);
      }
    }

    /** `actionPerformed`: one tick. `draws[i]` is the `nextInt(400)` draw used if slot `i` is recycled. */
    method ActionPerformed(draws: seq<int>)
      requires Valid() && ValidDraws(draws, PlatformCount, RespawnRange)
      modifies this
      ensures Valid()
      ensures State() == Tick(old(State()), draws)
    {
      TickKeepsInv(State(), draws);
      if isGameOver {
        return;
      }

      MoveVertically();

      BounceIfOnPlatform();
      ghost var bounced := State();

      if moveLeft && playerX > 0 {
        playerX := playerX - HorizontalStep;
      }
      if moveRight && playerX < RightLimit {
        playerX := playerX + HorizontalStep;
      }

      ghost var moved := State();
      assert moved == MoveHorizontally(bounced);
      MovePlatforms(draws);
    }

    /** The vertical step at the start of `actionPerformed`: a player below the screen ends the game. */
    method MoveVertically()
      modifies this`playerY, this`isGameOver
      ensures State() == Fall(old(State()))
    {
      playerY := playerY + playerVelocityY;
      if playerY > ScreenHeight {
        isGameOver := true;
      }
    }

    /**
     * The scroll loop at the end of `actionPerformed`: every platform moves
     * down; one that passes the bottom edge is recycled at the top with the
     * draw for its slot and the next unused ID.
     */
    method MovePlatforms(draws: seq<int>)
      requires Shaped(State()) && |draws| == |platforms|
      modifies this`platforms, this`platformIds, this`nextPlatformId
      ensures State() == Scroll(old(State()), draws)
    {
      ghost var start := State();
      for i := 0 to |platforms|
        invariant State() == ScrollUpTo(start, draws, i)
      {
        ghost var before := State();
        platforms := platforms[i := platforms[i].(y := platforms[i].y + ScrollSpeed)];
        if platforms[i].y > ScreenHeight {
          platforms := platforms[i := platforms[i].(y := RespawnY, x := draws[i])];
          platformIds := platformIds[i := nextPlatformId];
          nextPlatformId := nextPlatformId + 1;
        }
        assert platforms == before.platforms[i := Scrolled(before.platforms[i], draws[i])];
        assert State() == ScrollSlot(before, draws, i);
      }
    }

    /** `bounceIfOnPlatform`: the landing loop over all platforms, then gravity if none was touched. */
    method BounceIfOnPlatform()
      requires !onPlatform && Shaped(State())
      modifies this`onPlatform, this`playerVelocityY, this`score, this`hitPlatformIds
      ensures !onPlatform
      ensures State() == Bounce(old(State()))
    {
      ghost var start := State();
      for i := 0 to |platforms|
        invariant State() == BounceUpTo(start, i)
        invariant onPlatform == TouchedBefore(start, i)
      {
        var platform := platforms[i];
        var platformId := platformIds[i];
        if Touches(playerX, playerY, platform) {
          onPlatform := true;
          playerVelocityY := BounceVelocity;
          if platformId !in hitPlatformIds {
            score := score + 1;
            hitPlatformIds := hitPlatformIds + [platformId];
          }
        }
      }
      if !onPlatform {
        playerVelocityY := playerVelocityY + Gravity;
      }
      onPlatform := false;
    }

    /** `restartGame`; `xs` are the four layout draws. */
    method RestartGame(xs: seq<int>)
      requires ValidDraws(xs, PlatformCount - 1, LayoutRange)
      modifies this`isGameOver, this`score, this`playerVelocityY, this`moveLeft, this`moveRight, this`onPlatform
      modifies this`platforms, this`platformIds, this`hitPlatformIds, this`nextPlatformId, this`playerX, this`playerY
      ensures Valid()
      ensures State() == Restart(old(State()), xs)
    {
      isGameOver := false;
      score := 0;
      playerVelocityY := 0;
      moveLeft := false;
      moveRight := false;
      onPlatform := false;
      CreatePlatforms(xs);
      RestartResets(old(State()), xs);
    }

    /** `keyPressed`: the left and right arrows set their move flags. */
    method KeyPressed(keyCode: int)
      requires Valid()
      modifies this`moveLeft, this`moveRight
      ensures Valid()
      ensures State() == old(State()).(moveLeft := keyCode == VkLeft || old(moveLeft),
                                       moveRight := keyCode == VkRight || old(moveRight))
    {
      if keyCode == VkLeft {
        moveLeft := true;
      }
      if keyCode == VkRight {
        moveRight := true;
      }
    }

    /** `keyReleased`: the left and right arrows clear their move flags. */
    method KeyReleased(keyCode: int)
      requires Valid()
      modifies this`moveLeft, this`moveRight
      ensures Valid()
      ensures State() == old(State()).(moveLeft := keyCode != VkLeft && old(moveLeft),
                                       moveRight := keyCode != VkRight && old(moveRight))
    {
      if keyCode == VkLeft {
        moveLeft := false;
      }
      if keyCode == VkRight {
        moveRight := false;
      }
    }
  }
}
