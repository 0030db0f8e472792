/**
 * The per-tick simulation of the endless jumper, as values.
 *
 * `World` holds every field of the game panel that the simulation reads or
 * writes; the functions below describe, step by step, what one timer tick
 * (`actionPerformed`), the landing test (`bounceIfOnPlatform`), the initial
 * layout (`createPlatforms`) and a restart do to it. The panel classes in
 * GamePanel and GameTestPanel are proved to follow these functions, and the
 * lemmas here state what the game promises about them.
 */
module Simulation {

  /** Visible height: falling below it ends the game, scrolling below it recycles a platform. */
  const ScreenHeight := 500
  /** The player is a square of this side. */
  const PlayerSize := 20
  /** How far below a platform's top edge the player's feet may be and still land. */
  const LandingDepth := 10
  /** Vertical velocity after a landing (negative is upwards). */
  const BounceVelocity := -15
  const Gravity := 1
  const HorizontalStep := 10
  /** Largest x from which a step to the right is still taken. */
  const RightLimit := 480
  const ScrollSpeed := 1
  /** Height at which a recycled platform re-enters the screen. */
  const RespawnY := -10
  const PlatformCount := 5
  const PlatformWidth := 100
  const PlatformHeight := 10
  /** `nextInt` bound for the x of platforms 1..4 of a new layout. */
  const LayoutRange := 300
  /** `nextInt` bound for the x of a recycled platform. */
  const RespawnRange := 400

  /** java.awt.Rectangle, as used for the platforms. */
  datatype Rect = Rect(x: int, y: int, width: int, height: int)

  /**
   * The simulation state. `platforms[i]` carries the ID `ids[i]`; `hit` lists
   * the IDs already credited, in the order they were credited.
   */
  datatype World = World(
    playerX: int, playerY: int, velocityY: int,
    platforms: seq<Rect>, ids: seq<int>, hit: seq<int>,
    nextId: int, score: int, isGameOver: bool,
    moveLeft: bool, moveRight: bool)

  /** Every platform has an ID. */
  predicate Shaped(w: World) {
    |w.ids| == |w.platforms|
  }

  /** A list of `n` values drawn with `nextInt(bound)`. */
  predicate ValidDraws(d: seq<int>, n: nat, bound: int) {
    |d| == n && forall k :: 0 <= k < |d| ==> 0 <= d[k] < bound
  }

  predicate NoDup(s: seq<int>) {
    forall i, j :: 0 <= i < j < |s| ==> s[i] != s[j]
  }

  // ---------------------------------------------------------------------------
  // Landing: bounceIfOnPlatform
  // ---------------------------------------------------------------------------

  /** The landing test: the feet lie within the platform's top band and the two overlap horizontally. */
  predicate Touches(px: int, py: int, p: Rect) {
    && py + PlayerSize >= p.y
    && py + PlayerSize <= p.y + LandingDepth
    && px + PlayerSize > p.x
    && px < p.x + p.width
  }

  /** The player touches one of the first `n` platforms (the `onPlatform` flag after `n` iterations). */
  predicate TouchedBefore(w: World, n: nat)
    requires n <= |w.platforms|
  {
    n > 0 && (TouchedBefore(w, n - 1) || Touches(w.playerX, w.playerY, w.platforms[n - 1]))
  }

  /** Platform `i` is one of the first `n`, is touched, and carries `id`. */
  predicate CreditedBy(w: World, n: nat, id: int)
    requires Shaped(w) && n <= |w.platforms|
  {
    exists i :: 0 <= i < n && Touches(w.playerX, w.playerY, w.platforms[i]) && w.ids[i] == id
  }

  /** One iteration of the landing loop, on slot `k`. */
  function BounceSlot(b: World, k: nat): World
    requires Shaped(b) && k < |b.platforms|
  {
    if Touches(b.playerX, b.playerY, b.platforms[k]) then
      if b.ids[k] !in b.hit then
        b.(velocityY := BounceVelocity, score := b.score + 1, hit := b.hit + [b.ids[k]])
      else
        b.(velocityY := BounceVelocity)
    else
      b
  }

  /** The state after the landing loop has examined slots 0..n-1. */
  function BounceUpTo(w: World, n: nat): (b: World)
    requires Shaped(w) && n <= |w.platforms|
    ensures b == w.(velocityY := b.velocityY, score := b.score, hit := b.hit)
  {
    if n == 0 then w else BounceSlot(BounceUpTo(w, n - 1), n - 1)
  }

  /** `bounceIfOnPlatform`: the landing loop, then gravity if nothing was touched. */
  function Bounce(w: World): World
    requires Shaped(w)
  {
    var b := BounceUpTo(w, |w.platforms|);
    if TouchedBefore(w, |w.platforms|) then b else b.(velocityY := b.velocityY + Gravity)
  }

  // ---------------------------------------------------------------------------
  // Horizontal movement
  // ---------------------------------------------------------------------------

  /** The two guarded steps; the right step tests the x the left step produced. */
  function MoveHorizontally(w: World): World {
    var afterLeft := if w.moveLeft && w.playerX > 0 then w.playerX - HorizontalStep else w.playerX;
    var afterRight := if w.moveRight && afterLeft < RightLimit then afterLeft + HorizontalStep else afterLeft;
    w.(playerX := afterRight)
  }

  // ---------------------------------------------------------------------------
  // Scrolling and recycling
  // ---------------------------------------------------------------------------

  /** The platform passes the bottom edge on this tick. */
  predicate Falls(p: Rect) {
    p.y + ScrollSpeed > ScreenHeight
  }

  /** A platform after one scroll step; `x` is the draw used if it is recycled. */
  function Scrolled(p: Rect, x: int): Rect {
    var moved := p.(y := p.y + ScrollSpeed);
    if moved.y > ScreenHeight then moved.(y := RespawnY, x := x) else moved
  }

  /** One iteration of the scroll loop, on slot `k`. */
  function ScrollSlot(s: World, d: seq<int>, k: nat): World
    requires Shaped(s) && |d| == |s.platforms| && k < |s.platforms|
  {
    var p := s.platforms[k];
    if Falls(p) then
      s.(platforms := s.platforms[k := Scrolled(p, d[k])], ids := s.ids[k := s.nextId], nextId := s.nextId + 1)
    else
      s.(platforms := s.platforms[k := Scrolled(p, d[k])])
  }

  /** The state after the scroll loop has moved slots 0..n-1. */
  function ScrollUpTo(w: World, d: seq<int>, n: nat): (s: World)
    requires Shaped(w) && |d| == |w.platforms| && n <= |w.platforms|
    ensures s == w.(platforms := s.platforms, ids := s.ids, nextId := s.nextId)
    ensures |s.platforms| == |w.platforms| && |s.ids| == |w.ids|
    ensures forall j :: n <= j < |w.platforms| ==> s.platforms[j] == w.platforms[j] && s.ids[j] == w.ids[j]
  {
    if n == 0 then w else ScrollSlot(ScrollUpTo(w, d, n - 1), d, n - 1)
  }

  function Scroll(w: World, d: seq<int>): World
    requires Shaped(w) && |d| == |w.platforms|
  {
    ScrollUpTo(w, d, |w.platforms|)
  }

  /** How many of the first `n` platforms fall on this tick. */
  function Recycled(ps: seq<Rect>, n: nat): nat
    requires n <= |ps|
  {
    if n == 0 then 0 else Recycled(ps, n - 1) + (if Falls(ps[n - 1]) then 1 else 0)
  }

  // ---------------------------------------------------------------------------
  // One tick: actionPerformed
  // ---------------------------------------------------------------------------

  /** The state after the vertical step and the game-over check. */
  function Fall(w: World): World {
    var fell := w.(playerY := w.playerY + w.velocityY);
    if fell.playerY > ScreenHeight then fell.(isGameOver := true) else fell
  }

  /** This tick ends the game: it runs, and the player ends up below the screen. */
  predicate EndsGame(w: World) {
    !w.isGameOver && w.playerY + w.velocityY > ScreenHeight
  }

  /**
   * `actionPerformed`. `d[i]` is the value `nextInt(400)` yields if slot `i`
   * is recycled on this tick.
   */
  function Tick(w: World, d: seq<int>): (r: World)
    requires Shaped(w) && |d| == |w.platforms|
    ensures Shaped(r) && |r.platforms| == |w.platforms|
  {
    if w.isGameOver then w
    else Scroll(MoveHorizontally(Bounce(Fall(w))), d)
  }

  /** Consecutive ticks, one list of draws per tick. */
  function Run(w: World, ds: seq<seq<int>>): (r: World)
    requires Shaped(w) && forall k :: 0 <= k < |ds| ==> |ds[k]| == |w.platforms|
    ensures Shaped(r) && |r.platforms| == |w.platforms|
    decreases |ds|
  {
    if ds == [] then w else Run(Tick(w, ds[0]), ds[1..])
  }

  // ---------------------------------------------------------------------------
  // Layout and restart
  // ---------------------------------------------------------------------------

  /** Slot `i` of a new layout; `xs[i - 1]` is the draw for platform `i`. */
  function LayoutSlot(xs: seq<int>, i: nat): Rect
    requires |xs| == PlatformCount - 1 && i < PlatformCount
  {
    if i == 0 then Rect(200, 400, PlatformWidth, PlatformHeight)
    else Rect(xs[i - 1], 400 - i * 100, PlatformWidth, PlatformHeight)
  }

  /** The first `n` platforms of a new layout. */
  function LayoutPrefix(xs: seq<int>, n: nat): (r: seq<Rect>)
    requires |xs| == PlatformCount - 1 && n <= PlatformCount
    ensures |r| == n
  {
    if n == 0 then [] else LayoutPrefix(xs, n - 1) + [LayoutSlot(xs, n - 1)]
  }

  /** The IDs 0..n-1, in order. */
  function Naturals(n: nat): (r: seq<int>)
    ensures |r| == n
  {
    if n == 0 then [] else Naturals(n - 1) + [n - 1]
  }

  /** Platform `i` of a layout prefix is the `i`-th slot of the layout. */
  lemma {:induction false} LayoutPrefixAt(xs: seq<int>, n: nat, i: nat)
    requires |xs| == PlatformCount - 1 && i < n <= PlatformCount
    ensures LayoutPrefix(xs, n)[i] == LayoutSlot(xs, i)
  {
    if i < n - 1 {
      LayoutPrefixAt(xs, n - 1, i);
    }
  }

  /**
   * `createPlatforms`: a new layout with IDs 0..4, nothing credited, and the
   * player centred on top of the first platform. It does not touch the score,
   * the velocity, the game-over flag or the move flags.
   */
  function CreatePlatforms(w: World, xs: seq<int>): World
    requires |xs| == PlatformCount - 1
  {
    var first := LayoutSlot(xs, 0);
    w.(platforms := LayoutPrefix(xs, PlatformCount), ids := Naturals(PlatformCount), hit := [],
       nextId := PlatformCount,
       playerX := first.x + first.width / 2 - PlayerSize / 2, playerY := first.y - PlayerSize)
  }

  /** `restartGame`: clear the score, velocity, flags and game over, then a new layout. */
  function Restart(w: World, xs: seq<int>): World
    requires |xs| == PlatformCount - 1
  {
    CreatePlatforms(w.(isGameOver := false, score := 0, velocityY := 0,
                       moveLeft := false, moveRight := false), xs)
  }

  /** The field initialisers of the panel, before its constructor calls `createPlatforms`. */
  function Blank(): World {
    World(0, 0, 0, [], [], [], 0, 0, false, false, false)
  }

  // ---------------------------------------------------------------------------
  // The invariant
  // ---------------------------------------------------------------------------

  predicate PlatformOk(p: Rect) {
    && p.width == PlatformWidth && p.height == PlatformHeight
    && 0 <= p.x < RespawnRange
    && RespawnY <= p.y <= ScreenHeight
  }

  /** Live IDs are distinct and below the counter, and so is every credited ID. */
  predicate IdsFresh(w: World) {
    && Shaped(w)
    && (forall i :: 0 <= i < |w.ids| ==> 0 <= w.ids[i] < w.nextId)
    && NoDup(w.ids)
    && (forall h :: h in w.hit ==> h < w.nextId)
  }

  /** What holds between ticks, from the first layout on. */
  predicate Inv(w: World) {
    && |w.platforms| == PlatformCount
    && IdsFresh(w)
    && (forall i :: 0 <= i < |w.platforms| ==> PlatformOk(w.platforms[i]))
    && NoDup(w.hit)
    && w.score == |w.hit|
    && 0 <= w.playerX <= RightLimit
    && w.playerX % HorizontalStep == 0
  }


  // ---------------------------------------------------------------------------
  // Landing lemmas
  // ---------------------------------------------------------------------------

  lemma {:induction false} TouchedBeforeMeans(w: World, n: nat)
    requires n <= |w.platforms|
    ensures TouchedBefore(w, n) <==> exists i :: 0 <= i < n && Touches(w.playerX, w.playerY, w.platforms[i])
  {
    if n > 0 {
      TouchedBeforeMeans(w, n - 1);
      if Touches(w.playerX, w.playerY, w.platforms[n - 1]) {
        assert 0 <= n - 1 < n;
      }
    }
  }

  /** If none of the first `n` platforms is touched, the landing loop changes nothing. */
  lemma {:induction false} BounceUpToUntouched(w: World, n: nat)
    requires Shaped(w) && n <= |w.platforms|
    requires forall i :: 0 <= i < n ==> !Touches(w.playerX, w.playerY, w.platforms[i])
    ensures BounceUpTo(w, n) == w && !TouchedBefore(w, n)
  {
    if n > 0 {
      BounceUpToUntouched(w, n - 1);
    }
  }

  lemma NoDupAppend(s: seq<int>, x: int)
    requires NoDup(s) && x !in s
    ensures NoDup(s + [x])
  {
  }

  /** What one iteration of the landing loop does to the velocity, the credited IDs and the score. */
  lemma BounceSlotEffect(a: World, k: nat)
    requires Shaped(a) && k < |a.platforms|
    ensures var b := BounceSlot(a, k);
      var touched := Touches(a.playerX, a.playerY, a.platforms[k]);
      && b.velocityY == (if touched then BounceVelocity else a.velocityY)
      && b.hit == (if touched && a.ids[k] !in a.hit then a.hit + [a.ids[k]] else a.hit)
      && b.score == a.score + (|b.hit| - |a.hit|)
  {
  }

  /** After `n` slots the velocity is the bounce value exactly when one of them was touched. */
  lemma {:induction false} BounceUpToVelocity(w: World, n: nat)
    requires Shaped(w) && n <= |w.platforms|
    ensures BounceUpTo(w, n).velocityY == if TouchedBefore(w, n) then BounceVelocity else w.velocityY
  {
    if n > 0 {
      BounceUpToVelocity(w, n - 1);
      BounceSlotEffect(BounceUpTo(w, n - 1), n - 1);
    }
  }

  /**
   * After `n` slots the credited list is the old one followed by new IDs, none
   * of them credited before and none twice, and the score grew by their number.
   */
  lemma {:induction false} BounceUpToGrowth(w: World, n: nat)
    requires Shaped(w) && n <= |w.platforms|
    ensures var b := BounceUpTo(w, n);
      && |w.hit| <= |b.hit| && b.hit[..|w.hit|] == w.hit
      && b.score == w.score + (|b.hit| - |w.hit|)
      && (forall k :: |w.hit| <= k < |b.hit| ==> b.hit[k] !in w.hit)
      && (NoDup(w.hit) ==> NoDup(b.hit))
  {
    if n > 0 {
      BounceUpToGrowth(w, n - 1);
      var a := BounceUpTo(w, n - 1);
      BounceSlotEffect(a, n - 1);
      var b := BounceUpTo(w, n);
      var id := w.ids[n - 1];
      if b.hit != a.hit {
        assert b.hit == a.hit + [id] && id !in a.hit;
        assert b.hit[..|w.hit|] == a.hit[..|w.hit|];
        assert id !in w.hit by {
          assert forall x :: x in w.hit ==> x in a.hit;
        }
        if NoDup(w.hit) {
          NoDupAppend(a.hit, id);
        }
      }
    }
  }

  /** After `n` slots an ID is credited exactly when it was before or one of those slots is touched and carries it. */
  lemma {:induction false} BounceUpToMembers(w: World, n: nat)
    requires Shaped(w) && n <= |w.platforms|
    ensures forall id :: id in BounceUpTo(w, n).hit <==> id in w.hit || CreditedBy(w, n, id)
  {
    if n > 0 {
      BounceUpToMembers(w, n - 1);
      var a := BounceUpTo(w, n - 1);
      BounceSlotEffect(a, n - 1);
      var touched := Touches(w.playerX, w.playerY, w.platforms[n - 1]);
      forall id
        ensures CreditedBy(w, n, id) <==> CreditedBy(w, n - 1, id) || (touched && id == w.ids[n - 1])
      {
        if CreditedBy(w, n, id) {
          var i :| 0 <= i < n && Touches(w.playerX, w.playerY, w.platforms[i]) && w.ids[i] == id;
          if i < n - 1 {
            assert CreditedBy(w, n - 1, id);
          }
        }
        if CreditedBy(w, n - 1, id) {
          var i :| 0 <= i < n - 1 && Touches(w.playerX, w.playerY, w.platforms[i]) && w.ids[i] == id;
          assert 0 <= i < n;
        }
        if touched && id == w.ids[n - 1] {
          assert 0 <= n - 1 < n;
        }
      }
    }
  }

  /**
   * `bounceIfOnPlatform` sets the bounce velocity if any platform is touched
   * and otherwise adds gravity; it credits exactly the touched IDs not yet
   * credited, each once, adding one to the score per ID; it changes nothing else.
   */
  lemma BounceEffect(w: World)
    requires Shaped(w)
    ensures var b := Bounce(w);
      && b == w.(velocityY := b.velocityY, score := b.score, hit := b.hit)
      && b.velocityY ==
           (if exists i :: 0 <= i < |w.platforms| && Touches(w.playerX, w.playerY, w.platforms[i])
            then BounceVelocity else w.velocityY + Gravity)
      && |w.hit| <= |b.hit| && b.hit[..|w.hit|] == w.hit
      && b.score == w.score + (|b.hit| - |w.hit|)
      && (forall k :: |w.hit| <= k < |b.hit| ==> b.hit[k] !in w.hit)
      && (NoDup(w.hit) ==> NoDup(b.hit))
      && (forall id :: id in b.hit <==> id in w.hit || CreditedBy(w, |w.platforms|, id))
  {
    BounceUpToVelocity(w, |w.platforms|);
    TouchedBeforeMeans(w, |w.platforms|);
    BounceUpToGrowth(w, |w.platforms|);
    BounceUpToMembers(w, |w.platforms|);
  }

  // ---------------------------------------------------------------------------
  // Movement lemmas
  // ---------------------------------------------------------------------------

  /** From a multiple of 10 in [0, 480] the guarded steps lead to a multiple of 10 in [0, 480]. */
  lemma MoveStaysOnGrid(w: World)
    requires 0 <= w.playerX <= RightLimit && w.playerX % HorizontalStep == 0
    ensures var x := MoveHorizontally(w).playerX;
      0 <= x <= RightLimit && x % HorizontalStep == 0
  {
  }

  /**
   * Both flags held: the steps cancel, except at the left edge, where the left
   * step is refused and the right one is still taken.
   */
  lemma MoveWithBothFlags(w: World)
    requires w.moveLeft && w.moveRight
    requires 0 <= w.playerX <= RightLimit && w.playerX % HorizontalStep == 0
    ensures MoveHorizontally(w).playerX == if w.playerX == 0 then HorizontalStep else w.playerX
  {
  }

  // ---------------------------------------------------------------------------
  // Scroll lemmas
  // ---------------------------------------------------------------------------

  /**
   * After `n` slots: each of them moved down one step or, if it passed the
   * bottom edge, was recycled with the draw for its slot and the next unused
   * ID, handed out in slot order; the counter grew by the number recycled.
   */
  lemma ScrollUpToFacts(w: World, d: seq<int>, n: nat)
    requires Shaped(w) && |d| == |w.platforms| && n <= |w.platforms|
    ensures var s := ScrollUpTo(w, d, n);
      && s.nextId == w.nextId + Recycled(w.platforms, n)
      && forall i :: 0 <= i < n ==>
           && s.platforms[i] == Scrolled(w.platforms[i], d[i])
           && s.ids[i] == (if Falls(w.platforms[i]) then w.nextId + Recycled(w.platforms, i) else w.ids[i])
  {
    ScrollUpToCounter(w, d, n);
    ScrollUpToSlots(w, d, n);
  }

  /** The counter grows by one per recycled platform. */
  lemma {:induction false} ScrollUpToCounter(w: World, d: seq<int>, n: nat)
    requires Shaped(w) && |d| == |w.platforms| && n <= |w.platforms|
    ensures ScrollUpTo(w, d, n).nextId == w.nextId + Recycled(w.platforms, n)
  {
    if n > 0 {
      ScrollUpToCounter(w, d, n - 1);
      var a := ScrollUpTo(w, d, n - 1);
      assert ScrollUpTo(w, d, n) == ScrollSlot(a, d, n - 1);
      assert a.platforms[n - 1] == w.platforms[n - 1];
    }
  }

  /** Each of the first `n` slots is scrolled, and the recycled ones get IDs in slot order. */
  lemma ScrollUpToSlots(w: World, d: seq<int>, n: nat)
    requires Shaped(w) && |d| == |w.platforms| && n <= |w.platforms|
    ensures var s := ScrollUpTo(w, d, n);
      forall i :: 0 <= i < n ==>
        && s.platforms[i] == Scrolled(w.platforms[i], d[i])
        && s.ids[i] == (if Falls(w.platforms[i]) then w.nextId + Recycled(w.platforms, i) else w.ids[i])
  {
    forall i | 0 <= i < n
      ensures ScrollUpTo(w, d, n).platforms[i] == Scrolled(w.platforms[i], d[i])
      ensures ScrollUpTo(w, d, n).ids[i] == (if Falls(w.platforms[i]) then w.nextId + Recycled(w.platforms, i) else w.ids[i])
    {
      ScrollUpToAt(w, d, n, i);
    }
  }

  /** Slot `i`, once the loop has passed it. */
  lemma {:induction false} ScrollUpToAt(w: World, d: seq<int>, n: nat, i: nat)
    requires Shaped(w) && |d| == |w.platforms| && i < n <= |w.platforms|
    ensures ScrollUpTo(w, d, n).platforms[i] == Scrolled(w.platforms[i], d[i])
    ensures ScrollUpTo(w, d, n).ids[i] == (if Falls(w.platforms[i]) then w.nextId + Recycled(w.platforms, i) else w.ids[i])
  {
    var a := ScrollUpTo(w, d, n - 1);
    var s := ScrollUpTo(w, d, n);
    assert s == ScrollSlot(a, d, n - 1);
    if i < n - 1 {
      ScrollUpToAt(w, d, n - 1, i);
      assert s.platforms[i] == a.platforms[i] && s.ids[i] == a.ids[i];
    } else {
      ScrollUpToCounter(w, d, n - 1);
      assert a.platforms[i] == w.platforms[i] && a.ids[i] == w.ids[i];
    }
  }

  /** A scroll keeps live IDs distinct and below the counter, and never lowers the counter. */
  lemma {:induction false} ScrollUpToKeepsIds(w: World, d: seq<int>, n: nat)
    requires IdsFresh(w) && |d| == |w.platforms| && n <= |w.platforms|
    ensures IdsFresh(ScrollUpTo(w, d, n)) && ScrollUpTo(w, d, n).nextId >= w.nextId
  {
    if n > 0 {
      ScrollUpToKeepsIds(w, d, n - 1);
      var a := ScrollUpTo(w, d, n - 1);
      var s := ScrollUpTo(w, d, n);
      assert s == ScrollSlot(a, d, n - 1);
      if Falls(a.platforms[n - 1]) {
        assert s.ids == a.ids[n - 1 := a.nextId] && s.nextId == a.nextId + 1;
        forall i, j | 0 <= i < j < |s.ids| ensures s.ids[i] != s.ids[j] {
          if i != n - 1 && j != n - 1 {
            assert s.ids[i] == a.ids[i] && s.ids[j] == a.ids[j];
          }
        }
      }
    }
  }

  lemma ScrolledOk(p: Rect, x: int)
    requires PlatformOk(p) && 0 <= x < RespawnRange
    ensures PlatformOk(Scrolled(p, x))
  {
  }

  // ---------------------------------------------------------------------------
  // Tick lemmas
  // ---------------------------------------------------------------------------

  /** The landing test keeps the invariant: it credits only live IDs, each once, one point each. */
  lemma BounceKeepsInv(w: World)
    requires Inv(w)
    ensures Inv(Bounce(w))
  {
    BounceEffect(w);
    var b := Bounce(w);
    forall h | h in b.hit ensures h < b.nextId {
      if h !in w.hit {
        var i :| 0 <= i < |w.platforms| && Touches(w.playerX, w.playerY, w.platforms[i]) && w.ids[i] == h;
      }
    }
  }

  /** The game is over after a tick exactly when it was before or the player fell below the screen. */
  lemma TickGameOverFlag(w: World, d: seq<int>)
    requires Shaped(w) && |d| == |w.platforms|
    ensures Tick(w, d).isGameOver <==> w.isGameOver || EndsGame(w)
  {
    if !w.isGameOver {
      BounceEffect(Fall(w));
    }
  }

  /** A tick only appends to the credited IDs, and the score grows by the number appended. */
  lemma TickOnlyCredits(w: World, d: seq<int>)
    requires Shaped(w) && |d| == |w.platforms|
    ensures var t := Tick(w, d);
      && |w.hit| <= |t.hit| && t.hit[..|w.hit|] == w.hit
      && t.score == w.score + (|t.hit| - |w.hit|)
  {
    if !w.isGameOver {
      BounceEffect(Fall(w));
    }
  }

  /**
   * Every platform moves down one step per tick; one that passes y = 500 is
   * put back at y = -10 with the draw for its slot as x, the same size, and
   * the next unused ID.
   */
  lemma TickScrolls(w: World, d: seq<int>)
    requires Shaped(w) && |d| == |w.platforms| && !w.isGameOver
    ensures var t := Tick(w, d);
      && t.nextId == w.nextId + Recycled(w.platforms, |w.platforms|)
      && forall i :: 0 <= i < |w.platforms| ==>
           var p := w.platforms[i];
           if p.y + ScrollSpeed > ScreenHeight then
             t.platforms[i] == Rect(d[i], RespawnY, p.width, p.height)
             && t.ids[i] == w.nextId + Recycled(w.platforms, i)
           else
             t.platforms[i] == p.(y := p.y + ScrollSpeed) && t.ids[i] == w.ids[i]
  {
    var m := MoveHorizontally(Bounce(Fall(w)));
    BounceEffect(Fall(w));
    ScrollUpToFacts(m, d, |m.platforms|);
  }

  /** The invariant holds after every tick. */
  lemma TickKeepsInv(w: World, d: seq<int>)
    requires Inv(w) && ValidDraws(d, PlatformCount, RespawnRange)
    ensures Inv(Tick(w, d))
  {
    if !w.isGameOver {
      var f := Fall(w);
      BounceKeepsInv(f);
      var b := Bounce(f);
      var m := MoveHorizontally(b);
      MoveStaysOnGrid(b);
      ScrollUpToKeepsIds(m, d, PlatformCount);
      ScrollUpToFacts(m, d, PlatformCount);
      var t := Tick(w, d);
      forall i | 0 <= i < PlatformCount ensures PlatformOk(t.platforms[i]) {
        ScrolledOk(m.platforms[i], d[i]);
      }
    }
  }

  /** A platform that gets a new ID on a tick gets a larger one, not yet credited. */
  lemma TickRecyclesWithFreshIds(w: World, d: seq<int>)
    requires Inv(w) && ValidDraws(d, PlatformCount, RespawnRange)
    ensures var t := Tick(w, d);
      forall i :: 0 <= i < PlatformCount && t.ids[i] != w.ids[i] ==>
        t.ids[i] > w.ids[i] && t.ids[i] !in t.hit && t.platforms[i].y == RespawnY
  {
    if !w.isGameOver {
      var f := Fall(w);
      BounceEffect(f);
      var b := Bounce(f);
      forall h | h in b.hit ensures h < b.nextId {
        if h !in f.hit {
          var i :| 0 <= i < |f.platforms| && Touches(f.playerX, f.playerY, f.platforms[i]) && f.ids[i] == h;
        }
      }
      TickScrolls(w, d);
      var t := Tick(w, d);
      assert t.hit == b.hit;
      forall i | 0 <= i < PlatformCount && t.ids[i] != w.ids[i]
        ensures t.ids[i] > w.ids[i] && t.ids[i] !in t.hit
      {
        assert t.ids[i] >= w.nextId;
      }
    }
  }

  /**
   * The tick that ends the game credits nothing (every platform is above
   * y = 500, the player's feet are below 520), so the score reported at the
   * game-over transition is the final score.
   */
  lemma EndingTickCreditsNothing(w: World, d: seq<int>)
    requires Inv(w) && |d| == PlatformCount && EndsGame(w)
    ensures var t := Tick(w, d);
      t.isGameOver && t.hit == w.hit && t.score == w.score && t.velocityY == w.velocityY + Gravity
  {
    var f := Fall(w);
    forall i | 0 <= i < PlatformCount ensures !Touches(f.playerX, f.playerY, f.platforms[i]) {
      assert PlatformOk(f.platforms[i]);
    }
    BounceUpToUntouched(f, PlatformCount);
  }

  /** Over any number of ticks the invariant holds, credits are only appended, and a finished game stays as it is. */
  lemma {:induction false} RunKeepsInv(w: World, ds: seq<seq<int>>)
    requires Inv(w) && forall k :: 0 <= k < |ds| ==> ValidDraws(ds[k], PlatformCount, RespawnRange)
    ensures forall k :: 0 <= k < |ds| ==> |ds[k]| == |w.platforms|
    ensures var r := Run(w, ds);
      && Inv(r)
      && |w.hit| <= |r.hit| && r.hit[..|w.hit|] == w.hit && r.score >= w.score
      && (w.isGameOver ==> r == w)
    decreases |ds|
  {
    if ds != [] {
      TickKeepsInv(w, ds[0]);
      TickOnlyCredits(w, ds[0]);
      var t := Tick(w, ds[0]);
      RunKeepsInv(t, ds[1..]);
      var r := Run(w, ds);
      assert r == Run(t, ds[1..]);
      assert r.hit[..|w.hit|] == r.hit[..|t.hit|][..|w.hit|];
    }
  }

  // ---------------------------------------------------------------------------
  // Layout lemmas
  // ---------------------------------------------------------------------------

  /**
   * `createPlatforms`: five platforms with IDs 0..4 and counter 5, nothing
   * credited, platform 0 at (200, 400, 100, 10) with the player at (240, 380)
   * on top of it, platform i at y = 400 - 100 i with x in [0, 300); the other
   * fields are untouched. With a zero score the invariant holds.
   */
  lemma CreatePlatformsLayout(w: World, xs: seq<int>)
    requires ValidDraws(xs, PlatformCount - 1, LayoutRange)
    ensures var c := CreatePlatforms(w, xs);
      && c == w.(platforms := c.platforms, ids := c.ids, hit := c.hit, nextId := c.nextId,
                 playerX := c.playerX, playerY := c.playerY)
      && |c.platforms| == PlatformCount && c.ids == [0, 1, 2, 3, 4] && c.nextId == PlatformCount && c.hit == []
      && c.platforms[0] == Rect(200, 400, 100, 10) && c.playerX == 240 && c.playerY == 380
      && (forall i :: 1 <= i < PlatformCount ==>
            c.platforms[i].y == 400 - 100 * i && 0 <= c.platforms[i].x < LayoutRange
            && c.platforms[i].width == PlatformWidth && c.platforms[i].height == PlatformHeight)
      && (w.score == 0 ==> Inv(c))
  {
    var c := CreatePlatforms(w, xs);
    assert Naturals(2) == [0, 1];
    assert Naturals(4) == [0, 1, 2, 3];
    forall i | 0 <= i < PlatformCount ensures c.platforms[i] == LayoutSlot(xs, i) {
      LayoutPrefixAt(xs, PlatformCount, i);
    }
  }

  /**
   * `restartGame`: not over, score 0, velocity 0, both flags cleared, a new
   * layout; the result is exactly the state of a freshly built panel, so
   * nothing of the previous game survives, and the invariant holds.
   */
  lemma RestartResets(w: World, xs: seq<int>)
    requires ValidDraws(xs, PlatformCount - 1, LayoutRange)
    ensures var r := Restart(w, xs);
      && !r.isGameOver && r.score == 0 && r.velocityY == 0 && !r.moveLeft && !r.moveRight
      && r == CreatePlatforms(Blank(), xs)
      && Inv(r)
  {
    CreatePlatformsLayout(w.(isGameOver := false, score := 0, velocityY := 0,
                             moveLeft := false, moveRight := false), xs);
  }
}
