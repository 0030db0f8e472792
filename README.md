# Endless jumper: simulation, scoring and local leaderboard

This project models the core of a small Java Swing "endless jumper" game. A square player falls under
gravity. It bounces when its feet land on one of five platforms, and it moves left and right in steps of
10 while an arrow key is held. Every tick the platforms scroll down by one. A platform that leaves the
bottom of the screen comes back at the top with a new random x and a fresh ID. Each platform ID scores one
point the first time the player lands on it. The game ends when the player falls below y = 500.

The simulation exists twice, as the panel `Game` (Game.java) and as the panel `gametest` (gametest.java).
The second panel also asks for a player name. At game over it reports the score to a server, and if the
server does not accept it, it saves the score in a local top-10 file.

Modules:

- `Simulation` (simulation.dfy): the game state as a value (`World`). It holds one function per step of
  a tick (`Fall`, `Bounce`, `MoveHorizontally`, `Scroll`, `Tick`), the layout (`CreatePlatforms`) and the
  restart (`Restart`). It also holds the invariant `Inv` and the lemmas about these functions.
- `GamePanel` (game.dfy): class `Game`, with the Java fields updated in place. Each method is proved to
  leave the fields equal to the matching `Simulation` function of the old fields (for the key handlers,
  the old fields with the arrow's flag set or cleared; for the layout loop `AddRandomPlatforms`, the
  finished layout lists and counter). The constructor, the
  tick, the restart and the key handlers keep `Valid()`, which is `Inv` plus `onPlatform == false`
  between calls.
- `GameTestPanel` (gametest.dfy): class `GameTest`. It is the same simulation, plus the player name, the
  list of scores whose submission to the server was attempted and the contents of the local score file.
- `Leaderboard` (leaderboard.dfy): `LeaderboardEntry`, its `toString`, the stable highest-first sort that
  `Collections.sort` performs with the reversed score comparator, `saveLocalScore` and `getTopScores`.
- `NameInput` (names.dfy): `String.trim`, and the rule by which the name dialog accepts a name.

Random draws are parameters. `xs` holds the four `nextInt(300)` draws of a layout. `draws` holds one
`nextInt(400)` draw per platform slot, which is used if that slot is recycled on this tick.
`serverAccepts` is the result of `submitScore`. `presses` holds the texts of the name field each time OK
is pressed. The local score file is the field `localFile`.

One behaviour of the code is followed where a plain reading of the game's description would differ. When
both arrow keys are held, the two steps are guarded separately: the left step needs x > 0 and the right
step needs x < 480 (Game.java:125,128). At x = 0 the left step is refused and the right step is taken, so
the player moves to x = 10 instead of staying put. At x = 480 the left step goes to 470 and the right
step, which reads the updated x, brings it back to 480. `Simulation.MoveWithBothFlags` states this.

## Model

| member | source | states |
|---|---|---|
| GamePanel.Game.constructor | Game.java:11-47 | The field initialisers followed by `createPlatforms`: the state is the initial layout applied to the blank state, and the invariant holds |
| GamePanel.Game.CreatePlatforms | Game.java:49-69 | The fields become `Simulation.CreatePlatforms` of the old fields: lists rebuilt, counter 5, player on the first platform; score, velocity and flags untouched |
| GamePanel.Game.AddRandomPlatforms | Game.java:64-68 | The loop appends platforms 1..4 at y = 400 - 100 i with the drawn x, and IDs 1..4, leaving the counter at 5 |
| GamePanel.Game.ActionPerformed | Game.java:111-147 | One tick: the fields become `Tick` of the old fields (nothing changes once the game is over), and the invariant is kept |
| GamePanel.Game.MoveVertically | Game.java:114-119 | y grows by the velocity; the game-over flag is set when the new y exceeds 500 and otherwise kept as it was |
| GamePanel.Game.MovePlatforms | Game.java:133-144 | The scroll loop yields `Scroll` of the state: each platform moves down by 1 or is recycled at y = -10 with its slot's draw and the next ID |
| GamePanel.Game.BounceIfOnPlatform | Game.java:149-174 | The landing loop yields `Bounce` of the state, and `onPlatform` is false on exit |
| GamePanel.Game.RestartGame | Game.java:176-194 | Fields become `Restart` of the old fields (game not over, score 0, velocity 0, flags cleared, new layout); the invariant holds |
| GamePanel.Game.KeyPressed | Game.java:197-206 | The left/right arrow sets its flag, any other key changes nothing; invariant kept |
| GamePanel.Game.KeyReleased | Game.java:208-217 | The left/right arrow clears its flag, any other key changes nothing; invariant kept |
| GameTestPanel.GameTest.constructor | gametest.java:261-318 | Initial layout as in `Game`, name "Player", nothing submitted, the local file as found |
| GameTestPanel.GameTest.CreatePlatforms | gametest.java:324-344 | Same layout as `Game.createPlatforms` |
| GameTestPanel.GameTest.AddRandomPlatforms | gametest.java:339-343 | Platforms 1..4 and IDs 1..4 appended, counter 5 |
| GameTestPanel.GameTest.ActionPerformed | gametest.java:389-425 | One tick, identical to `Game`'s (`Tick`), invariant kept; if and only if this tick ends the game, the entry (name, score before the tick) is submitted once, and written to the local top 10 exactly when the server does not accept it |
| GameTestPanel.GameTest.MoveVertically | gametest.java:392-397 | The vertical step is `Fall`; the score is reported exactly when the player falls below 500 |
| GameTestPanel.GameTest.GameOver | gametest.java:461-471 | Game over is set; the entry is submitted once; the local file becomes the top 10 of the sorted old file plus the entry only if the submission failed |
| GameTestPanel.GameTest.MovePlatforms | gametest.java:411-422 | Same scroll loop as `Game`, yields `Scroll` |
| GameTestPanel.GameTest.BounceIfOnPlatform | gametest.java:427-452 | Same landing loop as `Game`, yields `Bounce` |
| GameTestPanel.GameTest.AskPlayerName | gametest.java:474-481 | The name becomes the dialog's accepted name, or stays as it was when the dialog yields none |
| GameTestPanel.GameTest.RestartGame | gametest.java:473-500 | Name asked for first, then the same reset and layout as `Game.restartGame`; invariant holds |
| GameTestPanel.GameTest.KeyPressed | gametest.java:503-512 | As `Game.keyPressed` |
| GameTestPanel.GameTest.KeyReleased | gametest.java:514-523 | As `Game.keyReleased` |
| Simulation.Blank | Game.java:11-24 | The field initialisers (all zero, false or empty); no contract of its own, `RestartResets` shows a restart yields `CreatePlatforms(Blank(), xs)` |
| Simulation.Touches | Game.java:155-156 | The overlap test as written; no contract of its own, `TouchedBeforeMeans` and `BounceEffect` state its role |
| Simulation.Fall | Game.java:114-119 | The y step and game-over check; no contract of its own, specified by `TickGameOverFlag` and the `MoveVertically` methods |
| Simulation.BounceSlot | Game.java:152-166 | One landing iteration; no contract of its own, specified by `BounceSlotEffect` |
| Simulation.Bounce | Game.java:149-174 | `bounceIfOnPlatform`; no contract of its own, specified by `BounceEffect` and `BounceKeepsInv` |
| Simulation.MoveHorizontally | Game.java:125-130 | The two guarded x steps; no contract of its own, specified by `MoveStaysOnGrid` and `MoveWithBothFlags` |
| Simulation.Scrolled | Game.java:134-140 | One platform's scroll step; no contract of its own, specified by `ScrolledOk` and `ScrollUpToAt` |
| Simulation.ScrollSlot | Game.java:134-143 | One scroll iteration; no contract of its own, specified by `ScrollUpToAt` |
| Simulation.Scroll | Game.java:133-144 | The scroll loop; no contract of its own, specified by `ScrollUpToFacts`, `ScrollUpToKeepsIds` and `TickScrolls` |
| Simulation.CreatePlatforms | Game.java:49-69 | `createPlatforms`; no contract of its own, specified by `CreatePlatformsLayout` |
| Simulation.Restart | Game.java:176-194 | `restartGame`; no contract of its own, specified by `RestartResets` |
| Simulation.Naturals | Game.java:58-67 | The IDs 0..n-1 handed out by a layout: n of them; their values are stated by `CreatePlatformsLayout` |
| Simulation.Tick | Game.java:111-147 | A tick keeps every platform paired with an ID and keeps the platform count |
| Simulation.Run | Game.java:28-29 | Any number of timer ticks keep the pairing and the platform count |
| Simulation.BounceUpTo | Game.java:151-167 | The landing loop changes only velocity, score and credited IDs |
| Simulation.ScrollUpTo | Game.java:133-144 | The scroll loop changes only platforms, IDs and counter, keeps both list lengths, and leaves the slots it has not reached alone |
| Simulation.LayoutPrefix | Game.java:55-68 | The first n platforms of a layout are n rectangles |
| Simulation.LayoutPrefixAt | Game.java:55-68 | Platform i of any layout prefix is slot i of the layout: (200, 400) for slot 0, (xs[i-1], 400 - 100 i) otherwise |
| Simulation.TouchedBeforeMeans | Game.java:151-158 | After n iterations `onPlatform` is set exactly when one of the first n platforms passes the overlap test |
| Simulation.BounceUpToUntouched | Game.java:151-167 | If none of the first n platforms is touched the loop changes nothing |
| Simulation.BounceSlotEffect | Game.java:152-166 | One iteration: velocity -15 if touched; the ID is appended and the score grows by one exactly when it is touched and not yet credited |
| Simulation.BounceUpToVelocity | Game.java:151-159 | After n slots the velocity is -15 exactly when one of them was touched, else unchanged |
| Simulation.BounceUpToGrowth | Game.java:161-164 | Credited IDs are only appended, each one new, and the score grows by the number appended |
| Simulation.BounceUpToMembers | Game.java:161-164 | An ID is credited after n slots exactly when it was before or a touched slot among the first n carries it |
| Simulation.BounceEffect | Game.java:149-174 | Velocity -15 if any platform is touched, else old velocity + 1; exactly the touched uncredited IDs are added, each once, one point each; nothing else changes |
| Simulation.BounceKeepsInv | Game.java:149-174 | The landing test keeps the invariant: no duplicate credits, score == number credited, credited IDs below the counter |
| Simulation.MoveStaysOnGrid | Game.java:125-130 | From a multiple of 10 in [0, 480] the two guarded steps stay a multiple of 10 in [0, 480] |
| Simulation.MoveWithBothFlags | Game.java:125-130 | With both flags held x is unchanged, except at x = 0, where it becomes 10 |
| Simulation.ScrollUpToFacts | Game.java:133-144 | After n slots each was moved down 1 or recycled with its draw and the next ID, IDs handed out in slot order; counter grew by the number recycled |
| Simulation.ScrollUpToCounter | Game.java:141-142 | The counter grows by exactly the number of platforms recycled |
| Simulation.ScrollUpToSlots | Game.java:134-143 | Every slot the loop has passed holds its scrolled platform and its old or new ID |
| Simulation.ScrollUpToAt | Game.java:134-143 | Slot i after the loop has passed it: scrolled platform; new ID = counter + number of earlier recycled slots, else the old ID |
| Simulation.ScrollUpToKeepsIds | Game.java:142 | Scrolling keeps live IDs distinct and below the counter, and never lowers the counter |
| Simulation.ScrolledOk | Game.java:135-140 | A scrolled platform keeps its size and stays within y in [-10, 500], x in [0, 400) |
| Simulation.TickGameOverFlag | Game.java:112-119 | After a tick the game is over exactly when it was before or the player's new y exceeds 500 |
| Simulation.TickOnlyCredits | Game.java:149-174 | A tick only appends credited IDs and the score grows by the number appended |
| Simulation.TickScrolls | Game.java:133-144 | Per tick each platform moves down by 1; one past 500 is put at y = -10 with its draw as x, same size, and a fresh ID |
| Simulation.TickKeepsInv | Game.java:111-147 | Every tick keeps the invariant: 5 well-formed platforms, distinct live IDs below the counter, no duplicate credits, score == credits, x a multiple of 10 in [0, 480] |
| Simulation.TickRecyclesWithFreshIds | Game.java:137-142 | A platform whose ID changes gets a larger ID that is not credited, and sits at y = -10 |
| Simulation.EndingTickCreditsNothing | gametest.java:392-397 | The tick that ends the game credits nothing, so the score reported at game over is the final score |
| Simulation.RunKeepsInv | Game.java:111-147 | Over any number of ticks the invariant holds, credits are only appended, the score never drops, and once the game is over nothing changes |
| Simulation.CreatePlatformsLayout | Game.java:49-69 | Five platforms, IDs 0..4, counter 5, nothing credited, platform 0 at (200,400,100,10) and the player at (240,380), platform i at y = 400 - 100 i with x in [0,300); other fields untouched; with score 0 the invariant holds |
| Simulation.RestartResets | Game.java:176-194 | A restart leaves the game not over, score 0, velocity 0, flags cleared, and exactly the state of a fresh panel, which satisfies the invariant |
| Leaderboard.IntToString | gametest.java:33 | Java's rendering of an `int`; no contract of its own, specified by `IntToStringRoundTrip` |
| Leaderboard.ToString | gametest.java:32-34 | `toString`; no contract of its own, specified by `ToStringShowsEntry` |
| Leaderboard.TopOf | gametest.java:148-151 | The cut to ten entries; no contract of its own, specified by `SaveLocalScore` |
| Leaderboard.DigitChar | gametest.java:33 | Each digit maps to the decimal digit character of that value |
| Leaderboard.NatToString | gametest.java:33 | A non-negative integer renders as at least one digit, with no leading zero unless it is "0" itself |
| Leaderboard.NatToStringRoundTrip | gametest.java:33 | The digits of n read back as n |
| Leaderboard.IntToStringRoundTrip | gametest.java:33 | The rendering of any int is canonical (no leading zero, minus sign only before a non-zero value) and parses back to it |
| Leaderboard.ToStringShowsEntry | gametest.java:32-34 | `toString` is the name, then ": ", then the canonical decimal text of the score (no leading zero, no "-0"), which parses back to it |
| Leaderboard.Insert | gametest.java:145-146 | Inserting adds exactly one entry |
| Leaderboard.SortByScore | gametest.java:117-118 | The sort keeps the length |
| Leaderboard.WithScoreAppend | gametest.java:117-118 | The entries of one score in a concatenation are those of each part, in order |
| Leaderboard.WithScoreBelow | gametest.java:117-118 | A sorted list starting below k holds no entry with score k |
| Leaderboard.InsertSorted | gametest.java:145-146 | Insertion keeps a list sorted highest first |
| Leaderboard.InsertPermutes | gametest.java:145-146 | Insertion adds exactly the new entry to the multiset |
| Leaderboard.InsertKeepsTies | gametest.java:145-146 | Insertion places the new entry after the entries of equal score |
| Leaderboard.SortByScoreSorts | gametest.java:117-118 | The sort result is sorted highest first |
| Leaderboard.SortByScorePermutes | gametest.java:117-118 | The sort result is a permutation of the input |
| Leaderboard.SortByScoreIsStable | gametest.java:117-118 | Entries of equal score keep their input order |
| Leaderboard.SortByScoreFacts | gametest.java:117-118 | Sorted, a permutation, and stable for every score |
| Leaderboard.InsertLowest | gametest.java:145-146 | An entry scoring no more than all others is inserted at the end |
| Leaderboard.SortByScoreKeepsSorted | gametest.java:145-146 | A list already sorted highest first is left unchanged |
| Leaderboard.SaveLocalScore | gametest.java:139-158 | The written list is the first min(10, n + 1) entries of the stable highest-first sort of the old entries plus the new one; it is sorted and holds only those entries |
| Leaderboard.SaveIntoSortedFile | gametest.java:139-151 | Saving into a sorted file inserts the new entry below every entry with an equal or higher score |
| Leaderboard.GetTopScores | gametest.java:69-120 | The list read from the server, or from the file after a failure or when it is empty, returned sorted highest first, as a stable permutation |
| NameInput.Trim | gametest.java:239-240 | `String.trim`; no contract of its own, specified by `TrimSlice`, `TrimEmpty` and `TrimIdempotent` |
| NameInput.DialogName | gametest.java:217-258 | The modal dialog; no contract of its own, specified by `DialogNameIsFirstAccepted` |
| NameInput.TrimStart | gametest.java:239-240 | Drops exactly the leading characters up to U+0020 |
| NameInput.TrimEnd | gametest.java:239-240 | Drops exactly the trailing characters up to U+0020 |
| NameInput.TrimSlice | gametest.java:239-240 | The trimmed text is a contiguous slice of the input, with only trimmed characters around it |
| NameInput.TrimEmpty | gametest.java:239 | The trimmed text is empty exactly when every character is at most U+0020 |
| NameInput.TrimIdempotent | gametest.java:240 | Trimming an already trimmed name changes nothing |
| NameInput.AcceptedName | gametest.java:238-244 | A press of OK accepts the text if and only if it has a character above U+0020, and the name is the trimmed, non-empty text |
| NameInput.DialogNameIsFirstAccepted | gametest.java:217-258 | The dialog yields a name exactly when some press is accepted; the name is that of the first accepted press, and all earlier presses were refused |

## Left out

- Swing: `paint`, the buttons and their focus handling, `LeaderboardDialog`, the display of `NameInputDialog`, `setParentFrame`, `showLeaderboard` and `main`. They are user interface. The name prompt in `main` (gametest.java:534-540) uses the same rule that `AskPlayerName` models.
- The `javax.swing.Timer` and its 10 ms cadence, which drive `actionPerformed`. `Simulation.Run` stands for any sequence of ticks. There is no concurrency.
- `java.util.Random`. Its draws are parameters constrained to [0, 300) and [0, 400).
- The HTTP client in `submitScore` and `getTopScores`, and server/ServerLeaderboard.java. `submitScore` is the boolean `serverAccepts`, and every attempted submission is recorded in `submitted`, including one that failed before anything was sent (gametest.java:62-64).
- The substring scrape of the JSON reply in `getTopScores`. The entries it produced before any exception are the input `fetched`.
- The object-stream reads and writes of `leaderboard.dat`. `loadLocalScores` reads `localFile`, and any read failure counts as an empty list. `saveLocalScore` returns the list it writes, and a write failure is not modelled.
- The `e.printStackTrace()` logging in the exception handlers (gametest.java:63,108,134,156). It writes to standard error and changes no state.
- GamePanel.Game.CreatePlatforms: does not ensure `Valid()`. `createPlatforms` clears the credited IDs but not the score, so it keeps the invariant only when the score is 0, as `Simulation.CreatePlatformsLayout` states. Its only callers, the constructor and `restartGame`, call it with score 0 and ensure `Valid()`. The same holds for GameTestPanel.GameTest.CreatePlatforms.
- ScoreEntry.java is not part of this model. It is a data holder that the modelled code does not use.
- 32-bit `int` overflow of positions, velocity, score and the ID counter. Integers are unbounded. Game over bounds y and velocity in play.
- The `Rectangle` objects that the Java code mutates in place are immutable `Rect` values here. The model then does not capture aliasing, but no other reference to these rectangles exists.
- Several steps are separate methods here, although in the source they are inline code: `AddRandomPlatforms` (the layout loop), `MoveVertically` (the y step and the game-over check), `MovePlatforms` (the scroll loop) and `AskPlayerName` (the dialog in `restartGame`). The first platform's setup in `CreatePlatforms` is one multiple assignment.
- GamePanel.Game.BounceIfOnPlatform: does not state that the invariant is preserved. `Simulation.BounceKeepsInv` states that about `Bounce`, and the tick methods keep `Valid()`.
- GameTestPanel.GameTest.BounceIfOnPlatform: as for `Game`, `Simulation.BounceKeepsInv` states that the invariant is preserved.
