# SimonSaysVs: a verified model

SimonSaysVs is a Simon game for two players, on one PC or on two PCs joined by a serial
cable. This project models its game logic in Dafny 4.11 and proves what players and
programmers rely on. `dafny verify dfyconfig.toml` checks everything.

## What is modelled

**The game on two PCs** (`TwoPcRules.dfy`, `TwoPcGame.dfy`, `TwoPcRuns.dfy`, `TwoPcTheorems.dfy`,
`TwoPcExamples.dfy`, `TwoPcEvents.dfy`, `TwoPcHistory.dfy`). Each PC keeps a replica of the game:
the sequence, the position in it, whose turn it is, the VS flags and the score. One-byte messages
keep the replicas in step. `TwoPcGame` has the variables and handlers of `proj/mp_game.c` with
the port's holding register; every handler is proved to do what a function of `TwoPcRules` says.
`TwoPcRuns` puts two PCs on a line. A step is a click, a tick of the clock, the ENTER key, a byte
moving from the register to the wire, a "transmitter empty" interrupt, or a delivery, and steps
come in any order. A PC whose game has ended leaves the game's screen at its next tick or ENTER,
and every event after that, a received byte included, is dropped there. The line is reliable and
first-in first-out, and it is the first session of both PCs; the client may have connected before
the host was hosting, its byte then being dropped (`Opening`). A local event finds room in the
port for the bytes it sends, and `SendingKeepsOrder` shows that this condition is exactly what
keeps the bytes complete and in order. A "transmitter empty" interrupt may come whenever the
register is empty. What concerns the protocol (order of bytes, the turn, the last byte, the
loser) is proved of every run and any number of rounds; agreement of the replicas is proved of
the runs on which it holds: the number of rounds fits a byte and no VS turn of the client has
ended (`ReachableInStep`). `TwoPcEvents` says in plain terms what each click and each wait does,
and `TwoPcHistory` what all clicks of a game are. `TwoPcExamples` constructs the runs that show
where agreement ends.

**The game on one PC** (`OnePcRules.dfy`, `OnePcGame.dfy`, `OnePcRuns.dfy`, `OnePcTurns.dfy`,
`OnePcEvents.dfy`): the timer and the flags, the result, the room for the buttons, and the exact
list of clicks of a game, in closed form without VS turns and turn by turn with them.

**The leaderboard** (`Ranking.dfy`, `LeaderboardText.dfy`, `Leaderboard.dfy`): the in-place
insertion is the top five of a stable sort of all results; saving and reading back.

**Screen and input** (`VideoCard.dfy`, `TextBox.dfy`, `Mouse.dfy`, `Keyboard.dfy`): the clipped
image, the centred text box and the number entry that mirrors it, and the two byte decoders.

## Where the code does not do what one expects

Each of these is kept as the code has it, with the exact condition proved.

- The host announces the number of rounds cast to 8 bits. The two PCs have the same size if and
  only if it is at most 255 (`HandshakeSafety`, `HandshakeEndsInAgreement`); the entry screen
  allows 999.
- The byte that announces a tie (`TIE_REMOTE`, 13) is not the byte the receiver compares with
  (`TIE` of another enumeration, 2). The event that ends a game is told to the other PC if and only
  if it is not a click after the whole full sequence has been repeated (`EndIsSharedIffNoTie`,
  `SameResultIffNoTie`). For every number of rounds up to 255 such a game exists (`TieCanHappen`).
- When a VS turn of the client ends, the client keeps its VS flag and the host clears its own.
  That step, which two PCs can reach (`ClientVsTurnCanEnd`), and no other tick of the player at
  turn ends the agreement (`ClientVsTurnBreaksAgreement`).
- After that step a PC can end with a tie of its own and leave the screen while the other plays
  on. Then a loss is not heard: a LOSE byte gives both the same result if and only if its receiver
  is still on the screen (`LossIsHeardOnScreen`); a game of 3 rounds in which it is not is
  constructed (`LossCanBeMissed`). The turn gets lost in the same way and in no other
  (`TurnIsLost`), and two PCs can get there too (`TurnCanBeLost`). In step neither can happen
  (`LoserAgreement`, `SingleTurn`).
- A PC that leaves the screen no longer looks after its queue. What it has sent can still arrive,
  and its loss can still become known to both, if and only if it did not leave with a byte in the
  queue (`BytesCanArriveIff`, `LossCanBeSharedIff`).
- Before the client's game is reset its clock makes it lose once its old timer has run out, and
  the LOSE byte stays queued (`EarlyTicksLose`).
- Bonus clicks of a VS turn are not checked against the number of rounds. The sequence stays within
  it if and only if no bonus click is made when it is full; then a full score is a tie and nobody
  scores more, and otherwise the game can no longer be tied (`Capacity`). In every game of two or
  more rounds a player can score more than the number of rounds (`ScoreCanExceedRounds`).
- A tied game, which has the full score, is never entered in the leaderboard. The board is the top five including a finished game if and only if
  the game was not tied or would not have been entered anyway (`GameIsRankedIff`).
- After a VS turn on one PC the next player starts from the beginning if and only if a button was
  clicked during the turn or the sequence was empty before it; otherwise only the VS button is
  left (`AfterVsTurn`). The second case occurs in every game of two or more rounds
  (`VsTurnCanEndLate`).
- Names may contain spaces, but are read back with `%s`. Reading undoes saving if and only if
  all names and dates are non-empty and free of white space (`LoadUndoesSave`).
- The first scan code after power-on is decoded correctly if and only if it is not a two-byte
  code (`PowerOn`).
- On the first byte of a two-byte code the keyboard handler returns true with the old key still in
  place, so a caller sees that key again. It sees exactly the codes if and only if none has two
  bytes (`CallerSees`).
- A date is built in a buffer of 10 bytes. Its text and the zero byte fit if and only if the day or
  the month has one digit (`DateFitsIff`).
- The left limit of a centred box is compared with the whole width of a glyph, since
  `(width + 1 / 2)` is not `(width + 1) / 2`. It refuses a glyph that would fit exactly when half of
  its width fits and the whole does not (`RefusedThoughItFits`).

## Model

| member | source | states |
|---|---|---|
| `TwoPcTheorems.ReplicaAgreement` | proj/mp_game.c:302-447 | in every state reachable in step, for any size up to 255, receiving the bytes under way makes the passive replica equal to that of the player who holds or last held the turn, and nothing is under way in the other direction |
| `TwoPcTheorems.QuietReplicasAreEqual` | proj/mp_game.c:607-657 | with nothing under way the replicas agree and exactly one PC is at turn |
| `TwoPcTheorems.ClientVsTurnBreaksAgreement` | proj/mp_game.c:546-549 | a tick of the player at turn keeps agreement if and only if it does not end a VS turn of the client |
| `TwoPcExamples.ClientVsTurnCanEnd` | proj/mp_game.c:811-854 | from every first session with 2 to 255 rounds there is a run to that step |
| `TwoPcRuns.ClickReplays` | proj/mp_game.c:386-447 | the bytes of any click, received by an agreeing replica, restore agreement |
| `TwoPcRuns.TickReplays` | proj/mp_game.c:521-559 | the same for a tick, if and only if it does not end a VS turn of the client |
| `TwoPcHistory.TwoPcClickHistory` | proj/mp_game.c:302-384 | on every run in step all clicks accepted on both PCs are those of the finished turns, each repeating the whole sequence and adding to it, and of the turn under way; the score is the length repeated last, the players alternate, and at turn the clock is off exactly while a new button is awaited outside a VS turn |
| `TwoPcHistory.TwoPcLossIsFirstDeviation` | proj/mp_game.c:361-383 | on every run in step an accepted click loses if and only if no turn can begin with the clicks of this one |
| `TwoPcEvents.RepeatingClick` | proj/mp_game.c:361-383 | while there is a button to repeat, that button and no other brings both replicas on, restarts the clock with 4 and is sent; any other click loses and sends LOSE |
| `TwoPcEvents.ClosingClick` | proj/mp_game.c:311-359 | what a click does on both PCs, with all bytes, when all is repeated: tie, VS turn of 6 ticks, or a button and the hand-over |
| `TwoPcEvents.BonusClick` | proj/mp_game.c:328-333 | in a VS turn a click adds its button on both PCs |
| `TwoPcEvents.OtherBytes` | proj/mp_game.c:616-656 | the effect of every byte that is not a button, by number |
| `TwoPcEvents.Waiting` | proj/mp_game.c:550-558 | n ticks take n from the clock of the player at turn and change nothing else; a clock that is off stays off |
| `TwoPcEvents.TimeIsUp` | proj/mp_game.c:538-549 | the tick after that loses and sends LOSE, or hands the turn over after a VS turn |
| `TwoPcEvents.EveryClockIsInRange` | proj/mp_game.c:521-559 | on every run and for any size the clock of a player at turn is off or at most 4, in a VS turn 0 to 6 |
| `TwoPcEvents.NameIsAskedIffEntered` | proj/mp_game.c:561-573 | a PC whose game has ended leaves its screen at a tick or ENTER, and asks for a name if and only if the result enters the leaderboard |
| `TwoPcTheorems.SingleTurn` | proj/mp_game.c:616-638 | on every run and for any size, from the client's reset on, the turn is in at most one of four places: held by one PC or on its way to the other; in step it is in exactly one |
| `TwoPcTheorems.TurnIsLost` | proj/simon.c:305-330 | a step loses the turn if and only if it delivers the byte that hands it over to a PC that has left the screen |
| `TwoPcExamples.TurnCanBeLost` | proj/simon.c:305-330 | two PCs can reach that step |
| `TwoPcTheorems.NoSimultaneousClicks` | proj/mp_game.c:285-294 | on every run and for any size, the PCs never both accept a click, and a received button never takes the local branch and sends nothing |
| `TwoPcTheorems.EndByteIsLast` | proj/mp_game.c:765-789 | on every run and for any size, a byte that announces the end is the last byte either PC sends, and tells the sender's result |
| `TwoPcTheorems.LoserAgreement` | proj/mp_game.c:639-651 | on every run and for any size, once a LOSE byte has arrived both games have ended, the sender's with its opponent as winner; the receiver has the same result unless it had left the screen with a tie, which in step it cannot |
| `TwoPcTheorems.LossIsHeardOnScreen` | proj/mp_game.c:561-573 | a LOSE byte that arrives gives both PCs the same result if and only if the receiver has not left the screen |
| `TwoPcExamples.LossCanBeMissed` | proj/simon.c:305-330 | two PCs can reach a state where a loss has arrived unheard |
| `TwoPcTheorems.EndIsSharedIffNoTie` | proj/mp_game.c:765-775 | the event that ends a game, once its bytes are received, gives the other PC the same result if and only if it is not a click on a complete sequence |
| `TwoPcExamples.TieCanHappen` | proj/mp_game.c:317-322 | for every size up to 255 two PCs in step can play to a tie of which one is not told |
| `TwoPcTheorems.SameResultIffNoTie` | proj/mp_game.c:652-656 | when all bytes have arrived, two PCs in step have the same result if and only if it is not a tie |
| `TwoPcTheorems.NothingReachesAnEndedGame` | proj/mp_game.c:757-763 | in step, no byte is ever under way to a PC whose game has ended |
| `TwoPcTheorems.SendOrder` | proj/mp_game.c:943-953 | over every run and for any size the bytes given to the port are those delivered, on the wire, in the register and queued, in this order: none lost, refused, repeated or overtaken |
| `TwoPcTheorems.BytesCanArriveIff` | proj/mp_game.c:591-600 | from any reachable state and for any size some run delivers all that a PC has sent if and only if it has not left the screen with a byte in its queue |
| `TwoPcTheorems.LossCanBeSharedIff` | proj/mp_game.c:639-651 | in step a loss can become the result of both PCs under exactly that condition |
| `TwoPcRuns.SendingKeepsOrder` | proj/mp_game.c:791-803 | the port keeps the bytes of an event complete and in order if and only if they fit the free places (or a single byte repeats the queued one) |
| `TwoPcRuns.FullPort` | proj/mp_game.c:943-953 | a port that is full overwrites its queued byte, and loses it if it moves on while the register is full |
| `TwoPcTheorems.HandshakeSafety` | proj/mp_game.c:705-755 | on every run, if the host has started so has the client, and their sizes are equal if and only if the number of rounds is at most 255 |
| `TwoPcTheorems.HandshakeEndsInAgreement` | proj/mp_game.c:720-723 | the step by which the host starts leaves empty lines and two fresh replicas, which agree if and only if the size fits a byte |
| `TwoPcExamples.HandshakeCanFinish` | proj/mp_game.c:576-605 | the handshake can be completed from every first session |
| `TwoPcTheorems.HandshakeCanGoOn` | proj/mp_game.c:705-755 | from every reachable state of the handshake, for any size, some run completes it |
| `TwoPcEvents.SizeIsRead` | proj/mp_game.c:735-752 | the client is reset with the number that two bytes stand for, the low one first |
| `TwoPcTheorems.EarlyTicksLose` | proj/mp_game.c:521-545 | a client that has just connected, with an old timer at t, has lost after n ticks if and only if 0 <= t < n, then holds LOSE in the queue behind CONNECTED, and has left the screen one tick later |
| `TwoPcGame.MpGame.MpClickButton` | proj/mp_game.c:302-384 | the handler's new game and port are those of the click's meaning |
| `TwoPcGame.MpGame.MpRemoteClickButton` | proj/mp_game.c:386-447 | as described by RemoteClick, and nothing is sent |
| `TwoPcGame.MpGame.MpChangePlayer` | proj/mp_game.c:811-854 | hands over the turn and sends one byte, written or queued |
| `TwoPcGame.MpGame.PlayGame` | proj/mp_game.c:607-657 | the effect of every byte received during the game |
| `TwoPcGame.MpGame.StartGame` | proj/mp_game.c:705-755 | the effect of every interrupt before the game |
| `TwoPcGame.MpGame.MpGameUpdateStatusUart` | proj/mp_game.c:576-605 | a serial interrupt is a step of the system |
| `TwoPcGame.MpGame.MpGameUpdateStatusMouse` | proj/mp_game.c:173-250 | a click is a step of the system, accepted only at one's own turn in a running game |
| `TwoPcGame.MpGame.MpGameUpdateStatusRtc` | proj/mp_game.c:521-574 | a tick is a step of the system; after the end it leaves the screen, for the name entry if the score beats the fifth and nobody tied |
| `TwoPcGame.MpGame.MpGameUpdateStatusKey` | proj/mp_game.c:484-500 | ENTER after the end does the same |
| `TwoPcGame.MpGame.EventHandler` | proj/simon.c:305-330 | events reach the game only while its screen is shown |
| `TwoPcGame.MpGame.MpResetGame` | proj/mp_game.c:659-677 | every variable of a new game |
| `TwoPcGame.MpGame.HostMpGame` | proj/mp_game.c:679-693 | the host's first state |
| `TwoPcGame.MpGame.ConnectMpGame` | proj/mp_game.c:695-703 | the client's first state, with CONNECTED in the register |
| `TwoPcGame.MpGame.SerialWriteByte` | proj/uart.c:111-125 | writes if the register is empty, else refuses |
| `OnePcRuns.EveryGameIsTimed` | proj/game.c:277-360 | in every game the timer is off exactly while a new button is awaited outside a VS turn; bounds of the timer; a VS turn implies a VS round and an unfinished sequence |
| `OnePcRuns.ResultIsFinal` | proj/game.c:426-449 | once a game has ended no click and no tick changes its result, a tie included |
| `OnePcEvents.RepeatingClick` | proj/game.c:336-359 | at any moment of any game: while there is a button to repeat, that button and no other brings the player on and restarts the clock with 4 |
| `OnePcEvents.ClosingClick` | proj/game.c:286-334 | what a click does when all is repeated: tie, VS turn of 6 ticks, or a button and the hand-over |
| `OnePcEvents.BonusClick` | proj/game.c:311-322 | in a VS turn a click adds its button and sends the position back, and the clock runs on |
| `OnePcEvents.Waiting` | proj/game.c:441-449 | n ticks take n from the clock and change nothing else; a clock that is off stays off |
| `OnePcEvents.TimeIsUp` | proj/game.c:429-440 | the tick after that loses and leaves the screen, or passes the turn after a VS turn |
| `OnePcEvents.ScoreIsLastRepeated` | proj/game.c:288-291 | at any moment of any game the score is the length of the sequence repeated last |
| `OnePcEvents.NameIsAskedIffEntered` | proj/game.c:451-463 | a game that has ended leaves its screen, for the name entry if and only if its result enters the leaderboard |
| `OnePcRuns.AfterVsTurn` | proj/game.c:435-440 | after a VS turn the next player starts at the beginning if and only if a button was clicked in the turn or there were none before it, and otherwise every button but VS is a mistake |
| `OnePcRuns.VsTurnCanEndLate` | proj/game.c:435-440 | in every game of two or more rounds a VS turn can end so that the next player starts behind the first button |
| `OnePcRuns.ClickHistory` | proj/game.c:286-359 | without VS turns the clicks of a live game are exactly the concatenation of all turns; their number is n(n+1)/2 plus the guesses made; player 1 is at turn when the sequence is even |
| `OnePcRuns.ClickIndex` | proj/game.c:324-351 | click k(k+1)/2 + j is button j, for every finished turn k and the current one |
| `OnePcRuns.ButtonAddedAt` | proj/game.c:324-334 | button j is added by click (j+1)(j+2)/2 |
| `OnePcRuns.HistoryIsInjective` | proj/game.c:286-359 | the clicks determine sequence and position |
| `OnePcRuns.LossIsFirstDeviation` | proj/game.c:338-359 | without VS turns a click loses if and only if it is the first that fits no sequence |
| `OnePcRuns.TieAtLastClick` | proj/game.c:293-298 | without VS turns at most (max+1)(max+2)/2 clicks are made, and that many if and only if the game is a tie |
| `OnePcRuns.Capacity` | proj/game.c:303-315 | in every game the sequence exceeds the number of rounds if and only if a bonus click overfilled it; without such a click no score exceeds the number of rounds and it is reached (for more than 0 rounds) if and only if the game is a tie; with one there is no tie |
| `OnePcRuns.ScoreCanExceedRounds` | proj/game.c:303-322 | for every number of rounds from 2 a live game with a score above it is constructed |
| `OnePcTurns.AnyClickHistory` | proj/game.c:277-360 | in any live game, VS turns included, the clicks are exactly those of its finished turns, each repeating the sequence from where it starts and adding to it, and of the turn under way |
| `OnePcTurns.LossIsFirstDeviationOfTurn` | proj/game.c:336-359 | in any game a click loses if and only if no turn that starts where this one does can begin with its clicks |
| `OnePcTurns.PastWithoutVs` | proj/game.c:324-334 | without VS turns those clicks are the closed form of ClickHistory |
| `OnePcRuns.ClickMakesProgress` | proj/game.c:286-359 | without VS turns every click that is survived decreases (buttons missing, buttons to repeat) |
| `OnePcGame.Game.ClickButton` | proj/game.c:277-360 | the handler does what the rules say |
| `OnePcGame.Game.GameUpdateStatusRtc` | proj/game.c:426-464 | a tick does what the rules say, game ended or not, and leaves the screen once it has ended, through the gate unless it is a tie |
| `OnePcGame.Game.GameUpdateStatusKey` | proj/game.c:397-411 | ENTER after the end leaves the screen in the same way |
| `OnePcGame.Game.ResetGame` | proj/game.c:466-484 | every variable of a new game |
| `Ranking.BoardIsTopFive` | proj/game.c:455-462 | after any games the board is descending and equals the first five of every stable descending sort of the first board and the results of all games that were not tied |
| `Ranking.GameIsRankedIff` | proj/game.c:455-458 | one more game is ranked as in that sort if and only if it was not tied or does not beat the fifth score |
| `Ranking.StableSortIsUnique` | proj/leaderboard.c:175-210 | there is only one such sort |
| `Ranking.SortIsStable` | proj/leaderboard.c:175-210 | and there is one |
| `Ranking.InsertedContents` | proj/leaderboard.c:175-210 | an update adds one entry and drops the old fifth |
| `Leaderboard.Leaderboard.UpdateData` | proj/leaderboard.c:175-210 | the rotation in the array, with newWinner as scratch space, is that update |
| `Leaderboard.Leaderboard.GetNewHiScorePos` | proj/leaderboard.c:144-173 | the place before the first smaller score, or the last place |
| `Leaderboard.Leaderboard.CheckNewHiScore` | proj/game.c:563-574 | the name is asked for if and only if the score beats the fifth |
| `Leaderboard.Leaderboard.EnterName` | proj/highscore.c:27-33 | ENTER with a name enters the score remembered by the gate |
| `Leaderboard.Leaderboard.FinishGame` | proj/game.c:451-463 | a tie changes nothing; otherwise gate and entry together submit the result |
| `LeaderboardText.LoadUndoesSave` | proj/leaderboard.c:217-245 | whatever was on the board and in the buffers, reading restores the saved board if and only if its names and dates are words |
| `LeaderboardText.PrintedEntry` | proj/leaderboard.c:223-223 | the text of an entry: name, score and date on lines of their own, and an empty line |
| `LeaderboardText.IntReadBack` | proj/leaderboard.c:240-240 | a printed number, negative or not, is read back |
| `LeaderboardText.DateIsWord` | proj/highscore.c:63-101 | the text of a date is a word of at most 10 characters |
| `LeaderboardText.PrintedDate` | proj/highscore.c:71-98 | day, month and year in this order, the year with its century |
| `LeaderboardText.DateFitsIff` | proj/highscore.c:65-65 | the text and its terminator fit the allocated bytes if and only if day or month is below 10 |
| `Leaderboard.Leaderboard.SaveData` | proj/leaderboard.c:217-226 | the loop writes the text of the board |
| `Leaderboard.Leaderboard.RetrieveData` | proj/leaderboard.c:228-245 | the loop reads a board over the old one |
| `Leaderboard.Leaderboard.SaveAndRetrieve` | proj/leaderboard.c:217-245 | the two methods together leave the board as it was if and only if all names and dates are words |
| `Leaderboard.GetDate` | proj/highscore.c:63-101 | the three loops build that text (the size of the buffer is the subject of DateFitsIff) |
| `VideoCard.Frame.DrawXpm` | proj/vc.c:125-140 | for images of any size at any 16-bit position every point of the screen shows the image's pixel where it is opaque and its old bytes elsewhere |
| `VideoCard.PaintedBytes` | proj/vc.c:93-109 | byte i of the pixel in column x of row y is at (y * width + x) * size + i and holds the colour's byte i, the lowest first |
| `VideoCard.ColorReadBack` | proj/vc.c:101-109 | a colour that fits the bytes of a pixel is the number they stand for |
| `VideoCard.DrawnPoint` | proj/vc.c:125-140 | the same in plain coordinates when the image does not pass 65535: the bytes of an opaque point stand for the image's 16-bit pixel |
| `VideoCard.Frame.DrawPixel` | proj/vc.c:82-111 | paints one pixel, or returns 1 and changes nothing off the screen |
| `VideoCard.PaintedPixels` | proj/vc.c:93-109 | painting a pixel changes the bytes of no other |
| `TextBox.Box.Add` | proj/vc.c:205-225 | accepts a glyph if and only if it has room, and keeps both ends where the glyphs put them |
| `TextBox.Box.Remove` | proj/vc.c:227-238 | takes back the last glyph, or does nothing |
| `TextBox.Box.AddAndRemove` | proj/vc.c:205-238 | an accepted glyph that is removed leaves every field as it was |
| `TextBox.Box.Spans` | proj/vc.c:205-238 | the distance of the two ends is the total width of the glyphs |
| `TextBox.Box.RefusedThoughItFits` | proj/vc.c:216-219 | exactly which glyphs the check of the left limit refuses although they fit |
| `TextBox.ValueOfPrinted` | proj/number_of_rounds.c:42-48 | the value of the printed digits of a number is that number |
| `TextBox.Box.constructor` | proj/vc.c:142-153 | an empty box |
| `TextBox.NumberOfRounds.UpdateStatus` | proj/number_of_rounds.c:16-55 | after every key the value is the number in the box; ENTER starts a game of that many rounds unless it is 0 |
| `TextBox.NumberOfRounds.AtMostThreeDigits` | proj/number_of_rounds.c:63-67 | the value is below 10 to the number of digits, and at most 999 |
| `TextBox.NumberOfRounds.constructor` | proj/number_of_rounds.c:63-67 | an empty box and the value 0 |
| `Mouse.EveryMotionArrives` | proj/mouse.c:52-75 | any list of reported motions is handed on unchanged and in order, each with its third byte |
| `Mouse.AssemblyUndoesEncode` | proj/mouse.c:142-164 | buttons, overflow flags and both 9-bit movements are recovered |
| `Mouse.PacketMeaning` | proj/mouse.c:142-164 | for any three bytes: buttons and overflows are bits of the first, the second is x and the third is y in two's complement with the sign in the first |
| `Mouse.BytesAreDropped` | proj/mouse.c:57-65 | an error forgets the bytes collected; two bytes of which the first has bit 3 clear are dropped together |
| `Mouse.PacketsAreSeparate` | proj/mouse.c:52-75 | on any stream a packet is three valid bytes in a row whose first has bit 3 set, and no byte is used twice |
| `Mouse.MouseHandler.Handle` | proj/mouse.c:52-75 | one interrupt does what the step says |
| `Keyboard.Stream` | proj/keyboard.c:48-89 | after a complete code any list of codes is decoded to itself, error reads in between and a second byte 0xE0 included |
| `Keyboard.PowerOn` | proj/keyboard.c:48-61 | from the first state this holds if and only if the first code is not a two-byte one |
| `Keyboard.ErrorsAreSkipped` | proj/keyboard.c:55-59 | error reads make no difference anywhere |
| `Keyboard.KeyboardHandler.Handle` | proj/keyboard.c:48-69 | one interrupt does what the step says; it returns true for every good read and changes the caller's key only when a code is complete |
| `Keyboard.CallerSees` | proj/keyboard.c:60-68 | a caller that takes the key whenever the result is true sees the codes, with the key before repeated ahead of each two-byte code |
| `Keyboard.KeyboardHandler.KeyboardGetScancode` | proj/keyboard.c:71-89 | stores the byte and tells whether a code is complete |

## Left out

- ReplicaAgreement: states nothing after a VS turn of the client has ended, because the replicas then differ, or for sizes above 255; the same holds for QuietReplicasAreEqual, EndIsSharedIffNoTie, SameResultIffNoTie and NothingReachesAnEndedGame.
- SendOrder: a local event waits until the port has room for its bytes; the code does not check this.
- QuietReplicasAreEqual: the score of a tie is not part of the agreement, because the other PC is not told.
- A second session of the two-PC game: the counters of the handshake are never reset, so it does not complete.
- The alarm of 5 seconds after a game: a tick may come at any time, so a PC may leave the screen while a byte is still in its queue, where it then stays.
- Several interrupts in one message of the main loop: they are separate events here, so a byte in the very message that leaves the screen counts as one that came later.
- `free(buttons)`: not modelled. In the one-PC game a mistake made while the timer is 0 ends the game again at the next tick, which frees the sequence twice. In the two-PC game a PC that has tied and is still on the screen frees it again when it hears of a loss, and out of step goes on adding buttons to it.
- The capacity of `buttons`: it is a sequence without bound here. Capacity says exactly when the code stays within its array on one PC; after a click that overfills it the model follows the code as if there were room. Bonus clicks on two PCs are not checked either.
- IS_NOT_VS is modelled at the receiver, but `mp_is_VS_round` returns before its random choice, so it is never sent.
- DrawXpm: bits per pixel are taken to be a multiple of 8, so that the two computations of the bytes per pixel agree.
- CallerSees: two keyboard interrupts with others in between are not considered, for which the main loop clears the character of the key.
- GetDate: builds the text in a sequence, without the fixed buffer; DateFitsIff says when that buffer is too small. The copy into the entry takes 11 bytes out of it and so reads past its end for every date.
- The table from scan codes to characters, the lighting of buttons, cursor movement and hit tests: simple case lists.
- The name typed on the high-score screen: its buffer does not mirror the box; the name is an input of EnterName.
- Names and dates longer than the fields of the leaderboard, and numbers outside the range of int: values here have no such limits.
- Interrupt subscription, port access, video modes, menus, image loading and drawing of screens: calls into the system or plain display.
