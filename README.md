# Internet of Tanks: a verified model of the coordinator

The system is a small multiplayer game. A coordinator process (`world`)
keeps a rectangular board of tanks in two teams, green and red. Each tank
is a thread inside the coordinator. It is driven by one network client,
which sends two-character action codes (`mu`, `fl`, `no`, ...) as UDP
datagrams. The coordinator works in rounds:

1. It delivers the waiting datagrams to the tanks' mailboxes.
2. It wakes every tank, and each tank takes its next action from its mailbox.
3. It resolves all shots (the fire pass), then all moves and the removal of
   destroyed tanks (the move pass).
4. It writes a text snapshot of the board to a named pipe.

A display client reads snapshots from that pipe and draws the board.

This Dafny project models:

- the tank state (`tank.dfy`): the class `Tanks.Tank` over a four-character
  array mailbox, with its abstract value `Tanks.Mailbox`;
- the action vocabulary, `parseAction` and the code table of the random
  tank process (`actions.dfy`);
- the address ordering of the routing table (`addr.dfy`);
- the coordinator `Worlds.World` (`world.dfy`): construction, `init`,
  `clearTanks`, tank creation, message routing, the round resolution and
  the snapshot writer. Each method is proved against the pure
  specifications in `placement.dfy`, `routing.dfy`, `fire.dfy`, `move.dfy`,
  `round.dfy` and `snapshot.dfy`;
- the client's reading of the pipe (`worldclient.dfy`, class
  `Client.WorldClient` over a sequence of read events);
- a decode-after-encode theorem (`roundtrip.dfy`): a snapshot written by the
  coordinator draws exactly the board it came from.

The board is modelled as a flat map from a cell to the id of the tank in
it. Tanks live in an arena (`tanks`) indexed by id. The nested
`std::map<int, std::map<int, Tank*>>` of the source behaves the same
because every lookup uses `find` or insert-if-absent, so its empty rows
cannot be observed (with one exception, listed under Left out).

Both passes visit the in-bounds cells in row-major order. That is the order
in which the source's iterator loops visit the keys, since every key is on
the board. The move pass changes the grid while it walks it, and
`MovePass.MoveCell` models one visit on the current grid.

## Model

| member | source | states |
|---|---|---|
| Actions.ActionOfOrdinal | src/tank-process.cpp:23 | the cast of 1..8 to the enumeration gives a move or a shot whose ordinal is that number |
| Actions.RandomAction | src/tank-process.cpp:23 | `(rand() % 8) + 1` always names one of the eight commands, never UNDEFINED or NO_ACTION |
| Actions.ParseAction | src/tank.cpp:108-143 | `no` is NO_ACTION, `m`/`f` followed by `u`,`d`,`l`,`r` are exactly the moves/shots, and the direction letter is the second character |
| Actions.ParseUndefinedIff | src/tank.cpp:108-143 | a pair parses to something other than UNDEFINED exactly when it is one of the nine codes |
| Actions.HandlerCode | src/tank-process.cpp:24-50 | each command's code is two characters: `m` or `f`, then its direction |
| Actions.CodeRoundTrip | src/tank-process.cpp:24-50 | parsing a command's code gives the command back |
| Actions.CodesDistinct | src/tank-process.cpp:24-50 | two commands have the same code exactly when they are equal |
| Actions.HandlerReply | src/tank-process.cpp:16-53 | the handler writes exactly two bytes, which the coordinator parses as the randomly chosen command |
| SockAddrs.LessIsLexicographic | src/world.h:16-22 | the comparator orders by address, then by port |
| SockAddrs.LessIrreflexive | src/world.h:16-22 | no address is less than itself |
| SockAddrs.LessAsymmetric | src/world.h:16-22 | a < b excludes b < a |
| SockAddrs.LessTransitive | src/world.h:16-22 | a < b and b < c give a < c |
| SockAddrs.LessConnected | src/world.h:16-22 | two different addresses are ordered one way or the other |
| SockAddrs.SameKeyIffEqual | src/world.h:16-22 | two addresses share an entry of the table exactly when address and port agree |
| Tanks.InitialBox | src/tank.cpp:18-21 | a new mailbox holds `nono`, both halves parse as NO_ACTION, and currentAction points to the start |
| Tanks.Write | src/tank.cpp:145-154 | setNextAction writes both characters into the half behind currentAction and leaves the current half and the pointer unchanged |
| Tanks.Take | src/tank.cpp:94-106 | doAction yields the parse of the current half, resets that half to `no`, keeps the other half and moves the pointer to it |
| Tanks.LastWriteWins | src/tank.cpp:145-154 | of two writes before a doAction, the second one wins |
| Tanks.WrittenCodeIsTakenNext | src/tank.cpp:94-154 | a code written before one doAction is what the doAction after it parses |
| Tanks.NoInputMeansNoAction | src/tank.cpp:94-106 | two doActions with no write leave `nono`, so the next action is NO_ACTION |
| Tanks.Tank.constructor | src/tank.cpp:18-34 | a new tank has its team, action UNDEFINED, is not destroyed, and its mailbox is the initial one |
| Tanks.Tank.IsDestroyed | src/tank.cpp:36-39 | isDestroyed reports the flag, which MarkAsDestroyed sets |
| Tanks.Tank.GetAction | src/tank.cpp:47-50 | getAction reports the action DoAction, WaitForTank and SetActionToUndefined set |
| Tanks.Tank.MarkAsDestroyed | src/tank.cpp:36-45 | the flag is set and isDestroyed reports it |
| Tanks.Tank.DoAction | src/tank.cpp:94-106 | the new mailbox and action are `Take` of the old mailbox; the pointer stays at 0 or 2 and the flag is unchanged |
| Tanks.Tank.SetNextAction | src/tank.cpp:145-154 | the new mailbox is `Write` of the old one |
| Tanks.Tank.WaitForTank | src/tank.cpp:84-92 | a failed wait returns -1 and sets the action to UNDEFINED; a successful one returns 0 and changes nothing |
| Tanks.Tank.SetActionToUndefined | src/tank.cpp:156-159 | only the action changes, to UNDEFINED |
| Placement.RoomForTanks | src/world.cpp:39-41 | with parameters the constructor accepts, the board has redCount + greenCount distinct cells |
| Placement.FreeColumn | src/world.cpp:110-111 | a row with fewer occupants than columns has a free column, so the column draws can succeed |
| Placement.FullRow | src/world.cpp:110-111 | in a full row every column is taken, so no column draw ever succeeds |
| Placement.RowTestNeverHolds | src/world.cpp:106 | the row test as written, in 64-bit unsigned arithmetic, is false for every row of the board, full or not |
| Placement.RowFullAsWritten | src/world.cpp:106 | the row test in size_t arithmetic; RowTestNeverHolds shows it never holds |
| Placement.StuckPlacement | src/world.cpp:104-111 | on a 1-by-2 board with two tanks, a full row passes the test as written and every column draw hits the taken cell; the intended test rejects that row |
| Placement.IntendedRowHasRoom | src/world.cpp:104-111 | a row that passes the intended test has a free column |
| Placement.PlaceKeepsBoard | src/world.cpp:111-114 | placing a new tank in a free cell keeps the board well formed and keeps "on the board iff not destroyed" |
| Snapshots.NatToString | src/world.cpp:223 | an int is written as decimal digits with no leading zero |
| Snapshots.DigitsRoundTrip | src/world.cpp:223 | reading the written digits gives the number back |
| Snapshots.CellChar | src/world.cpp:227-234 | a cell is written as `0` when empty, `g` for a green tank and `r` for a red tank |
| Snapshots.RowTextShape | src/world.cpp:226-236 | a row of c cells is 2c characters: each cell's character followed by a comma |
| Snapshots.BodyTextLength | src/world.cpp:225-237 | r rows of areaX cells are 2·r·areaX characters |
| Snapshots.BodyTextCell | src/world.cpp:225-237 | cell (i, j) and its comma sit at its row-major offset |
| Snapshots.Snapshot | src/world.cpp:223-237 | the header `areaX,areaY,` and then the row-major cells; SnapshotLength and SnapshotCell state its layout |
| Snapshots.SnapshotLength | src/world.cpp:223-237 | the snapshot is the header and then two characters per cell |
| Snapshots.SnapshotCell | src/world.cpp:223-237 | cell (r, c) sits at offset 2·(r·areaX + c) after the header, followed by a comma |
| Client.SkipSpacesSuffix | src/worldclient.cpp:89 | atoi skips exactly the leading white space |
| Client.DigitPrefixLongest | src/worldclient.cpp:89 | atoi reads the longest prefix of decimal digits |
| Client.Atoi | src/worldclient.cpp:89 | atoi is negative only after a minus sign, and is 0 when no sign or digit follows the white space |
| Client.AtoiOfDigits | src/worldclient.cpp:89 | atoi of a written number is that number |
| Client.ScanField | src/worldclient.cpp:72-104 | collecting a field ends at a comma (with fewer than 16 characters), at a failed read, at end of file (first field only) or in an overrun of the buffer |
| Client.ScanEnd | src/worldclient.cpp:72-104 | the cursor after a scan is past every event the loop read, one past a failed read, and moves whenever the pipe is not at its end |
| Client.ScanFinds | src/worldclient.cpp:72-104 | up to 15 characters followed by a comma are collected as the field, and the cursor follows the comma |
| Client.ReadSize | src/worldclient.cpp:67-107 | readGameBoardSize returns 0, -1, -2 or runs into undefined behaviour; -2 exactly when the first field's loop reaches end of file (so always on an exhausted pipe), leaving x and y unchanged and the cursor at the end |
| Client.FailureIsUsedUp | src/worldclient.cpp:74-76 | a read that fails at the cursor gives -1, keeps x and y, and is used up, so the next call reads the event after it |
| Client.ReadsOnAfterFailure | src/worldclient.cpp:67-107 | on the pipe "-1", "1,1," the first call returns -1 and the next one returns 0 with the size 1 by 1 |
| Client.ReadField | src/worldclient.cpp:155-166 | one read takes two bytes when both are there, and then always gives a complete field; the field is the first byte (also when only that one was read), and the separator is flagged unless it is a comma; the field is indeterminate exactly on a failed read or at end of file, and a failed read is used up |
| Client.GlyphOf | src/worldclient.cpp:203-218 | the switch over a field byte draws only '0' (a blank), 'g' and 'r'; every other byte is not drawn (it is logged as illegal), and no byte gives an indeterminate glyph |
| Client.GlyphDecodes | src/worldclient.cpp:203-218 | the three drawn cases are distinct: a drawn glyph determines the byte it came from |
| Client.FieldGlyph | src/worldclient.cpp:201-218 | the glyph of a field is indeterminate exactly when the read failed or hit end of file; otherwise it is the switch applied to the byte that was read |
| Client.ReadRow | src/worldclient.cpp:200-219 | a row yields one glyph per column |
| Client.ReadRows | src/worldclient.cpp:199-220 | y rows of x glyphs each |
| Client.Frame | src/worldclient.cpp:109-137 | the frame is redrawn exactly when the size read returned 0 and the size changed |
| Client.PrintBoard | src/worldclient.cpp:189-221 | fields are skipped exactly when the size read returned -2 and nothing is drawn exactly when it was undefined; after 0 and also after -1, y rows of x fields are read with the size the read left |
| Client.WorldClient.constructor | src/worldclient.cpp:35-38 | both sizes start at 0 and the pipe is read from its start |
| Client.WorldClient.ReadFirstField | src/worldclient.cpp:67-89 | the byte loop computes `ScanField` of the first field and leaves the cursor at `ScanEnd`, past a failed read |
| Client.WorldClient.ReadSecondField | src/worldclient.cpp:91-105 | the loop without an end-of-file test computes `ScanField` of the second field and leaves the cursor at `ScanEnd`, past a failed read |
| Client.WorldClient.ReadGameBoardSize | src/worldclient.cpp:67-107 | the new sizes, cursor and return value are `ReadSize` of the old state |
| Client.WorldClient.ReadFieldFromPipe | src/worldclient.cpp:155-166 | the field and the new cursor are `ReadField` at the old cursor, so a failed read is used up |
| Client.WorldClient.PrintGameboardFrame | src/worldclient.cpp:109-137 | the status, the redraw decision and the new state are `Frame` of the old state |
| Client.WorldClient.ReadBoardRow | src/worldclient.cpp:200-219 | the column loop reads `ReadRow` |
| Client.WorldClient.PrintGameboard | src/worldclient.cpp:189-221 | what is drawn and the new state are `PrintBoard` of the old state |
| SnapshotDecoding.CellGlyph | src/worldclient.cpp:203-218 | an empty cell is drawn blank, and a green or red tank as a tank of its team |
| SnapshotDecoding.ExpectedRowsCells | src/worldclient.cpp:199-220 | the expected drawing has areaY rows of areaX glyphs, glyph (i, j) being that of cell (i, j) |
| SnapshotDecoding.RowReadBack | src/worldclient.cpp:200-219 | reading a row written by the coordinator gives the glyphs of its cells |
| SnapshotDecoding.RowsReadBack | src/worldclient.cpp:199-220 | reading the written body gives the glyphs of every cell, and the cursor ends after it |
| SnapshotDecoding.NumberReadBack | src/worldclient.cpp:72-105 | a written size field (at most INT_MAX) is collected whole and atoi gives the number back |
| SnapshotDecoding.HeaderReadBack | src/worldclient.cpp:67-107 | reading the header `areaX,areaY,` returns 0 and sets x and y to the written sizes |
| SnapshotDecoding.DecodeSnapshot | src/worldclient.cpp:189-221 | a snapshot at the cursor draws a board of the written size whose glyph (i, j) shows whether, and which team's, tank is in cell (i, j) |
| Routing.Claim | src/world.cpp:178-183 | the claimed tank, if any, is in the arena and not destroyed |
| Routing.ClaimFacts | src/world.cpp:178-188 | ids are popped from the back; the one returned is the last live id, only destroyed ids were dropped behind it, and the list ends empty when none is live |
| Routing.Route | src/world.cpp:173-191 | a message is routed only to a tank that is not destroyed |
| Routing.RouteKeepsBinding | src/world.cpp:173-191 | routing keeps the table well formed: no tank is controlled by two addresses, and free tanks are unbound |
| Routing.RouteKnown | src/world.cpp:197-201 | a bound address reaches its own tank while it lives and is dropped afterwards; the table is unchanged |
| Routing.RouteNew | src/world.cpp:175-191 | a new address is bound to the last live free tank, the destroyed ones behind it are dropped, and with no live free tank it is ignored |
| Routing.Deliver | src/world.cpp:171-205 | one datagram keeps the table and the mailboxes well formed |
| Routing.ReceiveAll | src/world.cpp:171-206 | all datagrams, in order, keep the table and the mailboxes well formed |
| Routing.DeliverNew | src/world.cpp:175-192 | a datagram from a new address is delivered to the claimed tank, and the new table stays well formed |
| Routing.DeliverWrites | src/world.cpp:190-205 | when a mailbox changes, the sender controls a live tank and that tank's mailbox got the code |
| Routing.AddFreeKeepsBinding | src/world.cpp:113-114 | appending a new tank to the free list keeps the table well formed |
| FirePass.FiredUpTo | src/world.cpp:248-305 | the board after the cells before (r, c): failed waits set UNDEFINED and a tank is marked when an earlier successful shooter's beam covers it |
| FirePass.Fired | src/world.cpp:248-305 | the whole fire pass without reference to the visiting order; FiredAll ties the loop to it |
| FirePass.FiredStart | src/world.cpp:248-249 | before the first cell nothing has fired |
| FirePass.FiredStep | src/world.cpp:250-303 | visiting a cell extends the fired prefix by that cell's wait and beam |
| FirePass.FiredNextRow | src/world.cpp:248-304 | the end of one row is the start of the next |
| FirePass.FiredAll | src/world.cpp:248-305 | after every cell, a tank is marked exactly when some tank with a successful wait fires through its cell, whatever the order |
| FirePass.BeamRanges | src/world.cpp:256-298 | the four beams are the cells strictly above, below, left and right of the shooter up to the edge |
| FirePass.ShooterNotInOwnBeam | src/world.cpp:256-298 | the shooter is never in its own beam |
| FirePass.BeamHitsWholeLine | src/world.cpp:256-298 | every tank in the line of a successful shot is marked, not only the nearest |
| FirePass.FailedWaitFiresNothing | src/world.cpp:252 | a live tank that no successful shooter aims at stays alive |
| FirePass.MutualFire | src/world.cpp:248-305 | two tanks firing at each other in one round both end destroyed: a marked tank still fires |
| MovePass.MoveCell | src/world.cpp:312-458 | one visit keeps every grid id in the arena and keeps the arena's size |
| MovePass.AfterCells | src/world.cpp:312-458 | the board after the rows before r and the first c cells of row r are visited, in row-major order; every grid id stays in the arena |
| MovePass.MovePhase | src/world.cpp:308-463 | the whole move pass is the visit of every row; its properties are the MovePassProofs lemmas |
| MovePass.AfterRows | src/world.cpp:308-463 | the rows visited so far keep every grid id in the arena |
| MovePassProofs.MovePhaseInvariant | src/world.cpp:308-463 | after the move pass the board is well formed, no destroyed tank is in the grid, no tank outside the grid was touched, flags were only set, every live tank is still on the board, and each survivor is at its start cell or one step in its move direction |
| MovePassProofs.MovePhaseFate | src/world.cpp:308-463 | a surviving tank ends exactly at its start cell, or one step away if it moved: no tank moves twice |
| MovePassProofs.OffBoardIffOutside | src/world.cpp:324-432 | the four edge tests hold exactly when the destination is off the board, with no wrap-around |
| MovePassProofs.MovePhaseOffBoard | src/world.cpp:324-432 | a move off the board ends with the mover destroyed and out of the grid |
| MovePassProofs.MovePhaseResets | src/world.cpp:371-447 | a tank that moved has action UNDEFINED afterwards, so a move down or right is not repeated in the cell it lands in (a move up keeps MOVE_UP) |
| MoveOutcomes.StaysStep | src/world.cpp:312-458 | visiting a cell whose tank does not drive into q0 leaves the tank of q0 alive in q0, unless q0 itself is visited and holds a mover |
| MoveOutcomes.StaysAfterCells | src/world.cpp:312-460 | the first c visits of row r leave a live non-mover in place and alive when none of the visited tanks drives into its cell |
| MoveOutcomes.StaysAfterRows | src/world.cpp:308-463 | the same over whole rows |
| MoveOutcomes.MovePhaseStays | src/world.cpp:308-463 | a live tank with no move (the shooter, a tank doing nothing) that no live mover drives into ends the move pass alive in its start cell |
| MoveOutcomes.DestroyedKept | src/world.cpp:308-463 | the pass only ever sets destroyed flags, so a tank marked at one point is still marked at every later point |
| MoveOutcomes.Ended | src/world.cpp:308-463 | a tank marked at some point of the pass ends it destroyed and out of the grid |
| MoveOutcomes.CrashMarksBoth | src/world.cpp:342-443 | the visit of a live mover whose destination is occupied marks both the mover and the occupant destroyed |
| MoveOutcomes.MovePhaseCrash | src/world.cpp:342-443 | a live mover whose destination is occupied when its cell is visited ends the pass destroyed and out of the grid, and so does the occupant |
| MoveOutcomes.SymmetricCollision | src/world.cpp:400-443 | two live neighbours in a row, moving right and left into each other, both end destroyed and out of the grid when no other live mover drives into either cell |
| MoveOutcomes.CollisionExample | src/world.cpp:400-443 | on a board of 4 columns and 3 rows, tanks at (2,2) moving right and (2,3) moving left are both destroyed and the board ends empty |
| Rounds.Notify | src/world.cpp:245 | the broadcast makes every live tank take its action from its mailbox and leaves destroyed tanks and the grid alone |
| Rounds.NotifiedAll | src/world.cpp:245 | notifying the tanks one by one gives the broadcast |
| Rounds.RoundKeepsBoard | src/world.cpp:243-466 | broadcast, fire pass and move pass together keep the board well formed and "on the board iff not destroyed" |
| Rounds.ResolveKeepsTank | src/world.cpp:248-463 | a live tank that no working shooter aims at, that has no move or a failed wait, and that no working live mover drives into, survives fire and move pass in its start cell; a failed wait leaves its action UNDEFINED |
| Rounds.GoneAfterResolve | src/world.cpp:308-318 | a tank hit in the fire pass is destroyed and out of the grid after the move pass |
| Rounds.BeamExample | src/world.cpp:256-318 | with the shooter at (1,1) firing up at the tank at (0,1) on a 3 by 3 board, the target ends destroyed and removed and the shooter survives in place |
| Rounds.NoResponseExample | src/tank.cpp:84-92 | a lone tank whose wait fails has action UNDEFINED and stays alive in its cell even though it had asked to move right |
| Worlds.World.constructor | src/world.cpp:26-44 | valid parameters give a world of that size with no tanks, empty tables and round counter 0 |
| Worlds.World.Create | src/world.cpp:39-41 | construction fails (the exception) exactly when a size or count is negative or the board has fewer cells than tanks; otherwise the new world is empty with round counter 0 |
| Worlds.World.ClearTanks | src/world.cpp:73-90 | every old tank ends destroyed; the arena, free list, address table and grid are emptied |
| Worlds.World.MarkBoardTanks | src/world.cpp:75-79 | every tank of the arena ends destroyed |
| Worlds.World.CreateTank | src/world.cpp:92-116 | the new tank goes into the chosen free cell with the next id, and is appended to the arena and to the free list; no occupant is displaced |
| Worlds.World.CreateTanks | src/world.cpp:118-123 | count new tanks of the team fill the chosen cells with consecutive ids, appended to the arena and the free list |
| Worlds.World.CreateNext | src/world.cpp:120-122 | one iteration of the creation loop extends the placement by one cell |
| Worlds.World.Init | src/world.cpp:46-61 | the old tanks are destroyed and the tables cleared, roundCount is 0, greenCount green tanks and then redCount red ones stand in the chosen cells, all free, and the first snapshot is written |
| Worlds.World.Populate | src/world.cpp:51-52 | on an empty world, the green tanks and then the red ones are created |
| Worlds.World.AddRed | src/world.cpp:52 | the red tanks follow the green ones in the arena and on the board |
| Worlds.World.Enter | src/world.cpp:111-114 | the tank enters the grid, the arena and the free list with the next id |
| Worlds.World.MarkDestroyed | src/tank.cpp:41-45 | only tank id's flag changes, to destroyed |
| Worlds.World.SetUndefined | src/tank.cpp:156-159 | only tank id's action changes, to UNDEFINED |
| Worlds.World.MarkColumn | src/world.cpp:256-279 | exactly the tanks in the column between the bounds are marked |
| Worlds.World.MarkRow | src/world.cpp:281-298 | exactly the tanks in the row between the bounds are marked |
| Worlds.World.Wait | src/world.cpp:252 | a failed wait sets the tank's action to UNDEFINED and returns -1; a successful one returns 0 |
| Worlds.World.FireBeam | src/world.cpp:254-301 | exactly the tanks in the beam of the action are marked; nothing else changes |
| Worlds.World.FireStep | src/world.cpp:250-303 | visiting one cell extends the fired prefix |
| Worlds.World.FireAll | src/world.cpp:248-305 | the fire pass ends in `Fired` of the start board: failed waits give UNDEFINED and every tank in a successful beam is marked |
| Worlds.World.RollOff | src/world.cpp:324-327 | the mover is marked destroyed and erased; nothing else changes |
| Worlds.World.Crash | src/world.cpp:342-347 | both tanks are marked destroyed and erased; nothing else changes |
| Worlds.World.Relocate | src/world.cpp:352-392 | the tank moves to the free destination, with its action reset when asked; no flag changes |
| Worlds.World.MoveStep | src/world.cpp:312-458 | one visit changes the board as `MoveCell` says |
| Worlds.World.MoveAll | src/world.cpp:308-463 | the move pass leaves `MovePhase` of the board it started with |
| Worlds.World.Act | src/tank.cpp:94-106 | one tank's doAction: its mailbox and action become `Take` of its old mailbox, and no other tank changes |
| Worlds.World.NotifyAllTanks | src/world.cpp:245 | the broadcast leaves new actions and mailboxes that are `Notify` of the old ones |
| Worlds.World.ResolveRound | src/world.cpp:248-463 | the fire pass and then the move pass, as the pure passes say; the mailboxes are unchanged |
| Worlds.World.PerformActions | src/world.cpp:243-466 | broadcast, fire pass and move pass as the pure specifications say, keeping the world invariant |
| Worlds.World.PerformRound | src/world.cpp:63-71 | roundCount grows by one modulo 2^32 (an unsigned int), the round is `Played` from the old state, and the new snapshot is written |
| Worlds.World.Play | src/world.cpp:67-68 | delivery and then performActions give the state `Played` describes |
| Worlds.World.SetNext | src/world.cpp:192 | only tank id's mailbox changes, by `Write` |
| Worlds.World.ClaimTank | src/world.cpp:178-183 | the assignment loop computes `Claim` of the free list against the destroyed flags |
| Worlds.World.ReceiveKnown | src/world.cpp:197-204 | a datagram from a bound address changes the mailboxes as `Deliver` says |
| Worlds.World.ReceiveNew | src/world.cpp:175-195 | a datagram from a new address changes the table, the free list and the mailboxes as `Deliver` says |
| Worlds.World.Assign | src/world.cpp:191-192 | the address is bound to the tank and the code written into its mailbox |
| Worlds.World.Bind | src/world.cpp:191 | only the address table changes, by binding the address |
| Worlds.World.ReceiveOne | src/world.cpp:172-205 | one datagram changes the routing state as `Deliver` says |
| Worlds.World.ReceiveMessages | src/world.cpp:166-212 | all datagrams change the routing state as `ReceiveAll` says, in order |
| Worlds.World.PrintGameBoard | src/world.cpp:214-241 | the text written is `Snapshot` of the grid and teams; the world is unchanged |

## Left out

- Threads and the barrier are left out: the tank threads, the condition
  variable, the semaphores and `waitForAllTanks` (src/tank.cpp:57-92,
  src/world.cpp:485-492). Each tank's `waitForTank` outcome is an input, the
  set `failed` of the tanks whose wait failed. The tank threads' `doAction`
  after the broadcast is modelled as a sequential step over the live tanks.
- The `notifyAllTanks` in clearTanks only lets the threads of destroyed
  tanks exit, so it is not modelled. `delete` of the old tanks is not
  modelled either: they drop out of the arena.
- Sockets are left out: `setListenSocket`, `recvfrom`/`sendto`,
  `Tank::setSocket` and the echo in `doAction`. The datagrams of one round
  are a list of (address, two characters) messages. The `errno` check
  after the receive loop (thrown exception) is left out.
- Randomness is left out: the random row and column draws of createTank
  are given as the cell they settle on. `Init` takes the cells of all tanks
  as distinct, in-bounds cells. With the row test as written the draws may
  never settle (see Findings), so termination of placement is not modelled.
- `usleep`, `syslog`, opening and flushing the named pipe, the logging
  helpers and all ncurses drawing are side effects and are not modelled.
  The snapshot is returned as a string, and the client returns what it
  would draw.
- The failure of a tank's construction (semaphore or thread creation) and
  the exceptions rethrown by init are left out.
- Worlds.World.constructor and Worlds.World.Create: the parameter test `areaY * areaX < redCount + greenCount`
  is on unbounded integers. In the source, `areaY * areaX` and
  `redCount + greenCount` are computed in int and can overflow for very
  large parameters. The exception is then thrown or skipped differently,
  so for such parameters Create's failure result can differ from the model's.
- MovePass.MoveCell: in the source, a tank that moves up from the first row
  key of the nested map (src/world.cpp:329-334) has its action reset to
  UNDEFINED, while other moves up keep MOVE_UP. Whether a row key exists
  depends on the empty rows the map keeps, which the flat grid does not
  represent, so the model always keeps MOVE_UP. The tank lands in a row
  already visited, so the difference only shows in that tank's action until
  the next broadcast.
- Worlds.World.PerformRound: the round-start syslog is not modelled.
- Client.Atoi: the overflow of atoi on more than 10 digits is not modelled;
  values are unbounded. Client.ReadSize returns Undefined where the source
  writes past its 16-byte buffer or calls atoi on a buffer with no NUL.
- SnapshotDecoding.DecodeSnapshot and SnapshotDecoding.HeaderReadBack
  require both board sizes to be at most INT_MAX, as the sizes are ints on
  both sides, so each size field has fewer than 16 digits.
- Placement.RowTestNeverHolds requires areaX below 2^31, as areaX is an int.
- The client's pipe creation and opening, `handleInput`, `signalWorld` and
  option parsing are left out, since they are file system and signal I/O.
  Its reads are a sequence of events: a byte, a failure, or end of file once
  the sequence is exhausted. A failure is used up by the read that reports
  it.
- src/world-boost.cpp, src/gameboard.cpp, src/tankclient.cpp,
  src/WorldClient.cpp and du01/main.c are not part of this model. src/tank.h
  and the grid declaration in src/world.h are stale; the model follows the
  .cpp files, including NO_ACTION.

## Findings

| source | as written | input that shows it | evidently intended | confidence | as-written member | corrected member |
|---|---|---|---|---|---|---|
| src/world.cpp:106 | `row.size() - areaX - 1 == 0` is computed in unsigned 64-bit arithmetic and is false for every row of the board, full or not. A full row is never redrawn, and the column loop at line 111 then never finds a free column | a 1-by-2 board with two tanks: the first tank is in row 0 and the second tank's row draw names row 0 again | redraw the row while it is full (`row.size() == areaX`) | not executed | Placement.StuckPlacement | Placement.IntendedRowHasRoom |

The retry at src/world.cpp:107 copy-assigns another row's map into the
row that the reference names, rather than rebinding the reference. Since
the test at line 106 never holds, that line is dead as written. The model
only places tanks through cells that pass the intended test, which is
`Placement.RowFull`; `Placement.IntendedRowHasRoom` shows such a row has a
free column.
