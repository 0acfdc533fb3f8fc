# Gamma: a verified model of the game engine

Gamma is a board game for several players on a `width` × `height` grid.
A player claims an empty field with an ordinary move. A set of a player's
fields joined through left, right, up and down neighbours is an *area*, and
no player may own more than `max_areas` areas. Once per game, a player may
make a *golden move*: they take a field from another player, as long as
neither player ends up with too many areas.

The engine tracks areas with a union-find over board coordinates. Every
field stores a parent field and a `size`. `Root` finds a root and compresses
the path to it. `Union` hangs the root of smaller size under the other. The
flood fills `RemoveUnionOnAdjacent` and `UnionAllAdjacent` break an area
into singletons and join its pieces again, and `RemoveVisited` clears the
`visited` marks the floods leave behind.

This project has the engine's state as a Dafny class:
- `GammaState.Game`: the board as an `array2<Cell>` and the players'
  counters as an `array<Player>`.
- `cells`: a ghost copy of the board as a value that the specifications
  talk about.

Every operation of the three core files below is a method or function over
that state:
- `src/union_find_gamma.c`;
- `src/gamma.c`, except memory management;
- `src/utilities.c`, except `getline2`.

Each method is proved against a specification stated with these notions:
- `Forest.Find`: the root of a field's tree.
- `Walks.Reach`: the fields a flood reaches.
- `Areas.Comps`: the areas of a set of fields.
- `BoardText.Text`: the board's text.

The central invariant is `GammaState.Arranged`, and every public operation
keeps it. It says:
- the union-find classes are exactly the areas;
- no `visited` mark is left;
- every owner is a player;
- each player's `number_of_areas` is the number of their areas, and at most
  `max_areas`.

`Counted` adds the field counters:
- each player's `busy_fields` is the number of fields they own;
- `free_fields_under_max_areas` is the number of empty fields.

The modules follow the program:

| file | contents |
|---|---|
| `grid.dfy`, `walks.dfy`, `areas.dfy` | the board value, walks between neighbours, areas |
| `forest.dfy` | the union-find forest: `Find`, path compression, `Link` |
| `floods.dfy`, `claims.dfy`, `golden.dfy` | what the floods, the ordinary move and the golden move do to the board |
| `union_find_gamma.dfy` | `src/union_find_gamma.c` |
| `gamma_state.dfy` | the `Game` class, its invariants, and the allocation of `gamma_new` |
| `gamma.dfy` | `gamma_new`, `gamma_move`, the counters, `RemoveVisited` |
| `gamma_golden.dfy` | the golden move and its simulation |
| `board_text.dfy` | `gamma_board` |
| `utilities.dfy` | `src/utilities.c` |
| `up_guard.dfy` | the as-written flood of the finding below |

`gamma_board` puts `|` around a player number only when the number has
more than nine digits (`src/gamma.c:245`, `src/gamma.c:252`). A number of
two to nine digits is written with no separator, so with ten or more
players the text of adjacent fields can run together.

## Model

| member | source | states |
|---|---|---|
| UnionFind.Root | src/union_find_gamma.c:11-26 | returns the root of p's tree; every field on the path from p to that root now points straight at it, and every other parent link is unchanged; owners, sizes, marks and every field's root are unchanged; the forest shape (sizes grow along parent links) is kept, which is what makes the recursion end |
| UnionFind.CompressedStep | src/union_find_gamma.c:13-21 | one level of the unwinding: re-pointing p at the root its parent's call returned extends the compression from the parent's path to p's path |
| Forest.CompressOne | src/union_find_gamma.c:18-19 | re-pointing a non-root field at its root keeps a forest, keeps every field's root, and changes nothing but that link |
| Forest.FindSize | src/union_find_gamma.c:11-26 | a non-root field's root has a larger size than the field (the termination measure of Root) |
| UnionFind.Hook | src/union_find_gamma.c:32-42 | the board becomes Link of the two roots: the one of smaller size goes under the other, on a tie the second under the first |
| Forest.LinkFields | src/union_find_gamma.c:32-42 | after Link, only the two roots' parent links and the first root's size differ: parent r2 for r1 when r1 is smaller, parent r1 for r2 otherwise, size + 1 for r1 on a tie (also when r1 == r2) |
| Forest.LinkMerges | src/union_find_gamma.c:28-44 | linking two roots keeps a forest, writes only links and sizes, and joins exactly their two classes under Winner; every other class keeps its root |
| UnionFind.Union | src/union_find_gamma.c:28-44 | a and c have the same root afterwards, namely Winner of their old roots; precisely their two classes are merged and every other class keeps its root; owners and marks are unchanged |
| UnionFind.UnionAdjacent | src/union_find_gamma.c:46-78 | off the board, nothing changes; otherwise the classes of p and of its neighbours on the board owned by pl are merged into one, and no other class changes |
| UnionFind.UnionIfOwned | src/union_find_gamma.c:54-57 | one guarded Union of UnionAdjacent: the merged set grows by the neighbour exactly when pl owns it |
| UnionFind.JoinedAroundSteps | src/union_find_gamma.c:54-76 | the four guarded neighbour steps together gather exactly the roots of p's same-owner neighbours, plus p's own |
| UnionFind.RemoveUnionOnAdjacent | src/union_find_gamma.c:80-121 | every unvisited field of pl that a flood from p reaches through such fields becomes a singleton (its own parent, size 1) and visited; no other field changes; an off-board, visited or foreign p changes nothing |
| UnionFind.RemoveIfOwned | src/union_find_gamma.c:97-119 | one guarded recursive call: the flood so far grows by everything it reaches from the neighbour, including the neighbour when it is an unvisited field of pl |
| UnionFind.UnionAllAdjacent | src/union_find_gamma.c:123-149 | every unvisited field of pl that a flood from p reaches is marked visited and joins the class of the seed (xp, yp), with the classes already joined to the seed; nothing else changes; off the board, nothing changes. Guards the step up by the height, see Findings |
| UnionFind.UnionAllAround | src/union_find_gamma.c:136-147 | the four recursive calls from a just-marked field together finish the flood from it |
| UnionFind.UnionAllInRow | src/union_find_gamma.c:136-141 | the left and right recursive calls cover both horizontal neighbours |
| UnionFind.UnionAllInColumn | src/union_find_gamma.c:142-147 | the down and up recursive calls cover both vertical neighbours |
| UnionFind.UnionAllToward | src/union_find_gamma.c:137 | one recursive call of the flood: the flood so far grows by the neighbour's part of the area |
| UnionFind.FloodExtends | src/union_find_gamma.c:136-147 | composing the effect of one recursive call with the flood so far gives the flood so far, extended by what the call reached |
| UnionFind.NumOfUniqueAreas | src/union_find_gamma.c:151-223 | returns the number of distinct roots among p's neighbours on the board owned by pl; the result is in 0..4 and is 0 exactly when there is no such neighbour; roots and owners are unchanged (only path compression) |
| UnionFind.RootsAround | src/union_find_gamma.c:151-223 | a field has at most four neighbouring roots, and none exactly when no neighbour belongs to pl |
| UnionFind.RecordSlots | src/union_find_gamma.c:162-204 | after the four guarded lookups, row k of the 4×2 array holds the root of neighbour k when it is on the board and owned by pl, and -1 otherwise |
| UnionFind.RecordRoot | src/union_find_gamma.c:164-169 | one lookup: its row holds the neighbour's root coordinates when pl owns it; other rows unchanged |
| UnionFind.RecordSlot | src/union_find_gamma.c:162-203 | one guarded lookup, with the board-edge test, fills row k as RecordSlots states |
| UnionFind.SlotsAreRoots | src/union_find_gamma.c:162-204 | the roots the four rows hold are exactly the roots of p's neighbours owned by pl |
| UnionFind.CountDistinct | src/union_find_gamma.c:206-222 | the counting loop returns the number of distinct roots in the four rows, counting each one at its first row |
| UnionFind.SlotSetStep | src/union_find_gamma.c:210-218 | a row adds a new root exactly when no earlier row holds the same one (the inner loop's break) |
| Claims.MoveCount | src/gamma.c:154-175 | claiming an empty field gives pl (areas + 1 - k) areas, where k is the number of distinct areas of pl around it, and k is at most the current number of areas |
| Claims.RootsCountAreas | src/gamma.c:154-175 | the distinct roots around a field are as many as the areas of pl touching it |
| Claims.JoinedRegion | src/gamma.c:169-171 | after the claim, a field is in the class of the claimed field exactly when it is in pl's area that contains it |
| Claims.ClaimPartition | src/gamma.c:169-171 | after UnionAdjacent on the claimed field, classes and areas still coincide |
| Claims.ClaimArranged | src/gamma.c:158-181 | a legal claim with the counters AfterClaim keeps Arranged, and keeps Counted with one field fewer free |
| Claims.ClaimBusy | src/gamma.c:161 | the claiming player owns one more field and every other player the same number |
| Areas.AddCell | src/gamma.c:154-175 | adding a field c to a set of fields gives |areas| - (areas touching c) + 1 areas, and the areas touching c are areas of the set |
| Areas.RemoveCell | src/gamma.c:429-443 | removing a field c gives |areas| - 1 + (areas of the rest touching c) areas |
| Grid.CountsCoverBoard | src/gamma.c:277-309 | the numbers of fields owned by 0..n add up to width·height, so busy fields of all players plus free fields fill the board |
| Claims.AfterClaim | src/gamma.c:159-177 | the counters after a claim: pl's areas set, pl's busy fields + 1, everyone else unchanged |
| Gamma.Move | src/gamma.c:142-182 | succeeds exactly when p is on the board and empty, pl is a player (1..n), and pl keeps at most max_areas areas; on success p becomes pl's and no other owner changes, pl's counters become AfterClaim (busy + 1, areas + 1 - k) and free - 1; on failure only parent links may change (path compression) and the counters are unchanged; keeps Sound, and Valid when it held |
| Gamma.MoveAlone | src/gamma.c:154-164 | the no-neighbour branch: fails, changing no owner and no counter, exactly when areas + 1 exceeds max_areas; otherwise claims p with areas + 1, busy + 1 and free - 1 |
| Gamma.ClaimAlone | src/gamma.c:158 | writing the owner of a field without same-owner neighbours claims it and keeps classes equal to areas |
| Gamma.MoveJoin | src/gamma.c:165-181 | the merge branch: claims p, joins it with its k neighbouring areas, and sets areas - (k - 1), busy + 1, free - 1 |
| Gamma.JoinAround | src/gamma.c:167-173 | counts the k distinct neighbouring areas, then claims p and unions it with its neighbours, keeping classes equal to areas |
| Gamma.ClaimCounters | src/gamma.c:159-178 | writes pl's counters and decrements free, keeping Sound, and Counted when it held |
| Gamma.CountClaim | src/gamma.c:175-178 | stores pl's new counters and free - 1 |
| Gamma.NumberOfAdjacent | src/gamma.c:109-140 | returns the number of p's neighbours on the board owned by pl |
| Gamma.OwnedAt | src/gamma.c:115-137 | one guarded test adds 1 exactly when the neighbour belongs to pl |
| Gamma.AroundCount | src/gamma.c:109-140 | the neighbours owned by pl are counted by the four guarded tests, one each |
| Gamma.BusyFields | src/gamma.c:277-285 | returns pl's busy_fields for 1 ≤ pl ≤ n and 0 otherwise; with Valid, that is the number of fields pl owns |
| Gamma.FreeFields | src/gamma.c:287-309 | 0 for an invalid pl; the cached free count when pl is below max_areas; otherwise the number of empty fields next to a field of pl; with Valid, always the number of fields pl may legally claim |
| Gamma.ScanFrontier | src/gamma.c:298-305 | the double loop counts the empty fields with at least one neighbour owned by pl |
| Gamma.FrontierStep | src/gamma.c:300-303 | one iteration of the inner loop adds 1 exactly for an empty field with a neighbour of pl |
| Gamma.MovesAre | src/gamma.c:292-306 | below max_areas every empty field is a legal move for pl; at max_areas exactly the empty fields next to a field of pl are |
| Gamma.RemoveVisited | src/gamma.c:324-360 | when p is on the board and marked, clears the visited mark of p and of every marked field of pl reachable from p through marked fields of pl; off the board or unmarked, nothing changes; nothing but those marks changes |
| Gamma.ClearIfOwned | src/gamma.c:338-359 | one guarded recursive call: the cleared set grows by the neighbour's part, including the neighbour when it is a visited field of pl |
| Gamma.ClearingShrinks | src/gamma.c:324-360 | every recursive call sees fewer visited fields (the termination measure) |
| Gamma.GameNew | src/gamma.c:17-82 | returns null exactly when a dimension, the number of players or the limit is 0; otherwise every field is empty, its own parent, size 1 and unvisited, every player has 0 areas, 0 busy fields and the golden move, and free is width·height taken modulo 2^32; the state is Sound, and Valid when width·height fits 32 bits |
| GammaState.Game.constructor | src/gamma.c:24-79 | the allocation and the initialisation loops: the board is InitialBoard and the players all Player(0, 0, true) |
| GammaState.InitialArranged | src/gamma.c:51-76 | the initial board and counters satisfy Arranged and Counted with width·height free fields |
| GammaState.SetCell | src/gamma.c:373-376 | writing one field of the array writes the same field of the board value and nothing else |
| GammaState.Dec64 | src/gamma.c:162 | free_fields_under_max_areas-- on a 64-bit unsigned counter: one less when positive |
| GammaState.Inc64 | src/gamma.c:461 | free_fields_under_max_areas++ on a 64-bit unsigned counter: one more when below the top |
| GammaState.IncDec64 | src/gamma.c:162 | incrementing after a decrement gives back the counter, so a golden move leaves free unchanged |
| GammaGolden.ResetBoardElement | src/gamma.c:372-377 | the field becomes empty, its own parent and of size 1; its visited mark and every other field are unchanged |
| GammaGolden.SplitArea | src/gamma.c:428-434 | returns the owner of p; afterwards p is empty, no other owner changes, no mark is left, and the classes are still exactly the areas of the board without p |
| Golden.BrokenUp | src/gamma.c:429-434 | after the three steps, exactly the area of p consists of singletons, p is empty, and no field is marked |
| GammaGolden.UnionNewAreas | src/gamma.c:391-403 | after the four floods from p's neighbours, classes are again exactly the areas, no field is marked, and no owner changes |
| GammaGolden.FloodPieceAt | src/gamma.c:392-393 | one flood and clear from a neighbour joins that neighbour's piece of the old area into one class and takes it off the pieces still to be joined; no owner changes |
| Golden.PieceJoin | src/gamma.c:392-393 | the pieces that flood merges are exactly those connected to the neighbour without p |
| GammaGolden.SplitCount | src/gamma.c:428-443 | returns the old owner and the number of areas it has once p is taken away (AreasLeft), from the distinct roots around p |
| GammaGolden.LeftCount | src/gamma.c:439-443 | distinct roots around p - 1 + the owner's current areas is the owner's number of areas without p |
| GammaGolden.JoinCheck | src/gamma.c:420-423 | "no neighbour of pl and pl at max_areas" holds exactly when claiming p would take pl over max_areas |
| GammaGolden.Restore | src/gamma.c:449-450 | writing the old owner back and UnionAdjacent restores every owner and keeps classes equal to areas |
| GammaGolden.Commit | src/gamma.c:454-462 | sets the owner's areas to AreasLeft, claims p for pl, uses pl's golden move and moves one busy field from the owner to pl, leaving free unchanged |
| GammaGolden.TakeField | src/gamma.c:454-457 | the owner's areas become AreasLeft, then p is claimed for pl by an ordinary move: pl's counters AfterClaim and free - 1 |
| GammaGolden.CountSplit | src/gamma.c:454 | stores the owner's new number of areas, keeping Sound |
| GammaGolden.UseGolden | src/gamma.c:458-461 | pl loses the golden move, the owner's busy fields go down by one (64-bit) and free goes up by one |
| GammaGolden.AfterGolden | src/gamma.c:454-461 | the counters after a golden move: pl has the new areas, busy + 1 and no golden move; the owner has AreasLeft and busy - 1; everyone else unchanged |
| GammaGolden.GoldenPlayers | src/gamma.c:454-461 | the four writes of the golden move compose to AfterGolden |
| GammaGolden.GoldenCounted | src/gamma.c:454-461 | a golden move keeps Counted: the busy fields move from the owner to pl and free is unchanged |
| GammaGolden.GoldenMove | src/gamma.c:405-466 | succeeds exactly when p is on the board and owned by another player, pl is a player with the golden move left, and after the move both pl and the owner are within max_areas; on success p is pl's and the counters are AfterGolden; on failure owners and counters are as before (the roll-back); free is unchanged; Sound is kept, and Valid when it held |
| GammaGolden.Steal | src/gamma.c:425-465 | past the early checks: succeeds exactly when pl and the owner stay within max_areas; when it does not, the owner's field and areas are restored; the ordinary move inside cannot fail |
| GammaGolden.TestForGolden | src/gamma.c:481-519 | returns whether both pl and the owner would stay within max_areas; owners are restored and counters untouched, the state stays Sound, and Valid when it held |
| GammaGolden.LegalTargets | src/gamma.c:524-537 | with the golden move unused, some field is a legal golden move exactly when some field owned by another player passes the test |
| GammaGolden.GoldenPossible | src/gamma.c:521-540 | returns whether pl has a legal golden move anywhere: false for an invalid pl or a used golden move; owners are restored and no counter changes |
| GammaGolden.ScanBoard | src/gamma.c:528-536 | the column loop returns true exactly when some field passes the test |
| GammaGolden.ScanColumn | src/gamma.c:529-535 | the row loop inside one column: false means no field of the column passes |
| GammaGolden.Probe | src/gamma.c:530-533 | one field: true exactly when it is owned by another player and passes the test |
| BoardText.GammaBoard | src/gamma.c:203-275 | returns a fresh buffer of the size gamma_board allocates, holding Text (rows from the top, fields from the left, then a line end each) followed by a NUL; the game is not modified |
| BoardText.WriteRows | src/gamma.c:223-266 | the outer loop over rows from height - 1 down to 0 writes exactly the text of all rows |
| BoardText.WriteRow | src/gamma.c:224-265 | one row: the fields from left to right, then a line end, appended after what was written before |
| BoardText.WriteField | src/gamma.c:226-256 | one field: FieldText of its owner appended at iter |
| BoardText.WriteDot | src/gamma.c:226-235 | an empty field appends '.' |
| BoardText.WriteNarrow | src/gamma.c:249-250 | appends the owner's decimal digits, most significant first |
| BoardText.WriteWide | src/gamma.c:245-255 | appends '\|', the owner's decimal digits and '\|' |
| BoardText.FieldIs | src/gamma.c:236-256 | a positive owner's text is its decimal digits, between two '\|' exactly when it has more than nine digits |
| BoardText.WideDigits | src/gamma.c:245 | more than nine digits is the same as at least 10^9 |
| BoardText.FieldBars | src/gamma.c:245-255 | a field's text contains '\|' exactly when its owner has more than nine digits |
| BoardText.TextFits | src/gamma.c:209-215 | with owners at most n, the text and its NUL fit the buffer of (w+1)·h·(2+digits(n))+2, or (w+1)·h+2 characters when n has one digit |
| BoardText.TextEnds | src/gamma.c:264 | the text has exactly one line end per row |
| BoardText.TextBars | src/gamma.c:245-255 | the text contains '\|' exactly when some field's owner has more than nine digits |
| BoardText.TextAt | src/gamma.c:223-266 | with one-digit owners the text has h lines of w + 1 characters; line h-1-y, column x, is '.' for an empty field (x, y), its owner's digit otherwise, and the line end at column w |
| BoardText.LinesAt | src/gamma.c:223-266 | the same layout for any rows of one-digit owners |
| BoardText.RowOwners | src/gamma.c:224-226 | the owners of row y, from the left |
| BoardText.TopDown | src/gamma.c:223 | the rows of owners from the top (row height - 1) down |
| Utilities.Min | src/utilities.c:13-19 | at most a and b, and equal to one of them |
| Utilities.StrCopy | src/utilities.c:21-40 | null for null; otherwise a fresh buffer with the characters up to the first NUL and a NUL after them |
| Utilities.StrLen | src/utilities.c:25 | the index of the first NUL |
| Utilities.IsWhiteChar | src/utilities.c:47-49 | true only for characters below the digits and the letters, and never for the line feed |
| Utilities.IsNumber | src/utilities.c:83-89 | true exactly for the codes c whose value c - '0' is a digit 0..9 that DigitChar writes back as c |
| Utilities.IsAcceptable | src/utilities.c:97-103 | true for every upper- and lower-case letter, and never for a digit |
| Utilities.DecimalIsNumbers | src/utilities.c:51-66 | every character of a number's decimal text is one isNumber accepts |
| Utilities.CharClasses | src/utilities.c:47-103 | isWhiteChar holds exactly for ' ', '\t', '\v', '\f', '\r' (not '\n'); isNumber exactly for '0'..'9'; isAcceptable exactly for 'A'..'z', punctuation between 'Z' and 'a' included; no character is in two classes |
| Utilities.NumberOfDigits | src/utilities.c:68-76 | the division loop returns Digits(x), at most 10 for a 32-bit value |
| Utilities.DigitsBounds | src/utilities.c:68-76 | x < 10^Digits(x), and a positive x has d ≥ 1 digits with 10^(d-1) ≤ x |
| Utilities.IntToString | src/utilities.c:51-66 | writes exactly board[iter..iter+num) with the decimal digits of x, most significant first; every other position is unchanged |
| Utilities.ReversedDigits | src/utilities.c:52-60 | the scratch buffer holds the num digits least significant first, then a NUL |
| Utilities.Decimal | src/utilities.c:51-66 | the decimal text of x has Digits(x) characters, all digits |
| Utilities.DecimalRoundTrip | src/utilities.c:51-66 | reading the decimal text back in base 10 gives x |
| Utilities.DecimalInjective | src/utilities.c:51-66 | different numbers have different texts |
| UpGuard.TallBoardMissesTop | src/union_find_gamma.c:145-147 | on a 2-wide, 5-high board, fields (0, 1) and (0, 3) are in the same area, but the flood as written cannot get from one to the other |
| UpGuard.AsWrittenStaysLow | src/union_find_gamma.c:145 | the flood as written, started at a row ≤ width, never goes above row width |
| UpGuard.RingIsOneArea | src/gamma.c:439-443 | on a 3-wide, 6-high board, the seven fields of a ring over rows 3 to 5 that is open at (1, 3) form one area, so the corrected count after taking (1, 3) is 1 |
| UpGuard.RingMissesOtherSide | src/union_find_gamma.c:145-147 | in that ring, (0, 3) and (2, 3) are linked, but the flood as written from (0, 3) never reaches (2, 3), so the count as written is 2 |
| UpGuard.AsWrittenStaysIn | src/union_find_gamma.c:136-147 | the flood as written never leaves a set of fields closed under its steps |
| UpGuard.AsWrittenIsWalk | src/union_find_gamma.c:136-147 | every step of the flood as written is a step of the corrected flood |

## Left out

- Input and output: `getline2` (`src/utilities.c:105-201`), the batch and
  interactive shells, and `main` are not part of this model.
- Memory: `malloc` failures, `realloc`, `free` and `gamma_delete` are left
  out, as is the NULL game handle every public function first tests. A
  game is a `Game` object that exists.
- `BoardRealloc` and the `board_size` / `board_size_in_memory` bookkeeping
  in `gamma_board` are left out. `BoardRealloc` compares the two addresses
  rather than the sizes they point to. The model keeps the initial
  allocation and proves that the text fits it (`TextFits`).
- BoardText.GammaBoard: requires every owner to be at most the number of
  players, as the invariant guarantees, and the number of players to be
  below 2^31. `IntToString` takes the owner as a C `int`
  (`src/utilities.c:51`), so an owner of 2^31 or more arrives negative, no
  digit is produced, and `gamma_board` copies uninitialised bytes into the
  text. The model does not describe those bytes.
- BoardText.GammaBoard: requires the text to be at most 2^31 characters
  long, because the write position `iter` that `IntToString` receives is a
  C `int` as well.
- BoardText.WriteField: requires the owner to be below 2^31, for the same
  reason.
- BoardText.WriteWide: requires the owner to be below 2^31; ten-digit
  owners from 10^9 to 2^31 - 1 are modelled, larger ones are not.
- BoardText.GammaBoard: does not model the `int i = g->height - 1`
  conversion. For a height above 2^31 it would be negative.
- GammaGolden.GoldenMove: requires `pl ≤ number_of_players`, because the
  source reads `players[pl - 1]` before any such check
  (`src/gamma.c:410-417`). Under that condition the `else` branch of the
  inner `gamma_move` (`src/gamma.c:463-464`) cannot be taken. `Steal`
  proves this: it never fails after the counters are written.
- GammaGolden.UnionNewAreas: floods with the corrected step up, guarded by
  the height rather than the width (see Findings). On a board taller than
  wide the source's floods can stop early, which this member does not
  model.
- GammaGolden.GoldenMove: runs on the corrected flood. On a board taller
  than wide the source can count too many of the owner's areas, roll back
  and return false where this member succeeds (see Findings).
- GammaGolden.Steal: runs on the corrected flood, with the same difference
  as GoldenMove on boards taller than wide.
- GammaGolden.TestForGolden: runs on the corrected flood, so on a board
  taller than wide it can answer true where the source answers false.
- GammaGolden.GoldenPossible: answers through TestForGolden on the
  corrected flood, with the same difference.
- GammaGolden.TestForGolden: requires what `gamma_golden_possible` ensures
  before calling it: a valid player and a field owned by someone else.
- Gamma.GameNew: the initial `free_fields_under_max_areas` is the 32-bit
  product `width * height` (`src/gamma.c:32`), taken modulo 2^32 as in the
  source. The model promises `Valid` only when the product fits 32 bits,
  since otherwise the free count is wrong from the start.
- Counters are unbounded naturals. The model writes out the 64-bit
  wrap-around of `busy_fields--` (`BusyDown`) and of
  `free_fields_under_max_areas` (`Inc64`, `Dec64`).
- The `int` result of `NumberOfAdjacent` and `NumOfUniqueAreas`, and the
  `long` array of the latter, cannot overflow: the values are at most 4 or
  32-bit coordinates.
- Recursion depth of the C floods, a stack concern, is not modelled.
- Utilities.IntToString: requires a positive `x` and `num == NumberOfDigits(x)`,
  as the function's documentation demands (`src/utilities.h:28-30`).
- Utilities.StrCopy: `exit(1)` on a failed allocation is left out. The
  `uint32_t` length is not truncated, so strings of 2^32 characters or more
  are not modelled.

## Findings

| source | as written | input that shows it | evidently intended | confidence | as-written member | corrected member |
|---|---|---|---|---|---|---|
| src/union_find_gamma.c:145 | the recursive step from (x, y) to (x, y + 1) in `UnionAllAdjacent` is guarded by `y < g->width` | width 2, height 5, column 0 owned by one player. A golden move takes (0, 0), and the flood of `UnionNewAreas` starts at (0, 1). As written it stops at row 2, so (0, 3) and (0, 4) stay singleton classes although they are in the same area. The next count of areas around them is then too high. The golden move itself can also answer wrongly: on a 3-wide, 6-high board with `max_areas` 1, player 1 owns the ring (0, 3), (0, 4), (0, 5), (1, 5), (2, 5), (2, 4), (2, 3) and (1, 3), and player 2 owns (1, 2). `gamma_golden_move(g, 2, 1, 3)` leaves player 1 one area, but the floods from (0, 3) and (2, 3) cannot step up from row 3, so `NumOfUniqueAreas` counts 2, the move is rolled back and returns false. | guard with `y < g->height` (the callee's own test at line 126 makes either guard safe, but only the height guard reaches the whole area) | not executed | UpGuard.TallBoardMissesTop, UpGuard.RingMissesOtherSide | UnionFind.UnionAllAdjacent, GammaGolden.GoldenMove, UpGuard.RingIsOneArea |
