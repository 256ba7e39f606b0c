# A verified model of the game server's stateful components

The repository is a MUD server with a few scripts around it. This project models the parts of it that keep state
under rules, and proves what those rules amount to over every input and every run:

* **Auction house** (`Auction.dfy`, `AuctionRuns.dfy`, `AuctionHouse.dfy`, `BetParser.dfy`). Opening a lot, bidding,
  the countdown, the settlement, the immortals' stop and purge. Parties come and go: who is on the descriptor list,
  and who waits linkdead, is an input of every step. Gold is conserved up to a ledger of unpaid sums, objects are
  conserved, the clock runs exactly 18 updates, the last bidder gets the lot.
* **Line of sight** (`Rooms.dfy`, `Walk.dfy`). The step relation of `clearpath` and the walks over it. Because a
  step needs an exit back, a walk can only repeat a room by returning to its start; that bounds every walk.
* **Doors** (`Doors.dfy`, `Passages.dfy`, `DoorSight.dfy`). Two faces changed one after the other, and kept in
  agreement; which command changes which bit, over runs; and what that does to the lines of sight.
* **Bulletin boards** (`Board.dfy`, `BoardRuns.dfy`, `BoardPosts.dfy`, `BoardArray.dfy`, `BoardCommands.dfy`). A shifting
  message array, a lock per board, and an editor pointer into the array; over every run, a list of posts whose texts
  are what was typed.
* **Group movement** (`MoveGroup.dfy`). Merging equal followers in a table of 50 entries, against a grouped list.
* **Timed character lists** (`CharList.dfy`). A linked heap list that unlinks nodes while it is walked.
* **Hands, money, drink** (`Hands.dfy`, `Wardrobe.dfy`, `Money.dfy`, `Liquids.dfy`, `Cellar.dfy`).
* **Achievements** (`Achievements.dfy`, `AchievementCommands.dfy`, `AchievementListing.dfy`, `AchievementLoops.dfy`).
  A lookup by number against a separately written listing.
* **Text encoders** (`Csv.dfy`, `Flags.dfy`, `MobStats.dfy`, with `Text.dfy`, `Decimal.dfy` and `Floats.dfy`). Bit fields and
  quoted rows, written and read back; the reader of rows follows section 2 of RFC 4180 with ';' as separator.

Each component has a step function on values, over which the run theorems are stated. Where the program updates
fields, arrays or linked nodes in place, a class or a method over arrays does the same and its contract ties the new
state to that step function. `dafny verify dfyconfig.toml` checks the whole project.

## Where the code falls short of what one would expect

Each of these is kept as the code has it, with the exact condition and an input.

* `do_drink` computes the amount from a thirst that "set" and APPLY_MOD_THIRST may put above 25; the amount is then
  negative, and a full container may end up with more than it holds. Fills stay within the capacity all along a run
  exactly when no drink on it does that: `Liquids.RunStaysSoundIff`, `Liquids.DrinkingOverfills`.
* A character extracted while writing, by death or by a "quit" that an immortal forces on it, goes to the menu with the
  editor still open; one whose descriptor goes to another body while writing (switch, return, polymorph) takes the
  editor there. The board lock then no longer holds. The editors stay in order all along a run exactly when neither
  happens: `BoardRuns.RunKeepsEditorsIff`, with runs from empty boards in `BoardRuns.TwoEditorsOnOneBoard` and
  `BoardRuns.SwitchOpensTwoEditors`.
* A "Topic" frees the text of slot 0 twice, exactly when there is one. Every free() on a run gets a text that is
  allocated exactly when that never happens: `BoardRuns.RunFreesAllocatedIff`, `BoardRuns.TopicFreesTwice`. After such a
  write nothing is promised; the theorems about texts and posts are about runs without one.
* A write to a board appends exactly when the board has been started and the title is not "Topic":
  `BoardRuns.WriteAppends`.
* `exit_ok` turns away room 0 although that room can exist. A door that leads there, opened or closed from the other
  side, changes one face only: `Doors.AgreementNeedsExitOk`, `Doors.DoorToRoomZeroComesApart`. The agreement theorems
  are about doors between rooms numbered above 0.
* `get_char_linear` walks without a bound. It never ends exactly when the line returns to its start and nobody on it
  matches: `Walk.SearchEndsIff`, `Walk.SelfLoopSearchNeverEnds`.
* The lookup behind "achievements spam" finds another row than the one listed exactly when a disabled entry carries
  progress: `Achievements.SpamLookupInvertsIff`. The command also refuses numbers above `maxAchievements`, which counts
  other rows than the listing; the exact condition for the whole command is `AchievementCommands.SpamInvertsIff`, for
  "delete" and "set" `AchievementCommands.QuestmasterCommandInvertsIff`, and an input without any disabled entry is
  `AchievementCommands.SpamRefusesPrintedNumber`.
* A refund to an absent buyer, or a price due to an absent seller, is lost: `AuctionRuns.Unpaid` is the entry of that
  ledger, and `AuctionRuns.PresenceLosesNothing` says that nothing else is.
* A character of level 54 (DIO) or more gives coins it does not pay: `Money.StepMovesWealth`.
* `flags_to_str` never ends on a negative bit field, so `sanitize_susc` and `apply_charm_immunity` do not either:
  `Flags.SanitizeMeans`, `Flags.CharmImmunityMeans`.
* `int(gold * 1.4)` is one less than 1.4 times the gold for some values: `Floats.Times14Bounds`, `Floats.FortyFive`.
* `build_stats` caps a boss's level at three over its profile, but raises it by two only: the cap never takes effect
  (`MobStats.FiguresWithinProfile`).
* A row without cells is written like a row with one empty cell (`Csv.TableDecodesIff`), and the title of a section is
  the one line written without quoting (`Csv.SectionDecodesIff`).

## Model

| member | source | states |
|---|---|---|
| Auction.FindOnlineIsFirst | src/auction.cpp:93-110 | the search of the descriptor list finds the first one online of that name, and nobody when there is none |
| Auction.LocateIdempotent | src/auction.cpp:71-116 | asking is_present twice at a step gives the answer of asking once, so its repeated calls do not matter |
| Auction.ReserveMeans | src/auction.cpp:284-350 | a starting price is accepted exactly if there is none or it is a whole number from 0 to the largest int, with or without a sign, and its value is that number |
| Auction.OpensIff | src/auction.cpp:284-350 | a lot is accepted exactly on an empty desk, out of the own inventory, of the five kinds, at no price or a whole number that fits, and before a reboot from immortals only |
| Auction.FoldIgnoresCase | src/auction.cpp:183-241 | comparing words loses the case of letters and nothing else |
| AuctionDesk.AuctionHouse.IsPresent | src/auction.cpp:71-116 | one role's pointer is kept or replaced by the first online character of that name, the other pointer is left alone, and the answer is whether it ends up non-null |
| AuctionDesk.AuctionHouse.Bid | src/auction.cpp:226-282 | a bid is taken exactly under the source's tests, with refund, escrow, new buyer, restarted clock; otherwise nothing changes |
| AuctionDesk.AuctionHouse.StopAuction | src/auction.cpp:183-224 | the lot goes to the immortal or is destroyed, a present buyer gets the escrow back, the record is cleared |
| AuctionDesk.AuctionHouse.Offer | src/auction.cpp:284-350 | a new lot is accepted exactly under the source's tests and leaves the seller's inventory |
| AuctionDesk.AuctionHouse.DoAuctionInt | src/auction.cpp:133-355 | the whole command, field by field, is the step function DoAuction |
| AuctionDesk.AuctionHouse.CloseLot | src/auction.cpp:395-480 | the settlement in place is the function Settle: sold, returned or destroyed |
| AuctionDesk.AuctionHouse.AuctionUpdate | src/auction.cpp:357-480 | the periodic update in place is the step function Update |
| AuctionRuns.RunKeepsInv | src/auction.cpp:133-480 | over every run nobody's gold becomes negative, an empty slot means no bet, a bet is 0 or at least 100, the clock stays in range |
| AuctionRuns.StepAccountsForGold | src/auction.cpp:133-480 | each step keeps all gold plus escrow, except for what the ledger books, which is never negative |
| AuctionRuns.RunConservesGold | src/auction.cpp:133-480 | over every run all gold, the escrow and the ledger of unpaid sums add up to the same |
| AuctionRuns.PresenceLosesNothing | src/auction.cpp:71-116 | when the parties of every open bid are found at every step, all gold plus escrow is constant |
| AuctionRuns.ClaimsAreKept | src/auction.cpp:133-480 | gold plus own stake of each person is unchanged by every step, except the settlement of their bid or their sale; only an absent buyer can lose a stake |
| AuctionRuns.RunKeepsObjects | src/auction.cpp:133-480 | the multiset of all objects (carried, in the slot, destroyed) is the same after every run |
| AuctionRuns.ExactlyOnePlace | src/auction.cpp:183-480 | after every run an object that exists once is with exactly one character, or in the slot, or destroyed, never in two of these |
| AuctionRuns.KthBidFloor | src/auction.cpp:226-275 | whatever bid expressions are typed, the k-th accepted bid on a lot is at least max(100, reserve) + 100(k-1) |
| AuctionRuns.OpeningAndBidStartTheClock | src/auction.cpp:226-347 | an opening and an accepted bid both leave 18 updates to go |
| AuctionRuns.TickLowersRemaining | src/auction.cpp:357-480 | an update lowers the measure by exactly one; every other quiet step keeps it, and the lot, the bet and the names |
| AuctionRuns.QuietRunCountsDown | src/auction.cpp:357-480 | left alone, a lot stays on sale unchanged for exactly its remaining number of updates |
| AuctionRuns.SettlesAtEighteen | src/auction.cpp:357-480 | after an opening or its last bid, a lot nobody stops is on sale exactly while fewer than 18 updates have come |
| AuctionRuns.LastBidderWins | src/auction.cpp:226-480 | the 18th update after the last accepted bid hands the lot to that bidder if present, else to the seller of record if present, else destroys it |
| AuctionRuns.UnsoldLotGoesBack | src/auction.cpp:447-475 | the 18th update after an opening nobody bid on gives the object back to the seller, as the first thing carried, if the seller is found, and destroys it if not; no gold moves, no other inventory changes, and the record is cleared |
| AuctionRuns.StopIff | src/auction.cpp:183-186 | a command stops an auction exactly if it is "purge", "stop" or "halt", in whatever case, from an immortal player with a lot on sale |
| AuctionRuns.StopWordsDecide | src/auction.cpp:183-224 | "purge" destroys the lot, "stop" and "halt" hand it to the immortal; a buyer who is found gets the whole bet back and nobody else any gold |
| AuctionRuns.NobodyOutbidsThemself | src/auction.cpp:236-241 | after an accepted bid nobody bids next on that lot but somebody else |
| AuctionRuns.FirstBidMeetsPrice | src/auction.cpp:242-275 | the first bid on a lot is at least the price typed at its opening, and at least 100 |
| AuctionRuns.RebootEndsTrade | src/auction.cpp:118-131 | shortly before a reboot, on every run without immortals, no lot is opened and no bid taken, and the lot on sale runs out on its clock |
| AuctionRuns.SellerIsRemembered | src/auction.cpp:268-391 | a seller who is found at a bid or at the first or second call counts as present at the settlement unless waiting linkdead in room 3 with nobody of that name online |
| AuctionRuns.SellerIsKnownIff | src/auction.cpp:53-59 | the seller of a lot can be found again exactly if the name fits the 19 characters the record keeps |
| BetParser.AdvAtoi | src/auction.cpp:486-532 | the digit loops with their shrinking multiplier compute the fixed-point value Amount of the clipped text |
| BetParser.AmountOfSuffixed | src/auction.cpp:486-532 | digits, K or M, digits: a decimal numeral with the first three or six fractional digits, zero-filled; text after a short fraction makes it 0, after a long one it is ignored |
| BetParser.AmountOfDigits | src/auction.cpp:486-532 | plain digits are worth their decimal value |
| Auction.PercentBidAcceptedIff | src/auction.cpp:226-260 | a typed percentage is taken exactly when the bidder may bid, it is worth at least 100 and the bidder has the sum |
| Auction.NumberBidAcceptedIff | src/auction.cpp:226-260 | a typed number is taken exactly when the bidder may bid and has the money, and it is 100 over the bid, or for a first bid at least 100 and the reserve |
| Auction.NegativeBidRefused | src/auction.cpp:534-574 | a raise or factor with a minus sign is never taken |
| Auction.FactorBidAcceptedIff | src/auction.cpp:226-260 | the same for a typed factor |
| Auction.BareBidAcceptedIff | src/auction.cpp:226-260 | a bare "+" needs a bet of 400, a bare "*" or "x" one of 100 |
| Rooms.RevDirInvolution | src/constants.cpp:1339-1346 | rev_dir is an involution without fixed point |
| Walk.ClearStepComesBack | src/act.off.cpp:2951-3001 | a clear step leads to a room whose opposite exit leads straight back, between rooms numbered above 0, through an exit that is not closed, and with the walker's own exit passable |
| Walk.ClearStepIff | src/act.off.cpp:2951-3001 | a step is clear exactly for a valid walker with a passable own exit, along an exit that is not closed and is a door or has no flags, to a room whose opposite exit, whatever its flags, leads back, between rooms numbered above 0 |
| Walk.ReachIsOpenLine | src/act.info.cpp:6268-6295 | k steps reach a room exactly when k such exits in a row lead there: the test of the walker's own exit adds nothing |
| DoorSight.DoorIsSeenThroughIff | src/act.off.cpp:2979-2985 | a character at a door sees into the room behind exactly when the face in front is not closed, whatever its other flags and those of the far face |
| DoorSight.OpeningLetsSee | src/act.move.cpp:554-609 | opening a door lets both sides see through it, closing it takes that away from both |
| DoorSight.SightThroughDoorIsMutual | src/act.off.cpp:2951-3001 | after every run of door commands, the two sides of a door see each other together or not at all |
| DoorSight.NoSightWithoutKey | src/act.off.cpp:2951-3001 | nobody sees through a locked door without special command until somebody with its key, or a pick its lock admits, has been at it |
| Walk.ClearStepInjective | src/act.off.cpp:2951-3001 | two clear steps in one direction into the same room started in the same room |
| Walk.CollisionIsReturn | src/act.info.cpp:6268-6295 | a walk that is in one room twice was back at its start in between |
| Walk.ReturnIsPeriod | src/act.info.cpp:6268-6295 | a walk that is back at its start repeats itself with that period |
| Walk.NoRepeatBeforeReturn | src/act.info.cpp:6268-6295 | before a return no room is repeated, so there are fewer steps than rooms |
| Walk.ReturnsOrBlocked | src/act.info.cpp:6268-6295 | a walk returns to its start, or is blocked, within as many calls of clearpath as there are rooms |
| Walk.SightIsMutual | src/act.off.cpp:2951-3001 | a line of k clear steps can be walked back, along the same rooms in reverse, exactly as far as the exits that lead back are open |
| Walk.LinearWalk | src/act.info.cpp:6268-6295 | the loop gives the outcome: the first step that is stopped by the visitor or blocked, else all steps used up |
| Walk.OutcomeIsUnique | src/act.info.cpp:6268-6295 | the outcome of a walk is determined, with its range and room |
| Walk.UnboundedWalkEnds | src/act.info.cpp:6268-6295 | an unbounded walk whose visitor looks only at rooms ends exactly if it ends within as many calls as there are rooms |
| Walk.UnboundedWalkEndsIff | src/act.info.cpp:6268-6295 | it ends exactly when it does not return to its start, or the visitor stops it at one of the rooms on the way |
| Walk.UnstoppedWalkEndsIffNoReturn | src/act.info.cpp:6268-6295 | an unbounded walk nobody stops ends exactly when it does not return to its start |
| Walk.CanSeeLinear | src/act.info.cpp:6575-6587 | the least direction with the least range in 1..6 where the target is in the room reached and visible; -1 exactly when there is none, and then the caller's variables keep their values |
| Walk.SearchEndsIff | src/act.info.cpp:6594-6627 | the unbounded search ends exactly when the line does not return to its start or somebody on it matches |
| Walk.GetCharAlong | src/act.info.cpp:6594-6627 | on every such line, the nearest match with its range, or the range of the wall, within as many steps as there are rooms |
| Walk.SelfLoopSearchNeverEnds | src/act.info.cpp:6594-6627 | a room with north and south exits to itself makes the unbounded search run for ever |
| Doors.PutFacesEffect | src/act.move.cpp:554-609 | changing faces changes one flag on this side and on the twin, and no other flag of any exit |
| Doors.RunKeepsLayout | src/act.move.cpp:1313-2021 | no run of door commands changes where exits lead, their keys, special commands or other flags |
| Doors.PerformKeepsAgree | src/act.move.cpp:1313-2021 | every door command keeps both faces of every door in agreement on closed and locked |
| Doors.RunKeepsAgree | src/act.move.cpp:1313-2021 | every run of open, close, lock, unlock, pick and special commands keeps that agreement |
| Doors.AgreementNeedsExitOk | src/act.move.cpp:554-609 | opening or closing a door keeps its faces in agreement exactly when the number behind it is above 0 |
| Doors.DoorToRoomZeroComesApart | src/utility.cpp:4862-4874 | a door between rooms 1 and 0, opened from room 1, stays closed seen from room 0 |
| Doors.RunKeepsLockedClosed | src/act.move.cpp:1379-2021 | where neither face has a special command, every locked face is closed after every run, jointly with the agreement |
| Doors.LockChangesIff | src/act.move.cpp:1731-2021 | a face is unlocked exactly by a key holder's unlock or a successful pick of a lock that is not pickproof, and locked exactly by a key holder, at a closed face of its door with a keyhole |
| Doors.ClosedChangesIff | src/act.move.cpp:1379-1671 | a face is opened or closed exactly by the plain commands where its door has no special command and is not locked, or by the special command with its tool, given at it, or at the other face if its own room is numbered above 0 |
| Doors.LockedStaysLocked | src/act.move.cpp:1827-2021 | a locked face stays locked on every run on which nobody at its door has the key or picks it |
| Doors.NoKeyholeKeepsLock | src/act.move.cpp:1731-2021 | a door without a keyhole never changes its lock on any run |
| Doors.ShutWithoutKey | src/act.move.cpp:1379-2021 | a locked door without special command stays closed and locked on every run without its key or a pick |
| Doors.LockThenUnlock | src/act.move.cpp:1689-1912 | unlocking what was just locked restores the whole world |
| Doors.CloseThenOpen | src/act.move.cpp:1504-1671 | opening what was just closed restores the whole world |
| PassageCommands.Passages.ChangeFaces | src/act.move.cpp:554-609 | the two updates in place, this face and the one behind, are PutFaces |
| PassageCommands.Passages.DoOpen | src/act.move.cpp:1504-1582 | do_open in place: its tests and its effect are those of the step function |
| PassageCommands.Passages.DoClose | src/act.move.cpp:1584-1671 | do_close in place |
| PassageCommands.Passages.DoLock | src/act.move.cpp:1731-1825 | do_lock in place |
| PassageCommands.Passages.DoUnlock | src/act.move.cpp:1827-1912 | do_unlock in place |
| PassageCommands.Passages.DoPick | src/act.move.cpp:1914-2021 | do_pick in place, the skill roll being an input |
| PassageCommands.Passages.DoOpenExit | src/act.move.cpp:1379-1502 | do_open_exit in place, which does not look at the lock |
| BoardArray.MessageBoard.WriteMsg | src/board.cpp:216-270 | the slot a write fills and the number afterwards, "Topic" included |
| BoardArray.MessageBoard.RemoveMsg | src/board.cpp:327-344 | the shifting loop and the clearing of the last slot are Shifted |
| BoardCommands.BulletinBoards.CheckLocks | src/board.cpp:584-631 | the answer is whether the lock holder is in the game, linked and writing; a lock that no longer holds is lifted |
| BoardCommands.BulletinBoards.BoardWriteMsg | src/board.cpp:164-270 | the command on boards, locks, texts and editor pointer in place is the step function Write, and the texts given to free() are those of WriteReleases, in order |
| BoardCommands.BulletinBoards.BoardRemoveMsg | src/board.cpp:272-358 | the command in place is the step function Remove, and frees the text of the message once |
| BoardCommands.BulletinBoards.StringAdd | src/modify.cpp:114-172 | a typed line in place, through the editor pointer, is the step function Type |
| BoardRuns.StepKeepsEditorsIff | src/board.cpp:164-358 | every step keeps each open editor with the lock holder, in the game and on its own message, exactly when it neither extracts a writer nor moves its descriptor to another body |
| BoardRuns.RunKeepsEditorsIff | src/board.cpp:584-631 | the editors are in order after every step of a run exactly when neither happens on it |
| BoardRuns.RunKeepsEditors | src/board.cpp:164-358 | then no two editors are open on one board, and each belongs to the lock holder and aims at the owner's own message |
| BoardRuns.TwoEditorsOnOneBoard | src/handler.cpp:2174-2440 | a run of five steps from empty boards that ends with two open editors on board 0 |
| BoardRuns.RebodyBreaksTheLock | src/act.wizard.cpp:3741-3797 | from any good state, after a writer's descriptor has gone to another body, the next title opens a second editor on the board |
| BoardRuns.SwitchOpensTwoEditors | src/act.wizard.cpp:3741-3797 | a run of seven steps from empty boards, without any extraction, that ends with two open editors on board 0 |
| BoardRuns.RemovalNeverUnderEditor | src/board.cpp:272-358 | a removal on a board with an open editor changes nothing |
| BoardRuns.ExtractionBreaksTheLock | src/handler.cpp:2174-2440 | from any good state, after a writer has been extracted, the next title opens a second editor on the board, and any removal shifts the array under the first one |
| BoardRuns.RunFreesAllocatedIff | src/board.cpp:222-344 | every text a run frees is allocated at that moment exactly when no "Topic" on it is written over a slot 0 that has a text; blocks may be handed out again |
| BoardRuns.RunKeepsTexts | src/board.cpp:164-358 | on every such run, whoever is extracted, the text pointers of the slots are live and no two slots share one |
| BoardRuns.RunLeaksNothing | src/board.cpp:164-358 | on every such run each allocated text is the text of a slot |
| BoardRuns.RunKeepsTailIff | src/board.cpp:164-358 | the slots above number are empty after every step of a run exactly when nobody types into one of them |
| BoardRuns.SafeRunKeepsTail | src/board.cpp:164-358 | which nobody does when no writer is extracted or loses its descriptor to another body |
| BoardRuns.FreesTwiceIff | src/board.cpp:222-253 | a committed write frees a text twice exactly when it is a "Topic" and slot 0 has a text |
| BoardRuns.TopicFreesTwice | src/board.cpp:222-253 | from empty boards: one message, then a "Topic" |
| BoardRuns.WriteAppends | src/board.cpp:187-270 | a committed write appends its message exactly if number >= 0 and the title is not "Topic"; other boards do not change |
| BoardRuns.RemoveDeletes | src/board.cpp:305-344 | removing t deletes exactly the t-th message, keeps the order of the others, slot 0 and all other boards |
| BoardRuns.TypingStaysInOwnMessage | src/modify.cpp:114-172 | typing changes no text but that of the message the writer is the author of |
| BoardRuns.RunsFromBoot | src/board.cpp:424-468 | for runs from empty boards: the equivalence for freed texts, and without a double free live unshared texts and the equivalences for editors and tail |
| BoardPosts.RunRefinesWall | src/board.cpp:164-358 | after every run without a double free, whoever is extracted, a board shows exactly its accepted posts in order, without those removed |
| BoardPosts.MessageIsWhatWasTyped | src/modify.cpp:114-172 | until the editor closes, a message's text is what its author has typed since, whatever everybody else does in between, on safe runs without a double free and wherever realloc moves it |
| BoardPosts.TypedIsJoined | src/modify.cpp:114-172 | lines that fit and end nothing make up the text one after the other, each with its line end |
| BoardPosts.LineAdds | src/modify.cpp:114-172 | a line adds what stands before its '@', and a line end if there is none; a '@' closes; a line that does not fit is skipped, or cut if it is the first, and closes too |
| BoardPosts.NewTextIsJoined | src/modify.cpp:124-131 | from no text at all, such lines make up the text, the first one included |
| BoardPosts.EditorStaysIff | src/modify.cpp:114-172 | an editor stays open exactly while no '@' is typed and, on a board, the line fits |
| BoardPosts.PostHoldsItsText | src/board.cpp:222-262 | from the title to the closing line, in whatever company: the message holds exactly its author's lines, each with a line end, and what came before the '@', and the editor is closed |
| BoardPosts.BlockedIff | src/board.cpp:584-631 | while editors are in order, a lock keeps others off exactly while somebody writes on that board, if its holder writes nothing else |
| BoardPosts.ChangeIff | src/board.cpp:164-358 | exactly who may post and who may remove what: presence, level, title, room on the board, message number and lock |
| BoardPosts.BlankTitleLiftsLock | src/board.cpp:187-214 | a write without a title lifts a stale lock and changes nothing else |
| MoveGroup.AddKeepsTable | src/act.move.cpp:1229-1259 | the table keeps at most 50 entries with pairwise different kinds |
| MoveGroup.AddCounts | src/act.move.cpp:1229-1259 | an accepted mover is counted once under its own kind; a refused one changes nothing |
| MoveGroup.TotalCountsMovers | src/act.move.cpp:1229-1259 | after any movers, the total of an entry for a kind of NPC is exactly how many of that kind were accepted |
| MoveGroup.AnnouncedOnce | src/act.move.cpp:1093-1139 | for every kind, the announced numbers add up to the characters that moved, at all levels and also on overflow |
| MoveGroup.BatchShowsKindsOnce | src/act.move.cpp:485-492 | no kind is announced by two entries of one table, and each number is the whole of its kind in it |
| MoveGroup.FollowerShownSinglyIff | src/act.move.cpp:1130-1137 | a follower without followers who goes along is announced singly exactly when the table is full, and otherwise goes into it |
| MoveGroup.GroupedShowsKindsOnce | src/act.move.cpp:1229-1259 | in the grouped list every kind of NPC comes once, with the number of its movers |
| MoveGroup.PartyIsGroupedIff | src/act.move.cpp:1093-1139 | exactly when the table is not full before the last mover, nobody is announced singly; the announcements are then those of the followers with followers, and the grouped list of the mover and all the others |
| MoveGroup.AddToCharHeap | src/act.move.cpp:1229-1259 | the heap and totals arrays, updated in place, are the table of Add |
| MoveGroup.DisplayBatch | src/act.move.cpp:485-492 | the entries are announced in order, each once |
| MoveGroup.Move | src/act.move.cpp:1093-1139 | the recursion over followers with arrays in place makes the announcements of Announce |
| CharList.TickedTimesIsSurvivors | src/charlist.cpp:136-160 | after k updates exactly the entries with timer at most 0 or above k are left, in order, the positive ones lowered by k |
| CharList.StillLinkedMembers | src/charlist.cpp:136-160 | the nodes an update keeps are exactly those not at their last tick |
| CharList.StoredReadsBack | src/charlist.cpp:59-97 | what is stored for somebody is read back and nobody else's value changes |
| CharList.StoredMovesTotal | src/charlist.cpp:84-134 | adding moves the sum of that character and the sum over all by the amount, and no other sum |
| CharList.NewValueExpires | src/charlist.cpp:70-160 | a value stored for somebody new reads back until as many updates as its timer says have come, for ever with a timer of 0 or less, and then as 0 |
| CharList.OldTimerStays | src/charlist.cpp:70-97 | storing for somebody who is in the list changes no timer |
| CharList.TotalIsPositiveMinusNegative | src/charlist.cpp:99-134 | the sum is the positive sum minus the negative sum |
| CharList.CharList.UpdateList | src/charlist.cpp:136-160 | on an acyclic chain of heap nodes the update gives Ticked, keeps exactly the surviving nodes, and reaches no dropped one |
| CharList.CharList.UpdateTimes | src/charlist.cpp:136-160 | after k updates of the heap list, still acyclic, exactly the survivors are left |
| CharList.CharList.RemoveFromList | src/charlist.cpp:162-181 | the first node of a character in the list is unlinked, and no other |
| CharList.CharList.SetIntData | src/charlist.cpp:70-82 | the first entry for the character, or a new one at the head, gets the value |
| CharList.CharList.AddIntData | src/charlist.cpp:84-97 | the value grows by the amount, which is also what is returned |
| CharList.CharList.GetIntData | src/charlist.cpp:59-68 | the value of the first entry, 0 if there is none |
| CharList.CharList.IsInList | src/charlist.cpp:25-32 | whether some entry is for the character |
| CharList.CharList.Sums | src/charlist.cpp:99-134 | the three summing loops |
| Hands.RunKeepsTwoHands | src/act.obj_wear.cpp:254-640 | with strength fixed, every run keeps: never light, wield and hold together; a weapon over wield_w excludes light, hold and shield; a shield excludes a held weapon; a held weapon weighs at most half of wield_w; every slot holds what it is for |
| Hands.RunKeepsCount | src/act.obj_wear.cpp:254-640 | every object is as often in slots, inventory and on the ground as before |
| Hands.EveryOutfitCanBeWorn | src/act.obj_wear.cpp:254-640 | every outfit that obeys the rules is put on from empty hands, by wear, wield and grab in a stated order |
| Hands.OutfitReachableIff | src/act.obj_wear.cpp:254-640 | the rules are exact: an outfit is reachable from empty hands if and only if it obeys them |
| Hands.FitsIff | src/act.obj_wear.cpp:254-640 | over whatever is worn, an object goes on exactly where the slot is free and the result obeys the rules, but that a heavy thing to hold has to be taken before a weapon, and no fuelled light is lit under water |
| Hands.WearEndsIff | src/act.obj_wear.cpp:126-727 | an object ends on the ground exactly for disgust, in the slot exactly when nothing speaks against it, and stays where it is otherwise |
| Hands.GrabFillsOneSlot | src/act.obj.cpp:1339-1370 | grabbing fills the light slot with a light or the holding hand with anything else, and no other slot |
| Hands.RemoveEndsIff | src/act.obj.cpp:1373-1534 | a slot is emptied into the inventory exactly when something is in it that may come off |
| Hands.EquipUndoesTakeOff | src/act.obj.cpp:1373-1534 | putting on again what was removed restores everything |
| Wardrobe.Wearer.WearInHand | src/act.obj_wear.cpp:254-640 | cases 0, 12, 13 and 14 of wear, in place |
| Wardrobe.Wearer.WearObject | src/act.obj_wear.cpp:126-727 | wear for a carried object: refusals, disgust and the hand slots |
| Wardrobe.Wearer.GrabObject | src/act.obj.cpp:1339-1370 | a light goes to the light slot, anything else is held |
| Wardrobe.Wearer.RemoveFrom | src/act.obj.cpp:1373-1534 | a removed object leaves its slot for the inventory |
| Money.SameGroupIsEquivalence | src/act.comm.cpp:1778-1789 | is_same_group is an equivalence on grouped characters; others are not even related to themselves |
| Money.SameGroupMeans | src/act.comm.cpp:1778-1789 | grouped characters are in one group exactly if they follow the same leader, or one follows the other who follows nobody, or they are one leader |
| Money.PaymentsMatchMembers | src/act.comm.cpp:1043-1051 | the paying loop pays one share less than the counting loop counts members, exactly when the splitter is one of them |
| Money.SharedByLoop | src/act.comm.cpp:1667-1713 | the splitter's booking and the paying loop give everybody the stated gain: a share each, the rest to the splitter |
| Money.SplitConserves | src/act.comm.cpp:1667-1713 | a split keeps the sum of all gold, and nobody else loses any |
| Money.SplitIsFair | src/act.comm.cpp:1625-1714 | a split happens exactly if the splitter has the amount and it gives at least two sharers a coin each; every other sharer in the room gets the whole part of the amount through the number of sharers, nobody else anything |
| Money.StepMovesWealth | src/act.obj.cpp:479-548 | split, give, drop and get, also out of containers, keep all gold plus the value of money objects; only a gift of a DIO adds its amount |
| Money.RunMovesWealth | src/act.obj.cpp:109-147 | the same over every run, and nobody falls into debt |
| Money.GiftArrives | src/act.obj.cpp:479-548 | a gift is accepted exactly if positive and in the purse of a giver below DIO; the receiver gains it, that giver loses it, nobody else is touched, and a gift to oneself changes nothing |
| Money.DropThenGet | src/act.obj.cpp:109-147 | coins are dropped exactly when they are there, lie on top, and getting them restores everything |
| Money.ContainerGivesUp | src/act.obj_get.cpp:406-461 | money leaves a container exactly when it is open, and becomes gold exactly when it is worth something |
| Money.SplitCountGroupInRoom | src/act.comm.cpp:1043-1051 | the counting loop counts the members |
| Money.SplitGold | src/act.comm.cpp:1625-1714 | do_split on the array of purses is the function Split |
| Money.Treasury.Give | src/act.obj.cpp:479-548 | the coin branch of do_give in place, giving to oneself included |
| Money.Treasury.Drop | src/act.obj.cpp:109-147 | the coin branch of do_drop in place |
| Money.Treasury.Get | src/act.obj_get.cpp:406-461 | money picked up from the floor turns into gold, worthless money stays an object |
| Money.Treasury.GetOut | src/act.obj_get.cpp:406-461 | the same out of a container, which has to be open |
| Liquids.RunAccountsForUnits | src/act.obj.cpp:846-1246 | over every run, at any thirst, each kind of liquid changes by exactly what is drunk or emptied out of it, no fill is negative, and no kind turns into another, also when a container is poured into itself |
| Liquids.PourEndsOrFills | src/act.obj.cpp:1036-1157 | something is poured exactly when there is some and the other container has room and holds nothing else; it stops with the source empty or the target full, keeps the sum and the kind, and spreads poison |
| Liquids.DrinkTakes | src/act.obj.cpp:898-943 | at normal thirst a drink takes the dice, or what quenches the thirst, or the rest; a sip takes one unit |
| Liquids.RunKeepsClean | src/act.obj.cpp:846-1246 | on every run empty containers hold plain water, unpoisoned and not permanent |
| Liquids.StepKeepsSoundIff | src/act.obj.cpp:896-950 | a command keeps every fill between 0 and the capacity exactly when it is no drink whose negative amount exceeds the room left |
| Liquids.RunStaysSoundIff | src/act.obj.cpp:846-1246 | fills stay between 0 and the capacity all along a run exactly when no drink on it is of that kind |
| Liquids.DrinkingOverfills | src/act.obj.cpp:898-943 | a full cup of beer of capacity 10, drunk at thirst 100, holds 35 |
| Liquids.ConsumedIsNegativeIff | src/act.obj.cpp:898-943 | a command adds liquid exactly when it is a drink at a thirst of at least 25 plus the strength of the drink, and then of the kind drunk |
| Liquids.TemperateRunStaysSound | src/maximums.cpp:1348-1371 | as long as thirst is where gain_condition keeps it, fills stay in bounds and total liquid falls only |
| Liquids.RunKeepsTare | src/act.obj.cpp:792-819 | a container that outweighs its contents keeps its own weight for good: weight follows contents exactly |
| Liquids.WeightFollowsContents | src/act.obj.cpp:792-819 | at every step weight changes by as much as the contents, down to 1 |
| Liquids.RunKeepsWeightPositive | src/act.obj.cpp:792-819 | whatever the contents, no run brings a weight below 1 |
| Cellar.ChangeWeight | src/act.obj.cpp:792-819 | weight_change_object in place |
| Cellar.DoPourInto | src/act.obj.cpp:1036-1157 | do_pour in place, on two containers or on one |
| Cellar.DoPourOut | src/act.obj.cpp:1036-1157 | do_pour with "out" in place |
| Cellar.DoDrink | src/act.obj.cpp:846-964 | do_drink in place |
| Cellar.DoSip | src/act.obj.cpp:1159-1246 | do_sip in place |
| Achievements.ListingIsNumbered | src/act.info.cpp:2186-2239 | "achievements all" numbers its lines one by one from 1 |
| AchievementListing.ListingPrintsAll | src/act.info.cpp:2186-2239 | every level of every shown row is printed and nothing else, in the order race, boss, class, quest, other, and within it by row and level |
| AchievementCommands.GrantedIsListed | src/utility.cpp:321-379 | among enabled class rows maxAchievements counts exactly those that are printed |
| Achievements.SameRowsInvert | src/act.info.cpp:2376-2424 | when the listing and the lookup count the same rows, every number leads to the row printed under it, and any other number to none |
| Achievements.InvertNeedsSameRows | src/act.info.cpp:2376-2424 | and only then |
| Achievements.QuestmasterLookupInverts | src/act.info.cpp:2376-2424 | for a questmaster the lookup is the exact inverse of the listing |
| Achievements.SpamLookupInvertsIff | src/act.info.cpp:2376-2424 | for "spam" it is, exactly when no disabled entry with levels carries progress |
| AchievementCommands.SpamInvertsIff | src/act.info.cpp:2553-2570 | the whole command accepts every printed number and finds its row, and nothing else, exactly when the listing is no longer than maxAchievements and no disabled entry with progress comes before its last number |
| AchievementCommands.QuestmasterCommandInvertsIff | src/act.info.cpp:2646-2680 | for "delete" and "set", exactly when the listing is no longer than maxAchievements |
| AchievementCommands.SpamRefusesPrintedNumber | src/act.info.cpp:2553-2560 | a table without disabled entries whose only printed number is refused |
| AchievementLoops.MaxAchievements | src/utility.cpp:321-379 | the five loops add up the levels of the rows of the character's classes, disabled ones included |
| AchievementLoops.BufferAchie | src/utility.cpp:1035-1060 | one line for each level, numbered from the given number |
| AchievementLoops.ListCategory | src/act.info.cpp:2218-2240 | one category's loop prints its part of the listing and has used as many numbers as it printed lines |
| AchievementLoops.ListAll | src/act.info.cpp:2463-2473 | the five loops one after the other print the listing |
| AchievementLoops.FindAchievementSlotByNumber | src/act.info.cpp:2395-2424 | the nested loops with early return are the lookup |
| Csv.CellIsQuotedIff | docs/export-legacy-import-csv.py:39-44 | a cell is quoted exactly if it holds a separator, a quote or a line break of either kind |
| Csv.ReadCellBack | docs/export-legacy-import-csv.py:39-44 | any cell, whatever its quotes, separators and line breaks, is read back up to where it ends |
| Csv.ReadRowBack | docs/export-legacy-import-csv.py:47-48 | any row with cells is read back |
| Csv.DecodeFills | docs/export-legacy-import-csv.py:39-48 | any table is read back cell for cell from its lines, but for an empty cell in a row without any |
| Csv.SameTextIff | docs/export-legacy-import-csv.py:39-48 | two tables have the same text exactly when they are the same but for such cells |
| Csv.TableDecodesIff | docs/export-legacy-import-csv.py:39-48 | a table is read back as it was exactly when all its rows have cells |
| Csv.SectionDecodesIff | docs/export-legacy-import-csv.py:51-58 | a section with any header and rows is read back exactly when its title holds no separator, quote or line break |
| Flags.FlagsRoundTrip | scripts/generate-procarea-mobs.py:92-103 | flags_or undoes flags_to_str on every non-negative bit field |
| Flags.SanitizeMeans | scripts/generate-procarea-mobs.py:115-137 | sanitize_susc keeps every bit but sleep, hold and charm; it fails exactly on unreadable fields and never ends exactly on negative ones |
| Flags.CharmImmunityMeans | scripts/generate-procarea-mobs.py:106-112 | charm is added to M_immune and taken out of susc, and no other bit changes; a value comes out exactly when both fields are readable and not negative |
| Flags.FlagsOrMeans | scripts/generate-procarea-mobs.py:622-628 | a field is unreadable exactly if a part that is not blank is; otherwise it has exactly the bits of its parts |
| Flags.StripMeans | scripts/generate-procarea-mobs.py:622-628 | stripping takes blanks off both ends and leaves none there |
| Flags.BitOfOr | scripts/generate-procarea-mobs.py:622-628 | the arithmetic or, bit by bit |
| Flags.BitOfClear | scripts/generate-procarea-mobs.py:115-137 | the arithmetic and-not, bit by bit |
| Flags.CollectBits | scripts/generate-procarea-mobs.py:92-103 | the shifting loop collects the powers of two in order |
| Flags.PrintFlags | scripts/generate-procarea-mobs.py:92-103 | flags_to_str as it runs |
| Flags.ReadFlags | scripts/generate-procarea-mobs.py:622-628 | flags_or as it runs, with its failure; signs and grouped digits are read as int does |
| Decimal.IntReadsGroups | scripts/generate-procarea-mobs.py:622-628 | int drops an underscore between digits, and refuses one at an end |
| Decimal.IntReadsSigns | scripts/generate-procarea-mobs.py:622-628 | int reads one sign, and refuses two |
| Decimal.ReadPrintInt | scripts/generate-procarea-mobs.py:691-699 | what str prints of an integer, int reads back |
| Floats.Times14Bounds | scripts/generate-procarea-mobs.py:568-570 | int(gold * 1.4) in binary64 is 1.4 times the gold rounded down, or one less |
| Floats.NearestError | scripts/generate-procarea-mobs.py:568-570 | the rounding is to the nearest multiple, and to the even one of two equally near |
| Floats.FortyFive | scripts/generate-procarea-mobs.py:568-570 | 45 gives 62 |
| MobStats.PickRange | scripts/generate-procarea-mobs.py:541-543 | the number picked lies in its range |
| MobStats.PickCycles | scripts/generate-procarea-mobs.py:537-538 | seeds count through a pool and start again |
| MobStats.PickRangeSteps | scripts/generate-procarea-mobs.py:541-543 | from the lowest number, each seed moves 13 places and each salt 7 around the range |
| MobStats.SeedsOfRoles | scripts/generate-procarea-mobs.py:532-534 | how far apart the seeds of roles, slots and tiers are |
| MobStats.SeedsDiffer | scripts/generate-procarea-mobs.py:532-534 | with fewer than 260 slots each tier, role and slot has a seed of its own |
| MobStats.RollsByRole | scripts/generate-procarea-mobs.py:546-563 | where hit roll, damage roll and armor of boss, mob and trap lie, exactly to the bonus of the role |
| MobStats.ImmunitiesByRole | scripts/generate-procarea-mobs.py:572-590 | which field each role and tier fills from which pool |
| MobStats.ReadDiceBack | scripts/generate-procarea-mobs.py:653-675 | a printed die is read back by the pattern for dice |
| MobStats.CleanTripleMeans | scripts/generate-procarea-mobs.py:591-592 | after both clean-ups M_immune holds charm, susc holds none of sleep, hold and charm, and all other bits are as chosen |
| MobStats.AttacksBack | scripts/generate-procarea-mobs.py:640-650 | the number of attacks is found in a printed act line |
| MobStats.AttacksByDefault | scripts/generate-procarea-mobs.py:640-650 | without a type of mob in the line it is one attack |
| MobStats.CombatRecoversBuild | scripts/generate-procarea-mobs.py:653-699 | for every mob and profile, reading the printed lines gives the figures of build_stats, rescaled, the act and affected bits, the number of attacks, and the immunities as above |
| MobStats.CombatByRole | scripts/generate-procarea-mobs.py:546-612 | read back from the printed lines: mobs from tier 2 on are susceptible to nothing, only bosses from tier 4 on have their own number of attacks, and a boss is two levels up |

## Left out

- AchievementLoops.BufferAchie: the text of a line, and what is shown of progress; levels are 0 to 10, as many as there are branches.
- BetParser.AdvAtoi: integers are unbounded, so the overflow of a very long number is not modelled.
- Walk.GetCharAlong: the parsing of the direction and the name, and a match in the walker's own room, which comes first.
- PassageCommands.Passages.DoPick: the skill check is an input, and so is whether the key or the tool is at hand in the other commands.
- Doors.RunKeepsLockedClosed: exits with a special command are not covered, because do_open_exit opens them without looking at the lock.
- BoardCommands.BulletinBoards.StringAdd: mail and descriptions, which the same routine handles, are only "elsewhere".
- MoveGroup.Move: whether a character really moves, and is still there and standing when its turn comes, are inputs.
- CharList.CharList.RemoveFromList: the character has to be in the list; the source follows a null pointer otherwise.
- Wardrobe.Wearer.WearObject: ownership, class, sex and the curse are inputs, and strength is fixed; LOADED_WEAPON and the light of the room are not modelled.
- Cellar.DoDrink: effects on the drinker (hunger, thirst, poison, drunkenness) are not modelled; thirst and the dice are inputs.
- MobStats.CombatRecoversBuild: the tier tables are any valid profile, the number of attacks is a whole one, and the constant position fields are not reported.
- Flags.ReadFlags: blanks and digits beyond ASCII, which Python's strip and int also know.
- Auction: polymorphed characters, gold that changes outside the auction between two steps, and names that are the same for two characters (where a theorem needs it, the names are required to differ and to fit their fields).
- Passages: find_door's parsing, containers, and door commands that reach an exit by its keyword; a command is given its side.
- Doors: exit_info as a number is modelled as the set of its flags, so a negative value is not.
- BoardRuns.RunKeepsTexts: titles, authors and dates are values, so only the blocks of texts are followed.
- Board: saving and loading, display, boards 4 and 5 which have no slots in the arrays, and the author's name, for which the character stands.
- Hands: the wear slots that take up no hand, and wear all.
- Money: the experience branch of do_give, putting things into containers, several objects at once, and limits on what can be carried.
- Csv: the queries, the final line feed of the file, and the cleaning of text fields.
- Achievements: the compact listing and the difficulty listing, which are numbered separately.
- Messages, colours, logging, saving of characters, combat, spells and the database are not part of this model.
