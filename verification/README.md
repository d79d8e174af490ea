# Verified model of gintrack

gintrack keeps backlogs, boards and settings as plain files in git repositories. This project models the parts of
it where several functions have to agree with each other, and proves that they do. `dafny verify dfyconfig.toml`
checks everything.

Each operation that changes something step by step is a method over the object's own fields, proved against a
specification function; what the repository promises is then proved about that function, about runs of operations,
or about several of them together. Pure code is functions and lemmas. The modules named `…Exact`, and `BoardShown`,
`BoardPlan` and `TomlWhere`, say what the specification functions compute in terms of the inputs alone.

## What is modelled

**Identifier allocation and collision repair** (`Allocation*`, `Allocator`, `Ids`, `Duplicates`, `RenumberPlan`,
`RenumberApply`, `Repair*`, `Items`, `Wikilinks`, `Backlog`, `YamlPath`, `FileTx`). An allocator hands out numbers
from a scan, hints, reserved blocks and the ranges of its user; `AllocationExact.LeastAbove` says which. Clones that
allocate apart may collide; the repair finds the duplicates, picks a keeper for each by a tie-break, plans fresh ids,
repoints every reference, records redirects and applies all of it through a file transaction. The file store may fault
at any operation and counts its faults. `RepairRun.RepairDuplicates` is the whole repair with its end-to-end contract;
one faulty operation anywhere never leaves a half-applied plan.

**Boards** (`Boards`, `BoardOrder`, `BoardView`, `BoardBuild`, `BoardCards`, `BoardFacts`, `BoardAgreement`,
`BoardShown`, `BoardMove`, `BoardPlan`, `BoardSound`, `BoardUnstored`, `BoardValidate`). A render deals the items of
many repositories, the published snapshots and placeholders into columns; an order list arranges them; a planner
predicts a move and an editor performs it. `BoardShown.LiveShown` says where an item stands, and
`BoardPlan.RefusedExactly` which moves are refused. `BoardSound.MoveIsSound` says that plan, write and render agree when
the shown order is stored first; `BoardUnstored.LandsExactly` says exactly when they agree without that, which is how
the vault moves a card.

**Line-preserving TOML merge** (`Toml*`). A file is a list of lines, each with its class and bracket count; tables are
split off, owned keys are spliced in, and the result is laid out again (TOML v1.0.0, sections "Table" and "Array").
The key lemma, `TomlSettle.ReadSettled`, says what reading laid-out tables makes of them; `TomlAgent` holds the rules
the program merges by.

**Dry-run overlay file system** (`MemoryFS`, `Overlay`). A write buffer over a base that is never touched.

**Token budget** (`Budget`). The page search, the size that counts its own digits, and the cursor walk.

**Front matter** (`FrontMatter`) and **the repository registry** (`Registry`, `Registering`), whose invariant is the
configuration's own validators.

## What the proofs found

The model follows the code. Where the code and its comments, or a natural reading of its promise, part ways, the exact
condition is proved (or the fact is stated as a lemma, or is plain in the specification function).

- The order of unlisted cards is by ascending priority rank, so low priority comes before critical
  (`BoardAgreement.SmallerRankFirst`); the comment at `internal/core/boardview.go:526-528` says priority first.
- `MoveCard` in `internal/vault/board.go` never stores the rendered order. The card lands where it was asked exactly
  when the target shows as many of the cards that the stored list names above that place as there are cards above it
  (`BoardUnstored.LandsExactly`); moved to the second place of a column nobody ordered it goes first
  (`BoardUnstored.SecondPlaceMissed`).
- An explicit status into a column that maps none for the project is accepted, and the card lands where that status is
  shown (`BoardSound.UnambiguousMove`).
- The comment at `internal/core/boardview.go:700-701` says that a remote card cannot change its own status. Moved inside
  its own column with another status asked for, it does (`BoardPlan.RemoteStays`).
- Two moves into one column commute exactly when one of them appends and the other does not (`BoardOrder.MovesCommute`).
- A file that existed, is written anew and removed in one transaction comes back with the staged data when a later
  removal fails (`FileTx.UndoLosesOld`); `FileTx.UndoneExactly` says which staged lists are safe.
- A user may receive a number twice in a process, when files vanish between the calls, exactly when two usable ranges
  end with different numbers (`AllocationRanges.NeverRepeatsExactly`); a number whose file stays on disk never comes
  again (`AllocationRanges.OnDiskNeverRepeats`).
- A body that ends in a lone CR does not survive a write and a read (`FrontMatter.TrailingCrIsLost`).
- The comment at `cmd/gintrack/agent_merge.go:399-401` speaks of a blank line put in front of what is appended; the
  code puts none. When the last owned table of the template ends in comments, as it does without a token, and the table
  below has no blank line above it, a second run writes those comments once more (`TomlAgent.StubRepeats`); a template
  with such a comment right below a key would write it again with every run (`TomlAgent.NoteForever`). The merge is
  stable exactly when those two tables are told apart (`TomlTwice.MergeTwice`).
- A removal below a path hides the path itself from the overlay's listing (`Overlay.RemovalBelowHides`,
  `Overlay.OverlayFS.ReadDir`), and making a folder whose name is a removed base file brings that file back
  (`Overlay.MkdirStepSimulates`).
- Registration accepts an absolute documentation folder, which the validator then complains about
  (`Registry.AddedValid`).
- Removing the last member of a workspace makes it stand for every repository (`Registry.LastMemberWidens`).

## Model

| member | source | states |
|---|---|---|
| RepairRun.RepairDuplicates | internal/core/doctor.go:78-316 | The whole repair. On a backlog whose files parse and a user without a block: success leaves every id claimed once, as many item files, keepers unchanged in id, every reference to a replaced id leading to its successor and every other reference as it was, and every replaced id redirected; a failure whose undo went through, or after a single faulty operation, leaves every file but temporaries as it was; without a fault it fails only when the redirect table cannot take the pairs |
| RepairRun.LeadersAfter | internal/core/doctor.go:87-166 | After a repair every item file that leads the claimants of its id by the tie-break, or is the only one, keeps its name and its id |
| RepairPlan.PlanRepairs | internal/core/doctor.go:137-179 | Any plan made over a scan of sound files by a user without a block is a repair: it moves distinct item files to unused, distinct ids whose file names carry them, and what it leaves alone has distinct ids |
| RepairPlan.KeepersStay | internal/core/doctor.go:87-166 | The keeper of each group, first by the tie-break, is in no step of the plan: it keeps its file and its id |
| RepairPlan.PlanIgnoresOrder | internal/core/doctor.go:86-166 | Two plans over the same files listed in any two orders, with any map order inside, are the same plan |
| RepairPlan.RulesName | internal/core/doctor.go:172-179 | With a valid project key, every renumbered path stays in its folder, is an item file name, and carries the new id |
| RepairExact.SlugSurvives | internal/core/doctor.go:172-179 | A file named after its old id keeps its slug under the new one |
| RepairExact.SlugMade | internal/core/doctor.go:172-179 | A file whose name has no slug behind its old id gets the one of its title |
| RepairExact.PlannedIds | internal/core/doctor.go:137-166 | Each step gives an id of the type code of the old one, under the project key, with a number no scanned file and no redirect has; the numbers of one code increase along the plan |
| Repair.AppliedRepairs | internal/core/doctor.go:189-307 | Applying a plan that repairs the files gives files that are repaired: unique ids, equal count, every file kept or renamed with references repointed, redirects recorded |
| Repair.CarriedUnique | internal/core/doctor.go:211-280 | After the plan no two item files claim one id and no item names a replaced id |
| Repair.CarriedCount | internal/core/doctor.go:211-280 | The plan changes file names but not the number of item files |
| Repair.CarriedFollows | internal/core/doctor.go:211-280 | Every item of the carried backlog has its own id or the planned one; each parent, epic, milestone, link and wikilink that named a replaced id names the id the mapping has for it, and everything else is as it was |
| Duplicates.DuplicatesOf | internal/core/doctor.go:87-128 | The report lists exactly the ids with two or more claims, in id order, each with all its files in tie-break order |
| Duplicates.ReportUnique | internal/core/doctor.go:87-128 | The report is the same for every listing order of the same files |
| Duplicates.ReportMeans | internal/core/doctor.go:87-128 | An entry for exactly the ids two files claim, listing exactly the files that claim it, the older before the younger: a date before none, the earlier before the later, then the smaller path |
| RenumberPlan.PlanRenumber | internal/core/doctor.go:137-166 | The plan is one reservation per loser, group by group; nothing comes back only for an id outside the grammar or exhausted ranges, so a user without a block always gets a plan |
| RenumberPlan.ReserveAllFresh | internal/core/allocator.go:166-179 | Reservations over one scan never fail without a block, avoid every number in use and are strictly increasing per code |
| RenumberApply.ApplyRenumber | internal/core/doctor.go:189-316 | Without a fault it succeeds exactly when the plan is well formed, its files are there and parse, and the redirect table takes it; then the files are the applied plan; after a failure with a clean undo, or a single fault, they are as before |
| RenumberApply.CheckPlan | internal/core/doctor.go:198-209 | Refuses exactly the plans with an identity step or a file listed twice |
| RenumberApply.StageOthers | internal/core/doctor.go:242-280 | Stages exactly the other scanned files that name a renumbered id, with the references repointed |
| RenumberApply.StageRedirects | internal/core/doctor.go:327-358 | Stages the redirect table with one edit per old id in order, or nothing when no edit changes it; without a fault it refuses exactly a table that cannot take the pairs |
| Backlog.ScanItems | internal/core/allocator.go:463-490 | The scan holds every item file with an id exactly once, in path order, and fails only after a fault |
| Backlog.LayoutValid | internal/core/allocator.go:493-497 | Item files, project.yaml and the temporary names of atomic writes never meet |
| Backlog.ItemFileMeans | internal/core/allocator.go:463-495 | The item files are those in the five folders that end in .md and are not hidden |
| Backlog.ScanMeans | internal/core/allocator.go:497-530 | A scan reads the declared id, or else the one the file name starts with, and the title and date |
| Items.Draft.RewriteReferences | internal/core/doctor.go:362-391 | Repoints parent, epic, milestone, links and body, and reports exactly the references it changed |
| Items.RewrittenNamesNoOldId | internal/core/doctor.go:362-391 | A rewritten item names no replaced id in any reference or wikilink, and keeps id, title, date, other fields and all text outside link targets |
| Items.RewrittenPointsOn | internal/core/doctor.go:362-391 | Each reference of a rewritten item, field, link or wikilink, is the new id where the mapping has one for the old reference and the old reference otherwise; link kinds, title, date and other text stay |
| RepairExact.UpdatesMean | internal/core/doctor.go:362-391 | The report holds exactly the fields, links and wikilinks that name a renumbered id, each under its field name with the id that replaces it |
| Items.NoUpdatesNoChange | internal/core/doctor.go:362-391 | An item with nothing to report is left exactly as it is |
| Wikilinks.RewriteWikilinks | internal/core/doctor.go:393-419 | One pass gives the rewritten body and exactly the replaced ids among its link targets |
| Wikilinks.RewriteRetargets | internal/core/doctor.go:393-419 | Reading the rewritten body gives the old targets each repointed, and the text around the targets is the same |
| Wikilinks.RewriteFixes | internal/core/doctor.go:393-419 | A body with no link to a replaced id comes back unchanged |
| Wikilinks.LinkRewritten | internal/core/doctor.go:393-419 | A link to a replaced id leads to the new one whether brackets, a text or an anchor close its target |
| Ids.ParseFormat | internal/core/ids.go:86-104 | Parsing undoes formatting for every valid key, code and number |
| Ids.ParsesExactly | internal/core/ids.go:40-97 | A text reads as an id exactly when it spells it: key grammar, type letters, at least four digits |
| Ids.TypeSpelled | internal/core/ids.go:43-84 | The letters of each item type, and none for a comment |
| Ids.FormatWidth | internal/core/ids.go:86-104 | A formatted number has four digits, and more only when it needs them |
| Ids.NameCarriesId | internal/core/ids.go:107-131 | A file name made of a well-formed id and any slug reads back as exactly that id, in its folder |
| Ids.RefRoundTrip | internal/core/team.go:332-356 | A parsed reference renders as the trimmed text and parses to itself |
| Ids.RefParsesExactly | internal/core/team.go:332-356 | A text reads as a reference exactly when, blanks around it aside, it is a key, a slash and an id under that key |
| FileTx.Tx.Commit | internal/core/doctor.go:473-509 | Success is the whole staged outcome. After a failure whose undo went through the files are what the undo makes of the removals done before it, and so the old ones whenever the staged lists are undoable. It fails only after a fault, needs a second one for the undo to fail, and a single fault before a removal makes it fail right there |
| FileTx.Tx.Rollback | internal/core/doctor.go:511-524 | A clean rollback puts back every remembered file and removes every created one, and is clean unless an operation was faulty |
| FileTx.Tx.Write | internal/core/doctor.go:460-469 | Staged paths stay distinct; the last data of a path wins |
| FileTx.WriteFileAtomic | internal/core/store.go:1251-1261 | Either the file has its new content or no file but the temporary one changed; it fails exactly after a fault |
| FileTx.UndoComplete | internal/core/doctor.go:511-524 | Undo lists that are recoverable lead back to the old files, whatever part of the commit was done |
| FileTx.UndoneExactly | internal/core/doctor.go:475-524 | A clean undo restores the old files, wherever among the removals a fault strikes, exactly when no file that existed is written with other data and removed, besides by the last removal |
| FileTx.UndoLosesOld | internal/core/doctor.go:475-524 | A commit that writes a file anew and removes it and another, with a fault at the second removal: it fails, its undo goes through, and the file holds the staged data |
| YamlPath.SetThenGet | internal/core/allocator.go:556-598 | After an edit the path reads as the value |
| YamlPath.OthersUnchanged | internal/core/allocator.go:556-677 | Every path that is neither a prefix nor an extension of the edited one reads as before |
| YamlPath.SetTwice | internal/core/allocator.go:556-598 | Repeating an edit changes nothing |
| YamlPath.RefusedExactly | internal/core/allocator.go:556-677 | An edit is refused exactly when a proper prefix of the path holds a node that is neither a mapping nor blank |
| YamlPath.PutLast | internal/core/allocator.go:648-658 | A new key goes to the end of its mapping |
| YamlPath.PutThere | internal/core/allocator.go:648-658 | A key that is there is replaced where it stands first, and the other entries keep their places |
| YamlPath.RecordsEveryPair | internal/core/doctor.go:327-358 | After recording a mapping every old id redirects to its new one |
| YamlPath.RecordKeepsEarlier | internal/core/doctor.go:327-358 | Redirects of other ids survive |
| YamlPath.RecordTwice | internal/core/doctor.go:327-358 | Recording what is already recorded leaves the document alone |
| Allocator.Allocator.Next | internal/core/allocator.go:151-213 | Next is one step of the protocol: the number is remembered before the counter write, and nothing is handed out when that write fails |
| Allocator.Allocator.Peek | internal/core/allocator.go:156-164 | Shows the next number and changes nothing |
| Allocator.Allocator.ReserveNext | internal/core/allocator.go:166-179 | The planning step: no key condition, no counter |
| Allocator.Allocator.NextNumber | internal/core/allocator.go:215-255 | The loop computes the first number free in the ranges of the user, or else one above all numbers, the hint and every block |
| Allocator.Allocator.Reconcile | internal/core/allocator.go:364-416 | Reports exactly the hints below the scan and raises them, or keeps the state when the write fails |
| Allocator.EscapeBlocks | internal/core/allocator.go:245-255 | The escape loop finds the least number from its start that no block holds; from above every block it exits at once |
| Allocator.NextInRanges | internal/core/allocator.go:293-306 | The loop over the ranges gives the first free number in order, or nothing |
| AllocationRuns.NumbersIncrease | internal/core/allocator.go:151-255 | Without a user block, in every run of every operation over any files the numbers of a code strictly increase |
| AllocationRuns.GivenExceedsAllSeen | internal/core/allocator.go:215-255 | A number handed out exceeds every scanned number, both sides of every redirect, the hint and every blocked range |
| AllocationRuns.GivenIsNew | internal/core/allocator.go:151-255 | In every run a number handed out exceeds what its call scans, the redirects, the blocks, the hint the earlier calls left and every number they handed out for the code |
| AllocationExact.LeastAbove | internal/core/allocator.go:215-291 | A user without a range of the type receives the least positive number above every scanned number of the code, both sides of the redirects, the last one handed out, the hint, every range the project reserves for the type and every range of every other handle |
| AllocationExact.GivenIsLeast | internal/core/allocator.go:151-291 | So does every call of every run, over the files that call scans and the state the earlier calls left |
| AllocationExact.FirstRangeLeft | internal/core/allocator.go:257-306 | A user with ranges receives the first number or the one after the highest in use of one of them, and every range that starts earlier has none left |
| AllocationExact.NoRangeLeft | internal/core/allocator.go:293-306 | And nothing exactly when every range is empty or has its last number in use |
| AllocationExact.NextHands | internal/core/allocator.go:151-213 | Next hands out the number a peek shows exactly with a valid key, a number left and, if counters are written, a successful write; the number is remembered either way and the hint raised on success |
| AllocationRuns.PeekHolds | internal/core/allocator.go:158-213 | A peeked number is the one handed out next, whatever peeks and reconciliations come in between over the same files |
| AllocationRuns.ReconcileKeepsNext | internal/core/allocator.go:364-416 | Repairing the hints changes no number of any user that follows |
| AllocationRuns.ReconcileSettles | internal/core/allocator.go:364-416 | A second reconciliation finds nothing stale and changes nothing |
| AllocationExact.StaleMeans | internal/core/allocator.go:364-416 | A hint is reported exactly when it is negative or some scanned or redirected number is above it |
| AllocationExact.ReconciledMeans | internal/core/allocator.go:364-416 | Afterwards a hint is the least that is no lower than before, than zero and than every scanned or redirected number |
| AllocationRanges.ExhaustedExactly | internal/core/allocator.go:293-306 | Exhaustion is reported exactly when every non-empty range has its last number taken |
| AllocationRanges.DisjointUsersNeverMeet | internal/core/allocator.go:215-306 | Users with disjoint blocks never receive one number, whatever files and histories their clones have |
| AllocationRanges.NoBlockLandsAbove | internal/core/allocator.go:229-291 | A user without a block lands above every block, and so never on a number of a user with one |
| AllocationRanges.NeverRepeatsExactly | internal/core/allocator.go:215-306 | No number of a code comes twice in a process, whatever files come and go and however the ranges overlap, exactly when all usable ranges end with the same number |
| AllocationRanges.OnDiskNeverRepeats | internal/core/allocator.go:215-306 | With any ranges or none, a number whose file is on disk for a later call is not handed out by that call |
| BoardOrder.Order.Set | internal/core/board.go:192-200 | Sets a list and appends a new column to the order; the columns stay the keys of the map |
| BoardOrder.Order.Remove | internal/core/board.go:204-217 | Filters the reference out of every list in place, whatever the map order |
| BoardOrder.Order.Insert | internal/core/board.go:221-232 | Inserts at the clamped position |
| BoardOrder.EditsKeepValid | internal/core/board.go:154-243 | Every edit keeps the columns equal to the keys of the map, without duplicates |
| BoardOrder.ApplyMove | internal/core/boardview.go:784-819 | In-place removal, insertion and pruning give the moved list |
| BoardOrder.MovePlaces | internal/core/boardview.go:784-819 | The target has the reference at the clamped position, every other declared list is merely filtered, undeclared columns are gone |
| BoardOrder.MovedColumns | internal/core/boardview.go:784-819 | The columns of a moved mapping are the declared ones that had a list, and the target, each once and in the order of the board |
| BoardOrder.MovedOnce | internal/core/boardview.go:784-819 | The moved reference is listed once in the whole mapping: in the target, at the clamped index |
| BoardOrder.MoveTwice | internal/core/boardview.go:784-819 | A repeated move changes nothing |
| BoardOrder.MovesCommute | internal/core/boardview.go:784-819 | Two moves with neither reference in the target of the other commute exactly when the targets differ or exactly one of them appends |
| Boards.WalkCards | internal/core/boardview.go:446-501 | Visits the cloned projects of the scope and then the snapshots of the others |
| Boards.ScopeUnrepeated | internal/core/board.go:330-367 | A scope repeats no project, whatever the board file lists |
| BoardCards.CandidatesApart | internal/core/boardview.go:446-501 | With distinct project keys and item ids no two candidates share a reference |
| BoardCards.SameCandidates | internal/core/boardview.go:446-501 | The same supply in another order offers the same candidates |
| BoardCards.SourcesPermuted | internal/core/boardview.go:446-501 | With one source for each project the order of the sources does not matter |
| BoardShown.SourceIsLast | internal/core/boardview.go:260-263 | Of several sources of a project the last one serves it |
| BoardBuild.BuildBoardView | internal/core/boardview.go:245-420 | Filing candidates, adding placeholders and sorting columns step by step gives the specified render |
| BoardBuild.SortBoardCards | internal/core/boardview.go:505-524 | Splitting into listed and other cards and sorting each half is one sort of the whole: listed first in list order, the others by rank |
| BoardShown.ShowsMaps | internal/core/board.go:62-93 | A column with categories shows exactly the statuses a workflow puts in them; without categories the own list of a project decides if there is one, and the wildcard only if there is none |
| BoardShown.MatchesWanted | internal/core/boardview.go:543-605 | The filters keep exactly an item that is not deleted, passes the list filters, is recent enough, and is not closed unless the board includes closed ones or maps its status |
| BoardShown.LiveShown | internal/core/boardview.go:245-331 | An item of a cloned project stands in the first column that maps its status, or unmapped when none does, exactly when its project is in scope, the board wants it and it is not in the inbox; on a sprint board a stranger stands in the drawer or nowhere; and its card pictures it |
| BoardShown.RemoteShown | internal/core/boardview.go:446-501 | The same for a published entry of a project nobody cloned, with its published category |
| BoardShown.PlaceholderShown | internal/core/boardview.go:336-406 | A reference nothing supplies stands, as a placeholder, in the first column whose list names it, exactly when its project is not cloned and the sprint keeps it |
| BoardShown.ColumnOrdered | internal/core/boardview.go:505-540 | Cards stand in list order, then the others by priority rank, latest update and reference; a column is marked exactly above a positive limit |
| BoardShown.UnmappedOrdered | internal/core/boardview.go:526-540 | Unmapped cards stand by priority rank, latest update and reference |
| BoardFacts.RenderPartitions | internal/core/boardview.go:280-420 | No reference appears twice, and every candidate that matches, and on a sprint board belongs to the sprint, appears in the first column that shows its status, or unmapped |
| BoardFacts.OthersStayAway | internal/core/boardview.go:287-331 | A card shown matched the filters; on a sprint board one outside the sprint stands in the backlog column only, as a sprint candidate |
| BoardFacts.PlaceholdersOnlyForUnresolved | internal/core/boardview.go:336-406 | Any other card is a placeholder for a reference that parses, whose project is neither cloned nor resolved, and on a sprint board is in the sprint |
| BoardAgreement.OrderFromView | internal/core/boardview.go:824-834 | Stores for each declared column exactly the references the view shows, in order |
| BoardAgreement.OrderAgrees | internal/core/boardview.go:505-526 | Storing the order a view shows and rendering again gives the same view |
| BoardAgreement.ListingOrderIrrelevant | internal/core/boardview.go:408-420 | Permuting sources, items and snapshot entries changes neither the columns nor the unmapped cards |
| BoardAgreement.SmallerRankFirst | internal/core/boardview.go:526-540 | Of two cards of a column that the list does not name, the one with the smaller priority rank stands first: low before critical |
| BoardMove.PlanMoveInSprint | internal/core/boardview.go:702-778 | The search and the branches give the specified outcome: the refusals in their order, the picked status and the cards after the move |
| BoardPlan.UnseenRefused | internal/core/boardview.go:703-735 | Refused for the column exactly when no column has the id, and for the card exactly when one has and the view does not show the reference |
| BoardPlan.RefusedExactly | internal/core/boardview.go:736-772 | Of a shown card: read-only exactly when it is remote and would change column, other than from the drawer into the sprint; not mapped exactly for a requested status the column lacks while mapping others; without status exactly when none is requested and a column that maps none is entered |
| BoardPlan.AcceptedPlan | internal/core/boardview.go:736-779 | The accepted status is its own for a remote card leaving the drawer, else the requested one, else its own inside its column, else the first the deciding list or the workflow gives; with the columns, the change mark, the sprint mark and the choices |
| BoardPlan.AcceptedCount | internal/core/boardview.go:714-779 | The planned count is the cards the target shows and one more for a card from elsewhere, marked exactly above a positive limit |
| BoardPlan.RemoteStays | internal/core/boardview.go:740-779 | An accepted remote card stays in its column or leaves the drawer with its status; in its own column its status changes exactly when another one is requested |
| BoardPlan.UnclonedStays | internal/core/boardview.go:740-754 | In every render a card of a project nobody cloned never changes column, other than from the drawer into the sprint |
| BoardSound.MoveIsSound | internal/core/boardview.go:693-834 | Take the view, store its order, plan a move of a live card, write the status, apply the move, render again: if the target is the first column showing the status, the card stands there at the clamped position, every other card keeps column and relative order and the count is as planned; if not, the card is not in the target |
| BoardSound.MovedPosition | internal/core/boardview.go:784-794 | The planned position, spelled out: the card at the clamped index of the other cards |
| BoardSound.UnambiguousMove | internal/core/boardview.go:702-778 | On a board without an ambiguous status the planned move lands exactly when the target maps some status of the project; a card from elsewhere is accepted into a column that maps none only under an explicit status, and is not there afterwards |
| BoardUnstored.MovedPlace | internal/core/boardview.go:784-819 | After a move into any stored list, the card stands below as many cards as its column shows of those the list names above the place asked for |
| BoardUnstored.MoveAsStored | internal/vault/board.go:498-612 | The move as it runs, without storing the view: the card stands at that count in the target, every other card keeps column and relative order and the count is as planned; or the card is not in the target |
| BoardUnstored.LandsExactly | internal/vault/board.go:498-612 | What the planner predicts holds exactly when that count is the clamped position, which a caller can count before the move |
| BoardUnstored.UnlistedMoveGoesFirst | internal/vault/board.go:498-612 | Into a column without a stored list the card goes first, whatever place was asked for |
| BoardUnstored.SecondPlaceMissed | internal/vault/board.go:498-612 | Two unlisted cards in one column: one moved to the second place stands first |
| BoardSound.ReplacedInPlace | internal/core/boardview.go:446-501 | Replacing an item of a source at its place is the item write the move theorems speak of, and the supply stays in order |
| BoardSound.RefsReadSoundly | internal/core/team.go:332-356 | References read as the board needs it: the project has no slash and the text reads back |
| BoardValidate.AmbiguousStatuses | internal/core/board.go:651-668 | Finds exactly the statuses of a project that are listed twice over the columns, and nothing exactly when there is none |
| BoardValidate.ValidatedIsUnambiguous | internal/core/board.go:651-668 | A board without a finding meets the condition of the move theorem |
| TomlText.ParsePandoToml | cmd/gintrack/agent_merge.go:114-153 | One pass gives the specified sections; an unreadable table header refuses the file |
| TomlText.ParseKeepsLines | cmd/gintrack/agent_merge.go:96-153 | Splitting and flattening is the identity on lines |
| TomlText.TakeLead | cmd/gintrack/agent_merge.go:159-175 | The cut is above the trailing comment block and the blank lines over it |
| TomlText.LeadMeans | cmd/gintrack/agent_merge.go:159-175 | The lead is the comment lines that end the body, all of them, and the blank lines over those, all of them |
| TomlText.BracketDelta | cmd/gintrack/agent_merge.go:177-209 | Counts brackets outside strings, escapes and comments |
| TomlText.PlainDelta | cmd/gintrack/agent_merge.go:177-209 | Outside quotes and comments every bracket and brace counts |
| TomlText.QuotedDelta | cmd/gintrack/agent_merge.go:177-209 | Up to the next quote of the same kind nothing counts |
| TomlText.EscapedDelta | cmd/gintrack/agent_merge.go:177-209 | An escaped character inside double quotes closes nothing |
| TomlText.CommentDelta | cmd/gintrack/agent_merge.go:177-209 | Behind the sign of a comment nothing counts |
| TomlText.QuietDelta | cmd/gintrack/agent_merge.go:177-209 | Blank and comment lines count nothing |
| TomlText.ReadLine | cmd/gintrack/agent_merge.go:114-153 | Every line gets its class and its bracket count, and a blank or comment line has none |
| TomlKeys.FindTomlKey | cmd/gintrack/agent_merge.go:211-253 | The loop finds the first entry of a key with its continuation lines and the comment above, or nothing |
| TomlKeys.MergeSectionKeys | cmd/gintrack/agent_merge.go:429-483 | The loop over the owned keys splices each into the body and collects the reports |
| TomlWhere.MergedThere | cmd/gintrack/agent_merge.go:429-483 | Read off the lines: a key the table lacks goes in past its last line that is neither blank nor a comment, under all comment lines directly above it in the template; one that counts as unset is overwritten in place, with those comments exactly when the user has none above it; any other leaves the lines alone |
| TomlWhere.InsertedUnderComments | cmd/gintrack/agent_merge.go:429-483 | After all owned keys are merged, each inserted one still stands under exactly the comment lines of the template |
| TomlKeep.KeyOutcomes | cmd/gintrack/agent_merge.go:429-483 | Each owned key the template renders is agreed, inserted, overwritten where unset, or kept; every other key keeps its lines |
| TomlKeep.KeyReports | cmd/gintrack/agent_merge.go:429-483 | The reports are exactly the owned keys kept with another value, with the lines of the user |
| TomlKeep.NothingLost | cmd/gintrack/agent_merge.go:429-483 | Every line of a table survives in order, besides owned keys whose value counts as unset |
| TomlKeep.AllLinesKept | cmd/gintrack/agent_merge.go:429-483 | Where no value counts as unset, that is every line |
| TomlKeep.MergeKeysTwice | cmd/gintrack/agent_merge.go:429-483 | Merging the keys again changes nothing and reports the same |
| TomlShape.JunctionIff | cmd/gintrack/agent_merge.go:159-175 | Exactly when the lines of a lead are told apart from the body above |
| TomlSettle.ReadSettled | cmd/gintrack/agent_merge.go:114-175 | Laid-out tables are read back with the quiet lines at a seam moved to the table below, where the seam cannot be told, and nothing else changed |
| TomlSettle.ReadBack | cmd/gintrack/agent_merge.go:114-175 | Laid-out tables are read back as the very same tables exactly when every two neighbours are told apart |
| TomlMerge.MergePandoToml | cmd/gintrack/agent_merge.go:328-405 | Lifting the owned tables, folding the template in and putting the pieces together gives the specified file |
| TomlExact.MergedLayout | cmd/gintrack/agent_merge.go:328-405 | The result is the tables of the user above the first owned one, the owned tables of the template, the other tables of the user, and the tables the file lacks, each in their order |
| TomlExact.ResultMeans | cmd/gintrack/agent_merge.go:392-404 | The lines of the result are those of its tables without the empty ones at the end, and one empty line if there is no other |
| TomlExact.FoldReports | cmd/gintrack/agent_merge.go:368-383 | The reports are exactly the owned keys that both a template table and the first kept table of its name have, with values that differ, the one of the user set |
| TomlStable.SectionsTwice | cmd/gintrack/agent_merge.go:328-405 | Merging the same template into the merged tables gives the same tables and the same reports |
| TomlTwice.MergeTwice | cmd/gintrack/agent_merge.go:328-405 | Merging twice is merging once, lines and reports, exactly when the last owned table of the template is told apart from the table below the owned ones of the file; otherwise the second merge makes the file longer |
| TomlLoss.FileLosesNothing | cmd/gintrack/agent_merge.go:328-405 | Every line of the tables that are not owned outright is in the result in order, besides unset owned keys and empty lines at the end |
| TomlAgent.OnlyAguiLoses | cmd/gintrack/agent_merge.go:408-483 | Under the rules of the program every table but [AGUI] keeps every line, and [AGUI] all but its owned keys with a zero value |
| TomlAgent.AgentLosesNothing | cmd/gintrack/agent_merge.go:328-427 | Merging a file under those rules keeps, in order, every line of the tables not owned outright, besides zero owned keys of [AGUI] and empty lines at the end |
| TomlAgent.AgentTwice | cmd/gintrack/agent_merge.go:26-90 | Under the rules of the program merging twice is merging once exactly when the file settles, and otherwise the file grows |
| TomlAgent.StubRepeats | cmd/gintrack/agent_merge.go:328-405 | A file whose tables have no blank line between them and a template whose server table ends in a comment block under a blank line: the second merge makes the file longer than the first |
| TomlAgent.NoteForever | cmd/gintrack/agent_merge.go:328-405 | With a comment right below the last key of that table every merge adds one more line to the file, after any number of them |
| MemoryFS.MemFS.WriteFile | internal/core/fs.go:120-137 | Replaces the file and makes the folders above it, or refuses a read-only mount |
| MemoryFS.MemFS.Remove | internal/core/fs.go:139-165 | Deletes a file or a folder without files below it, and says which case it was |
| MemoryFS.MemFS.Rename | internal/core/fs.go:167-189 | Moves a file and makes the folders above its new name |
| MemoryFS.EffectAt | internal/core/fs.go:120-189 | What a write, a removal, a move and a new folder do to each path |
| MemoryFS.MemFS.ReadDir | internal/core/fs.go:227-272 | Where no file is a folder, the file entries are exactly the files of the folder and the folder entries the known folders |
| Overlay.OverlayFS.Rename | cmd/gintrack/overlayfs.go:109-120 | A buffered move does to the buffer what the step says, and succeeds exactly when the file can be seen |
| Overlay.OverlayFS.Changes | cmd/gintrack/overlayfs.go:44-65 | The list replays, on the base, to what the overlay shows |
| Overlay.ChangesMean | cmd/gintrack/overlayfs.go:44-65 | The list holds exactly the removals of touched paths the base knows and the new contents of touched paths |
| Overlay.ChangesOrdered | cmd/gintrack/overlayfs.go:44-65 | In the order of the first touches |
| Overlay.StepListed | cmd/gintrack/overlayfs.go:67-140 | Each operation lists the paths it touches once, behind the earlier ones, and a new folder is remembered with every folder above it |
| Overlay.OverlayFS.ReadDir | cmd/gintrack/overlayfs.go:141-179 | Over a base where no file is a folder: a file is listed exactly when it can be seen and nothing was removed or made at its name or below or written below; no name with a removal below it is listed at all |
| Overlay.RunSimulates | cmd/gintrack/overlayfs.go:77-120 | Any run of writes, removals, file moves and new folders reads through the overlay as it does on the base |
| Overlay.MkdirStepSimulates | cmd/gintrack/overlayfs.go:196-202 | A new folder leaves the view alone exactly when no removed base file is on its way |
| Overlay.ReplayIsView | cmd/gintrack/overlayfs.go:44-65 | Replaying the reported changes gives exactly the view |
| Overlay.DryRun | cmd/gintrack/overlayfs.go:35-120 | A dry run leaves the base alone and its change list does to it what the operations would have done |
| Overlay.ChangesDistinct | cmd/gintrack/overlayfs.go:67-74 | Each path is reported once at most, and only if touched |
| Overlay.RemovalBelowHides | cmd/gintrack/overlayfs.go:141-179 | The only file of a folder is removed and a file takes its place: the file can be read, and the listing lacks it |
| Budget.FitBudget | internal/core/budget.go:149-168 | For a growing cost the binary search gives the largest page within the budget, or one entry when none fits; always at least one entry |
| Budget.EstimateCovers | internal/core/budget.go:70-77 | An estimate is the least number of tokens of three bytes that covers the text |
| Budget.LargestIsUnique | internal/core/budget.go:149-168 | At most one page size is the largest |
| Budget.SettleTokens | internal/core/budget.go:132-140 | The loop ends; the number covers the page that shows it, and from zero it is the least such number |
| Budget.CursorResumes | internal/core/budget.go:88-118 | The cursor of a page opens the next run of the same entries, and is refused for another fingerprint or for fewer entries than were shown |
| Budget.RenderPage | internal/core/impactreport.go:124-157 | The page is the next run of entries, never empty before the end, with a cursor exactly when entries remain |
| Budget.Walk | internal/core/impactreport.go:124-157 | Following the cursors with any budgets ends and yields every entry once, in order |
| FrontMatter.SplitFile | internal/core/frontmatter.go:71-100 | The steps give the specified split: byte order mark, line ends, fences, trimmed body and its line |
| FrontMatter.IndexClosingFence | internal/core/frontmatter.go:103-121 | The loop finds the first fence line |
| FrontMatterExact.SplitMeans | internal/core/frontmatter.go:71-121 | A file splits exactly when it opens with a fence and a line of three dashes and blanks follows; it is not closed exactly when none follows or it is the opening fence alone |
| FrontMatterExact.SplitsAtFirst | internal/core/frontmatter.go:71-121 | The block stands above the first such line, and the body below it without the line feeds at its ends |
| FrontMatterExact.CrLfIsLf | internal/core/frontmatter.go:71-76 | A CR LF becomes a LF whatever stands around it |
| FrontMatter.RoundTripExactly | internal/core/frontmatter.go:527-541 | Splitting an assembled file gives back block and trimmed body exactly when the block is terminated and has no fence line or CR LF and the laid-out body has no CR LF |
| FrontMatterExact.AssembledAs | internal/core/frontmatter.go:527-541 | A file is assembled as fence, block, fence and, behind an empty line and with a line feed, the trimmed body if there is one |
| FrontMatter.TrailingCrIsLost | internal/core/frontmatter.go:527-541 | A body ending in a lone CR does not come back |
| FrontMatter.BodyLineIsTrue | internal/core/frontmatter.go:61-100 | For every file with a body the reported line is the 1-based line of its first character |
| Registry.ValidateRepos | internal/config/validate.go:233-262 | Silent exactly when every repository entry is fine |
| Registry.ValidateWorkspaces | internal/config/validate.go:266-296 | Silent exactly when names are distinct, members known and the default exists |
| Registry.AddedValid | internal/config/repo.go:118-165 | Adding keeps a valid configuration valid exactly when the documentation folder is relative |
| Registry.RemovedValid | internal/config/config.go:651-676 | Removing keeps a valid configuration valid |
| Registry.RunKeepsValid | internal/config/repo.go:118-165 | Any run of admitted registrations, removals and new workspaces keeps both validators silent |
| Registry.AddedIsShown | internal/config/repo.go:137-165 | An added repository is shown by the workspace it joined |
| Registry.AddedJoins | internal/config/repo.go:128-165 | A registration puts the repository last; the first workspace of the name that lists members lists the id too, an unknown name becomes an empty workspace, and all else stays |
| Registry.ShowsDisplays | internal/config/config.go:700-741 | A workspace displays an enabled repository exactly when it lists it, lists nothing or is not there; an empty name stands for the default, else the first, else the usual one |
| Registry.ShownPart | internal/config/config.go:712-741 | The repositories shown are the displayed ones in registration order |
| Registry.RemovedIsGone | internal/config/config.go:651-676 | A removed id names no repository and is in no workspace |
| Registry.RemovedParts | internal/config/config.go:651-676 | A removal keeps the other repositories, and the other ids of every workspace, in their order |
| Registry.LastMemberWidens | internal/config/config.go:651-676 | A workspace that listed members stands for every repository after a removal exactly when the removed one was its only member |
| Registering.FreeId | internal/config/repo.go:170-191 | The id is free, the first candidate that is, and found within one try more than there are repositories |
| Registering.CleanFolders | internal/config/repo.go:203-218 | The loop gives the cleaned folders |
| Registering.CleanedMeans | internal/config/repo.go:203-218 | Each folder that stays inside, once, in the order of the first entries |
| Registering.WithFolder | internal/config/repo.go:222-233 | The folder leads the list and the others follow in their order, each once; an escaping folder leaves the list alone |
| Registering.ChooseDocs | internal/config/repo.go:103-114 | The folder asked for, else the first declared one, else the detected one, else docs; absolute exactly when an absolute one was asked for |
| Registering.Configuration.AddRepo | internal/config/repo.go:74-191 | Refusals change nothing and name the reason; a registration has the path, role and folders of the request and the requested id, or the fallback, or its first free numbered variant; it is one step of the registry, keeps it valid exactly for a relative folder, and is shown |
| Registering.Configuration.RemoveRepo | internal/config/config.go:651-676 | Drops the repository and its id from every workspace, and reports whether it was there |
| Registering.Configuration.WorkspaceRepos | internal/config/config.go:712-741 | The enabled members in registration order; a workspace that lists none, or an unknown one, stands for all |

## Left out

- RenumberApply.ApplyRenumber: an item that cannot be serialised, the comment folders that are only warned about (and
  the `Stat` that finds them) and the result's lists of references and warnings are not modelled; how a file that does
  not parse is rewritten is a parameter.
- RepairRun.RepairDuplicates: the command line first keeps the duplicates of one project key; the model repairs all of
  them. Its theorem asks that every item file parses, because the rewriting of one that does not is a parameter.
- YamlPath.SetThenGet: edits are on the tree of mappings and scalars; the splice into the bytes, comments, styles and
  anchors are not modelled.
- Overlay.OverlayFS.ReadDir: which folders are listed is specified only in so far as a removal hides them; a name both
  written and written below is listed as a file or a folder by the order of a map.
- AllocationRanges.NeverRepeatsExactly: ranges that start below zero are left out, since no id carries such a number.
- TomlTwice.MergeTwice: stated for files with bare keys and balanced brackets whose tables do not end in a blank line,
  and for templates that are set off by blank lines and name a table with owned keys once, as the program's own is.
- MemoryFS.MemFS.Rename: moving a folder is not modelled, nor is the removal of the root.
- BoardSound.MoveIsSound: stated for kanban boards and live cards; on a sprint board the move also writes the sprint.
- BoardValidate.AmbiguousStatuses: one project at a time; the validator's other findings are list checks.
- Registering.FreeId: the slug of the wanted name and of the folder's name is given by the caller.
- Registering.Configuration.AddRepo: the checks of the disk (is it a folder, is it under version control) and the
  detection of folders and roles happen before the modelled part.
- Wikilinks.RewriteWikilinks: the pattern is modelled as a scan for two brackets and a run of target characters.
- Integers are unbounded; overflow of a 64-bit number and of the digits of an id is not modelled.
- Text is a sequence of characters; case folding and slugs are parameters or left out. Trimming takes off the white
  space of Unicode.
- The list filters of a board are a parameter; the display fields of a card, its reasons, the diagnostics of a render
  and the sprint metrics are left out as they only copy or count.
- The patterns that recognise a table header and a bare key, and the normalised value of a key, are parameters.
- JSON, base64url and hashes: a cursor is a token that carries its offset and its fingerprint.
- Parsing and serialising items, clocks and file times, path cleaning (paths are lists of names in the overlay), locks:
  each allocator call is one step.
- Sorting of user ranges that overlap in their first number: the order among equals is left to the sort.
- Conflict resolution, freshness, external trackers, the server, the command line and the web client.
