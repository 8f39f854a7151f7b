# Verified model of the node tooling

A Dafny model of the stateful core of the node command line, with proofs that
hold for every input, every interruption and every reply. `dafny verify
dfyconfig.toml` checks all of it.

**The checkpoint transaction** (`FileTree`, `Disk`, `Fsutil`, `Layout`,
`PlaceOps`, `CheckpointSpec`, `RealPaths`, `Restore`, `Install`, `Transaction`,
`ServiceRun`). The filesystem is one mutable tree inside a class. Every change
spends a step of a budget, so a budget of *n* steps is a crash, or an operating
system error, after exactly *n* changes, also in the middle of a recursive
delete. `Layout` looks at the tree through seventeen separate places: the live
items, the keys, the backup, the receipt and the stage. `Recoverable` is the
invariant of the interrupted transaction, `AllSaved` that of the installed one,
`RollbackCut` that of an interrupted rollback of the latter, and `Honest` says
what each receipt state promises. From these follow: an installation stopped
anywhere can be undone completely, any number of interrupted rollbacks of it can
be resumed, and one uninterrupted rollback of an installed checkpoint undoes it
whatever the services have done since, under a condition that is exact.
`RealPaths` states these promises once more at the paths an operator sees, and
the commands are proved to keep them there.

**node.env** (`EnvGrammar`, `NodeEnvParser`, `EnvMeaning`, `EnvPrinter`,
`EnvRules`, `ShellExport`, `Schema`, `UnitArguments`, `Pieces`). The
line-indexed parser is proved equal to a character automaton. The automaton is
compared with the documented grammar, as a whole and rule by rule
(`EnvRules`), printing with parsing, and the shell export with a model of the
shell's quoting rules (sections 2.2.2 and 2.2.3 of the Shell Command Language,
POSIX.1-2017). `Schema` models the conditional keys and the rules across keys,
`UnitArguments` the settings that hold whole command-line arguments.

**Node ids** (`ModArith`, `Secp256k1`, `NodeId`). Point addition modulo a prime
(section 2.2.1 of SEC 1 version 2.0), from the extended Euclidean algorithm up,
and the double-and-add loop with the constants of section 2.4.1 of SEC 2
version 2.0.

**Services and onboarding** (`Systemd`, `Onboarding`). Starting and stopping a
node against a service manager that may fail at any request, and the twofold
polling of a validator's status against any stream of replies.

**Acceptance** (`Decimals`, `Acceptance`, `Archive`, `Download`). From choosing
an epoch and downloading, through the installer's checks, to the check before a
start and the runner's own check, each step's acceptance implies the next.

## Where the code and its documentation differ

- A line of node.env is stripped before its value is read, so a line that ends
  in an escaped blank continues on the next line, and a multi-line quoted value
  loses blanks at the end of its first line. The documented grammar says
  neither. `Clean` is the exact condition, among the texts the grammar accepts,
  under which the parser keeps to it (`ParseClean`).
- Running an interrupted rollback of an *installed* checkpoint again deletes
  children that the first run had put back. `RunInterruptedRollbackAgain` is
  such a run, `RollbackNeedsEveryChild` says when running it again is right, and
  `RunAgainWhileNoneReturned` how an operator can tell.
- A link left at a recorded path makes every rollback refuse, with nothing changed,
  until it is removed (`RollBackPastLink`).
- A directory in place of a saved input file makes a rollback fail after it has
  returned the children (`RollbackCheckpoint`, `RefusedRollbackLosesChildren`).
- The list of condition inputs says all of them are unconditional;
  `CHECKPOINTER_INSTALL_METHOD` is not. `SchemaIsGuarded` shows why that is
  harmless.
- The download accepts a manifest with an empty archive and the installer
  refuses it (`ResolveAndVerify`).

## Model

| member | source | states |
|---|---|---|
| `FileTree.ApartIffIncomparable` | tools/seismic_node/fsutil.py:113-138 | two paths are apart exactly when neither is a prefix of the other, the equal-or-nested test on both sides |
| `FileTree.ApartBelow` | tools/seismic_node/fsutil.py:122-138 | whatever lies below two separate paths is separate too: the reason a prefix check on seven paths protects whole trees |
| `Fsutil.RequireSeparatePaths` | tools/seismic_node/fsutil.py:122-138 | accepts a list of paths exactly when no two are equal or nested |
| `Fsutil.FreshStageOverlap` | tools/seismic_node/checkpoint.py:949-954 | a stage freshly made beside the Reth data directory overlaps a path kept apart from that directory only if that path lies inside the stage's own random name, and then the path did not exist |
| `FileTree.SafePathPut` | tools/seismic_node/fsutil.py:80-99 | putting a node elsewhere leaves the directories above a path as safe as they were |
| `FileTree.SafePathByPrefix` | tools/seismic_node/fsutil.py:80-99 | the check of a path's parents looks at every path from the root down: nothing there, or a directory without write bits for the group and the others |
| `FileTree.ResolvesByPrefix` | tools/seismic_node/checkpoint.py:776-787 | a path resolves to itself exactly when no path from the root down to it is a link |
| `FileTree.SharedWritableDigits` | tools/seismic_node/fsutil.py:88-93 | of the octal permission digits, the write bits of the group and of the others are what is refused |
| `Layouts.ClearAfterPut` | tools/seismic_node/checkpoint.py:414-429 | a change at one place blocks no parent path and makes no safely placed file unsafe |
| `Layouts.ClearIsSafe` | tools/seismic_node/checkpoint.py:618-624 | a file of which a saved copy exists was found safely placed, so a restoration can write it again |
| `Layouts.SeparateBases` | tools/seismic_node/checkpoint.py:917-927 | eight separate base paths make all seventeen places of the transaction pairwise separate |
| `RealPaths.PlacePaths` | tools/seismic_node/checkpoint.py:540-656 | where each of the seventeen places is, by name: the two Reth trees, the Summit store, the inputs, every saved copy, the receipt and the staged trees |
| `Layouts.ViewPut` | tools/seismic_node/checkpoint.py:452-462 | putting a tree at one place changes that place of the view and no other, and blocks no parent path |
| `Layouts.ViewDel` | tools/seismic_node/checkpoint.py:465-470 | deleting a place removes it from the view and changes no other place |
| `Layouts.ViewPutChild` | tools/seismic_node/checkpoint.py:452-462 | putting one child of a directory at a place changes that entry only |
| `Layouts.ViewMakeDirs` | tools/seismic_node/checkpoint.py:454-454 | creating missing parents of a place changes nothing at any place |
| `Disks.Disk.MakeDirectories` | tools/seismic_node/checkpoint.py:454-454 | missing parents are created topmost first; cut, some leading part of them exists; refused exactly when a file or link is in the way |
| `Disks.Disk.RemoveTree` | tools/seismic_node/checkpoint.py:465-470 | complete, the subtree is gone and nothing else; cut inside the recursive delete, what is left is still a node of the same kind at that path and everything else is as it was |
| `Disks.Disk.RemovePath` | tools/seismic_node/checkpoint.py:465-470 | as the recursive delete, and nothing happens when the path does not exist |
| `Disks.Disk.MovePath` | tools/seismic_node/checkpoint.py:452-462 | a rename happens in one step or not at all, only onto a free destination; the moved subtree is unchanged |
| `Disks.Disk.AtomicWrite` | tools/seismic_node/checkpoint.py:414-449 | a file is replaced by the given content and mode in one step or is as before; it is refused for a directory, and before anything is created for a link or when others may change a directory above it |
| `Disks.Disk.MakeDirectory` | tools/seismic_node/checkpoint.py:537-537 | one directory is made with the given mode, or nothing changes; refused exactly when the name is taken or the parent is missing |
| `Disks.Disk.CopyFile` | tools/seismic_node/checkpoint.py:619-624 | a regular file is copied with its mode onto a free name; cut, nothing has happened |
| `PlaceOps.MovePlace` | tools/seismic_node/checkpoint.py:452-462 | moving one place to another removes it there, adds the same tree here, and leaves every other place |
| `PlaceOps.MoveChild` | tools/seismic_node/checkpoint.py:604-613 | moving one Summit child between store and backup moves exactly that entry |
| `PlaceOps.RemoveChild` | tools/seismic_node/checkpoint.py:679-683 | removing a Summit child, even cut in the middle, changes no other child and no other place |
| `PlaceOps.WritePlace` | tools/seismic_node/checkpoint.py:432-449 | writing a place sets that file, creates its parents if needed, and leaves every other place |
| `CheckpointSpec.RestorationUndoesInstall` | tools/seismic_node/checkpoint.py:662-722 | from every recoverable state a complete restoration gives back all six items, content and mode, absent ones absent, and leaves a state from which restoring again does the same |
| `CheckpointSpec.RollbackUndoesInstalled` | tools/seismic_node/checkpoint.py:679-722 | with everything saved, a complete rollback gives back all six items whatever the live places hold, and the Summit store holds nothing new but the lock file |
| `CheckpointSpec.NoChildLost` | tools/seismic_node/checkpoint.py:679-692 | wherever a rollback of an installed receipt was cut, every original child is in the backup as it was, or no longer there and back in the store as it was |
| `CheckpointSpec.RollbackNeedsEveryChild` | tools/seismic_node/checkpoint.py:662-722 | from every state such a rollback may be cut in, running it again to its end gives back all six items if and only if every original child is still in the backup |
| `CheckpointSpec.RunAgainWhileNoneReturned` | tools/seismic_node/checkpoint.py:679-722 | the same as a check a caller can make: the listing of the saved children is the one from before the first attempt, so no child has been moved back yet |
| `CheckpointSpec.ReturnedChildrenStay` | tools/seismic_node/checkpoint.py:679-722 | once a child has been moved back, a restoration that removes no live children gives back all six items |
| `CheckpointSpec.CutRollbackLosesChild` | tools/seismic_node/checkpoint.py:666-688 | for every saved child: the state after the Reth items, the clearing and that child keeps every original, and running the rollback again loses the child, so resumability fails there |
| `CheckpointSpec.RestoredItems` | tools/seismic_node/checkpoint.py:666-722 | what a complete restoration leaves at each item: the saved tree, else the live one if the item existed before, else nothing |
| `CheckpointSpec.RestoredRest` | tools/seismic_node/checkpoint.py:666-722 | a complete restoration leaves keys, receipt and the copied inputs in the backup as they are and empties the other saved places |
| `CheckpointSpec.ReceiptWritten` | tools/seismic_node/checkpoint.py:725-733 | rewriting the receipt changes none of the promises about trees |
| `Restore.LiveItemIsExpendable` | tools/seismic_node/checkpoint.py:666-700 | an item that is saved, or was absent, may be lost or changed at its live place and no item is lost |
| `Restore.ItemMovedBack` | tools/seismic_node/checkpoint.py:666-677 | moving a saved item back keeps every item: it is now in its live place and no longer in the backup |
| `Restore.ItemMovedAway` | tools/seismic_node/checkpoint.py:596-602 | moving or copying an original item into the backup keeps every item |
| `Restore.ChildMoveKeeps` | tools/seismic_node/checkpoint.py:604-613 | moving a Summit child either way keeps every original child in exactly one of store and backup, and finds its destination free |
| `Restore.KeptDoesNotCollide` | tools/seismic_node/checkpoint.py:684-688 | in a recoverable state no saved child finds its live place taken |
| `FileTree.NodesInStep` | tools/seismic_node/checkpoint.py:465-470 | the number of steps a recursive delete takes does not depend on its order |
| `Restore.ClearStore` | tools/seismic_node/checkpoint.py:679-683 | removes every Summit child but the lock, in as many steps as they have nodes; cut, some children are gone, one perhaps in part, and all others and all other places are as they were |
| `Restore.ReturnChildren` | tools/seismic_node/checkpoint.py:684-692 | moves every saved child back exactly when no live place is taken; cut or refused, some children are back, the others still saved, each as it was |
| `Restore.RestoreMovedItem` | tools/seismic_node/checkpoint.py:666-677 | one moved item is restored as specified, in a known number of steps; cut anywhere, no item is lost |
| `Restore.RestoreCopiedItem` | tools/seismic_node/checkpoint.py:702-722 | one copied input is rewritten from its copy, or removed, whatever it is, when it did not exist; refused exactly when a saved one finds something that is no file in its place; cut anywhere, no item is lost |
| `Restore.RestoreSummitStore` | tools/seismic_node/checkpoint.py:679-692 | the Summit part of a restoration: cut with removal of new children, all originals are still saved or each is in exactly one of store and backup; with the steps of the clearing and one more, exactly one child is back |
| `Restore.ClearedIsKept` | tools/seismic_node/checkpoint.py:679-688 | a cleared store with every child saved has each original child in exactly one place |
| `Restore.PartlyReturnedKeeps` | tools/seismic_node/checkpoint.py:684-692 | while children are returned, each original child stays in exactly one of store and backup |
| `Restore.RestoreBackup` | tools/seismic_node/checkpoint.py:662-722 | complete, it computes the specified view; cut at any step of an interrupted installation the state stays recoverable; cut at any step of an installed rollback no original is lost; uncut it fails exactly when a saved child or input finds its place taken, in a known state; keys, receipt and lock are never touched |
| `RealPaths.HonestIsAtPaths` | tools/seismic_node/checkpoint.py:588-733 | what a receipt state promises, at the paths an operator sees: which tree is under which name in the backup, which is live, and which items are recorded as having existed |
| `RealPaths.InstalledIsAtPaths` | tools/seismic_node/checkpoint.py:630-656 | an installed state at its paths: each staged tree at its own live path, both inputs with content and mode, an empty Summit store |
| `RealPaths.RolledBackIsAtPaths` | tools/seismic_node/checkpoint.py:662-733 | a finished rollback at its paths: each item from its own copy, the saved Summit children and no other, the receipt marked |
| `RealPaths.TargetsAreAtPaths` | tools/seismic_node/checkpoint.py:489-515 | the checks before an installation accept exactly the described state of the live paths |
| `Install.FreshIsRecoverable` | tools/seismic_node/checkpoint.py:518-585 | before anything has moved the state is recoverable |
| `Install.SavingKeeps` | tools/seismic_node/checkpoint.py:596-625 | moving or copying an original item into the backup keeps the state recoverable |
| `Install.ProgressEnds` | tools/seismic_node/checkpoint.py:588-627 | when all six parts are done the backup holds every original and the live places are free |
| `Install.BackUpMovedItem` | tools/seismic_node/checkpoint.py:596-617 | an existing item is moved to the backup, an absent one is skipped; cut, recoverable |
| `Install.BackUpCopiedItem` | tools/seismic_node/checkpoint.py:618-625 | an existing input is copied to the backup; cut, recoverable |
| `Install.BackUpChildren` | tools/seismic_node/checkpoint.py:603-613 | every Summit child but the lock is moved to the backup, in any order; cut after any child, recoverable |
| `Install.BackUpCurrentState` | tools/seismic_node/checkpoint.py:588-627 | complete, everything is saved and the live places are free; cut anywhere, recoverable |
| `Install.InstallNewState` | tools/seismic_node/checkpoint.py:630-659 | complete, the staged trees and both written inputs are live; cut anywhere, or refused because the anchor cannot be read again or an input is not safely placed, recoverable and everything still saved |
| `Transaction.BackupApart` | tools/seismic_node/checkpoint.py:917-927 | the checks on seven paths keep the new backup directory and the stage apart from everything protected |
| `Transaction.ValidateTargets` | tools/seismic_node/checkpoint.py:489-515 | accepts exactly directories where directories are replaced and non-empty, owner-only, safely placed files where files are, with a Summit store and a keys directory |
| `Transaction.MakeBackupRoot` | tools/seismic_node/checkpoint.py:530-536 | the backup root is made private, or is refused exactly when it is not private or others may change a directory above it; no place changes |
| `Transaction.CreateBackup` | tools/seismic_node/checkpoint.py:518-585 | a receipt in state installing, with a truthful flag for each item, is durable in a fresh private directory before anything has moved; cut or refused, no place has changed |
| `Transaction.ReceiptSeparates` | tools/seismic_node/checkpoint.py:736-796 | the paths of a valid receipt, with the backup apart from each of them, make all places of the transaction separate |
| `FileTree.LinkAtTheEnd` | tools/seismic_node/fsutil.py:36-43 | below directories a path resolves to itself exactly when it is no link |
| `Transaction.LinkFreeIsSeen` | tools/seismic_node/checkpoint.py:776-787 | the recorded paths resolve to themselves exactly when none of the five live items they name is a link |
| `Transaction.AcquireSummitLock` | tools/seismic_node/checkpoint.py:382-411 | the lock can be acquired exactly when the store is a directory and the lock in it is a file or absent |
| `Transaction.StoredIsSeen` | tools/seismic_node/checkpoint.py:1107-1109 | the receipt read from the backup, with the checks of a root-managed file, is the one the transaction wrote |
| `Transaction.StoredReceiptIsManaged` | tools/seismic_node/fsutil.py:221-243 | a receipt is read exactly when it is a file in the backup, and neither it nor any directory above it may be written by the group or others |
| `Transaction.UpdateReceipt` | tools/seismic_node/checkpoint.py:725-733 | one atomic change of the receipt's state |
| `Transaction.ReplaceState` | tools/seismic_node/checkpoint.py:977-982 | from the receipt to the installed mark: complete, installed and everything saved; cut at any step, or refused because an input is not safely placed or the anchor is gone, the receipt still says installing and that is honest |
| `Transaction.RestoreAutomatically` | tools/seismic_node/checkpoint.py:983-995 | the failure handler: complete, the receipt says automatically-rolled-back and the originals are back; cut, the receipt still says installing and the state is recoverable |
| `Transaction.InstallWithReceipt` | tools/seismic_node/checkpoint.py:967-1012 | every end of an installation, cut at any step and followed by an automatic rollback cut at any step, leaves an honest receipt |
| `Transaction.InstallCheckpoint` | tools/seismic_node/checkpoint.py:894-1026 | for every initial filesystem: completed, the staged database, static files and checkpoint are at their own live paths, both inputs are written, the Summit store is empty and everything that was live is in the backup under its own name; at every other end the receipt tells the truth about the original paths, and without a receipt none of them has changed; the keys never change; accepted targets, spelled out, are installed when nothing fails |
| `Transaction.RestoreInstalled` | tools/seismic_node/checkpoint.py:1118-1147 | a rollback of an installed receipt: done, the restored view and the marked receipt, and with every child still saved the originals and no new child; otherwise the receipt stays and no original is lost |
| `Transaction.RollbackCheckpoint` | tools/seismic_node/checkpoint.py:1101-1150 | acts on the paths of the stored receipt; refuses, changing nothing, exactly what is not readable, valid, eligible and of this host, a recorded path that is a link, and a lock it cannot acquire; finished, every item is back at its own path from its own copy, removed if it had not existed, and the Summit store has its saved children; an installed one gets to its end, uncut, exactly when nothing but a file stands where a saved input goes, and gives back the originals; every cut state keeps all of them |
| `Transaction.UnhinderedIsAtPaths` | tools/seismic_node/checkpoint.py:1118-1147 | the exact condition for a rollback to get to its end, on the live paths |
| `Transaction.LinkRefusesRollback` | tools/seismic_node/checkpoint.py:776-787 | for every accepted rollback: with a link put at the checkpoint directory or an input it is refused, and with the link removed it is accepted again and unhindered |
| `Transaction.RollBackPastLink` | tools/seismic_node/checkpoint.py:1101-1150 | a run of it: the rollback refuses a link and changes nothing, the link is removed, the rollback gives back the originals |
| `Transaction.RepeatRollback` | tools/seismic_node/checkpoint.py:1118-1147 | running an interrupted installed rollback again only while the listing of the saved children is unchanged ends with the originals back or with none of them lost |
| `Transaction.RunInterruptedRollbackAgain` | tools/seismic_node/checkpoint.py:679-688 | a failing run of two calls: cut after the first child is back, then run again; the second call succeeds, marks the receipt, and an original child is gone |
| `Transaction.RefusedRollbackLosesChildren` | tools/seismic_node/checkpoint.py:702-722 | a rollback refused at an input file has returned every child; with the directory removed, running it again removes every one of them |
| `Transaction.ResumeRollback` | tools/seismic_node/checkpoint.py:1118-1147 | from a state without links at recorded paths and with a usable lock, any number of rollbacks of an interrupted installation, each cut after any number of steps, then a complete one: no attempt is refused and the originals are back |
| `Transaction.DeleteBackup` | tools/seismic_node/checkpoint.py:1245-1290 | refused, changing nothing, exactly when the backup is not private or its receipt is invalid, installing, of another host, overlapping live trees or naming a path that is a link; complete, the backup is deleted and nothing else in the tree has changed, the temporary name included |
| `ServiceRun.ServicesKeepBackup` | tools/seismic_node/checkpoint.py:1101-1147 | whatever services write, replace or erase at and below the live places, the backup, the receipt and the keys stay |
| `ServiceRun.InstalledKeptApart` | tools/seismic_node/checkpoint.py:917-927 | what the installer checks of its paths is what a later rollback needs of them |
| `ServiceRun.InstallRunAndRollBack` | tools/seismic_node/checkpoint.py:894-1150 | install, arbitrary service changes, roll back: the new state is at its paths and the old one in the backup; the rollback is done exactly when the services left a Summit store with a usable lock, no link at a recorded path, and nothing but files where saved inputs go; then all six items are back at their paths as before the installation and no new Summit child is left; otherwise no original is lost; same keys |
| `ServiceRun.InstallOrGetBack` | tools/seismic_node/checkpoint.py:967-1150 | an installation cut at any step, an automatic rollback cut at any step, a deletion of the interrupted installation's backup, which is refused, and resumed rollbacks cut at any steps: in the end the new state is at its paths, or the six items are at theirs as they were |
| `EnvMeaning.ReadIsRun` | tools/seismic_node/nodeenv.py:10-25 | on every clean text the trimmed reading of the parser and the one-pass grammar give the same result, from any state |
| `EnvMeaning.TrimmedIsClean` | tools/seismic_node/nodeenv.py:206-212 | a text none of whose lines ends in a blank is clean |
| `EnvMeaning.UncleanDiffers` | tools/seismic_node/nodeenv.py:206-212 | on every text the grammar accepts that is not clean, the parser reads something else |
| `EnvMeaning.ParseClean` | tools/seismic_node/nodeenv.py:198-225 | the parser returns the meaning the grammar gives, map or rejection, on every text without trailing blanks and on every clean text; on texts the grammar accepts, on no other |
| `EnvMeaning.AcceptedIsProper` | tools/seismic_node/nodeenv.py:198-225 | an accepted file has valid keys and no key twice |
| `EnvRules.BlankLineRule` | tools/seismic_node/nodeenv.py:10-11 | for the parser and the grammar alike: a blank line is skipped |
| `EnvRules.CommentRule` | tools/seismic_node/nodeenv.py:10-11 | a line whose first character after blanks is a hash or a semicolon is skipped, for both |
| `EnvRules.KeyTextIsValid` | tools/seismic_node/nodeenv.py:12-13 | valid keys are letters, digits and underscores, the first no digit |
| `EnvRules.BlankCharacters` | tools/seismic_node/nodeenv.py:206-207 | the 29 characters that count as blanks, one by one |
| `EnvRules.KeyRule` | tools/seismic_node/nodeenv.py:12-13 | blanks around the key and the equals sign are ignored, for both; the parser then reads the value with its first line trimmed |
| `EnvRules.BadKeyRule` | tools/seismic_node/nodeenv.py:209-217 | a name that is no key, or one used before, is the error it is, whatever follows |
| `EnvRules.MissingEqualsRule` | tools/seismic_node/nodeenv.py:209-211 | a line that is neither blank nor a comment and has no equals sign is an error |
| `EnvRules.SingleQuotedLine` | tools/seismic_node/nodeenv.py:20-20 | a single-quoted value is every character between its quotes, over several lines too; for the parser when its first line has no trailing blanks |
| `EnvRules.QuotedEntryRule` | tools/seismic_node/nodeenv.py:17-20 | an entry with a quoted value, for both readings: single quotes keep everything, double quotes honour four escapes, drop a backslash-newline and keep every other backslash |
| `EnvRules.BareEntryRule` | tools/seismic_node/nodeenv.py:14-16 | an entry with a bare value, for both readings: a backslash gives the next character or continues the line, trailing blanks are dropped, a hash is no comment |
| `EnvRules.EmptyEntryRule` | tools/seismic_node/nodeenv.py:222-225 | an entry without a value has the empty one, for both readings |
| `EnvRules.BadQuoteRule` | tools/seismic_node/nodeenv.py:22-25 | text after a closing quote and a quotation without one are errors, for both readings and both quotes |
| `NodeEnvParser.JoinSplit` | tools/seismic_node/nodeenv.py:198-202 | splitting a text in lines loses nothing |
| `NodeEnvParser.Parse` | tools/seismic_node/nodeenv.py:198-225 | the line-indexed parser equals a one-pass automaton, on every text, accepted or not, once the first line of an entry is trimmed as the code does; every entry consumes a line |
| `NodeEnvParser.ParseBare` | tools/seismic_node/nodeenv.py:124-152 | an unquoted value with escapes and continuation lines: same value and same rest of the text as the automaton |
| `NodeEnvParser.ParseQuoted` | tools/seismic_node/nodeenv.py:158-195 | a quoted value over any number of lines: same value and rest, unterminated quotes and trailing text rejected alike |
| `NodeEnvParser.ParseValue` | tools/seismic_node/nodeenv.py:215-220 | the choice between quoted and unquoted values agrees with the automaton |
| `EnvGrammar.RejectedStays` | tools/seismic_node/nodeenv.py:19-25 | a rejected text stays rejected whatever follows |
| `EnvPrinter.PrintParseRoundTrip` | tools/seismic_node/nodeenv.py:155-225 | printing all entries in double quotes and parsing gives them back if and only if no multi-line value has blanks at the end of its first line |
| `EnvPrinter.GrammarRoundTrip` | tools/seismic_node/nodeenv.py:10-25 | by the documented grammar the same printing loses nothing for any value |
| `EnvPrinter.ParserAgreesOnPrinted` | tools/seismic_node/nodeenv.py:206-212 | on printed texts parser and documentation agree if and only if no first line is trimmed |
| `EnvPrinter.BareRoundTrip` | tools/seismic_node/nodeenv.py:124-152 | the unquoted form gives back every value without backslash, newline, leading quote and surrounding blanks |
| `EnvPrinter.EscapedBlankJoinsLines` | tools/seismic_node/nodeenv.py:206-212 | a line ending in an escaped blank: the grammar ends the entry, the parser takes the next line into the value, for every key and value |
| `EnvPrinter.EscapedBlankChangesMeaning` | tools/seismic_node/nodeenv.py:206-212 | for every key and value a text with an escaped blank that the grammar rejects and the parser accepts, its last line in the value |
| `ShellExport.QuoteAddsValue` | tools/seismic_node/nodeenv.py:995-998 | a quoted value, read by the shell inside any word, adds exactly that value |
| `ShellExport.ExportsReadBack` | tools/seismic_node/nodeenv.py:981-998 | the shell reads the exported text as one export per entry and no other command, and ends up with exactly the exported settings |
| `ShellExport.ParsedFileReachesShell` | tools/seismic_node/nodeenv.py:712-726 | whatever text the parser accepts, the shell reading the exported text runs one export per entry and assigns every parsed key its parsed value; a blank MONITORING_MODE becomes push for a validator and off for an observer |
| `ShellExport.SettingsAreEntries` | tools/seismic_node/nodeenv.py:981-998 | with distinct keys no later assignment hides an earlier one |
| `Schema.ValidateKeys` | tools/seismic_node/nodeenv.py:712-753 | accepts exactly when there is no unknown key and every applicable key is present and valid; the values are then those of exactly the applicable keys |
| `Schema.ValidatePass` | tools/seismic_node/nodeenv.py:728-748 | one pass over some keys fails exactly when an applicable one is missing or invalid |
| `Schema.SameKeysApply` | tools/seismic_node/nodeenv.py:487-539 | settings of keys that do not apply never decide which keys apply, though conditions are evaluated on unvalidated strings |
| `Schema.InapplicableKeysDoNotMatter` | tools/seismic_node/nodeenv.py:712-753 | two environments that agree on the applicable keys validate to the same values or both fail |
| `Schema.SchemaIsGuarded` | tools/seismic_node/nodeenv.py:548-640 | the one input of conditions that is conditional itself is looked at only behind its own condition |
| `Schema.ConditionAgrees` | tools/seismic_node/nodeenv.py:492-539 | a guarded condition has the same outcome in two environments that agree on the unconditional keys |
| `Schema.ValuesAreTyped` | tools/seismic_node/nodeenv.py:663-699 | every value has the type its accessor asks for |
| `Schema.LayoutKeysApply` | tools/seismic_node/nodeenv.py:891-929 | no accessor of the layout rules fails on a validated environment |
| `Schema.DerivedKeysApply` | tools/seismic_node/nodeenv.py:756-825 | no accessor of the derived rules fails on a validated environment, whichever branch is taken |
| `Schema.ValidateLayout` | tools/seismic_node/nodeenv.py:891-929 | accepts exactly the layouts the units rely on, and then the Reth data, the Summit data and the Summit keys are pairwise separate |
| `Schema.TransactionPathsApart` | tools/seismic_node/nodeenv.py:891-929 | key directories inside KEYS_DIR inherit its separation from the data directories, which the transaction asks for |
| `UnitArguments.FlagArgumentExpands` | tools/seismic_node/nodeenv.py:879-888 | an accepted flag argument expands in the unit to exactly the flag and its value, or to nothing |
| `UnitArguments.RenderedTrustedPeers` | tools/seismic_node/nodeenv.py:828-876 | what is rendered from a peers file in trusted mode is accepted if and only if the file lists another node than this one |
| `UnitArguments.AcceptedIsSpelled` | tools/seismic_node/nodeenv.py:828-876 | which stored peering arguments are accepted, with the flags of both modes spelled out |
| `UnitArguments.OwnEnode` | tools/seismic_node/nodeenv.py:430-440 | a peer is left out exactly when the 128 digits after the prefix are this node's id in any case |
| `UnitArguments.WithoutSelfConcat` | tools/seismic_node/nodeenv.py:430-440 | every peer is judged by itself and the others keep their order |
| `UnitArguments.PathTextSplits` | tools/seismic_node/nodeenv.py:775-782 | the text of a path splits at its slashes into an empty text and its names, so that it names no other path |
| `Schema.AcceptedConfiguration` | tools/seismic_node/nodeenv.py:756-825 | an accepted configuration has a JWT secret and a validator role when metrics are pulled, a destination when they are pushed, for a validator one public name or address, and a bootstrappers argument that expands to two words or none |
| `Schema.ValuesAreUnique` | tools/seismic_node/nodeenv.py:712-753 | an environment has at most one validated form, whatever order the keys are visited in |
| `Schema.Validate` | tools/seismic_node/nodeenv.py:712-753 | accepts exactly when there are values that satisfy the documented table, the layout and the derived rules together, spelled out in literal settings, returns those values, and they are well configured with separate data and key paths |
| `Schema.SchemaAsDocumented` | tools/seismic_node/nodeenv.py:546-625 | for all values and environments: the schema's conditions on raw strings and its validators give exactly the settings, choices and types of the documented table, whose conditions are on validated values |
| `ModArith.ExtendedGcdCorrect` | tools/seismic_node/nodeenv.py:380-395 | the Bezout identity and the divisibility behind the modular inverse |
| `ModArith.ModInverseCorrect` | tools/seismic_node/nodeenv.py:380-395 | the inverse is a reduced inverse, and is missing only when there is none |
| `ModArith.PrimeInverse` | tools/seismic_node/nodeenv.py:380-395 | modulo a prime everything that is not a multiple of it is invertible |
| `ModArith.PrimeProduct` | tools/seismic_node/nodeenv.py:380-395 | a prime dividing a product divides a factor |
| `Secp256k1.SlopeExists` | tools/seismic_node/nodeenv.py:386-391 | for two points on the curve that are not opposite, the chord or tangent has a slope |
| `Secp256k1.ChordMeets` | tools/seismic_node/nodeenv.py:389-394 | the chord through two points meets the curve at exactly the third abscissa |
| `Secp256k1.TangentMeets` | tools/seismic_node/nodeenv.py:386-394 | the tangent at a point meets the curve doubly there and at the third abscissa |
| `Secp256k1.EcAddClosed` | tools/seismic_node/nodeenv.py:380-395 | for every prime and all points on the curve: no inverse fails, the sum is on the curve and reduced, infinity exactly for opposite points, and otherwise the reflected third point of the chord or tangent |
| `NodeId.MultipleOnCurve` | tools/seismic_node/nodeenv.py:398-411 | every multiple of a point on the curve is on the curve |
| `NodeId.MultipleOfDouble` | tools/seismic_node/nodeenv.py:404-409 | doubling the point and halving the scalar keeps the multiple |
| `NodeId.DoubleAndAdd` | tools/seismic_node/nodeenv.py:398-411 | the loop fails on no addition, stays on the curve, and under the group law returns the scalar multiple; with no hypothesis the scalar one gives the base point |
| `NodeId.BaseOnCurve` | tools/seismic_node/nodeenv.py:372-377 | the base point satisfies the curve equation modulo the field constant |
| `NodeId.Hex64Decodes` | tools/seismic_node/nodeenv.py:411-411 | a field element is 64 hexadecimal digits that decode to it |
| `NodeId.BigEndian` | tools/seismic_node/nodeenv.py:400-400 | the bytes of a secret are a number with the most significant byte first: what a concatenation of bytes is worth |
| `NodeId.BytesBound` | tools/seismic_node/nodeenv.py:400-400 | k bytes are less than 256 to the power of k, and one byte is itself |
| `NodeId.NodeIdFromSecret` | tools/seismic_node/nodeenv.py:398-411 | refuses exactly a scalar outside 1..N-1 or a multiple at infinity; otherwise 128 digits that decode to the public point on the curve; the secret one, as 31 zeros and a one, has the coordinates of the base point |
| `Systemd.RequireStopped` | tools/seismic_node/systemd.py:137-149 | passes only when none of the units may be alive |
| `Systemd.RequireServices` | tools/seismic_node/systemd.py:222-225 | passing means every unit of the sequence is installed; otherwise a unit is missing or a query failed |
| `Systemd.StartService` | tools/seismic_node/systemd.py:152-186 | success means running; a start is issued only for a stopped unit and is reported even when it fails; no other unit changes |
| `Systemd.StopService` | tools/seismic_node/systemd.py:189-198 | success means stopped and tells whether a stop was needed; no other unit changes |
| `Systemd.StartNext` | tools/seismic_node/systemd.py:231-237 | one start inside the sequence keeps the bookkeeping of what this command owns and the dependencies satisfied |
| `Systemd.Unwind` | tools/seismic_node/systemd.py:239-250 | stopping the started units in reverse order: with no stop failing, exactly the units alive before are alive again, every request leaves dependencies satisfied |
| `Systemd.StartNode` | tools/seismic_node/systemd.py:201-251 | all or nothing: on success custodian, Reth, Summit and, when enabled, the checkpointer run, and exactly those that were not alive before are reported; on failure with working stops the live units are those from before; nothing alive before is stopped; every intermediate state is dependency-closed; it fails only when a command failed or a unit was missing, in transition or in conflict |
| `Systemd.StopNode` | tools/seismic_node/systemd.py:254-264 | on success the whole sequence is stopped and exactly the units that were alive are reported; every intermediate state is dependency-closed, also when a stop fails; it fails exactly when a command failed |
| `Systemd.StartSequencesRespectNeeds` | tools/seismic_node/systemd.py:222-227 | the start sequence of either role respects the unit files and even a full dependency chain |
| `Systemd.ValidatorStopRespectsUnits` | tools/seismic_node/validator.py:486-489 | the validator's stop sequence respects the unit files |
| `Onboarding.WaitForStartAuthorization` | tools/seismic_node/validator.py:351-423 | a start is decided only right after an observation of Joining or Active, or of NotFound or Inactive with an authorized early start; SubmittedExitRequest, FullPayoutPending and unknown statuses end the run with an error; the operator is asked at most once, and not at all with a policy or after a confirmed early start; the decision is the verdict on the replies under the policy, or under the operator's answer, unless the deadline has passed |
| `Onboarding.PauseUnlessLate` | tools/seismic_node/validator.py:410-423 | no sleep starts at or after the deadline |
| `Onboarding.Decide` | tools/seismic_node/validator.py:395-409 | an early start confirmed before is kept without asking again |
| `Onboarding.Poll` | tools/seismic_node/validator.py:368-409 | one round: the decision rests on the observation just made and is the verdict of the replies under the policy or the answer, or waiting leaves the verdict of the remaining replies |
| `Onboarding.StartOnboarded` | tools/seismic_node/validator.py:426-448 | the second check and the start: services start only right after an allowing observation, and the outcome is that of the remaining replies unless the deadline has passed |
| `Onboarding.OnboardValidator` | tools/seismic-node.py:478-518 | services start only as the last event, right after an observation of Joining or Active, or of NotFound or Inactive with an authorized early start, made after the installation; a checkpoint is installed only right after an observation of one of these four; SubmittedExitRequest or FullPayoutPending in either phase is the last observation and fails the run; both phases share one deadline; with a given policy the end is determined by the replies unless the deadline has passed |
| `Onboarding.StartIsSafe` | tools/seismic_node/validator.py:426-448 | starting after an allowing observation keeps every start of the run safe |
| `Onboarding.DeadlineBoundsSleeps` | tools/seismic-node.py:480-486 | sleeps an interval apart and before one deadline are bounded in number by the timeout |
| `Onboarding.BoundRun` | tools/seismic-node.py:480-486 | the bound on sleeps holds of a whole run, in whichever phase the sleeps are |
| `Onboarding.RefusalEnds` | tools/seismic_node/validator.py:383-391 | a refused observation is the last thing that happens |
| `Decimals.DecimalRoundTrip` | tools/seismic_node/checkpoint.py:289-291 | reading back a printed epoch gives the epoch |
| `Decimals.DecimalNotation` | tools/seismic_node/checkpoint.py:285-290 | an epoch's name is its decimal notation, digit by digit |
| `Decimals.CanonicalIffDecimal` | tools/seismic_node/checkpoint.py:289-291 | a file name passes the digits-and-spelling test exactly when it is the decimal name of some epoch |
| `Decimals.CountsUpIff` | tools/seismic_node/checkpoint.py:292-302 | a sorted list of distinct epochs counts up from zero to its end exactly when it holds an initial segment of the numbers |
| `Acceptance.RequireSecureRootParent` | tools/seismic_node/fsutil.py:80-99 | passes exactly when every directory from the parent to the root is one only its owner may write |
| `Acceptance.SafeIsSecure` | tools/seismic_node/fsutil.py:80-99 | for a file that exists, what is checked before writing it is what is checked before reading it |
| `Acceptance.CheckedNodes` | tools/seismic_node/fsutil.py:57-107 | which nodes the checks accept: a directory, a file with content, and such a file that the group and others may not write, never a link |
| `Acceptance.FilesEqual` | tools/seismic_node/checkpoint.py:324-335 | chunked comparison answers equality of the whole contents |
| `Acceptance.ReadHeaders` | tools/seismic_node/checkpoint.py:284-292 | passes exactly when every entry is a non-empty regular file with a canonical name, in any listing order, and returns the sorted epochs |
| `Acceptance.NamesMatch` | tools/seismic_node/checkpoint.py:292-302 | the sorted epochs count from 0 to the epoch exactly when the names are exactly the decimals up to it |
| `Acceptance.CheckHistory` | tools/seismic_node/checkpoint.py:273-309 | finds a terminal epoch exactly when there is a complete history whose last header equals finalized_header |
| `Acceptance.LastEpochIsUnique` | tools/seismic_node/checkpoint.py:1191-1203 | a history has only one terminal epoch |
| `Acceptance.ValidateExtractedSnapshot` | tools/seismic_node/checkpoint.py:264-321 | accepts exactly the snapshots with the required layout, the complete history of the manifest's epoch and matching metadata |
| `Acceptance.LoadWeakSubjectivity` | tools/seismic_node/checkpoint.py:338-355 | accepts exactly well-formed owner-only anchors not newer than the checkpoint and at most five epochs older |
| `Acceptance.ValidateStartConfiguration` | tools/seismic_node/checkpoint.py:1153-1205 | finds the terminal epoch exactly when the installed configuration, checkpoint and anchor are acceptable for it |
| `Acceptance.CheckRunner` | tools/checkpoint-start/summit-checkpoint-runner.py:171-211 | the runner's checks, including its search for one usable header |
| `Acceptance.RunnerFollowsStart` | tools/checkpoint-start/summit-checkpoint-runner.py:171-211 | what the check before a start accepts, the runner accepts |
| `Acceptance.HistoryMoves` | tools/seismic_node/checkpoint.py:646-649 | a checkpoint directory moved unchanged keeps its history accepted |
| `Acceptance.InstalledCheckpointStarts` | tools/seismic_node/checkpoint.py:1153-1205 | an accepted and installed snapshot passes the check before a start with the manifest's epoch as terminal epoch |
| `Acceptance.InstallAccepted` | tools/seismic_node/checkpoint.py:894-1026 | the installation with its acceptance checks: refused inputs change nothing, accepted ones on acceptable targets are installed when nothing fails and the anchor's file is not in a tree that moves, and what a completed installation then leaves passes the check before a start and the runner's check |
| `Archive.NormalizedNameReadsBack` | tools/seismic_node/checkpoint.py:221-227 | a normalized member name stands for the same path, so differently spelled duplicates are found |
| `Archive.PartsOfName` | tools/seismic_node/checkpoint.py:221-222 | the parts of a member name: a slash separates, empty names and single dots add nothing |
| `Archive.ValidateTarMembers` | tools/seismic_node/checkpoint.py:213-244 | accepts exactly the member lists with safe distinct paths, known roots and all four of them, and returns the sum of the file sizes |
| `Archive.ExtractedBelow` | tools/seismic_node/checkpoint.py:213-259 | accepted members go to distinct paths strictly below the destination, under a known root, without parent references |
| `Download.WaitUntilEpochCompleted` | tools/seismic_node/download.py:63-83 | returns the first network epoch past the selected one; fails only with a failed or missing reply or when another sleep would cross the deadline |
| `Download.FetchManifestWhenAvailable` | tools/seismic_node/download.py:86-106 | returns the manifest that follows a number of 404 replies and no other failure; fails only with another failure or when another sleep would cross the deadline |
| `Download.FetchSelected` | tools/seismic_node/download.py:208-222 | the selected epoch with its own manifest, or no selection; determined by the replies unless time has run out |
| `Download.SleepUntilRetry` | tools/seismic_node/download.py:132-136 | no sleep crosses the deadline, so all sleeps together fit in the timeout |
| `Download.SelectEpoch` | tools/seismic_node/download.py:139-227 | the manifest is of the selected epoch, which the network was seen past; an explicit request changes only to the newest completed epoch, by policy or operator; all waiting fits in one timeout; the outcome is determined by the replies, the policy and the operator's answer, or refused because another sleep would cross the deadline |
| `Download.ResolveWeakSubjectivity` | tools/seismic_node/download.py:367-422 | accepts exactly recent anchors and digests of 32 bytes for the right epoch, which become the anchor whose digest spells these bytes in their order |
| `Download.HexBytesAreDigits` | tools/seismic_node/download.py:312-317 | the rendered digest is twice as many hexadecimal digits as there are bytes |
| `Download.HexBytesValue` | tools/seismic_node/download.py:312-317 | the digits of the rendered digest spell the number that its bytes are |
| `Download.DownloadVerifiedArchive` | tools/seismic_node/rpc.py:268-341 | succeeds exactly for a whole, unbroken response of the manifest's size and hash onto a free name with enough space; otherwise the destination is as before |
| `Download.StreamToFile` | tools/seismic_node/rpc.py:311-319 | the loop writes exactly the payload, and stops at the first byte too many |
| `Download.HashFile` | tools/seismic_node/checkpoint.py:185-194 | hashing by chunks is hashing the whole file |
| `Download.VerifyArchiveIdentity` | tools/seismic_node/checkpoint.py:197-210 | accepts exactly the non-empty file of the manifest's size and hash |
| `Download.ResolveAndVerify` | tools/seismic_node/download.py:503-551 | without a deadline and an operator the inputs are ready exactly when the selection, the anchor, the space and the response allow it; what is handed to the installer then passes its size, hash and window checks, if and only if the manifest's archive is not empty |

## Left out

- Disks.Disk.CopyFile: `shutil.copy2` is taken as one step. A copy cut in the middle leaves a partial backup file that the code later takes for a whole one.
- Disks.Disk.AtomicWrite: the temporary file and `fsync` are not modelled; the replacement is the only step. Ownership by root is taken for granted throughout, permission bits are checked.
- Transaction.InstallCheckpoint: the services are stopped, as a precondition; no file or link stands where a parent directory of a place is needed (the original raises there); the stage is apart from every protected path, for which `FreshStageOverlap` gives the exact condition. Removing the stage at the end, changing owners and the space and device checks are not modelled.
- Transaction.AcquireSummitLock: that acquiring the lock creates its file and sets the file's mode and owner, and that another process may hold it, are not modelled.
- Transaction.RollbackCheckpoint: the services are stopped. Before a rollback the code compares the backup's path with none of the live paths; that they are apart is the named hypothesis `BackupKeptApart`, which every installation establishes (`InstalledKeptApart`). The filesystem device check is not modelled.
- Transaction.ValidateRollbackReceipt: the JSON schema, version, ownership records and epoch are part of the decoded receipt.
- ServiceRun.InstallRunAndRollBack: services change what is at and below the live places, and no directory above them.
- Transaction.DeleteBackup: interrupted, the renamed backup is left in part; nothing is said of it but that nothing else changes. Confirmation and size reports are left out.
- CheckpointSpec.RestorationUndoesInstall: the six items, by content and permission bits. Parent directories created on the way stay.
- FileTree: JSON and TOML are decoded values (`Content`), encoding and decoding taken as inverse. A tree has files, directories and links; sockets, pipes and devices, which `remove_path` leaves where they are, do not occur, so that nothing new is left in the Summit store holds for the former only. A link exists when the node at its target does, without following further links, and no link is taken to resolve to itself.
- EnvMeaning.ParseClean: on texts the grammar rejects only one direction; there the parser may give the same fault, another one, or a map.
- EnvPrinter.BareRoundTrip: one direction; the conditions are those the installer keeps to.
- ShellExport.ExportsReadBack: quoting, words, newlines and `export` only. Any other unquoted special character makes the model of the shell give up. NUL characters are not treated.
- Schema.Validate: the syntax of single values, the peers file and the node's own id are parameters.
- NodeId.DoubleAndAdd: primality of the modulus and the group law are hypotheses; the group law only for the value of the multiple.
- NodeId.NodeIdFromSecret: that a scalar below the group order never gives infinity rests on the order of the group, which is not proved; that case is an error here.
- Systemd.StartNode: units that die or start on their own between two requests, and jobs that `Requires=` starts implicitly, are not modelled.
- Onboarding.OnboardValidator: status replies, operator answers, the installation and the start are arbitrary; tokens, identity checks and messages are left out.
- Acceptance.ReadHeaders: `isdigit` is taken on ASCII digits; for other digits the original refuses or raises.
- Acceptance.CheckRunner: structural checks only; the command line, the lock and `exec` are left out, and ownership by root is taken for granted.
- Acceptance.InstallAccepted: extraction is not modelled; the stage already holds the extracted tree.
- Archive.ValidateTarMembers: member names are split as POSIX paths; tar decoding is not modelled.
- Download.SelectEpoch: HTTP, URLs and tokens; each request takes the next reply of a stream. A manifest of the wrong form is a failed reply.
- Download.ResolveWeakSubjectivity: the confirmation for a shared origin, and the ownership of local files.
- Download.DownloadVerifiedArchive: SHA-256 is a parameter. That the digest object accumulates its updates is taken for granted.
- Monitoring, observers, deposit signatures, the installer's shell scripts and templates: easy branches or input and output.
