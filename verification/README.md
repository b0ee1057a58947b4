# A verified model of the Shale shell

Shale is a virtual shell that owns its filesystem. This project models its three
cores and proves what they promise:

* the in-memory filesystem (`vfs/memory.go`): a flat map from path names to inodes,
  file handles that outlive names, and a byte budget over everything still alive;
* the mount namespace (`internal/fsys/namespace.go`): lexical resolution, routing
  over mounts, protection of mount points, read-only mounts;
* the interpreter (`internal/shell/shell.go`): a recursive evaluator with a shared
  step budget, control flow carried as errors, cloned environments, temporary
  assignments, deferred closing, pipelines, and the hand-written `xargs`.

## How the model is built

Where the program updates objects, the model has classes whose methods do the same
updates: `Memory.MemoryFS`, `Memory.Node`, `Memory.MemoryFile`,
`Namespace.Namespace`, `Interpreter.Shell`, `Interpreter.Run`, and the shell's two
tables `Interpreter.Variables` and `Interpreter.Functions`, which a shell updates in
place and a copy of it must not share. Each method is proved equal, in its whole
effect and its result, to a function on values (modules `Store`, `NamespaceSpec`,
`ShellState`, `ShellEval`, `Xargs`). The promises are then proved about those
functions, for all inputs, all states and all runs:

| area | files |
|---|---|
| path text and components | `Paths`, `Resolving`, `Routing` |
| one filesystem | `Store` (what every operation does), `Invariant`, `Tree`, `Renaming`, `Listing`, `FileBytes`, `Runs`, `Handles`, `Reading`, `Edits`, `Memory` (the objects) |
| several filesystems | `NamespaceSpec`, `NamespaceRuns`, `Projection`, `SharedMounts`, `Namespace` (the object) |
| the interpreter | `ShellSyntax`, `ShellState`, `ShellEval` (what every construct does), `ShellRules` (what every construct means), `ShellAdequacy`, `ShellLaws`, `ShellWiring`, `ShellSound`, `ShellStreams`, `ShellFlow`, `ShellBudget`, `ShellScope`, `Interpreter` (the objects), `ShellFiles` (its files in the filesystems) |
| xargs and pipes | `XargsSplit`, `XargsInput`, `Xargs`, `XargsReplace`, `Pipes` |

The filesystem state keeps every inode ever made, so "neither linked nor open" can
be said of one. Inodes and handles are identified by the type parameters `N` and
`H`; the classes instantiate them with object references.

The interpreter acts on a world (files, streams, commands, cancellation, the
parser, the word-expansion library) whose answers are arbitrary functions of the
whole history so far, the record `ShellState.Oracle`; the splitting of a word into
fields is given the shell's state as well, as it depends on the variables. A theorem
over all oracles is a theorem over all worlds. A pipeline's stages share one step
counter: whatever the interleaving, the left stage gets some share of the steps that
remain and the right one the rest; the share is one of the oracle's answers.

What the interpreter computes is also given by rules, apart from the evaluator: a
judgment says that a statement, command, word, redirection or list, begun in a state
and on certain streams, has a certain outcome, and `ShellRules` has one rule for each
construct, which says what outcomes of its parts give what outcome of the whole. A
derivation is a tree of such steps. `ShellAdequacy` proves that exactly the evaluator's
outcome can be derived; `ShellLaws` has the laws of particular constructs and builtins,
stated without the evaluator's own functions where that can be done.

Streams have names: a file is named by the place of its opening in the history, a
pipe and a captured output by the place at which they were made. So it can be said
which pipe a command writes to, and that nothing else writes to it (`ShellWiring`).

## What is false, and exactly when

* A failed `OpenFile` changes nothing, except that a creating and truncating open
  without a write flag on a missing name leaves an empty file (`Runs.FailureIsClean`,
  `Runs.EmptyFileIsLeft`).
* A failed `Write` changes nothing, except that it moves the cursor of an append handle
  which is not at the end (`FileBytes.FailedWrite`, `Runs.AppendMovesCursor`).
* A mount on whose filesystem no writing handle is open keeps its names and bytes over
  every run exactly when every mount that shows the filesystem is read-only, or the
  filesystem cannot write: being read-only alone is not enough when another mount
  shows the same filesystem (`SharedMounts.ReadOnlyExactly`).
* A name opens for reading exactly when `Stat` finds it, except for names such as
  `/dev/null/.`, which `Stat` refuses and which open what the root filesystem has there
  (`Projection.ReadsWhatIs`).
* `xargs` loses no item exactly when there is no `-I R`; or R occurs in a word of the
  command after the first, and the batch size is 1 or there is one item
  (`XargsReplace.NoItemLost`). Both ways of losing items happen: `-I {} -n 2`
  (`XargsReplace.LaterCountDrops`) and `-I {}` without a command, where the default
  `echo` mentions no item (`XargsReplace.DefaultCommandDrops`).
* A stray `break` passes through subshells and ends a run as an error
  (`ShellFlow.StrayBreak`), and the parser accepts one. No such signal ends a run in
  whose script, stored functions and scripts given to nested shells `break`,
  `continue` and `return` are well placed, whatever else the parser accepts
  (`ShellFlow.NoStrayFlow`).
* An assigned variable is restored to its value just before its own first
  assignment (`ShellScope.CallRestores`). When that is its value before the command
  can be read off beforehand (`ShellScope.RestoredExactly`): always for a variable
  with a value that is not empty; for an unset one, when no value of an earlier
  assignment has `${x:=...}` for it; for one that is set and empty, when each of these
  assigns nothing but the empty string. `a=${b:=1} b=2 cmd` leaves b set to 1, whether
  b was unset or empty (`ShellScope.EarlierDefaultPersists`).

## Model

| member | source | states |
|---|---|---|
| Paths.Beneath | vfs/memory.go:216-218 | for valid names, having `q + "/"` as a text prefix is exactly having q as a proper ancestor, component by component |
| Paths.WithinComps | vfs/memory.go:238-244 | being q or having the prefix `q + "/"` is exactly having q's components as a prefix |
| Paths.Shift | vfs/memory.go:238-247 | replacing one directory prefix of a valid name by another gives a valid name with the same last element, in the correspondingly moved parent |
| Paths.DirBase | vfs/memory.go:66-75 | the parent and the last element of a valid name, by text, are its components but the last, and the last |
| Tree.LookupIsMap | vfs/memory.go:55-65 | looking a name up in the flat map gives what resolving it one directory entry at a time from the root gives, present or absent |
| Tree.CreateAddsEntry | vfs/memory.go:79-115 | creating a name adds exactly one directory entry to the tree of inodes |
| Tree.RemoveDropsEntry | vfs/memory.go:170-191 | a successful removal takes exactly the removed entry out of the tree |
| Renaming.RenameIsRelink | vfs/memory.go:200-249 | a successful rename, whatever it rewrites in the map, is one directory entry out and one in; entries inside a moved directory are untouched |
| Renaming.RenameMovesSubtree | vfs/memory.go:200-249 | every name at or below the source reappears below the destination with its inode, every other name but the destination is untouched, and there are no others |
| Renaming.RenamedInjective | vfs/memory.go:238-247 | after a rename no two names share an inode |
| Renaming.RenameBack | vfs/memory.go:200-249 | renaming to a free name and back succeeds and restores the whole state |
| Invariant.BytesOfLive | vfs/memory.go:192-198 | the bytes of all inodes are the bytes of those still linked or open |
| Invariant.OpenFileKeeps | vfs/memory.go:79-115 | opening, with every flag, keeps the invariant: tree shape, distinct inodes per name, reference counts, the budget as a sum, handle cursors |
| Invariant.MkdirKeeps | vfs/memory.go:151-169 | so does making a directory |
| Invariant.RemoveKeeps | vfs/memory.go:170-198 | so does removing, also of names whose inode is open |
| Invariant.RenameKeeps | vfs/memory.go:200-249 | so does renaming, including onto existing names |
| Invariant.CloseKeeps | vfs/memory.go:312-325 | so does closing, also the last handle of an unlinked inode |
| Invariant.WriteKeeps | vfs/memory.go:410-419 | so does writing |
| Invariant.TruncateKeeps | vfs/memory.go:457-467 | so does truncating |
| Invariant.SeekKeeps | vfs/memory.go:431-456 | so does seeking; the cursor stays within the limit |
| Invariant.ReadDirKeeps | vfs/memory.go:477-512 | so does reading a page of a directory |
| Runs.StepKeeps | vfs/memory.go:79-512 | every operation of a run keeps the invariant |
| Runs.BudgetOfRuns | vfs/memory.go:79-115 | after any run from an empty filesystem, `used` is the bytes of linked or open inodes, between 0 and the limit, reference counts are the open handles, and unreachable inodes are empty |
| Runs.FailureIsClean | vfs/memory.go:96-108 | a failed open leaves the state alone exactly unless it created an empty file, with the condition on flags and name; failed mkdir, remove and rename leave it alone always |
| Runs.EmptyFileIsLeft | vfs/memory.go:96-108 | in a new filesystem a creating and truncating open without a write flag fails and leaves a file under every one-element name |
| Runs.AppendMovesCursor | vfs/memory.go:410-419 | a run from a new filesystem after which an append fails and moves the cursor |
| Handles.StepFollows | vfs/memory.go:192-198 | an operation that does not close h or write its inode leaves what h reads alone, whatever it does to names |
| Handles.HandleFollowsInode | vfs/memory.go:326-350 | across any run of renames, removals, overwriting renames and re-creations an open handle keeps reading the same bytes |
| Handles.ReadsLastWrite | vfs/memory.go:385-430 | bytes written at an offset through one handle are read back through any handle on that inode after any such run |
| Edits.ReadsLastPut | vfs/memory.go:410-419 | so are the bytes written at the cursor or, through an append handle, at the end |
| Edits.RunEdits | vfs/memory.go:326-467 | after any run, the bytes of an inode that a name or an open handle reaches are those before, none if the run has made it, edited by the successful writes, truncations and truncating opens of the run on that inode, in order, through all handles and names |
| Edits.HandleEdits | vfs/memory.go:326-467 | so are those of the inode of a handle that the run does not close |
| Edits.FilesAreWritten | vfs/memory.go:326-467 | in a filesystem that began empty, every reachable file is what the run has written to it |
| Reading.OneRead | vfs/memory.go:326-357 | a read delivers as many of the bytes from the cursor on as are asked for, which are then behind the cursor; it reports the end exactly when there are fewer |
| Reading.ReadsDeliverTheFile | vfs/memory.go:326-357 | over any run without seeks through the handle and without changes of its file, its reads deliver consecutive pieces of what lay ahead of its cursor, each byte once, and as much as they ask for together |
| Reading.EndAfterAll | vfs/memory.go:326-357 | after such a run a further read finds nothing exactly when all that lay ahead was delivered, that is when that much was asked for, and then reports the end of the file |
| Reading.WrittenIsRead | vfs/memory.go:351-456 | after a write and a seek to where it was made, through any handle on the file, reads in pieces of any sizes deliver what was written |
| Reading.SeekOrigins | vfs/memory.go:431-456 | a seek from the start goes to the place asked for if that is within the limit, and is refused otherwise; seeks from the cursor and from the end are seeks from the start by so much more |
| Reading.SeekTells | vfs/memory.go:431-456 | what a successful seek returns is where the cursor then is, and what asking for the cursor gives |
| Handles.SnapshotIsDirectory | vfs/memory.go:133-150 | a fresh listing is exactly the entries of the handle's inode under its present name, strictly ascending, and exists exactly when the inode is a linked directory |
| Handles.PagesAreTheListing | vfs/memory.go:477-512 | once a listing is taken, successive pages, with any operations in between, are consecutive pieces of it, each entry once |
| Handles.PagesFromFresh | vfs/memory.go:477-512 | from a handle that holds no listing, the pages are the first of the directory's entries as they were, each once, whatever happens in between, seeks to other positions than the beginning included; end of file is reported exactly when they are all of them |
| Handles.RewindForgets | vfs/memory.go:431-456 | a seek to the beginning makes the handle drop its listing |
| FileBytes.OverlayTwice | vfs/memory.go:385-409 | writing p and then q behind it gives the bytes of writing p + q, zero-filled gaps included |
| FileBytes.OverlayAt | vfs/memory.go:385-409 | every byte after a write at an offset: written, kept, or zero in a gap |
| FileBytes.ResizedAt | vfs/memory.go:363-384 | every byte after a change of size: kept, or zero where the file has grown |
| FileBytes.WriteResult | vfs/memory.go:385-419 | what a successful write leaves: bytes, budget and cursor; an empty write extends nothing |
| FileBytes.WriteSucceeds | vfs/memory.go:385-419 | a write succeeds exactly when the handle is open and writable, the end is within the limit and the growth within the budget |
| FileBytes.FailedWrite | vfs/memory.go:410-419 | a failed write changes no byte and no budget, and the cursor exactly when the handle appends and is not at the end |
| FileBytes.WriteInParts | vfs/memory.go:410-419 | writing p + q and writing p, then q succeed together and end in the same state |
| Listing.SortedUnique | vfs/memory.go:147-149 | a set of entries with distinct names has one ascending order |
| Memory.MemoryFS.constructor | vfs/memory.go:38-46 | a new filesystem is the empty state, valid, with the default limit for non-positive arguments |
| Memory.MemoryFS.OpenFile | vfs/memory.go:79-115 | the whole new state and result of opening, equal to the specification |
| Memory.MemoryFS.Mkdir | vfs/memory.go:151-169 | the whole new state and result of making a directory |
| Memory.MemoryFS.Unlink | vfs/memory.go:192-198 | dropping a link, and the bytes with it when no handle is open |
| Memory.MemoryFS.Remove | vfs/memory.go:170-191 | the whole new state and result of removing, the emptiness test a loop over the map |
| Memory.MemoryFS.MoveSubtree | vfs/memory.go:238-247 | the loop over the map collects and deletes exactly the source and what is below it, under the new names |
| Memory.MemoryFS.Rename | vfs/memory.go:200-249 | the whole new state and result of renaming |
| Memory.MemoryFS.ReadDir | vfs/memory.go:127-150 | the loop over the map and the sort give the ascending listing of a directory's children |
| Memory.MemoryFile.Close | vfs/memory.go:312-325 | closing, once: the reference, and the bytes of an unlinked inode, are given up |
| Memory.MemoryFile.ReadBytes | vfs/memory.go:326-350 | reading at an offset, with end of file and every error case, in 64-bit arithmetic |
| Memory.MemoryFile.Read | vfs/memory.go:351-357 | reading at the cursor moves it by what was read |
| Memory.MemoryFile.Resize | vfs/memory.go:363-384 | growing with zeros and shrinking, with the budget test free of overflow |
| Memory.MemoryFile.WriteBytes | vfs/memory.go:385-409 | writing at an offset, all or nothing, without overflow for any offset and limit |
| Memory.MemoryFile.Write | vfs/memory.go:410-419 | writing at the cursor or, for append handles, at the end |
| Memory.MemoryFile.WriteAt | vfs/memory.go:420-430 | positioned writing, refused for append handles |
| Memory.MemoryFile.Seek | vfs/memory.go:431-456 | the three origins, the range test free of overflow |
| Memory.MemoryFile.Truncate | vfs/memory.go:457-467 | setting the length |
| Memory.MemoryFile.CurrentName | vfs/memory.go:477-492 | the search for the inode's present name finds it exactly when there is one |
| Memory.MemoryFile.ReadDir | vfs/memory.go:477-512 | the next page, all the rest, or end of file, from a listing taken once |
| Resolving.ResolveIsClimb | internal/fsys/namespace.go:63-73 | resolving, for every working directory and name, is following components on a stack that `..` cannot leave at the root; the result is absolute and plain, with a trailing slash exactly when the name asks for a directory other than the root |
| Resolving.ResolveIdempotent | internal/fsys/namespace.go:63-73 | resolving a resolved name from anywhere changes nothing |
| Routing.CoverUnique | internal/fsys/namespace.go:34-42 | at most one of several non-overlapping mounts covers a path |
| Routing.RouteIsPrefix | internal/fsys/namespace.go:75-94 | every name without NUL routes to a valid relative name: its resolved components below the one mount covering it, or all of them in the root; NUL is exactly what fails |
| Routing.RouteOrderFree | internal/fsys/namespace.go:80-88 | routing does not depend on the order of the mounts |
| NamespaceSpec.WritableAvoidsMounts | internal/fsys/namespace.go:167-183 | a name that may be changed is not at or above any mount point |
| NamespaceSpec.RootChangeAvoids | internal/fsys/namespace.go:167-183 | a root name that may be changed is no protected directory and above none |
| NamespaceRuns.StepKeepsSpace | internal/fsys/namespace.go:96-240 | every namespace or handle operation keeps the invariant of all filesystems and the protected directories |
| NamespaceRuns.MountPointsStay | internal/fsys/namespace.go:27-60 | after any run every mount path and every path above one is a directory of the root filesystem |
| NamespaceRuns.OnlyOwnerChanges | internal/fsys/namespace.go:75-116 | an operation changes at most the one filesystem its path routes to, which several mounts may show |
| NamespaceRuns.SameOwnerSamePlace | internal/fsys/namespace.go:208-240 | comparing owners by mount path is comparing the mounts routed to, so the discarded destination backend is the source's |
| NamespaceRuns.SealedStepStays | internal/fsys/namespace.go:109-115 | no operation changes the names or bytes of a filesystem that every mount of it seals |
| NamespaceRuns.SealedStays | internal/fsys/namespace.go:109-115 | nor does any run, through any handle |
| Projection.OpenMeans | internal/fsys/namespace.go:96-117 | a successful opening of a file other than the null device leaves a handle on the inode that the name has at its place, with the cursor at the beginning, readable, writable and appending as the flags ask; the file is empty if it is truncated or new and has its bytes otherwise, and all other files and handles are as before |
| Projection.ReadsWhatIs | internal/fsys/namespace.go:96-117 | a name opens for reading exactly when Stat finds it, but for the one kind of name that the null device makes an exception of |
| Projection.ReplacesContents | internal/fsys/namespace.go:109-115 | a truncating opening and one write leave exactly what was written, whatever was there |
| Projection.RunProjects | internal/fsys/namespace.go:75-240 | a run of the namespace is, for each of its filesystems, a run of that filesystem's own operations: those routed to it and not refused, with the names below the mount and the flags as given |
| Projection.SpaceRunEdits | internal/fsys/namespace.go:75-240 | after any run of the namespace the bytes of every reachable file are those it had, none if the run has made it, edited by the writes, truncations and truncating openings of the run on it through all mounts, names and handles |
| Projection.MkdirShows | internal/fsys/namespace.go:184-190 | a directory is made only where nothing was, and the name then denotes a directory |
| Projection.RemoveShows | internal/fsys/namespace.go:191-207 | what is removed was of the kind asked for, and the name then denotes nothing |
| Projection.RenameShows | internal/fsys/namespace.go:208-240 | after a rename the new name denotes what the old one did, and the old one nothing unless both are one place |
| SharedMounts.ReadOnlyExactly | internal/fsys/namespace.go:75-116 | over every run a mount without open writing handles keeps its names and bytes exactly when every mount that shows its filesystem is read-only or the filesystem cannot write |
| SharedMounts.OneChanges | internal/fsys/namespace.go:167-207 | through a mount that may be written some operation always changes the names, also in a filesystem full of entries |
| SharedMounts.BelowRoutes | internal/fsys/namespace.go:75-94 | every valid name below a mount path routes to that mount under its own name, and is at or above no mount point |
| Namespace.New | internal/fsys/namespace.go:27-60 | construction succeeds exactly when the mounts are good, none overlap and the directories they need fit in a filesystem; otherwise the error tells which of the two came first; the root then has exactly the fixed directories, the mount paths and those above them; several mounts may show one filesystem |
| Namespace.OneReason | internal/fsys/namespace.go:27-60 | mounts that need too many directories before a bad one and mounts with a bad one before that are told apart |
| Namespace.Namespace.Open | internal/fsys/namespace.go:96-117 | the whole new state and result, the null device and trailing slashes included |
| Namespace.Namespace.Mkdir | internal/fsys/namespace.go:184-190 | the whole new state and result |
| Namespace.Namespace.Remove | internal/fsys/namespace.go:191-207 | the whole new state and result, the kind test included |
| Namespace.Namespace.Rename | internal/fsys/namespace.go:208-240 | the whole new state and result, refusals across mounts included |
| Namespace.Namespace.StatIs | internal/fsys/namespace.go:118-134 | looking a name up in the objects is looking it up in the specification |
| ShellAdequacy.StatementByRules | internal/shell/shell.go:182-234 | of every statement, in every state and on all streams, exactly the evaluator's outcome can be derived by the rules |
| ShellAdequacy.CommandByRules | internal/shell/shell.go:235-366 | so of every compound command: subshells, pipelines, and-or lists, conditionals, loops, declarations |
| ShellAdequacy.DerivedIsComputed | internal/shell/shell.go:167-427 | every derivation, of a word, a redirection or a call as well, ends in what the evaluator computes, so no two derivations disagree |
| ShellAdequacy.RunByRules | internal/shell/shell.go:143-157 | a run reports the outcome derived for its script, an exit's status being that of the run |
| ShellLaws.ConstantIf | internal/shell/shell.go:262-273 | `if true` goes on exactly as its then part, `if false` as its else part, or not at all with status zero |
| ShellLaws.ConstantAndOr | internal/shell/shell.go:250-261 | `true && x` goes on exactly as x, and `false && x` does not begin x; of an or list the reverse holds |
| ShellLaws.ConstantNot | internal/shell/shell.go:225-233 | `! true` does nothing and has status one, `! false` zero |
| ShellLaws.ConstantLoop | internal/shell/shell.go:307-333 | `while false` and `until true` never run their body; `while true` and `until false` run it first and then all over again, and end with a break |
| ShellLaws.ForFirst | internal/shell/shell.go:284-306 | a for loop sets its variable to the first item, runs its body, and goes on with the other items after the body or a continue; a break ends it |
| ShellWiring.StatementWired | internal/shell/shell.go:182-234 | every command executed, message and input read in the course of a statement uses the streams the statement was given, files its own redirections have opened, and pipes and captures made inside it |
| ShellWiring.PipelineWires | internal/shell/shell.go:750-781 | the left stage's part of the history uses the pipe in place of the output, the right stage's the same pipe in place of the input; the left part is that of the left statement run on such streams |
| ShellWiring.PipeIsPrivate | internal/shell/shell.go:750-781 | only the left stage writes to a pipeline's pipe and only the right one reads it; the left stage writes nothing to the output it replaces, the right one reads nothing of the input |
| ShellLaws.PlainExecutes | internal/shell/shell.go:517-546 | a written-out command that is no builtin and no function is executed at most once, last, in the working directory, with the words as written, on exactly the streams given, and has the status of the command |
| ShellLaws.PipelineExecutes | internal/shell/shell.go:750-781 | of two such commands in a pipeline the left one is executed with the pipe as its output, the right one with the same pipe as its input, and all other streams as given |
| ShellLaws.ExecutesFound | internal/shell/shell.go:517-546 | a name with a slash is executed exactly when it leads into a program directory; another one is looked for in the program directories that PATH leads to, in order, up to the first that has it, and is executed exactly when one has |
| ShellLaws.ChangeDirGoes | internal/shell/shell.go:433-454 | cd enters exactly a directory, the one that following the components of its argument leads to; PWD is then that one and OLDPWD the one before, and nothing else changes |
| ShellLaws.ThereAndBack | internal/shell/shell.go:433-454 | cd and `cd -` lead back, with OLDPWD the directory between |
| ShellLaws.Arguments | internal/shell/shell.go:901-926 | `$n` is the n-th argument, `$@` all of them, `$#` their number, `$?` the last status |
| ShellLaws.FunctionArguments | internal/shell/shell.go:412-427 | in a function's body `$n` is the n-th word after its name |
| ShellLaws.AdmitExactly | internal/shell/shell.go:821-846 | fields are accepted, in order, exactly when with those before they are not more, nor larger together, than is allowed, unless the run is cancelled |
| ShellLaws.LeaveStatus | internal/shell/shell.go:466-478 | exit and return with a number signal its remainder modulo 256, never negative; without one the last status |
| ShellLaws.UnsetRemoves | internal/shell/shell.go:461-465 | unset removes the named variables and no others |
| ShellLaws.LoopSignals | internal/shell/shell.go:479-483 | break and continue signal themselves, and refuse arguments |
| ShellLaws.PwdPrints | internal/shell/shell.go:455-460 | pwd prints the working directory on its output |
| ShellLaws.InitialVars | internal/shell/shell.go:64-74 | a new shell has the given variables, the defaults for those not given, and PWD, all exported, and no others |
| ShellLaws.CloseOutcome | internal/shell/shell.go:199-208 | the files of redirections are closed each once, the last first; a failed closing is the outcome unless there was a failure already |
| ShellSound.SoundStatement | internal/shell/shell.go:182-234 | every statement, on every exit path, restores the positional arguments and the depth, closes what it opened last-opened-first, neither invents nor loses steps, stays within depth 64, keeps the working directory clean, and returns an exit signal with its own status |
| ShellSound.SoundCommand | internal/shell/shell.go:235-366 | so does every compound command |
| ShellSound.SoundRedirect | internal/shell/shell.go:930-1041 | redirections, also when one fails in the middle, return exactly the files they left open, in order, as those to close |
| ShellSound.SoundCloseAll | internal/shell/shell.go:199-208 | closing them all brings the open files back to those before the statement; a failed close replaces a signal without breaking the agreement of exit codes |
| ShellSound.SoundPipeline | internal/shell/shell.go:750-781 | two stages on one counter together take no more steps than there are, for every way of sharing them |
| ShellSound.SoundSubstitute | internal/shell/shell.go:802-819 | a substitution keeps all of this and never lets an exit signal out |
| ShellSound.SoundCallFunction | internal/shell/shell.go:412-427 | so does a function call, recursive or not |
| ShellSound.SoundNested | internal/shell/shell.go:484-508 | so does a nested shell |
| ShellSound.CleanTwice | internal/shell/shell.go:445-453 | the directory that cd enters is named by an absolute, clean path |
| ShellSound.RunIsSound | internal/shell/shell.go:143-166 | every run of every program takes at most maxSteps steps, never deeper than 64, ends with no file open, restores arguments and depth, and keeps a clean working directory clean |
| ShellFiles.RunReturnsHandles | internal/shell/shell.go:143-166 | every run of every program, replayed on any namespace with any other operations in between, leaves no handle of a redirection open on any inode of any filesystem, as before it |
| ShellFiles.HandlesReturn | internal/shell/shell.go:198-208 | so does every history that counts no file as open at its end |
| ShellFiles.Accounts | internal/shell/shell.go:930-1041 | at every moment of a replay the handle a redirection was given is open exactly when the history counts the file as open, and no two redirections were given one handle |
| ShellFiles.RedirectionOpens | internal/shell/shell.go:1002-1038 | in the filesystem `<` finds the file as it was, to be read; `>` and `&>` leave it empty, to be written; `>>` and `&>>` find it as it was, or new and empty, to be written at its end |
| ShellSound.RunIsSubshell | internal/shell/shell.go:143-157 | a run, which trusts the code in an exit signal, and a subshell, which trusts the status beside it, report the same |
| ShellSound.ClosedOnce | internal/shell/shell.go:198-208 | a file no longer open was closed exactly once, after its opening; one still open was never closed |
| ShellSound.OpenAreOpenings | internal/shell/shell.go:930-1041 | the open files are files that were opened, in the order of opening |
| ShellStreams.NoUseAfterClose | internal/shell/shell.go:182-234 | in every run every command, message and input read uses only files that a redirection has opened and none has closed yet |
| ShellStreams.StatementOrderly | internal/shell/shell.go:182-234 | a statement uses its streams only between opening and closing them, on every exit path |
| ShellStreams.RedirectSafe | internal/shell/shell.go:930-1041 | the streams that redirections hand to the command are all open, duplicated and replaced ones included |
| ShellStreams.OrderlyAt | internal/shell/shell.go:182-234 | what that says of a single event of the history |
| ShellFlow.NoStrayFlow | internal/shell/shell.go:143-157 | a run whose script, stored functions and scripts given to nested shells are well scoped never ends with a control-flow signal, whatever else the parser accepts |
| ShellFlow.StatementFlow | internal/shell/shell.go:182-234 | a statement lets out break and continue only where a loop encloses it, return only where a function does, through every redirection, negation and failure, unless an ill-scoped script was given to a nested shell by then |
| ShellFlow.CommandFlow | internal/shell/shell.go:235-366 | so does every compound command; loops contain break and continue of their bodies, not of their conditions |
| ShellFlow.CallFunctionFlow | internal/shell/shell.go:412-427 | a function call lets out exit alone |
| ShellFlow.SubstituteFlow | internal/shell/shell.go:802-819 | so does a substitution in a scope of its own |
| ShellFlow.FieldsFlow | internal/shell/shell.go:821-846 | a written-out first word is the command's name after expansion, and expansion lets no signal out unless an ill-scoped script was given by then |
| ShellFlow.StrayBreak | internal/shell/shell.go:243-249 | a break in a subshell outside loops does end the run as an error |
| ShellBudget.LimitIsTransparent | internal/shell/shell.go:158-166 | a run that no step was refused to is the same under every larger limit: same code, error, state and history, and all the additional steps are left over |
| ShellBudget.PipelineStable | internal/shell/shell.go:750-781 | for pipelines, whatever part of the additional steps either stage gets |
| ShellScope.CallRestores | internal/shell/shell.go:390-409 | after a command with prefix assignments each assigned variable has the value it had just before its first assignment, whatever the command did, however often it was assigned, and when a later assignment fails |
| ShellScope.CallRestoresStart | internal/shell/shell.go:390-409 | that value is the one before the whole command when the variable then has a value that is not empty, or no earlier value sets it by expansion |
| ShellScope.RestoredExactly | internal/shell/shell.go:390-409 | for every variable, exactly when that value is the one before the whole command, read off the value before and the values of the assignments before its own |
| ShellScope.UnsetRestoredExactly | internal/shell/shell.go:390-409 | for a variable that was unset, exactly when no earlier value sets it by expansion |
| ShellScope.EmptyRestoredExactly | internal/shell/shell.go:390-409 | for a variable that is set and empty, exactly when earlier values assign only the empty string to it by expansion |
| ShellScope.StartIsLost | internal/shell/shell.go:390-409 | a variable that was unset is seen differently once the value of an earlier assignment has set it, whatever the command does |
| ShellScope.EmptyIsLost | internal/shell/shell.go:390-409 | so is a variable that was set and empty once an earlier value has filled it |
| ShellScope.EarlierDefaultPersists | internal/shell/shell.go:390-409 | `a=${b:=1} b=2` with b unset or empty leaves b set to 1 after any command |
| ShellScope.CallLeavesOthers | internal/shell/shell.go:386-411 | all other variables keep what the command made of them |
| Interpreter.Run.Step | internal/shell/shell.go:158-166 | counting a step: cancellation first, then the limit |
| Interpreter.Shell.New | internal/shell/shell.go:64-74 | the variables of a new shell, in tables of its own |
| Interpreter.Shell.Clone | internal/shell/shell.go:75-81 | a copy has equal fields and tables of its own: two new objects |
| Interpreter.Shell.InCopy | internal/shell/shell.go:243-249 | a subshell writes no field and no table of this shell; what its list does is done to the tables of the copy |
| Interpreter.Shell.SetVar | internal/shell/shell.go:880-888 | setting a variable within the limits; an export mark is sticky |
| Interpreter.Shell.Substitution | internal/shell/shell.go:802-819 | the whole effect and result of a command substitution: it writes the status of the last substitution and no table or other field of this shell; what its body does is done to the tables of a copy one deeper |
| Interpreter.Shell.WordValues | internal/shell/shell.go:802-819 | the values of a word's parts; without `${x:=...}` expanding changes nothing of the shell, its tables included, but the status of the last substitution |
| Interpreter.Shell.WordFields | internal/shell/shell.go:821-846 | fields are admitted one by one within the limits on number and size |
| Interpreter.Shell.AssignVar | internal/shell/shell.go:367-376 | the whole effect of one assignment, appending included |
| Interpreter.Shell.OpenTarget | internal/shell/shell.go:1002-1038 | a file is opened and to be closed even when its descriptor or direction is refused |
| Interpreter.Shell.RedirectOne | internal/shell/shell.go:932-1039 | the whole effect of one redirection, every kind and refusal |
| Interpreter.Shell.Redirections | internal/shell/shell.go:930-1041 | the loop over redirections, stopping at the first failure with what was opened |
| Interpreter.Shell.CloseFiles | internal/shell/shell.go:199-208 | the deferred closing, in reverse |
| Interpreter.Shell.Statements | internal/shell/shell.go:167-178 | the loop over a list, stopping at the first error |
| Interpreter.Shell.Statement | internal/shell/shell.go:182-234 | the whole effect of a statement: words, redirections, command, negation, closing; a subshell or a pipeline leaves the shell and its tables as they were but for the status fields |
| Interpreter.Shell.Command | internal/shell/shell.go:235-366 | the whole effect of every compound command |
| Interpreter.Shell.ForLoop | internal/shell/shell.go:284-306 | the for loop with break and continue |
| Interpreter.Shell.WhileLoop | internal/shell/shell.go:307-333 | the while and until loops with break and continue |
| Interpreter.Shell.Exports | internal/shell/shell.go:340-353 | the export declaration |
| Interpreter.Shell.Pipeline | internal/shell/shell.go:750-781 | both stages run on copies; no field and no table of this shell is written |
| Interpreter.Shell.Stage | internal/shell/shell.go:758-766 | a stage runs the whole statement on the tables of a copy, with its share of the steps, and writes to no object there was before |
| Interpreter.Shell.PipelineEnd | internal/shell/shell.go:768-780 | cancellation first, then the right stage's error, then the left one's unless its reader had left |
| Interpreter.Shell.Prefix | internal/shell/shell.go:391-408 | prefix assignments with the values to restore, the first one per name |
| Interpreter.Shell.RestoreVars | internal/shell/shell.go:392-400 | the deferred restoration has one result for every order of walking the map |
| Interpreter.Shell.Call | internal/shell/shell.go:377-411 | the whole effect of a simple command |
| Interpreter.Shell.Invoke | internal/shell/shell.go:412-512 | functions before builtins before commands |
| Interpreter.Shell.CallFunction | internal/shell/shell.go:412-427 | a function call, the deferred restoration included |
| Interpreter.Shell.Nested | internal/shell/shell.go:484-508 | sh -c and bash -c: the whole effect and result, with no field and no table of this shell written |
| Interpreter.Shell.ChangeDir | internal/shell/shell.go:433-454 | cd |
| Interpreter.Shell.PrintDir | internal/shell/shell.go:455-460 | pwd |
| Interpreter.Shell.Unset | internal/shell/shell.go:461-465 | unset |
| Interpreter.Shell.Leave | internal/shell/shell.go:466-478 | exit and return, the code reduced modulo 256 also when negative |
| Interpreter.Shell.LoopControl | internal/shell/shell.go:479-483 | break and continue |
| Interpreter.Shell.FindIn | internal/shell/shell.go:529-539 | the search of PATH |
| Interpreter.Shell.External | internal/shell/shell.go:517-546 | lookup and execution of a command |
| Interpreter.Shell.XargsOptions | internal/shell/shell.go:560-613 | the option loop of xargs |
| Interpreter.Shell.XargsItems | internal/shell/shell.go:625-643 | the items in each mode |
| Interpreter.Shell.XargsBatches | internal/shell/shell.go:647-683 | the batch loop of xargs |
| Interpreter.Shell.Xargs | internal/shell/shell.go:553-684 | the whole effect of xargs |
| Interpreter.Shell.RunScript | internal/shell/shell.go:143-157 | a whole run, with the flag that an exit was seen; within the step limit, with every file closed, arguments and depth restored |
| XargsSplit.Split | internal/shell/shell.go:689-730 | the loop over the bytes computes the tokenization |
| XargsSplit.SplitIsReading | internal/shell/shell.go:689-730 | the tokenizer accepts exactly what can be written with blanks, plain, escaped and quoted pieces, and returns exactly the items those pieces denote |
| XargsSplit.SplitJoined | internal/shell/shell.go:689-730 | splitting a, a blank and b is splitting a and then b, failing exactly when b fails |
| XargsSplit.SplitUndoesQuote | internal/shell/shell.go:689-730 | escaping every byte of every item and joining with blanks is undone |
| XargsInput.NulItems | internal/shell/shell.go:625-643 | with -0 any items without NUL, each followed by one, are read back: blanks, quotes, newlines and empty items included |
| XargsInput.LineItems | internal/shell/shell.go:625-643 | with -I every line is an item, inner blanks and quotes included; blanks before it and empty lines are dropped |
| XargsInput.OptionsReadBack | internal/shell/shell.go:560-613 | options written out one by one before a command of any words are read back |
| Xargs.ArgvsConserve | internal/shell/shell.go:647-683 | without -I the command lines carry all items in order, each once; all but the last carry N under -n N; their number is the rounded-up quotient, at least one |
| Xargs.ArgvsReplace | internal/shell/shell.go:659-662 | with -I and single items, one command line for each item |
| XargsReplace.NoItemLost | internal/shell/shell.go:653-665 | the command lines determine the items exactly when there is no -I, or R occurs in a word of the command after the first and batches are single or there is one item |
| XargsReplace.EachItemItsLine | internal/shell/shell.go:647-665 | every item has a command line of its own exactly when batches are single or there is one item |
| XargsReplace.LineTellsItem | internal/shell/shell.go:659-662 | the command line for one item depends on the item exactly when R occurs in a word after the first; otherwise it is the bare command |
| XargsReplace.UnusedLeavesNoTrace | internal/shell/shell.go:659-662 | where R occurs in no such word, all lists of as many items give the same command lines |
| XargsReplace.FirstBatchLost | internal/shell/shell.go:653-665 | with -I and larger batches the first item of two or more leaves no trace |
| XargsReplace.LaterCountDrops | internal/shell/shell.go:596-608 | the order of -I and -n decides which one counts, with a concrete loss |
| XargsReplace.DefaultCommandDrops | internal/shell/shell.go:615-617 | -I without a command loses every item, because the default command mentions none |
| Xargs.BatchesRunAsPlanned | internal/shell/shell.go:647-683 | the commands that the history shows as executed are the first of the planned command lines, each once and in order; the run stops only after one that fails or ends with 126, 127 or 255, or when the next is not found or a step is refused, and otherwise all are executed |
| Xargs.RunConserves | internal/shell/shell.go:644-683 | for the whole builtin, of the commands that the history shows as executed: they are the first of the planned ones, and all of them exactly when the status is 0 or 123, the latter when some ended nonzero; without -I the words after the command's own are a prefix of the items, and then all of them; nothing is executed for -r without items |
| Xargs.RunOwnStreams | internal/shell/shell.go:614-670 | xargs reads its whole input first; every command it runs has an empty input, its output and error output and the working directory; its own messages go to the error output |
| Xargs.ExternalExecutes | internal/shell/shell.go:517-546 | running a command looks some names up and then either executes it, once, with the words given after its name or its base name, on the streams given, in the working directory, with exactly the variables that are exported and set, and PWD, or says that it was not found, with status 127 |
| Xargs.DoneExternal | internal/shell/shell.go:517-546 | so it adds exactly one executed command to the history, with its status, or none and status 127 |
| Pipes.StepKeeps | internal/shell/shell.go:750-781 | every step of the two stages, closing and cancelling included, keeps the pipe's invariant |
| Pipes.NoDeadlock | internal/shell/shell.go:750-781 | in every reachable state with a stage still there, something other than cancelling can happen |
| Pipes.RunsEnd | internal/shell/shell.go:750-781 | every run is no longer than the stages' work allows |
| Pipes.Completes | internal/shell/shell.go:750-781 | from every reachable state both stages can be brought to their end |
| Pipes.BytesArriveInOrder | internal/shell/shell.go:750-781 | what was read is always a prefix of what was written, all of it at a clean end of file and when both stages are gone and no write was refused; a write is refused only when the reader is gone or the run cancelled |
| Pipes.FailureIsNotEof | internal/shell/shell.go:761-766 | a left stage that ended with an error never looks complete to the reader |
| Pipes.AbandonedWriterIsReleased | internal/shell/shell.go:768-779 | a writer whose reader left can only have its write fail next, and can then end and leave; however the run goes on, at its end the writer was told and the reader's result stands, and a writer that ended with the closed-pipe error leaves the pipeline to report that result |

## Left out

- Timestamps, permission bits, inode numbers and the exact text and wrapping of errors: errors are values of `Store.Errno` and `ShellState.Error`.
- `Chmod`, `Chtimes`, `Readlink`, `Lstat` of symbolic links, host directories and WASI adapters: mounted backends are modelled as in-memory filesystems without links, so the checks in `New` that a backend exists and is a directory at its root are not modelled.
- Mutexes of the filesystem: each public method holds one for its whole body, so methods are atomic steps.
- UTF-8 validity in `fs.ValidPath`: names are sequences of characters, split at slashes, without NUL.
- The empty-name and file-information results of `Stat`: only the kind of what a name denotes.
- The order in which Go walks a map and its sorting algorithm: the model's loops pick any order, its sort is an insertion sort; the results are proved not to depend on either.
- Parsing, arithmetic, tilde and glob expansion, field splitting and quote removal: they belong to the parser and expansion library, which is not part of this model. Scripts start as syntax trees; splitting is an arbitrary function of a word and the values of its parts; a literal word is its own text, so a pattern never expands to file names and reads no directory.
- The lengths and depths that `Parse` refuses: parsing is an arbitrary partial function, and only the syntax it lets through is modelled; redirection operators that it refuses have no counterpart.
- Whether the library expands the word of `${x:=word}` when x has a value is left open: the model covers both.
- What commands write and read: bytes on streams appear only as what a substitution captured, what xargs read and what a pipe carries; the interpreter's filesystem is the oracle rather than a namespace object; `ShellFiles` joins the two by replaying histories on namespaces.
- Interleavings inside the interpreter's pipelines: the stages' histories are put one after the other; the answers of the world and the split of the step budget are arbitrary, which is what an interleaving can change. `Pipes` interleaves the stages step by step for the pipe itself.
- ShellSound.RunIsSound: bounds the steps that are taken and does not claim that a refused step surfaces as the run's error, because an error of a right stage hides the left one's.
- ShellFlow.NoStrayFlow: requires that command names are written out (or that everything is permitted where they are not), because an expanded name can be break; and it goes one way, because an ill-placed break may never be reached.
- ShellScope.UnsetRestoredExactly: does not cover `${k:=...}` for the variable inside the word of another `${x:=...}` where the library expands that word only when x is empty: whether it is, is known only in the course of the command.
- ShellScope.EmptyRestoredExactly: likewise, and needs the words of `${k:=...}` written out, because what other words assign is known only in the course of the command; `ShellScope.RestoredExactly` inherits both.
- ShellStreams.NoUseAfterClose: streams given from outside, pipes and captured output are not files; that a pipe outlives its users is the subject of `Pipes`.
- The removal of the directory that a shell works in is possible and not excluded; its name stays absolute and clean, which is all that is claimed.
- `IsBuiltin`, `exported`, the output limits of the session and other configuration: short and without branching of interest.
