# A verified model of podman-bootc's VM and disk cache

`podman-bootc` keeps, for every bootable container image, a cache directory with a disk image, a
configuration file and an ssh key, and a libvirt domain that boots the disk.  Several processes
(`run`, `stop`, `rm`, `ssh`, `list`) work on the same image at the same time and coordinate only
through a shared/exclusive file lock that nobody waits for.  This project models the Linux
variant of that protocol, its disk install, the credential that injects the ssh key, and the
image listing, and proves what the tool relies on.

`dafny verify dfyconfig.toml` checks everything.

## How it is built

The protocol is modelled twice.

1. `Protocol` is a step relation.  Every system call of every command is one step with three
   parts: `Answer` (what the kernel, podman or libvirt replies), `Effect` (what happens to the
   image's directory, disk, temporary disks, configuration, domain and lock table) and `Go`
   (the program: which call is next).  `Exec(START, moves)` is the world after any sequence of
   moves: launching a command, one call of a process, killing a process at any point (its locks
   go, its files stay), and a guest powering itself off.  `Invariant` gives one invariant of the
   whole system and shows that every move keeps it; `Safety`, `Labels` (what is on a published
   disk), `TempDisks` (what becomes of temporary disks), `Pruning` (what `rm --all` does beside
   other processes), `Outcomes` (errors and success) and `Progress` draw the conclusions, and `Scenarios` holds the runs that show what the tool does not rule out.
2. `VirtualMachine`, `BootcDisk` and `Commands` are the source's objects and functions, as
   classes and methods over a `Machine.Host`.  `Host.Call` makes the command's next call after
   any moves of others taken from a script; `Host.Valid()` says that the current world is
   `Exec(START, history)`, so every method is a run of the steps, and the theorems about runs
   hold between any two of its calls.  The contracts hold for every script, that is, for every
   interleaving; the clauses under `Quiet` say exactly what an undisturbed command in which no
   call fails, and whose image name keeps its meaning, does.  A script never kills the command itself: that is part of the step relation
   only, where the safety theorems cover it.

`CacheNames` (id resolution, listing order), `DiskSize` (int64 arithmetic), `Credential`
(base64, line and field splitting) and `Images` (rows of the image list) stand on their own;
the protocol uses the first two.

## What the environment is assumed to do

- Only these commands touch the cache directory and the domains.  A domain cannot start without
  its disk.  A running guest may power off at any time.
- Each new domain definition has its own uuid; defining a name that exists either keeps the
  existing domain or fails; undefining a running domain leaves it running without a
  persistent definition, and then it disappears when it stops.
- The name given to `run` may denote another image in podman's store at any call; the install
  container runs from the name, and so builds what the name denotes then.
- Reading the digest attribute fails only if it is absent.  Giving back a held lock succeeds.
  The kernel drops a killed process's locks.
- Image ids have 64 characters, and those in use differ in their first 12, so that each image
  has a domain of its own (`CacheNames.DomainSharedIffShortIdsAgree` is why this matters).
- Every other call may fail at any time; a failing RemoveAll may have removed any of the files.

## Where code and documentation disagree, and what is false

- `docs/podman-bootc-run.1.md` says that `--rm` removes the disk image.  The code keeps it, and
  `Commands.RunRunStop` is about what the code does.
- A published disk carries the digest of its own image, but the digest is that of the image
  inspected first (`pkg/bootc/bootc_disk.go:243-245`), while the container runs from the name
  (`pkg/bootc/bootc_disk.go:319`).  The disk holds the image whose digest it carries exactly if
  the name still denoted that image at the build (`Labels.DiskHoldsItsImageIffNameWasStable`).
  `Scenarios.DiskMayHoldAnotherImage` gives, for every two images, a run that publishes one
  under the digest of the other, after which a second `run` takes it over.
- `run` refuses a running guest, yet destroys the domain it has found stopped if that very domain
  is running when Delete looks again, and only another `run` can have started it
  (`Safety.RunStopsOnlyAnothersGuest`; `Scenarios.RunMayStopAnothersGuest` is such a run).
- A handle under the Exclusive lock is nil exactly when its domain is undefined, except in one
  case: the domain has lost its persistent definition and stops.  `Safety.HandleStaysExact` has
  the exact condition.  `Scenarios.HandleMayOutliveItsDomain` gives, for every image, a run that
  gets there: two `run`s share the lock, one starts the domain just before the other undefines
  it, and a later `stop` holds a handle while the guest powers off.  Even then nothing is
  undefined through nil.
- The disk size is the least sufficient multiple of 4096 exactly when the three inputs leave room
  for the rounding in an int64 (`DiskSize.FinalSizeIsLeastSufficient`).
- A short id leads back to its directory exactly when no later directory shares the 12
  characters (`CacheNames.ShortIdRoundTrip`, and `Commands.ShownIdLeadsBack` for the ids that
  `list` reads from the configuration files); the credential can be read back exactly when the
  user name is a word and the key is not empty (`Credential.CredentialRoundTrip`).

## Model

| member | source | states |
|---|---|---|
| Safety.MovesOnlyBetweenNeighbours | pkg/vm/vm_linux.go:116-169 | every move of any interleaving, kills included, takes an image at most one step along Absent - Cached - Up, and each such step is one named call under one lock mode |
| Safety.RunsPassThroughCached | pkg/vm/vm_linux.go:286-327 | a run that takes an image from running to absent, or back, passes a moment where it is stopped with its disk in place |
| Safety.DiskChangesOnlyWhileOff | pkg/bootc/bootc_disk.go:159-192 | a published disk is never replaced, only put where none is or taken away, and never while the guest runs |
| Safety.RunningGuestKeepsItsDisk | cmd/rm.go:136-143 | over any run during which the guest stays up, its disk is the very same one |
| Safety.PublishedDisksAreWellLabelled | pkg/bootc/bootc_disk.go:239-258 | in every run, after any kills, disk.raw is completely installed, usable and carries the digest of the image that owns the directory; so is any temporary disk that already has a digest |
| Labels.DiskHoldsItsImageIffNameWasStable | pkg/bootc/bootc_disk.go:265-328 | in every run, disk.raw holds what its last build made: the image whose digest it carries exactly if the name given to run still denoted it at that build |
| Labels.DisksAreFromBuilds | pkg/bootc/bootc_disk.go:239-258 | every complete disk, published or temporary, holds what the name denoted at the build of that very file |
| Scenarios.DiskMayHoldAnotherImage | pkg/bootc/bootc_disk.go:319 | for every two images there is a run after which the disk of one carries its digest but holds the other, and a second run has accepted it |
| Safety.SuccessfulInstallLeavesADisk | pkg/bootc/bootc_disk.go:106-144 | when Install is about to return nil, the disk is there with the image's digest and the directory is locked by this process alone |
| Safety.InstallsAreConserved | pkg/bootc/bootc_disk.go:253-258 | from an empty cache, renames equal removals, plus one if a disk is present |
| Safety.ExistingDiskIsAlwaysReused | pkg/bootc/bootc_disk.go:172-191 | the branches that rebuild over an existing disk are never taken, and a rename never replaces a disk |
| Safety.GentleRemoveSparesRunningGuests | cmd/rm.go:117-134 | rm without -f never reaches the destroy call and changes nothing of an image whose guest runs |
| Safety.NoStartDuringGentleRemove | pkg/vm/vm_linux.go:286-327 | from killVM's check to the end of the removal nobody can start the guest |
| Safety.LookupIsExact | pkg/vm/vm_linux.go:260-283 | the lookup under the Exclusive lock caches nil exactly if the domain is undefined, else the current definition |
| Safety.HandleStaysExact | pkg/vm/vm_linux.go:260-309 | that stays so until the command's own undefine, under every move of anybody, exactly unless a domain without persistent definition stops |
| Safety.DomainUnderExclusive | pkg/vm/vm.go:269-295 | while a command holds the Exclusive lock, a power-off is the only move of others that changes the domain |
| Safety.UndefineIsNeverThroughNil | pkg/vm/vm_linux.go:297-306 | no run reaches an undefine with a nil handle, in rm, stop, Run or the end of doRun; under the Exclusive lock the handle is the current, stopped domain |
| Safety.RunStopsOnlyAnothersGuest | pkg/vm/vm_linux.go:126-141 | whatever others do meanwhile, a run that found its guest stopped goes on to destroy it exactly if the domain it found is running when Delete looks again, and then another run has started it in between |
| Outcomes.RunDeletesWhatItFoundStopped | pkg/vm/vm_linux.go:126-141 | a run comes to delete a domain only by the call that found this very domain defined and not running |
| Outcomes.CheckErrorChangesNothing | pkg/vm/vm_linux.go:127-130 | if that call fails or finds the guest running, the run ends there and nothing is changed |
| Outcomes.ErrorFails | cmd/run.go:57-177 | an error from any call of run, stop, rm or ssh ends the work: only cleaning up and failing are left |
| Outcomes.SuccessMeansNoError | cmd/run.go:57-177 | in every run of the system, run, stop, rm and ssh return success only if none of their calls was answered with an error |
| Safety.GuestsComeUpByStart | pkg/vm/vm_linux.go:158-161 | in every run that brings a guest up, some process makes the start call under the Shared lock |
| Scenarios.RunMayStopAnothersGuest | pkg/vm/vm_linux.go:312-327 | for every image there is a run in which one run command stops the guest that another has just started |
| Safety.SuccessMeansGone | cmd/rm.go:136-143 | at a successful end of stop or rm the domain is undefined; of rm, directory, disks and configuration are gone too |
| Safety.OpenVmHasItsDirectory | pkg/vm/vm.go:280-292 | after NewVM succeeded, and until it unlocks or removes it itself, the command's directory exists, though its id was resolved before locking |
| Safety.DirectoriesChangeUnderExclusive | pkg/vm/vm.go:251-254 | a directory appears or disappears only by a process that is the sole, exclusive holder of its lock |
| Safety.LocksExcludeEachOther | pkg/utils/locks.go:27-36 | at all times one exclusive holder or any number of shared ones, each an unfinished process that knows the instance it holds |
| Safety.EveryLockIsReleasedOnce | cmd/run.go:94-104 | a command that returned, in whatever way, released each instance it took exactly once and in order; a killed one lacks at most the last; the lock table holds nothing of either |
| Invariant.MoveKeepsInv | pkg/vm/vm.go:269-295 | every move of any process, kill or power-off keeps the invariant of images, processes and lock table |
| Invariant.RunKeepsInv | pkg/vm/vm.go:269-295 | so does every run |
| Invariant.StepIsPolite | pkg/bootc/bootc_disk.go:116-129 | a call without a lock changes nothing of an image that is locked exclusively, and one that is not under the Exclusive lock changes neither directory nor disk |
| Scenarios.HandleMayOutliveItsDomain | pkg/vm/vm_linux.go:126-161 | for every image there is a run of two runs and a stop in which the stop's handle loses its domain to a power-off |
| Progress.EveryReplyMovesOn | pkg/vm/vm_linux.go:233-253 | whatever a call is answered, the bound on the calls left drops |
| Progress.WorkIsBounded | pkg/vm/vm.go:199-211 | in every run, calls made plus calls left never exceed the initial bound, whatever other processes do |
| Progress.CommandsFinish | cmd/run.go:57-177 | run ends within 216 calls, stop, rm and ssh within 202 |
| Progress.LoopsFinish | cmd/rm.go:104-112 | after listing n directories, rm --all and list make at most 203 n calls, and have finished when they have made as many |
| Machine.Host.Call | pkg/utils/locks.go:27-36 | one call of a command, after any moves of others, is one move appended to the history of the system |
| VirtualMachine.CacheLock.TryLock | pkg/utils/locks.go:30-36 | never waits; succeeds undisturbed exactly if the mode is compatible with all holders, and then adds just this instance |
| VirtualMachine.CacheLock.Unlock | pkg/utils/locks.go:39-41 | removes exactly the instance held and logs its release |
| VirtualMachine.LockVM | pkg/vm/vm.go:269-295 | lock, then look for the directory again; undisturbed, locked exactly if the lock is free and the directory exists, and otherwise the image is as before with nothing held |
| VirtualMachine.ResolveId | pkg/vm/vm.go:27-45 | in every interleaving, a success has resolved the id to the last match of the listing that the call read, whose directory was there; undisturbed it succeeds exactly if the id is not empty and is a prefix of the id of some image with a directory |
| VirtualMachine.LoadExistingDomain | pkg/vm/vm_linux.go:260-283 | in every interleaving, a success caches nil exactly if the domain was undefined at the lookup, else the one defined then |
| VirtualMachine.OpenVM | pkg/vm/vm_linux.go:47-72 | in every interleaving, a handle holds the lock in the command's mode, its directory is there and its domain is the one the lookup saw; on every error the lock is given back |
| VirtualMachine.NewVM | pkg/vm/vm_linux.go:33-73 | in every interleaving, a non-nil result is the last match of the id in a listing read meanwhile, with its directory, the lock in the command's mode and the domain the lookup saw; a nil result holds nothing; undisturbed, nil exactly if the id does not resolve or the lock is not free |
| VirtualMachine.BootcVM.IsRunning | pkg/vm/vm_linux.go:349-364 | nil is not running, a vanished domain is an error, otherwise the domain's state |
| VirtualMachine.BootcVM.Shutdown | pkg/vm/vm_linux.go:312-327 | undisturbed through an exact handle it stops the guest and changes nothing else |
| VirtualMachine.BootcVM.Delete | pkg/vm/vm_linux.go:286-309 | a success under the Exclusive lock leaves no domain, in every interleaving; undisturbed through an exact handle it always succeeds and only the domain changes |
| VirtualMachine.BootcVM.Run | pkg/vm/vm_linux.go:116-169 | a success leaves a cached domain and a disk in place; undisturbed it succeeds exactly if the guest is not running, with a new running domain and nothing else changed |
| VirtualMachine.BootcVM.GetState | pkg/vm/vm_linux.go:238-246 | one poll: unless it fails, true exactly if the cached domain was running in the world of this call |
| VirtualMachine.BootcVM.WaitForVMToBeRunning | pkg/vm/vm_linux.go:233-253 | in every interleaving, success means that one of the first 60 looks at the domain, and the last one made, saw it running and all before saw it not running; failure means that such a look failed, or that exactly 60 were made and none saw it running |
| VirtualMachine.BootcVM.WaitForSSHToBeReady | pkg/vm/vm.go:175-212 | in every interleaving, success means that the key was read and one of at most 120 dials, the last one made, succeeded after failed ones only; failure means that the key could not be read or that exactly 120 dials were made and all failed |
| VirtualMachine.BootcVM.WriteConfig | pkg/vm/vm.go:111-136 | undisturbed it succeeds and writes exactly the file with the 12-character Id; in the background the command is then at its end |
| VirtualMachine.BootcVM.GetConfig | pkg/vm/vm_linux.go:75-87 | in every interleaving, the Id read is the 12-character id of the directory; undisturbed it succeeds exactly if there is a file, returns the Id in it and tells whether the guest runs |
| VirtualMachine.BootcVM.RunSSH | pkg/vm/vm.go:215-249 | undisturbed it succeeds exactly if there is a configuration; run with --rm or a command goes on to Delete |
| VirtualMachine.BootcVM.SetUser | pkg/vm/vm.go:166-173 | fails exactly for the empty user name, and only then keeps the old one |
| VirtualMachine.BootcVM.DeleteFromCache | pkg/vm/vm.go:252-254 | a success leaves neither directory nor disk nor domain; undisturbed exactly the image's files go |
| BootcDisk.BootcDisk.BootcInstallImageToDisk | pkg/bootc/bootc_disk.go:203-261 | in every interleaving: success means that all five calls succeeded and, of the image, only a disk came and the guest may have stopped; a failure after the size was accepted has made the remove call, and unless that failed the temporary disks are as they were; a refused size leaves the empty file; temporary disks of others are never touched. Undisturbed it succeeds exactly if ftruncate accepts the size, and publishes one complete disk of that size |
| TempDisks.InstallCleansUp | pkg/bootc/bootc_disk.go:232-260 | the same of the step relation: every run from the creation of the temporary disk to the unlock, whatever others do, has this outcome |
| TempDisks.LitterHasACause | pkg/bootc/bootc_disk.go:228-237 | in every run, a temporary disk that no process works on any more was abandoned by a kill, a refused size or a failed remove call |
| BootcDisk.BootcDisk.GetOrInstallImageToDisk | pkg/bootc/bootc_disk.go:159-192 | success means a complete disk with the image's digest, holding what the name denoted when it was built, in every interleaving; undisturbed, an existing disk is kept as it is |
| BootcDisk.BootcDisk.CompareDigest | pkg/bootc/bootc_disk.go:171-191 | the comparison finds the digest equal in every interleaving |
| BootcDisk.BootcDisk.Install | pkg/bootc/bootc_disk.go:106-144 | success means that just before unlocking the complete disk with the image's digest, holding what the name denoted when it was built, was there under this process's sole lock; undisturbed, exactly when it succeeds, what it leaves, and that a failure leaves at most a directory or a temporary file |
| Commands.DoStop | cmd/stop.go:25-51 | returns with every lock released; undisturbed it fails exactly if the id does not resolve or somebody holds the lock, and otherwise exactly the domain goes |
| Commands.KillVM | cmd/rm.go:117-134 | success leaves nothing of the image; undisturbed it fails exactly if the guest runs, changing nothing |
| Commands.ForceKillVM | cmd/rm.go:136-143 | undisturbed it always succeeds and leaves nothing of the image |
| Commands.Prune | cmd/rm.go:54-91 | undisturbed, succeeds exactly if the image's directory is gone afterwards; a locked or, without -f, running image is unchanged |
| Commands.PruneAll | cmd/rm.go:93-115 | returns with every lock released in every interleaving; if meanwhile the others take and release no lock, no guest powers off and its own calls do not fail, it succeeds and every image that nobody else held is exactly pruned, whatever else the others do; being undisturbed is one such case |
| Pruning.PruneAllIsExact | cmd/rm.go:93-143 | the same of the step relation: every such run of rm --all to its end has this outcome |
| Pruning.HeldImagesAreTheirHolders | cmd/rm.go:54-76 | during such a run, each change of an image that others held from the start is a call of one of its holders, never of rm |
| Pruning.OthersChangeWhatTheyHold | pkg/vm/vm.go:269-295 | a move of another process that takes or releases no lock changes only an image that this process holds |
| Pruning.SurvivorsOfPruneAll | cmd/rm.go:93-143 | of the images free or in shared use at the start, the surviving directories are exactly those in use by others and, without -f, those of running guests; their disks are unchanged, a free survivor is unchanged altogether, and of the removed neither disk nor domain is left |
| Commands.GetVMInfo | cmd/list.go:82-108 | for a full id, a row shows its 12-character id in every interleaving; undisturbed, a row exactly if nobody holds the image exclusively and it has a configuration, with the Id read from the file; the world is unchanged |
| Commands.CollectVmList | cmd/list.go:62-80 | returns holding nothing; undisturbed, the rows of all readable directories in listing order, with the Ids in their files, and no image changes |
| Commands.ShownIdLeadsBack | cmd/list.go:102 | in every reachable world, each Id that list shows was written for one listed directory, and resolves in that listing to this directory exactly when no later one shares the 12 characters |
| Commands.DoSsh | cmd/ssh.go:33-65 | returns with every lock released; undisturbed it succeeds exactly if the id resolves, nobody holds it exclusively, the user name is not empty and there is a configuration, and leaves every image as it was |
| Commands.DoRun | cmd/run.go:57-177 | returns with every lock released; success means Install left the complete disk with the image's digest, holding what the name denoted when it was built; undisturbed, exactly when it succeeds, what becomes of disk, configuration and domain, and that a failure changes none of them |
| Commands.RunRunStop | cmd/run.go:161-173 | three commands on one growing run: run with --rm or a command, the same run again, and stop, undisturbed, all succeed; the first leaves the domain undefined and a disk published, the second changes neither disk nor counts, the stop changes no image |
| Commands.RunCanBeRepeated | cmd/run.go:127-174 | what such a run leaves lets it run again; it published exactly one disk if there was none, and none otherwise |
| CacheNames.LastMatchIsLast | pkg/vm/vm.go:33-38 | the resolved name is that of the last matching entry; none exactly if nothing matches |
| CacheNames.GetVMCachePath | pkg/vm/vm.go:27-45 | the loop returns the name at the last position that holds a directory whose name has 64 characters and begins with the id, and fails exactly if there is none |
| CacheNames.EveryPrefixResolves | pkg/vm/vm.go:35 | every prefix of the name of a listed directory, of any length, resolves, to the last such directory |
| CacheNames.FullIdResolvesToItself | pkg/vm/vm.go:33-44 | a full id resolves to itself exactly when its directory is listed |
| CacheNames.ShortIdRoundTrip | pkg/vm/vm.go:116-117 | the 12-character id leads back to its directory exactly when no later one shares it |
| CacheNames.DomainSharedIffShortIdsAgree | pkg/vm/vm_linux.go:29-31 | two images share a domain name exactly when their first 12 characters agree |
| CacheNames.ShortIdHasTwelve | pkg/vm/vm_linux.go:29-31 | the short id of a 64-character id is its first 12 characters, and the domain is podman-bootc- followed by it |
| CacheNames.BeforeIsByFirstDifference | pkg/vm/vm.go:28 | in a listing a name comes before another exactly if it is a proper prefix or is smaller at the first character in which they differ |
| DiskSize.FinalSizeIsLeastSufficient | pkg/bootc/bootc_disk.go:209-223 | the size is the least multiple of 4096 at or above twice the image size, 10 GiB and the request, exactly when int64 leaves room |
| DiskSize.FinalSizeIsMonotone | pkg/bootc/bootc_disk.go:209-223 | larger inputs never give a smaller disk while there is room |
| DiskSize.FinalSizeInNumbers | pkg/bootc/bootc_disk.go:209-223 | the same with the numbers 2, 10737418240 and 4096 written out |
| DiskSize.OverflowsInNumbers | pkg/bootc/bootc_disk.go:194-223 | the overflows exactly: an image of 2^62 bytes or more counts as an empty one, and a size past the largest aligned int64 becomes the least int64 |
| DiskSize.AlignOverflows | pkg/bootc/bootc_disk.go:194-200 | beyond the largest aligned int64, align wraps to the least int64 |
| DiskSize.AcceptedSizeIsUsable | pkg/bootc/bootc_disk.go:223-230 | whatever overflows, a size ftruncate accepts is aligned and at least 10 GiB |
| DiskSize.ComputeDiskSize | pkg/bootc/bootc_disk.go:209-223 | the statements compute it, and fail exactly for an option that does not parse |
| Credential.DecodeEncode | pkg/vm/oemstring.go:24-33 | base64 with padding, section 4 of RFC 4648, decodes to the bytes that were encoded |
| Credential.TestVectors | pkg/vm/oemstring.go:24-33 | the encoder gives the test vectors of section 10 of RFC 4648 |
| Credential.LastDigits | pkg/vm/oemstring.go:24-33 | the last two digits of the alphabet are + and / |
| Credential.FieldsOfLine | pkg/vm/oemstring.go:31 | splitting a line into fields gives back its words |
| Credential.CredentialRoundTrip | pkg/vm/oemstring.go:10-35 | a reader of the whole argument gets back directory and file with modes 0750 and 700, user, group, age and the exact key bytes, exactly when the user name is a non-empty word and the key is not empty; for root the directory is /root/.ssh, for every other plain name /home/name/.ssh |
| Credential.HomeOfUser | pkg/vm/oemstring.go:26-29 | the home of root is /root, that of every other plain name is /home/name |
| Credential.DotDotTakesBack | pkg/vm/oemstring.go:28 | in a user name with slashes, .. takes back the component before it |
| Credential.ArgumentInFull | pkg/vm/oemstring.go:15 | the argument begins with type=11,value=io.systemd.credential.binary:tmpfiles.extra= and goes on with the encoded lines |
| Credential.ArgumentIsSafe | pkg/vm/vm.go:260-267 | the SMBIOS argument has exactly one comma, after type=11, and no character special to XML |
| Images.RowsPerImage | cmd/images.go:82-111 | an image gives max(1, number of tagged names) rows, all its own, and shows <none> as a tag exactly if it has no tagged name |
| Images.SortImages | cmd/images.go:78-146 | fails exactly if a name other than <none>:<none> does not parse; otherwise newest first, with every row exactly as often as the names ask for it: once for each name with a tag that shows this repository and tag, and for an image without such names once with the repository of its first name and tag <none>; in particular each name parsed as n and t gives a row n, t |
| Images.AllRowsInTerms | cmd/images.go:78-146 | the rows of all images, counted by what the parser says of their names |

## Left out

- Machine.Host: a command killed in the middle of a method; kills at every point are moves of the step relation and covered by the theorems of Safety.
- VirtualMachine.NewVM: does not model the check for an empty libvirt URI, which the commands never pass.
- VirtualMachine.BootcVM.RunSSH: the ssh session is one call, however long it lasts; the guest's exit code is not modelled.
- VirtualMachine.BootcVM.DeleteFromCache: RemoveAll is two steps, some files and then all, not one step per file.
- Commands.PruneAll: what becomes of an image that another process holds exclusively during the loop is that process's business; only that rm does not change it is stated.
- BootcDisk.BootcDisk.GetOrInstallImageToDisk: has no branch that rebuilds over an existing disk; the step relation has it, and CompareDigest and Safety.ExistingDiskIsAlwaysReused show it is never taken.
- Commands.GetVMInfo: a configuration file is present or absent; its fields other than the Id are not modelled.
- Credential.CredentialRoundTrip: the reader splits at whitespace only, without the quoting and the percent specifiers of tmpfiles.d, so a user name with such characters is outside what it says about systemd.
- Images.SortByCreated: the algorithm of sort.Slice and its work in place; the rows are a sequence and the result is some ordered permutation.
- Images.TokenRepoTag: reference.Parse is a parameter; units.FromHumanSize is likewise a parsed option in DiskSize.
- The macOS variant, with gvproxy, krunkit and its monitor process.
- The inside of podman, libvirt, ssh, xorriso and flock: their calls succeed or fail at will.
- Paused and crashed domain states: a domain is undefined, off or running.
- Whether the ssh keys in the directory fit the running guest; run makes new keys before it checks.
- Cloud-init, port choice, console printing, JSON and time formatting, templates, flags, and closing the libvirt connection: no bearing on the protocol.
- Other sort keys of images, which sortImages never uses.
- Power loss, and an install container that outlives the killed command.
