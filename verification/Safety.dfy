/** What holds in every run of any number of podman-bootc processes, with processes killed
    and guests powering off at any point.  Lemmas about one move ask for the invariant, which
    every run from START has; lemmas named after runs quantify over all runs. */
module Safety {
  import opened Common
  import opened CacheNames
  import opened Protocol
  import opened Invariant

  // ---- the machine that one image goes through ----

  datatype Phase = Absent | Cached | Up

  function PhaseOf(img: Image): Phase {
    if img.domain.Running? then Up else if img.disk.Some? then Cached else Absent
  }

  /** The process making move m is about to make call pc on image id, with a lock of this mode. */
  ghost predicate Acts(w: World, m: Move, id: ImageId, pc: PC, mode: Mode) {
    && m.Act? && Active(w, m.pid)
    && w.procs[m.pid].pc == pc && w.procs[m.pid].target == id
    && w.procs[m.pid].lock.Some?
    && w.procs[m.pid].lock.value in Img(w, id).holders
    && Img(w, id).holders[w.procs[m.pid].lock.value] == Holder(m.pid, mode)
  }

  ghost predicate Publishes(w: World, m: Move, id: ImageId) {
    Acts(w, m, id, Installing(Rename), Exclusive)
  }

  ghost predicate Starts(w: World, m: Move, id: ImageId) {
    Acts(w, m, id, Using(Start), Shared)
  }

  ghost predicate Halts(w: World, m: Move, id: ImageId) {
    || m == PowerOff(id)
    || (exists after, mode :: Acts(w, m, id, Deleting(Destroy(after)), mode) && !Gentle(w.procs[m.pid].cmd))
  }

  ghost predicate Discards(w: World, m: Move, id: ImageId) {
    || Acts(w, m, id, Deleting(ClearCache), Exclusive)
    || Acts(w, m, id, Deleting(RemoveDir), Exclusive)
  }

  /** The image's part of a move by process pid. */
  lemma ImageAfterMove(w: World, m: Move, id: ImageId)
    ensures Img(Apply(w, m), id) ==
      if m.Act? && Active(w, m.pid) && w.procs[m.pid].target == id then ImageAfter(w, m.pid, m.choice)
      else if m.Kill? && Active(w, m.pid) && w.procs[m.pid].target == id then Release(Img(w, id), w.procs[m.pid].lock)
      else if m == PowerOff(id) then Img(w, id).(domain := Stopped(Img(w, id).domain))
      else Img(w, id)
  {
  }

  lemma ReachableIsOk(moves: seq<Move>)
    ensures Inv(Exec(START, moves))
  {
    StartIsOk();
    RunKeepsInv(START, moves);
  }

  lemma LocalFacts(w: World, pid: nat)
    requires Inv(w) && pid in w.procs
    ensures ImageOk(w.procs[pid].target, Img(w, w.procs[pid].target), w.next)
    ensures ProcOk(pid, w.procs[pid], Img(w, w.procs[pid].target), w.next)
  {
  }

  /** What one call of process p may do to disk, directory and domain. */
  ghost predicate Edge(p: Proc, img: Image, img': Image) {
    && match (PhaseOf(img), PhaseOf(img')) {
         case (Absent, Cached) => p.pc == Installing(Rename)
         case (Cached, Up) => p.pc == Using(Start)
         case (Up, Cached) => p.pc.Deleting? && p.pc.delete.Destroy? && !Gentle(p.cmd)
         case (Cached, Absent) => p.pc == Deleting(ClearCache) || p.pc == Deleting(RemoveDir)
         case (Absent, Up) => false
         case (Up, Absent) => false
         case _ => true
       }
    && (img'.disk == img.disk || ((img.disk.None? || img'.disk.None?) && !img.domain.Running? && !img'.domain.Running?))
    && (img'.dir == img.dir || Holding(p) == Some(Exclusive))
    && (Gentle(p.cmd) && img.domain.Running? ==> img' == img.(holders := img'.holders))
  }

  lemma InstallEdge(at: InstallStep, pid: nat, p: Proc, img: Image, c: Choice, next: nat)
    requires p.pc == Installing(at) && ImageOk(p.target, img, next) && ProcOk(pid, p, img, next)
    ensures Edge(p, img, EffectOfInstall(at, pid, p, img, AnswerInstall(at, p, img, c), c, next))
  {
  }

  lemma OpenEdge(at: OpenStep, pid: nat, p: Proc, img: Image, es: seq<CacheNames.Entry>, c: Choice, next: nat)
    requires p.pc == Opening(at)
    ensures Edge(p, img, EffectOfOpen(at, pid, p, img, AnswerOpen(at, p, img, es, c), next))
  {
  }

  lemma UseEdge(at: UseStep, pid: nat, p: Proc, img: Image, c: Choice, next: nat)
    requires p.pc == Using(at) && ImageOk(p.target, img, next) && ProcOk(pid, p, img, next)
    ensures Edge(p, img, EffectOfUse(at, p, img, AnswerUse(at, p, img, c), next))
  {
  }

  lemma DeleteEdge(at: DeleteStep, pid: nat, p: Proc, img: Image, c: Choice, next: nat)
    requires p.pc == Deleting(at) && ImageOk(p.target, img, next) && ProcOk(pid, p, img, next)
    ensures Edge(p, img, EffectOfDelete(at, p, img, AnswerDelete(at, p, img, c), c))
  {
  }

  lemma StepEdge(pid: nat, p: Proc, img: Image, es: seq<CacheNames.Entry>, c: Choice, next: nat)
    requires ImageOk(p.target, img, next) && ProcOk(pid, p, img, next)
    ensures Edge(p, img, Effect(pid, p, img, Answer(p, img, es, c), c, next))
  {
    match p.pc {
      case Installing(at) => InstallEdge(at, pid, p, img, c, next);
      case Opening(at) => OpenEdge(at, pid, p, img, es, c, next);
      case Using(at) => UseEdge(at, pid, p, img, c, next);
      case Deleting(at) => DeleteEdge(at, pid, p, img, c, next);
      case Done(_) =>
      case Killed =>
      case Panicked =>
    }
  }

  /** A move changes image id by a call of a process that works on it, by a power-off, or in
      the lock table only. */
  lemma MoveEdge(w: World, m: Move, id: ImageId)
    requires Inv(w)
    ensures var img, img' := Img(w, id), Img(Apply(w, m), id);
      || (m.Act? && Active(w, m.pid) && w.procs[m.pid].target == id
          && Edge(w.procs[m.pid], img, img') && HolderOk(m.pid, w.procs[m.pid], img) && Fits(w.procs[m.pid]))
      || (m == PowerOff(id) && img' == img.(domain := Stopped(img.domain)))
      || img' == img.(holders := img'.holders)
  {
    ImageAfterMove(w, m, id);
    if m.Act? && Active(w, m.pid) && w.procs[m.pid].target == id {
      LocalFacts(w, m.pid);
      StepEdge(m.pid, w.procs[m.pid], Img(w, id), Entries(w), m.choice, w.next);
    }
  }

  lemma ImageFacts(w: World, id: ImageId)
    requires Inv(w)
    ensures ImageOk(id, Img(w, id), w.next)
  {
  }

  /** Every interleaving refines Absent - Cached - Up, moving only between neighbours, and
      each edge belongs to one call made under one lock mode. */
  lemma MovesOnlyBetweenNeighbours(w: World, m: Move, id: ImageId)
    requires Inv(w)
    ensures var a, b := PhaseOf(Img(w, id)), PhaseOf(Img(Apply(w, m), id));
      || a == b
      || (a == Absent && b == Cached && Publishes(w, m, id))
      || (a == Cached && b == Up && Starts(w, m, id))
      || (a == Up && b == Cached && Halts(w, m, id))
      || (a == Cached && b == Absent && Discards(w, m, id))
  {
    MoveEdge(w, m, id);
    ImageFacts(w, id);
    PhaseFromEdge(w, m, id, Img(w, id), Img(Apply(w, m), id));
  }

  lemma PhaseFromEdge(w: World, m: Move, id: ImageId, img: Image, img': Image)
    requires img == Img(w, id) && ImageOk(id, img, w.next)
    requires
      || (m.Act? && Active(w, m.pid) && w.procs[m.pid].target == id
          && Edge(w.procs[m.pid], img, img') && HolderOk(m.pid, w.procs[m.pid], img) && Fits(w.procs[m.pid]))
      || (m == PowerOff(id) && img' == img.(domain := Stopped(img.domain)))
      || img' == img.(holders := img'.holders)
    ensures var a, b := PhaseOf(img), PhaseOf(img');
      || a == b
      || (a == Absent && b == Cached && Publishes(w, m, id))
      || (a == Cached && b == Up && Starts(w, m, id))
      || (a == Up && b == Cached && Halts(w, m, id))
      || (a == Cached && b == Absent && Discards(w, m, id))
  {
    if PhaseOf(img) == Up && PhaseOf(img') == Cached && m.Act? {
      var p := w.procs[m.pid];
      assert Acts(w, m, id, Deleting(Destroy(p.pc.delete.after)), Holding(p).value);
    }
  }

  lemma NoJump(w: World, m: Move, id: ImageId)
    requires Inv(w)
    ensures PhaseOf(Img(w, id)) == Absent ==> PhaseOf(Img(Apply(w, m), id)) != Up
    ensures PhaseOf(Img(w, id)) == Up ==> PhaseOf(Img(Apply(w, m), id)) != Absent
  {
    MovesOnlyBetweenNeighbours(w, m, id);
  }

  /** In a run that takes an image from Up to Absent, or back, it is Cached in between. */
  lemma {:induction false} RunsPassThroughCached(w: World, moves: seq<Move>, id: ImageId)
    requires Inv(w)
    requires
      || (PhaseOf(Img(w, id)) == Absent && PhaseOf(Img(Exec(w, moves), id)) == Up)
      || (PhaseOf(Img(w, id)) == Up && PhaseOf(Img(Exec(w, moves), id)) == Absent)
    ensures exists k :: 0 <= k <= |moves| && PhaseOf(Img(Exec(w, moves[..k]), id)) == Cached
    decreases |moves|
  {
    assert moves != [];
    var rest := moves[..|moves| - 1];
    var mid := Exec(w, rest);
    RunKeepsInv(w, rest);
    NoJump(mid, moves[|moves| - 1], id);
    if PhaseOf(Img(mid, id)) == Cached {
      assert moves[..|rest|] == rest;
    } else {
      RunsPassThroughCached(w, rest, id);
      var k :| 0 <= k <= |rest| && PhaseOf(Img(Exec(w, rest[..k]), id)) == Cached;
      assert moves[..k] == rest[..k];
    }
  }

  // ---- disks ----

  ghost predicate Installed(d: Disk) {
    d.content.Complete? && Usable(d)
  }

  /** A published disk is never replaced: it is put where none was, or taken away, and
      neither happens while the guest runs. */
  lemma DiskChangesOnlyWhileOff(w: World, m: Move, id: ImageId)
    requires Inv(w)
    ensures var d, d' := Img(w, id).disk, Img(Apply(w, m), id).disk;
      d' == d || ((d.None? || d'.None?) && !Img(w, id).domain.Running? && !Img(Apply(w, m), id).domain.Running?)
  {
    MoveEdge(w, m, id);
  }

  /** A guest that runs throughout a run keeps the very disk it was started with. */
  lemma {:induction false} RunningGuestKeepsItsDisk(w: World, moves: seq<Move>, id: ImageId)
    requires Inv(w)
    requires forall k | 0 <= k <= |moves| :: Img(Exec(w, moves[..k]), id).domain.Running?
    ensures Img(Exec(w, moves), id).disk == Img(w, id).disk && Img(w, id).disk.Some?
    decreases |moves|
  {
    if moves == [] {
      assert Exec(w, moves[..0]) == w;
      assert ImageOk(id, Img(w, id), w.next);
    } else {
      var rest := moves[..|moves| - 1];
      forall k | 0 <= k <= |rest| ensures Img(Exec(w, rest[..k]), id).domain.Running? {
        assert moves[..k] == rest[..k];
      }
      RunningGuestKeepsItsDisk(w, rest, id);
      RunKeepsInv(w, rest);
      assert moves[..|moves|] == moves;
      assert moves[..|rest|] == rest && rest[..|rest|] == rest;
      DiskChangesOnlyWhileOff(Exec(w, rest), moves[|moves| - 1], id);
    }
  }

  /** Crash-safe publication: in every run, disk.raw is completely installed, usable and carries
      the digest of the image that owns the directory; so is and does every temporary disk
      that already carries a digest.  Labels tells what was installed. */
  lemma PublishedDisksAreWellLabelled(moves: seq<Move>, id: ImageId)
    ensures var img := Img(Exec(START, moves), id);
      && (img.disk.Some? ==> img.disk.value.meta == Some(Digest(id)) && Installed(img.disk.value))
      && (forall t | t in img.temps && img.temps[t].meta.Some? ::
            img.temps[t].meta == Some(Digest(id)) && Installed(img.temps[t]))
  {
    ReachableIsOk(moves);
    ImageFacts(Exec(START, moves), id);
  }

  /** When Install is about to return without an error, the disk of its image is there, with
      its digest, and the directory is still locked against everybody else. */
  lemma SuccessfulInstallLeavesADisk(w: World, pid: nat)
    requires Inv(w) && pid in w.procs && w.procs[pid].pc == Installing(UnlockInstall(true))
    ensures var p := w.procs[pid]; var img := Img(w, p.target);
      && p.cmd.Run? && p.target == p.cmd.image
      && img.dir && img.disk.Some? && img.disk.value.meta == Some(Digest(p.target))
      && p.lock.Some? && img.holders == map[p.lock.value := Holder(pid, Exclusive)]
  {
    LocalFacts(w, pid);
  }

  /** From an empty cache, an image has been published as often as its disk was removed, and
      once more if it has a disk now. */
  lemma InstallsAreConserved(moves: seq<Move>, id: ImageId)
    ensures var img := Img(Exec(START, moves), id);
      img.renames == img.removals + if img.disk.Some? then 1 else 0
  {
    ReachableIsOk(moves);
    ImageFacts(Exec(START, moves), id);
  }

  lemma DiskIsReused(pid: nat, p: Proc, img: Image, es: seq<CacheNames.Entry>, c: Choice, next: nat)
    requires ImageOk(p.target, img, next) && ProcOk(pid, p, img, next)
    ensures p.pc == Installing(ReadMeta) ==>
      (Answer(p, img, es, c) == Yes && Go(p, Yes, next).pc == Installing(UnlockInstall(true)))
    ensures p.pc != Installing(DropDisk)
    ensures p.pc == Installing(Rename) ==> img.disk.None?
  {
  }

  /** The branches of getOrInstallImageToDisk that rebuild over an existing disk are never taken. */
  lemma ExistingDiskIsAlwaysReused(moves: seq<Move>, pid: nat, c: Choice)
    requires Active(Exec(START, moves), pid)
    ensures var w := Exec(START, moves); var pc := w.procs[pid].pc;
      && (pc == Installing(ReadMeta) ==>
            ReplyTo(w, pid, c) == Yes && ProcAfter(w, pid, c).pc == Installing(UnlockInstall(true)))
      && pc != Installing(DropDisk)
      && (pc == Installing(Rename) ==> Img(w, w.procs[pid].target).disk.None?)
  {
    var w := Exec(START, moves);
    ReachableIsOk(moves);
    LocalFacts(w, pid);
    DiskIsReused(pid, w.procs[pid], Img(w, w.procs[pid].target), Entries(w), c, w.next);
  }

  // ---- stopping and removing ----

  /** rm without -f does not touch a running guest, whatever runs beside it: it never
      reaches the destroy call, and none of its calls changes a running domain, its
      directory or its disk. */
  lemma GentleRemoveSparesRunningGuests(w: World, pid: nat, c: Choice, id: ImageId)
    requires Inv(w) && Active(w, pid) && Gentle(w.procs[pid].cmd)
    ensures !(w.procs[pid].pc.Deleting? && w.procs[pid].pc.delete.Destroy?)
    ensures Img(w, id).domain.Running? ==>
      Img(Apply(w, Act(pid, c)), id) == Img(w, id).(holders := Img(Apply(w, Act(pid, c)), id).holders)
  {
    MoveEdge(w, Act(pid, c), id);
    LocalFacts(w, pid);
  }

  /** Between killVM's check and the end of Delete no other process can start the guest. */
  lemma NoStartDuringGentleRemove(w: World, m: Move, pid: nat)
    requires Inv(w) && Active(w, pid) && Gentle(w.procs[pid].cmd)
    requires w.procs[pid].pc.Deleting? && !w.procs[pid].pc.delete.CheckBeforeKill? && !w.procs[pid].pc.delete.Unlock?
    ensures !Img(w, w.procs[pid].target).domain.Running?
    ensures !Img(Apply(w, m), w.procs[pid].target).domain.Running?
  {
    var id := w.procs[pid].target;
    LocalFacts(w, pid);
    MovesOnlyBetweenNeighbours(w, m, id);
  }

  // ---- what a command is answered ----

  /** The replies to the calls that process pid makes in a run from w, in order. */
  ghost function RepliesFrom(w: World, moves: seq<Move>, pid: nat): seq<Reply>
    decreases |moves|
  {
    if moves == [] then []
    else
      var rest := moves[..|moves| - 1];
      RepliesFrom(w, rest, pid) + ReplyTaken(Exec(w, rest), moves[|moves| - 1], pid)
  }

  ghost function Replies(moves: seq<Move>, pid: nat): seq<Reply> {
    RepliesFrom(START, moves, pid)
  }

  /** The reply to this move, if it is a call of process pid. */
  ghost function ReplyTaken(w: World, m: Move, pid: nat): seq<Reply> {
    if m.Act? && m.pid == pid && Active(w, pid) then [ReplyTo(w, pid, m.choice)] else []
  }

  // ---- run and the guests of other runs ----

  /** The move at position k of the run is the start call for image id. */
  ghost predicate StartsAt(w: World, moves: seq<Move>, id: ImageId, k: int) {
    0 <= k < |moves| && Starts(Exec(w, moves[..k]), moves[k], id)
  }

  lemma ComesUpByStart(w: World, m: Move, id: ImageId)
    requires Inv(w) && PhaseOf(Img(w, id)) != Up && PhaseOf(Img(Apply(w, m), id)) == Up
    ensures Starts(w, m, id)
  {
    MovesOnlyBetweenNeighbours(w, m, id);
  }

  lemma EarlierStart(w: World, moves: seq<Move>, id: ImageId, k: int)
    requires moves != [] && StartsAt(w, moves[..|moves| - 1], id, k)
    ensures StartsAt(w, moves, id, k)
  {
    assert moves[..|moves| - 1][..k] == moves[..k];
  }

  /** In a run that brings a guest up, somebody makes the start call. */
  lemma {:induction false} GuestsComeUpByStart(w: World, moves: seq<Move>, id: ImageId)
    requires Inv(w) && PhaseOf(Img(w, id)) != Up && PhaseOf(Img(Exec(w, moves), id)) == Up
    ensures exists k :: StartsAt(w, moves, id, k)
    decreases |moves|
  {
    var rest := moves[..|moves| - 1];
    if PhaseOf(Img(Exec(w, rest), id)) == Up {
      GuestsComeUpByStart(w, rest, id);
      var k :| StartsAt(w, rest, id, k);
      EarlierStart(w, moves, id, k);
    } else {
      RunKeepsInv(w, rest);
      ComesUpByStart(Exec(w, rest), moves[|moves| - 1], id);
      assert StartsAt(w, moves, id, |moves| - 1);
    }
  }

  predicate ByOthers(m: Move, pid: nat) {
    match m
    case Act(other, _) => other != pid
    case Kill(other) => other != pid
    case _ => true
  }

  lemma OthersKeepProcess(w: World, m: Move, pid: nat)
    requires pid in w.procs && ByOthers(m, pid)
    ensures pid in Apply(w, m).procs && Apply(w, m).procs[pid] == w.procs[pid]
  {
  }

  ghost predicate OnlyOthers(moves: seq<Move>, pid: nat) {
    forall m | m in moves :: ByOthers(m, pid)
  }

  lemma {:induction false} OthersLeaveProcess(w: World, moves: seq<Move>, pid: nat)
    requires pid in w.procs && OnlyOthers(moves, pid)
    ensures pid in Exec(w, moves).procs && Exec(w, moves).procs[pid] == w.procs[pid]
    decreases |moves|
  {
    if moves != [] {
      OthersLeaveProcess(w, moves[..|moves| - 1], pid);
      OthersKeepProcess(Exec(w, moves[..|moves| - 1]), moves[|moves| - 1], pid);
    }
  }

  /** A run command that has found its guest stopped goes on to destroy it exactly if the domain
      it found is running when it looks again; then another run has started it in between. */
  lemma RunStopsOnlyAnothersGuest(w: World, pid: nat, c: Choice, moves: seq<Move>, c': Choice)
    requires Inv(w) && Active(w, pid) && w.procs[pid].pc == Using(CheckBeforeRun) && ReplyTo(w, pid, c) == No
    requires OnlyOthers(moves, pid)
    ensures var w1 := Apply(w, Act(pid, c)); var w2 := Exec(w1, moves); var id := w.procs[pid].target;
      && Active(w2, pid)
      && (ProcAfter(w2, pid, c').pc == Deleting(Destroy(ThenDefine)) <==>
            c'.ok && Img(w2, id).domain.Running? && w.procs[pid].handle == Some(Img(w2, id).domain.uuid))
      && (ProcAfter(w2, pid, c').pc == Deleting(Destroy(ThenDefine)) ==>
            exists k :: StartsAt(w1, moves, id, k) && moves[k].pid != pid)
  {
    var w1 := Apply(w, Act(pid, c));
    FoundStopped(w, pid, c);
    OthersLeaveProcess(w1, moves, pid);
    DestroysWhatRuns(Exec(w1, moves), pid, c');
    if ProcAfter(Exec(w1, moves), pid, c').pc == Deleting(Destroy(ThenDefine)) {
      MoveKeepsInv(w, Act(pid, c));
      OthersStart(w1, moves, pid, w.procs[pid].target);
    }
  }

  lemma OthersStart(w: World, moves: seq<Move>, pid: nat, id: ImageId)
    requires Inv(w) && OnlyOthers(moves, pid)
    requires PhaseOf(Img(w, id)) != Up && PhaseOf(Img(Exec(w, moves), id)) == Up
    ensures exists k :: StartsAt(w, moves, id, k) && moves[k].pid != pid
  {
    GuestsComeUpByStart(w, moves, id);
    var k :| StartsAt(w, moves, id, k);
    assert moves[k] in moves;
  }

  lemma DestroysWhatRuns(w: World, pid: nat, c: Choice)
    requires pid in w.procs && w.procs[pid].pc == Deleting(CheckBeforeStop(ThenDefine)) && w.procs[pid].handle.Some?
    ensures var p := w.procs[pid]; var domain := Img(w, p.target).domain;
      ProcAfter(w, pid, c).pc == Deleting(Destroy(ThenDefine)) <==>
        c.ok && domain.Running? && p.handle == Some(domain.uuid)
  {
  }

  lemma FoundStopped(w: World, pid: nat, c: Choice)
    requires Inv(w) && Active(w, pid) && w.procs[pid].pc == Using(CheckBeforeRun) && ReplyTo(w, pid, c) == No
    ensures var p, w1 := w.procs[pid], Apply(w, Act(pid, c));
      && pid in w1.procs && w1.procs[pid] == p.(pc := Deleting(CheckBeforeStop(ThenDefine))) && p.handle.Some?
      && PhaseOf(Img(w1, p.target)) != Up
  {
    LocalFacts(w, pid);
    ImageAfterMove(w, Act(pid, c), w.procs[pid].target);
  }

  // ---- the cached domain ----

  /** Delete and its calls, under the Exclusive lock, up to its own undefine. */
  ghost predicate Deciding(w: World, pid: nat) {
    && Active(w, pid) && LockMode(w.procs[pid].cmd) == Exclusive
    && w.procs[pid].pc.Deleting?
    && !w.procs[pid].pc.delete.ClearCache? && !w.procs[pid].pc.delete.RemoveDir? && !w.procs[pid].pc.delete.Unlock?
  }

  ghost predicate NilIffUndefined(w: World, pid: nat)
    requires pid in w.procs
  {
    w.procs[pid].handle.None? <==> Img(w, w.procs[pid].target).domain.Undefined?
  }

  /** A transient domain: undefined by another run while it was running. */
  ghost predicate Transient(domain: Domain) {
    domain.Running? && !domain.persistent
  }

  /** The reply to a lookup is cached as it is. */
  lemma LookupCaches(p: Proc, img: Image, c: Choice, next: nat)
    ensures var p' := GoOpen(Lookup, p, AnswerOpen(Lookup, p, img, [], c), next);
      p'.target == p.target && (p'.pc != Deleting(Unlock(false)) ==> Exact(p'.handle, img.domain))
  {
  }

  /** The lookup of a command that holds the Exclusive lock caches nil exactly when the
      domain is undefined, and otherwise caches the domain that is defined. */
  lemma LookupIsExact(w: World, pid: nat, c: Choice)
    requires Inv(w) && Active(w, pid) && w.procs[pid].pc == Opening(Lookup)
    requires Deciding(Apply(w, Act(pid, c)), pid)
    ensures NilIffUndefined(Apply(w, Act(pid, c)), pid)
    ensures Exact(ProcAfter(w, pid, c).handle, Img(w, w.procs[pid].target).domain)
  {
    var p := w.procs[pid];
    LookupCaches(p, Img(w, p.target), c, w.next);
    assert ProcAfter(w, pid, c) == GoOpen(Lookup, p, AnswerOpen(Lookup, p, Img(w, p.target), [], c), w.next);
    assert Apply(w, Act(pid, c)).procs[pid] == ProcAfter(w, pid, c);
    assert ImageAfter(w, pid, c) == Img(w, p.target);
    ImageAfterMove(w, Act(pid, c), p.target);
  }

  /** Move m stops the domain that process pid is deciding about. */
  ghost predicate Ends(w: World, m: Move, pid: nat)
    requires pid in w.procs
  {
    || m == PowerOff(w.procs[pid].target)
    || (m.Act? && m.pid == pid && m.choice.ok && w.procs[pid].pc.Deleting? && w.procs[pid].pc.delete.Destroy?)
  }

  /** It stays so until the command's own undefine, whatever other processes do, but for one
      case: a domain without a persistent definition stops. */
  lemma HandleStaysExact(w: World, m: Move, pid: nat)
    requires Inv(w) && Deciding(w, pid) && Deciding(Apply(w, m), pid)
    requires NilIffUndefined(w, pid)
    ensures NilIffUndefined(Apply(w, m), pid) <==> !(Transient(Img(w, w.procs[pid].target).domain) && Ends(w, m, pid))
    ensures w.procs[pid].handle.None? ==> Img(Apply(w, m), w.procs[pid].target).domain.Undefined?
  {
    LocalFacts(w, pid);
    if m.Act? && m.pid == pid {
      OwnCallOnDomain(pid, w.procs[pid], Img(w, w.procs[pid].target), m.choice, w.next);
      ImageAfterMove(w, m, w.procs[pid].target);
    } else {
      DomainUnderExclusive(w, m, pid);
    }
  }

  /** What a call of Delete does to the domain and to the handle that is its own. */
  lemma OwnCallOnDomain(pid: nat, p: Proc, img: Image, c: Choice, next: nat)
    requires ProcOk(pid, p, img, next) && p.pc.Deleting? && LockMode(p.cmd) == Exclusive
    ensures p.pc.delete.Undefine? ==>
      var pc := GoDelete(p.pc.delete, p, AnswerDelete(p.pc.delete, p, img, c)).pc;
      pc.Deleting? && (pc.delete.ClearCache? || pc.delete.Unlock?)
    ensures !p.pc.delete.Undefine? ==>
      && (!p.pc.delete.Unlock? ==> GoDelete(p.pc.delete, p, AnswerDelete(p.pc.delete, p, img, c)).handle == p.handle
                                   && GoDelete(p.pc.delete, p, AnswerDelete(p.pc.delete, p, img, c)).target == p.target)
      && EffectOfDelete(p.pc.delete, p, img, AnswerDelete(p.pc.delete, p, img, c), c).domain
         == if p.pc.delete.Destroy? && c.ok && img.domain.Running? then Stopped(img.domain) else img.domain
  {
  }

  /** Only a power-off changes the domain, or the holder, of an image under the Exclusive lock. */
  lemma DomainUnderExclusive(w: World, m: Move, pid: nat)
    requires Inv(w) && Active(w, pid) && w.procs[pid].lock.Some? && LockMode(w.procs[pid].cmd) == Exclusive
    requires w.procs[pid].pc.Deleting? && !(m.Act? && m.pid == pid) && Active(Apply(w, m), pid)
    ensures Apply(w, m).procs[pid] == w.procs[pid]
    ensures var id := w.procs[pid].target;
      Img(Apply(w, m), id).domain == if m == PowerOff(id) then Stopped(Img(w, id).domain) else Img(w, id).domain
  {
    var id := w.procs[pid].target;
    LocalFacts(w, pid);
    ImageAfterMove(w, m, id);
    if m.Act? && Active(w, m.pid) && w.procs[m.pid].target == id {
      LocalFacts(w, m.pid);
      ExclusiveIsSole(pid, w.procs[pid], m.pid, w.procs[m.pid], Img(w, id), w.next);
      OthersNeverStop(m.pid, w.procs[m.pid], Img(w, id), Entries(w), m.choice, w.next);
    }
  }

  /** Beside an exclusive holder nobody has a lock. */
  lemma ExclusiveIsSole(pid: nat, p: Proc, other: nat, q: Proc, img: Image, next: nat)
    requires pid != other && HolderOk(pid, p, img) && HolderOk(other, q, img) && ImageOk(p.target, img, next)
    requires Holding(p) == Some(Exclusive)
    ensures q.lock.None?
  {
  }

  lemma OthersNeverStop(pid: nat, p: Proc, img: Image, es: seq<CacheNames.Entry>, c: Choice, next: nat)
    requires ProcOk(pid, p, img, next) && !Finished(p.pc) && p.lock.None?
    ensures Effect(pid, p, img, Answer(p, img, es, c), c, next).domain == img.domain
  {
  }

  lemma HoldsWhatItUndefines(w: World, pid: nat)
    requires Inv(w) && pid in w.procs
    ensures var p := w.procs[pid];
      && p.pc != Panicked
      && (p.pc.Deleting? && p.pc.delete.Undefine? ==>
          (p.handle.Some? && (LockMode(p.cmd) == Exclusive ==> Img(w, p.target).domain == Off(p.handle.value))))
  {
    LocalFacts(w, pid);
  }

  /** No run reaches an undefine through a nil handle: rm, stop, Run and the end of doRun all
      hold the domain they undefine, and under the Exclusive lock it is the current one. */
  lemma UndefineIsNeverThroughNil(moves: seq<Move>, pid: nat)
    requires pid in Exec(START, moves).procs
    ensures var w := Exec(START, moves); var p := w.procs[pid];
      && p.pc != Panicked
      && (p.pc.Deleting? && p.pc.delete.Undefine? ==>
          (p.handle.Some? && (LockMode(p.cmd) == Exclusive ==> Img(w, p.target).domain == Off(p.handle.value))))
  {
    ReachableIsOk(moves);
    HoldsWhatItUndefines(Exec(START, moves), pid);
  }

  /** When stop or rm is about to unlock after a success, the domain is undefined, and after
      rm the directory and the disk are gone. */
  lemma SuccessMeansGone(w: World, pid: nat)
    requires Inv(w) && pid in w.procs && w.procs[pid].pc == Deleting(Unlock(true))
    ensures var p := w.procs[pid]; var img := Img(w, p.target);
      && (LockMode(p.cmd) == Exclusive ==> img.domain.Undefined?)
      && (p.cmd.Rm? || p.cmd.RmAll? ==> !img.dir && img.disk.None? && img.temps == map[] && img.cfg.None?)
  {
    LocalFacts(w, pid);
  }

  // ---- interference ----

  /** While a process holds the Exclusive lock, no other process changes its image; a power-off
      may stop its domain. */
  lemma OthersLeaveExclusive(w: World, m: Move, pid: nat)
    requires Inv(w) && pid in w.procs && ByOthers(m, pid) && Holding(w.procs[pid]) == Some(Exclusive)
    ensures var id := w.procs[pid].target;
      Img(Apply(w, m), id) == Img(w, id).(domain := Img(Apply(w, m), id).domain)
  {
    var id := w.procs[pid].target;
    LocalFacts(w, pid);
    ImageAfterMove(w, m, id);
    if (m.Act? || m.Kill?) && Active(w, m.pid) && w.procs[m.pid].target == id {
      LocalFacts(w, m.pid);
      ExclusiveIsSole(pid, w.procs[pid], m.pid, w.procs[m.pid], Img(w, id), w.next);
      if m.Act? {
        LocklessIsHarmless(pid, w.procs[pid], m.pid, w.procs[m.pid], Img(w, id), Entries(w), m.choice, w.next);
      }
    }
  }

  lemma LocklessIsHarmless(pid: nat, p: Proc, other: nat, q: Proc,
                           img: Image, es: seq<CacheNames.Entry>, c: Choice, next: nat)
    requires HolderOk(pid, p, img) && Holding(p) == Some(Exclusive) && ProcOk(other, q, img, next)
    requires !Finished(q.pc) && q.lock.None?
    ensures Effect(other, q, img, Answer(q, img, es, c), c, next) == img
  {
    StepIsPolite(other, q, img, es, c, next);
  }

  // ---- directories ----

  /** NewVM has succeeded and the command has neither unlocked nor removed the directory. */
  ghost predicate HasOpenVm(p: Proc) {
    p.pc.Using? || (p.pc.Deleting? && !p.pc.delete.Unlock?)
  }

  lemma OpenVmFacts(w: World, pid: nat)
    requires Inv(w) && pid in w.procs && HasOpenVm(w.procs[pid])
    ensures var p := w.procs[pid];
      Img(w, p.target).dir && p.target in w.dirs && |p.target| == ID_LENGTH && (p.cmd.Run? ==> p.target == p.cmd.image)
  {
    LocalFacts(w, pid);
  }

  /** An open VM has its cache directory, although its id was resolved before locking. */
  lemma OpenVmHasItsDirectory(moves: seq<Move>, pid: nat)
    requires pid in Exec(START, moves).procs && HasOpenVm(Exec(START, moves).procs[pid])
    ensures var w := Exec(START, moves); var p := w.procs[pid];
      Img(w, p.target).dir && p.target in w.dirs && |p.target| == ID_LENGTH && (p.cmd.Run? ==> p.target == p.cmd.image)
  {
    ReachableIsOk(moves);
    OpenVmFacts(Exec(START, moves), pid);
  }

  lemma SoleHolder(pid: nat, p: Proc, img: Image, id: ImageId, next: nat)
    requires ImageOk(id, img, next) && HolderOk(pid, p, img) && Holding(p) == Some(Exclusive)
    ensures p.lock.Some? && img.holders == map[p.lock.value := Holder(pid, Exclusive)]
  {
  }

  /** A directory appears or disappears only by a process that is the only holder of its lock. */
  lemma DirectoriesChangeUnderExclusive(w: World, m: Move, id: ImageId)
    requires Inv(w) && Img(Apply(w, m), id).dir != Img(w, id).dir
    ensures m.Act? && Active(w, m.pid) && w.procs[m.pid].target == id && w.procs[m.pid].lock.Some?
    ensures Img(w, id).holders == map[w.procs[m.pid].lock.value := Holder(m.pid, Exclusive)]
  {
    MoveEdge(w, m, id);
    ImageFacts(w, id);
    SoleHolder(m.pid, w.procs[m.pid], Img(w, id), id, w.next);
  }

  // ---- locks ----

  lemma HolderFacts(w: World, id: ImageId, i: nat)
    requires Inv(w) && i in Img(w, id).holders
    ensures var pid := Img(w, id).holders[i].pid;
      Active(w, pid) && w.procs[pid].lock == Some(i) && w.procs[pid].target == id
  {
    assert OwnerOk(w, id, i, Img(w, id).holders[i].pid);
    LocalFacts(w, Img(w, id).holders[i].pid);
    FinishedHasNoLock(w.procs[Img(w, id).holders[i].pid], Img(w, id), Img(w, id).holders[i].pid);
  }

  lemma FinishedHasNoLock(p: Proc, img: Image, pid: nat)
    requires HolderOk(pid, p, img) && p.lock.Some?
    ensures !Finished(p.pc)
  {
  }

  /** At all times an image has one exclusive holder or any number of shared ones, each held
      by the process that took it and has not finished. */
  lemma LocksExcludeEachOther(moves: seq<Move>, id: ImageId, i: nat, j: nat)
    requires i in Img(Exec(START, moves), id).holders && j in Img(Exec(START, moves), id).holders
    ensures var w := Exec(START, moves); var holders := Img(w, id).holders;
      && (holders[i].mode == Exclusive ==> i == j)
      && Active(w, holders[i].pid) && w.procs[holders[i].pid].lock == Some(i) && w.procs[holders[i].pid].target == id
      && (holders[i].pid == holders[j].pid ==> i == j)
  {
    ReachableIsOk(moves);
    ImageFacts(Exec(START, moves), id);
    HolderFacts(Exec(START, moves), id, i);
    HolderFacts(Exec(START, moves), id, j);
  }

  lemma FinishedHoldsNothing(w: World, pid: nat)
    requires Inv(w) && pid in w.procs && Finished(w.procs[pid].pc)
    ensures forall id, i | i in Img(w, id).holders :: Img(w, id).holders[i].pid != pid
  {
    forall id, i | i in Img(w, id).holders ensures Img(w, id).holders[i].pid != pid {
      HolderFacts(w, id, i);
    }
  }

  lemma LogFacts(p: Proc, next: nat)
    requires LogOk(p, next) && Finished(p.pc) && p.lock.None?
    ensures p.pc.Done? ==> p.released == p.acquired
    ensures p.released <= p.acquired && |p.acquired| <= |p.released| + 1
    ensures forall i, j | 0 <= i < j < |p.acquired| :: p.acquired[i] != p.acquired[j]
  {
  }

  /** A command that has returned, with or without an error, has given back every lock
      instance it took, each exactly once and in order; a killed one lacks at most the last.
      The lock table has forgotten both. */
  lemma EveryLockIsReleasedOnce(moves: seq<Move>, pid: nat)
    requires pid in Exec(START, moves).procs && Finished(Exec(START, moves).procs[pid].pc)
    ensures var p := Exec(START, moves).procs[pid];
      && p.lock.None?
      && (p.pc.Done? ==> p.released == p.acquired)
      && p.released <= p.acquired && |p.acquired| <= |p.released| + 1
      && (forall i, j | 0 <= i < j < |p.acquired| :: p.acquired[i] != p.acquired[j])
    ensures forall id, i | i in Img(Exec(START, moves), id).holders ::
      Img(Exec(START, moves), id).holders[i].pid != pid
  {
    var w := Exec(START, moves);
    ReachableIsOk(moves);
    LocalFacts(w, pid);
    FinishedHoldsNothing(w, pid);
    LogFacts(w.procs[pid], w.next);
  }
}
