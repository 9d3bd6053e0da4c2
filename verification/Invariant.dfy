/** The invariant of the whole system, and the proof that every move keeps it.

    The proof is by reliance: a step is checked against its own image and process only
    (StepKeeps), and what it may do to an image that another process is working on is
    bounded by the lock it holds (StepIsPolite). */
module Invariant {
  import opened Common
  import opened CacheNames
  import opened Protocol
  import Size = DiskSize

  // ---- one image ----

  ghost predicate Usable(d: Disk) {
    d.size >= Size.MINIMUM && d.size % Size.ALIGNMENT == 0
  }

  /** A disk that says it is installed says so of its own image, is completely installed from
      some image, and usable. */
  ghost predicate HonestDisk(id: ImageId, d: Disk) {
    d.meta.Some? ==> (d.meta == Some(Digest(id)) && d.content.Complete? && Usable(d))
  }

  ghost predicate ImageOk(id: ImageId, img: Image, next: nat) {
    && (img.disk.Some? ==> img.dir && img.disk.value.meta.Some? && HonestDisk(id, img.disk.value))
    && (forall t | t in img.temps :: img.dir && t < next && img.temps[t].inode == t && HonestDisk(id, img.temps[t]))
    && (img.cfg.Some? ==> img.dir && |id| >= SHORT_LENGTH && img.cfg.value == ShortId(id))
    && (img.domain.Running? ==> img.disk.Some?)
    && (!img.domain.Undefined? ==> img.domain.uuid < next)
    && img.renames == img.removals + Discarded(img)
    && (forall i | i in img.holders :: i < next)
    && (forall i, j | i in img.holders && j in img.holders && img.holders[i].mode == Exclusive :: i == j)
  }

  /** What is cleared in two steps is cleared, and its disk is counted once. */
  lemma ClearingAgain(img: Image, c: Choice)
    ensures Cleared(PartlyCleared(img, c)) == Cleared(img)
  {
  }

  // ---- one process and its image ----

  /** The mode of the lock held when the call is made, if one is held. */
  function Holding(p: Proc): Option<Mode> {
    match p.pc
    case Installing(at) => if at.Pull? || at.LockInstall? then None else Some(Exclusive)
    case Opening(at) => if at.Recheck? || at.Lookup? then Some(LockMode(p.cmd)) else None
    case Using(_) => Some(LockMode(p.cmd))
    case Deleting(_) => Some(LockMode(p.cmd))
    case _ => None
  }

  ghost predicate Ascending(s: seq<nat>, bound: nat) {
    && (forall i | 0 <= i < |s| :: s[i] < bound)
    && (forall i, j | 0 <= i < j < |s| :: s[i] < s[j])
  }

  /** Every lock instance taken was given back once, in order, but for the one still held. */
  ghost predicate LocksBalanced(p: Proc) {
    if p.pc.Killed? then p.released <= p.acquired && |p.acquired| <= |p.released| + 1
    else p.acquired == p.released + if p.lock.Some? then [p.lock.value] else []
  }

  /** Which commands reach which calls. */
  ghost predicate Fits(p: Proc) {
    match p.pc
    case Installing(_) => p.cmd.Run?
    case Opening(FreePort) => p.cmd.Run?
    case Opening(ReadCache) => Loops(p.cmd)
    case Opening(Resolve(key)) => p.cmd.Run? ==> key == p.target && |key| == ID_LENGTH
    case Using(Session) => p.cmd.Run? || p.cmd.Ssh?
    case Using(at) => if at.LoadConfig? || at.CheckState? then p.cmd.List? else p.cmd.Run?
    case Deleting(CheckBeforeKill) => Gentle(p.cmd)
    case Deleting(CheckBeforeStop(after)) => Deletes(p.cmd, after)
    case Deleting(Destroy(after)) => Deletes(p.cmd, after)
    case Deleting(Exists(after)) => Deletes(p.cmd, after)
    case Deleting(Undefine(after)) => Deletes(p.cmd, after)
    case Deleting(ClearCache) => p.cmd.Rm? || p.cmd.RmAll?
    case Deleting(RemoveDir) => p.cmd.Rm? || p.cmd.RmAll?
    case _ => true
  }

  ghost predicate Deletes(cmd: Command, after: After) {
    match after
    case ThenUnlock => cmd.Run? || cmd.Stop?
    case ThenRemove => cmd.Rm? || cmd.RmAll?
    case ThenDefine => cmd.Run?
  }

  /** Commands that must not stop a running guest. */
  ghost predicate Gentle(cmd: Command) {
    (cmd.Rm? || cmd.RmAll?) && !cmd.force
  }

  /** The cached domain of an Exclusive holder is nil only if the domain is undefined, and
      is never an older definition. */
  ghost predicate Current(handle: Option<nat>, domain: Domain) {
    domain.Undefined? || handle == Some(domain.uuid)
  }

  /** The cached domain is the one that is defined, or nil if none is. */
  ghost predicate Exact(handle: Option<nat>, domain: Domain) {
    handle == if domain.Undefined? then None else Some(domain.uuid)
  }

  ghost predicate Unfinished(p: Proc, img: Image) {
    p.temp in img.temps && img.temps[p.temp].meta.None?
  }

  /** What the program knows about the image it has locked. */
  ghost predicate Knows(p: Proc, img: Image) {
    match p.pc
    case Installing(at) => KnowsInstalling(at, p, img)
    case Opening(at) => at.Lookup? ==> img.dir
    case Using(at) => KnowsUsing(at, p, img)
    case Deleting(at) => KnowsDeleting(at, p, img)
    case _ => true
  }

  ghost predicate KnowsInstalling(at: InstallStep, p: Proc, img: Image) {
    match at
    case OpenDisk => img.dir
    case ReadMeta => img.disk.Some?
    case DropDisk => false
    case CreateTemp => img.dir && img.disk.None?
    case Truncate => img.disk.None? && Unfinished(p, img)
    case Build => img.disk.None? && Unfinished(p, img) && Usable(img.temps[p.temp])
    case WriteMeta =>
      img.disk.None? && Unfinished(p, img) && Usable(img.temps[p.temp]) && img.temps[p.temp].content.Complete?
    case Rename => img.disk.None? && p.temp in img.temps && img.temps[p.temp].meta == Some(Digest(p.target))
    case UnlockInstall(ok) => ok ==> img.disk.Some?
    case _ => true
  }

  ghost predicate KnowsUsing(at: UseStep, p: Proc, img: Image) {
    match at
    case CheckBeforeRun => img.dir && p.handle.Some?
    case Start => img.dir && p.handle.Some?
    case WaitRunning(_) => img.disk.Some? && p.handle.Some?
    case WriteConfig => img.disk.Some? && p.handle.Some?
    case ReadKey => img.disk.Some? && p.handle.Some?
    case WaitSsh(_) => img.disk.Some? && p.handle.Some?
    case Session => img.dir && (p.cmd.Run? ==> p.handle.Some? && img.disk.Some?)
    case _ => img.dir
  }

  ghost predicate KnowsDeleting(at: DeleteStep, p: Proc, img: Image) {
    match at
    case CheckBeforeKill => img.dir && Current(p.handle, img.domain)
    case CheckBeforeStop(_) => img.dir && KnowsDomain(p, img) && (Gentle(p.cmd) ==> !img.domain.Running?)
    case Destroy(_) => img.dir && KnowsDomain(p, img) && p.handle.Some? && !Gentle(p.cmd)
    case Exists(_) => img.dir && KnowsDomain(p, img) && (!p.cmd.Run? ==> !img.domain.Running?)
    case Undefine(_) => img.dir && p.handle.Some? && (!p.cmd.Run? ==> img.domain == Off(p.handle.value))
    case ClearCache => img.dir && img.domain.Undefined?
    case RemoveDir => img.dir && img.domain.Undefined?
    case Unlock(ok) =>
      && (ok && p.cmd.Stop? ==> img.domain.Undefined?)
      && (ok && (p.cmd.Rm? || p.cmd.RmAll?) ==> img.domain.Undefined? && !img.dir)
  }

  ghost predicate KnowsDomain(p: Proc, img: Image) {
    if p.cmd.Run? then p.handle.Some? else Current(p.handle, img.domain)
  }

  ghost predicate LogOk(p: Proc, next: nat) {
    Ascending(p.acquired, next) && LocksBalanced(p)
  }

  ghost predicate HolderOk(pid: nat, p: Proc, img: Image) {
    && (p.lock.Some? <==> Holding(p).Some?)
    && (p.lock.Some? ==> p.lock.value in img.holders && img.holders[p.lock.value] == Holder(pid, Holding(p).value))
  }

  ghost predicate LocalOk(p: Proc, next: nat) {
    && Fits(p)
    && WellFormed(p.cmd)
    && (p.handle.Some? ==> p.handle.value < next)
    && (p.cmd.Run? ==> p.pc == Installing(Pull) || Finished(p.pc) || p.target == p.cmd.image)
    && !p.pc.Panicked?
  }

  ghost predicate ProcOk(pid: nat, p: Proc, img: Image, next: nat) {
    && LocalOk(p, next)
    && HolderOk(pid, p, img)
    && (p.lock.Some? ==> Knows(p, img))
    && LogOk(p, next)
  }

  // ---- the system ----

  ghost predicate DirsOk(w: World) {
    && Sorted(w.dirs)
    && (forall id :: id in w.dirs <==> Img(w, id).dir)
    && (forall id | id in w.dirs :: |id| == ID_LENGTH)
  }

  /** Every entry of the lock table belongs to a process that knows it. */
  ghost predicate OwnersOk(w: World) {
    forall id, i | i in Img(w, id).holders :: OwnerOk(w, id, i, Img(w, id).holders[i].pid)
  }

  ghost predicate OwnerOk(w: World, id: ImageId, i: nat, pid: nat) {
    pid in w.procs && w.procs[pid].lock == Some(i) && w.procs[pid].target == id
  }

  ghost predicate Inv(w: World) {
    && DirsOk(w)
    && ImagesOk(w)
    && ProcsOk(w)
    && OwnersOk(w)
  }

  ghost predicate ImagesOk(w: World) {
    forall id :: ImageOk(id, Img(w, id), w.next)
  }

  ghost predicate ProcsOk(w: World) {
    forall pid | pid in w.procs :: ProcOk(pid, w.procs[pid], Img(w, w.procs[pid].target), w.next)
  }

  // ---- one step ----

  lemma InstallKeepsImage(at: InstallStep, pid: nat, p: Proc, img: Image, c: Choice, next: nat)
    requires p.pc == Installing(at)
    requires ImageOk(p.target, img, next) && ProcOk(pid, p, img, next)
    ensures ImageOk(p.target, EffectOfInstall(at, pid, p, img, AnswerInstall(at, p, img, c), c, next), next + 1)
  {
    if at.Truncate? && AnswerInstall(at, p, img, c).Yes? {
      Size.AcceptedSizeIsUsable(p.cmd.imageSize, p.cmd.request);
    }
  }

  lemma InstallKeepsHolder(at: InstallStep, pid: nat, p: Proc, img: Image, c: Choice, next: nat)
    requires p.pc == Installing(at) && LocalOk(p, next) && HolderOk(pid, p, img)
    ensures var r := AnswerInstall(at, p, img, c);
      var img', p' := EffectOfInstall(at, pid, p, img, r, c, next), GoInstall(at, p, r, next);
      LocalOk(p', next + 1) && HolderOk(pid, p', img')
  {
  }

  lemma InstallKeepsKnowledge(at: InstallStep, pid: nat, p: Proc, img: Image, c: Choice, next: nat)
    requires p.pc == Installing(at) && ImageOk(p.target, img, next) && ProcOk(pid, p, img, next)
    ensures var r := AnswerInstall(at, p, img, c);
      var img', p' := EffectOfInstall(at, pid, p, img, r, c, next), GoInstall(at, p, r, next);
      p'.lock.Some? ==> Knows(p', img')
  {
    if at.Truncate? && AnswerInstall(at, p, img, c).Yes? {
      Size.AcceptedSizeIsUsable(p.cmd.imageSize, p.cmd.request);
    }
  }

  lemma ResolvedNameFits(entries: seq<CacheNames.Entry>, key: string)
    ensures LastMatch(entries, key).Some? ==>
      (|LastMatch(entries, key).value| == ID_LENGTH && key <= LastMatch(entries, key).value)
  {
    LastMatchIsLast(entries, key);
  }

  lemma OpenKeepsImage(at: OpenStep, pid: nat, p: Proc, img: Image, es: seq<CacheNames.Entry>, c: Choice, next: nat)
    requires p.pc == Opening(at)
    requires ImageOk(p.target, img, next) && ProcOk(pid, p, img, next)
    ensures ImageOk(p.target, EffectOfOpen(at, pid, p, img, AnswerOpen(at, p, img, es, c), next), next + 1)
  {
  }

  lemma OpenKeepsLocal(at: OpenStep, p: Proc, img: Image, es: seq<CacheNames.Entry>, c: Choice, next: nat)
    requires p.pc == Opening(at) && LocalOk(p, next) && (img.domain.Undefined? || img.domain.uuid < next)
    ensures LocalOk(GoOpen(at, p, AnswerOpen(at, p, img, es, c), next), next + 1)
  {
    if at.Resolve? {
      ResolvedNameFits(es, at.key);
    }
  }

  lemma OpenKeepsHolder(at: OpenStep, pid: nat, p: Proc, img: Image, es: seq<CacheNames.Entry>, c: Choice, next: nat)
    requires p.pc == Opening(at) && HolderOk(pid, p, img) && (at.Lookup? ==> img.dir)
    ensures var r := AnswerOpen(at, p, img, es, c);
      var img', p' := EffectOfOpen(at, pid, p, img, r, next), GoOpen(at, p, r, next);
      HolderOk(pid, p', img') && (p'.lock.Some? ==> Knows(p', img'))
  {
  }

  lemma UseKeepsImage(at: UseStep, pid: nat, p: Proc, img: Image, c: Choice, next: nat)
    requires p.pc == Using(at)
    requires ImageOk(p.target, img, next) && ProcOk(pid, p, img, next)
    ensures ImageOk(p.target, EffectOfUse(at, p, img, AnswerUse(at, p, img, c), next), next + 1)
  {
  }

  lemma UseKeepsLocal(at: UseStep, p: Proc, img: Image, c: Choice, next: nat)
    requires p.pc == Using(at) && LocalOk(p, next) && (img.domain.Undefined? || img.domain.uuid < next)
    ensures LocalOk(GoUse(at, p, AnswerUse(at, p, img, c), next), next + 1)
  {
  }

  lemma UseKeepsHolder(at: UseStep, pid: nat, p: Proc, img: Image, c: Choice, next: nat)
    requires p.pc == Using(at) && HolderOk(pid, p, img)
    ensures var r := AnswerUse(at, p, img, c);
      HolderOk(pid, GoUse(at, p, r, next), EffectOfUse(at, p, img, r, next))
  {
  }

  lemma UseKeepsKnowledge(at: UseStep, p: Proc, img: Image, c: Choice, next: nat)
    requires p.pc == Using(at)
    requires LocalOk(p, next) && KnowsUsing(at, p, img) && (img.disk.Some? ==> img.dir)
    ensures var r := AnswerUse(at, p, img, c);
      Knows(GoUse(at, p, r, next), EffectOfUse(at, p, img, r, next))
  {
  }

  lemma DeleteKeepsImage(at: DeleteStep, pid: nat, p: Proc, img: Image, c: Choice, next: nat)
    requires p.pc == Deleting(at)
    requires ImageOk(p.target, img, next) && ProcOk(pid, p, img, next)
    ensures ImageOk(p.target, EffectOfDelete(at, p, img, AnswerDelete(at, p, img, c), c), next + 1)
  {
  }

  lemma DeleteKeepsLocal(at: DeleteStep, p: Proc, img: Image, c: Choice, next: nat)
    requires p.pc == Deleting(at) && LocalOk(p, next) && KnowsDeleting(at, p, img)
    ensures LocalOk(GoDelete(at, p, AnswerDelete(at, p, img, c)), next + 1)
  {
  }

  lemma DeleteKeepsHolder(at: DeleteStep, pid: nat, p: Proc, img: Image, c: Choice, next: nat)
    requires p.pc == Deleting(at) && HolderOk(pid, p, img) && KnowsDeleting(at, p, img)
    ensures var r := AnswerDelete(at, p, img, c);
      HolderOk(pid, GoDelete(at, p, r), EffectOfDelete(at, p, img, r, c))
  {
  }

  lemma DeleteKeepsKnowledge(at: DeleteStep, p: Proc, img: Image, c: Choice, next: nat)
    requires p.pc == Deleting(at) && LocalOk(p, next) && KnowsDeleting(at, p, img)
    ensures var r := AnswerDelete(at, p, img, c);
      Knows(GoDelete(at, p, r), EffectOfDelete(at, p, img, r, c)) || at.Unlock?
  {
  }

  /** What a step does to locks: nothing, taking the next instance, or giving back the one held. */
  ghost predicate LockStep(pid: nat, p: Proc, p': Proc, img: Image, img': Image, next: nat) {
    if p'.lock == p.lock then
      img'.holders == img.holders && p'.acquired == p.acquired && p'.released == p.released
      && (p.lock.Some? ==> p'.target == p.target)
    else if p'.lock.Some? then
      p.lock.None? && p'.target == p.target && p'.lock == Some(next) && p'.acquired == p.acquired + [next]
      && p'.released == p.released && Holding(p').Some?
      && img'.holders == img.holders[next := Holder(pid, Holding(p').value)]
    else
      p'.acquired == p.acquired && p'.released == p.released + [p.lock.value]
      && img'.holders == img.holders - {p.lock.value}
  }

  lemma InstallLockStep(at: InstallStep, pid: nat, p: Proc, img: Image, c: Choice, next: nat)
    requires p.pc == Installing(at) && HolderOk(pid, p, img) && (p.lock.Some? ==> p.lock.value < next)
    ensures var r := AnswerInstall(at, p, img, c);
      LockStep(pid, p, GoInstall(at, p, r, next), img, EffectOfInstall(at, pid, p, img, r, c, next), next)
  {
  }

  lemma OpenLockStep(at: OpenStep, pid: nat, p: Proc, img: Image, es: seq<CacheNames.Entry>, c: Choice, next: nat)
    requires p.pc == Opening(at) && HolderOk(pid, p, img) && (p.lock.Some? ==> p.lock.value < next)
    ensures var r := AnswerOpen(at, p, img, es, c);
      LockStep(pid, p, GoOpen(at, p, r, next), img, EffectOfOpen(at, pid, p, img, r, next), next)
  {
  }

  lemma UseLockStep(at: UseStep, pid: nat, p: Proc, img: Image, c: Choice, next: nat)
    requires p.pc == Using(at) && HolderOk(pid, p, img)
    ensures var r := AnswerUse(at, p, img, c);
      LockStep(pid, p, GoUse(at, p, r, next), img, EffectOfUse(at, p, img, r, next), next)
  {
  }

  lemma DeleteLockStep(at: DeleteStep, pid: nat, p: Proc, img: Image, c: Choice, next: nat)
    requires p.pc == Deleting(at) && HolderOk(pid, p, img) && Knows(p, img)
    ensures var r := AnswerDelete(at, p, img, c);
      LockStep(pid, p, GoDelete(at, p, r), img, EffectOfDelete(at, p, img, r, c), next)
  {
  }

  lemma StepIsLockStep(pid: nat, p: Proc, img: Image, es: seq<CacheNames.Entry>, c: Choice, next: nat)
    requires ImageOk(p.target, img, next) && ProcOk(pid, p, img, next) && !Finished(p.pc)
    ensures var r := Answer(p, img, es, c);
      LockStep(pid, p, Go(p, r, next), img, Effect(pid, p, img, r, c, next), next)
  {
    match p.pc {
      case Installing(at) => InstallLockStep(at, pid, p, img, c, next);
      case Opening(at) => OpenLockStep(at, pid, p, img, es, c, next);
      case Using(at) => UseLockStep(at, pid, p, img, c, next);
      case Deleting(at) => DeleteLockStep(at, pid, p, img, c, next);
    }
  }

  lemma LockStepKeepsLog(pid: nat, p: Proc, p': Proc, img: Image, img': Image, next: nat)
    requires LogOk(p, next) && LockStep(pid, p, p', img, img', next) && !p.pc.Killed? && !p'.pc.Killed?
    ensures LogOk(p', next + 1)
  {
  }

  lemma OpenIsNoKill(at: OpenStep, p: Proc, r: Reply, next: nat)
    ensures !GoOpen(at, p, r, next).pc.Killed?
  {
  }

  lemma UseIsNoKill(at: UseStep, p: Proc, r: Reply, next: nat)
    ensures !GoUse(at, p, r, next).pc.Killed?
  {
  }

  lemma StepIsNoKill(p: Proc, r: Reply, next: nat)
    requires !p.pc.Killed?
    ensures !Go(p, r, next).pc.Killed?
  {
    match p.pc {
      case Installing(at) =>
      case Opening(at) => OpenIsNoKill(at, p, r, next);
      case Using(at) => UseIsNoKill(at, p, r, next);
      case Deleting(at) =>
      case _ =>
    }
  }

  /** A step keeps the invariants of its image and of its process.  The process may have
      moved on to another image, but then it holds no lock. */
  lemma StepKeeps(pid: nat, p: Proc, img: Image, es: seq<CacheNames.Entry>, c: Choice, next: nat)
    requires ImageOk(p.target, img, next) && ProcOk(pid, p, img, next) && !Finished(p.pc)
    ensures var r := Answer(p, img, es, c); var img', p' := Effect(pid, p, img, r, c, next), Go(p, r, next);
      ImageOk(p.target, img', next + 1) && ProcOk(pid, p', img', next + 1)
  {
    var r := Answer(p, img, es, c);
    StepIsLockStep(pid, p, img, es, c, next);
    StepIsNoKill(p, r, next);
    LockStepKeepsLog(pid, p, Go(p, r, next), img, Effect(pid, p, img, r, c, next), next);
    match p.pc {
      case Installing(at) => InstallKeepsImage(at, pid, p, img, c, next); InstallKeepsHolder(at, pid, p, img, c, next);
        InstallKeepsKnowledge(at, pid, p, img, c, next);
      case Opening(at) => OpenKeepsImage(at, pid, p, img, es, c, next); OpenKeepsLocal(at, p, img, es, c, next);
        OpenKeepsHolder(at, pid, p, img, es, c, next);
      case Using(at) => UseKeepsImage(at, pid, p, img, c, next); UseKeepsLocal(at, p, img, c, next);
        UseKeepsHolder(at, pid, p, img, c, next);
        UseKeepsKnowledge(at, p, img, c, next);
      case Deleting(at) => DeleteKeepsImage(at, pid, p, img, c, next); DeleteKeepsLocal(at, p, img, c, next);
        DeleteKeepsHolder(at, pid, p, img, c, next);
        DeleteKeepsKnowledge(at, p, img, c, next);
    }
  }

  // ---- interference ----

  /** The image is the same, except that its guest may have powered off. */
  ghost predicate Untouched(img: Image, img': Image) {
    img' == img.(domain := img'.domain)
  }

  /** What a step may change under the nose of a process that holds mode. */
  ghost predicate Polite(mode: Mode, img: Image, img': Image) {
    match mode
    case Exclusive => img' == img || img' == img.(domain := Stopped(img.domain))
    case Shared => img'.dir == img.dir && img'.disk == img.disk
  }

  /** A step of a process without a lock does not change an image that is locked exclusively; a
      step under the Shared lock leaves directory and disk alone. */
  lemma StepIsPolite(pid: nat, p: Proc, img: Image, es: seq<CacheNames.Entry>, c: Choice, next: nat)
    requires ProcOk(pid, p, img, next) && !Finished(p.pc)
    ensures var img' := Effect(pid, p, img, Answer(p, img, es, c), c, next);
      && (p.lock.None? && !CanLock(img.holders, Shared) ==> img' == img)
      && (Holding(p) != Some(Exclusive) ==> Polite(Shared, img, img'))
  {
  }

  /** The facts a lock holder knows survive polite steps of others. */
  lemma PolitenessKeepsKnowledge(pid: nat, q: Proc, img: Image, img': Image, next: nat, later: nat)
    requires ProcOk(pid, q, img, next) && next <= later
    requires q.lock.Some? ==> q.lock.value in img'.holders && img'.holders[q.lock.value] == img.holders[q.lock.value]
    requires q.lock.Some? ==> Polite(Holding(q).value, img, img')
    ensures ProcOk(pid, q, img', later)
  {
  }

  lemma LaterIsFine(pid: nat, q: Proc, img: Image, other: Image, next: nat, later: nat)
    requires ProcOk(pid, q, img, next) && next <= later
    ensures ProcOk(pid, q, img, later)
    ensures q.lock.None? ==> ProcOk(pid, q, other, later)
  {
  }

  // ---- moves of the whole system ----

  /** A new image value keeps the listing in step with the directories. */
  lemma WithImageKeepsDirs(w: World, id: ImageId, img: Image)
    requires DirsOk(w) && (img.dir ==> |id| == ID_LENGTH)
    ensures DirsOk(WithImage(w, id, img))
    ensures forall other :: Img(WithImage(w, id, img), other) == if other == id then img else Img(w, other)
  {
    InsertListing(w.dirs, id);
    RemoveListing(w.dirs, id);
  }

  lemma OnlyInstallMakesDirs(pid: nat, p: Proc, img: Image, r: Reply, c: Choice, next: nat)
    ensures Effect(pid, p, img, r, c, next).dir ==> img.dir || p.pc == Installing(MakeDir)
  {
  }

  /** The world after process pid turned into p' and image id into img'. */
  function Updated(w: World, pid: nat, p': Proc, id: ImageId, img': Image, next: nat): World {
    WithImage(w, id, img').(procs := w.procs[pid := p'], next := next)
  }

  ghost predicate Spared(w: World, pid: nat, id: ImageId, img': Image, next: nat) {
    forall other | other in w.procs && other != pid && w.procs[other].target == id ::
      ProcOk(other, w.procs[other], img', next)
  }

  lemma UpdateKeepsImages(w: World, pid: nat, p': Proc, id: ImageId, img': Image, next: nat)
    requires ImagesOk(w) && DirsOk(w) && w.next <= next && ImageOk(id, img', next) && (img'.dir ==> |id| == ID_LENGTH)
    ensures ImagesOk(Updated(w, pid, p', id, img', next)) && DirsOk(Updated(w, pid, p', id, img', next))
  {
    WithImageKeepsDirs(w, id, img');
    var w' := Updated(w, pid, p', id, img', next);
    forall other ensures Img(w', other) == if other == id then img' else Img(w, other) {
      assert Img(w', other) == Img(WithImage(w, id, img'), other);
    }
    forall other ensures ImageOk(other, Img(w', other), w'.next) {
      assert ImageOk(other, Img(w, other), w.next);
    }
  }

  lemma UpdateKeepsProcs(w: World, pid: nat, p': Proc, id: ImageId, img': Image, next: nat)
    requires ProcsOk(w) && w.next <= next && Spared(w, pid, id, img', next)
    requires ProcOk(pid, p', img', next) && (p'.target == id || p'.lock.None?)
    ensures ProcsOk(Updated(w, pid, p', id, img', next))
  {
    var w' := Updated(w, pid, p', id, img', next);
    forall other | other in w'.procs ensures ProcOk(other, w'.procs[other], Img(w', w'.procs[other].target), w'.next) {
      if other == pid {
        LaterIsFine(pid, p', img', Img(w', p'.target), next, next);
      } else if w.procs[other].target != id {
        LaterIsFine(other, w.procs[other], Img(w, w.procs[other].target), NO_IMAGE, w.next, next);
      }
    }
  }

  /** The lock table entries after the update: old ones of others, and those of p'. */
  ghost predicate TableOf(pid: nat, p': Proc, id: ImageId, img: Image, img': Image) {
    forall i | i in img'.holders ::
      if i in img.holders && img.holders[i].pid != pid then img'.holders[i] == img.holders[i]
      else img'.holders[i].pid == pid && p'.lock == Some(i) && p'.target == id
  }

  lemma UpdateKeepsOwners(w: World, pid: nat, p': Proc, id: ImageId, img': Image, next: nat)
    requires OwnersOk(w) && pid in w.procs && TableOf(pid, p', id, Img(w, id), img')
    requires w.procs[pid].target == id || w.procs[pid].lock.None?
    ensures OwnersOk(Updated(w, pid, p', id, img', next))
  {
    var w' := Updated(w, pid, p', id, img', next);
    forall other, i | i in Img(w', other).holders ensures OwnerOk(w', other, i, Img(w', other).holders[i].pid) {
      if other != id || (i in Img(w, id).holders && Img(w, id).holders[i].pid != pid) {
        assert i in Img(w, other).holders;
        assert OwnerOk(w, other, i, Img(w, other).holders[i].pid);
      }
    }
  }

  lemma LockStepGivesTable(w: World, pid: nat, p': Proc, img': Image)
    requires Inv(w) && pid in w.procs
    requires LockStep(pid, w.procs[pid], p', Img(w, w.procs[pid].target), img', w.next)
    ensures TableOf(pid, p', w.procs[pid].target, Img(w, w.procs[pid].target), img')
    ensures p'.target == w.procs[pid].target || p'.lock.None?
  {
    var p := w.procs[pid];
    var img := Img(w, p.target);
    forall i | i in img.holders ensures img.holders[i].pid == pid ==> p.lock == Some(i) {
      assert OwnerOk(w, p.target, i, img.holders[i].pid);
    }
    assert ImageOk(p.target, img, w.next);
  }

  /** A process on the image of the acting one is not disturbed. */
  lemma StepSparesOthers(pid: nat, p: Proc, other: nat, q: Proc,
                         img: Image, es: seq<CacheNames.Entry>, c: Choice, next: nat)
    requires pid != other && !Finished(p.pc) && q.target == p.target
    requires ImageOk(p.target, img, next) && ProcOk(pid, p, img, next) && ProcOk(other, q, img, next)
    ensures ProcOk(other, q, Effect(pid, p, img, Answer(p, img, es, c), c, next), next + 1)
  {
    var img' := Effect(pid, p, img, Answer(p, img, es, c), c, next);
    if q.lock.None? {
      LaterIsFine(other, q, img, img', next, next + 1);
    } else {
      StepIsLockStep(pid, p, img, es, c, next);
      StepIsPolite(pid, p, img, es, c, next);
      SharingIsPolite(pid, p, other, q, img, img', next);
      PolitenessKeepsKnowledge(other, q, img, img', next, next + 1);
    }
  }

  /** A killed process takes only its own lock with it. */
  lemma KillSparesOthers(pid: nat, p: Proc, other: nat, q: Proc, img: Image, next: nat)
    requires pid != other && HolderOk(pid, p, img) && ProcOk(other, q, img, next) && ImageOk(p.target, img, next)
    ensures ProcOk(other, q, Release(img, p.lock), next)
  {
    PolitenessKeepsKnowledge(other, q, img, Release(img, p.lock), next, next);
  }

  /** Two processes that have locked the same image both hold it Shared. */
  lemma SharingIsPolite(pid: nat, p: Proc, other: nat, q: Proc, img: Image, img': Image, next: nat)
    requires pid != other && HolderOk(pid, p, img) && HolderOk(other, q, img) && ImageOk(q.target, img, next)
    requires q.lock.Some?
    requires p.lock.None? && !CanLock(img.holders, Shared) ==> Polite(Exclusive, img, img')
    requires Holding(p) != Some(Exclusive) ==> Polite(Shared, img, img')
    ensures Polite(Holding(q).value, img, img')
  {
  }

  lemma ActSparesOthers(w: World, pid: nat, c: Choice)
    requires Inv(w) && Active(w, pid)
    ensures Spared(w, pid, w.procs[pid].target, ImageAfter(w, pid, c), w.next + 1)
  {
    var p, img := w.procs[pid], Img(w, w.procs[pid].target);
    assert ProcOk(pid, p, img, w.next) && ImageOk(p.target, img, w.next);
    forall other | other in w.procs && other != pid && w.procs[other].target == p.target
      ensures ProcOk(other, w.procs[other], ImageAfter(w, pid, c), w.next + 1)
    {
      StepSparesOthers(pid, p, other, w.procs[other], img, Entries(w), c, w.next);
    }
  }

  lemma ActKeepsOwn(w: World, pid: nat, c: Choice)
    requires Inv(w) && Active(w, pid)
    ensures ImageOk(w.procs[pid].target, ImageAfter(w, pid, c), w.next + 1)
    ensures ProcOk(pid, ProcAfter(w, pid, c), ImageAfter(w, pid, c), w.next + 1)
    ensures ImageAfter(w, pid, c).dir ==> |w.procs[pid].target| == ID_LENGTH
    ensures
      LockStep(pid, w.procs[pid], ProcAfter(w, pid, c), Img(w, w.procs[pid].target), ImageAfter(w, pid, c), w.next)
  {
    var p, img := w.procs[pid], Img(w, w.procs[pid].target);
    assert ProcOk(pid, p, img, w.next) && ImageOk(p.target, img, w.next);
    StepKeeps(pid, p, img, Entries(w), c, w.next);
    StepIsLockStep(pid, p, img, Entries(w), c, w.next);
    OnlyInstallMakesDirs(pid, p, img, ReplyTo(w, pid, c), c, w.next);
    assert img.dir ==> p.target in w.dirs;
  }

  /** What a call has to leave behind. */
  ghost predicate GoodCall(w: World, pid: nat, p': Proc, img': Image)
    requires pid in w.procs
  {
    var id := w.procs[pid].target;
    && ImageOk(id, img', w.next + 1) && ProcOk(pid, p', img', w.next + 1) && (img'.dir ==> |id| == ID_LENGTH)
    && LockStep(pid, w.procs[pid], p', Img(w, id), img', w.next) && Spared(w, pid, id, img', w.next + 1)
  }

  lemma ActIsGood(w: World, pid: nat, c: Choice)
    requires Inv(w) && Active(w, pid)
    ensures GoodCall(w, pid, ProcAfter(w, pid, c), ImageAfter(w, pid, c))
  {
    ActKeepsOwn(w, pid, c);
    ActSparesOthers(w, pid, c);
  }

  lemma GoodCallKeepsInv(w: World, pid: nat, p': Proc, img': Image)
    requires Inv(w) && pid in w.procs && GoodCall(w, pid, p', img')
    ensures Inv(Updated(w, pid, p', w.procs[pid].target, img', w.next + 1))
  {
    LockStepGivesTable(w, pid, p', img');
    AssembleInv(w, pid, p', img', w.next + 1);
  }

  lemma ActKeepsInv(w: World, pid: nat, c: Choice)
    requires Inv(w) && Active(w, pid)
    ensures Inv(Apply(w, Act(pid, c)))
  {
    ActIsGood(w, pid, c);
    GoodCallKeepsInv(w, pid, ProcAfter(w, pid, c), ImageAfter(w, pid, c));
    ActUpdates(w, pid, c);
  }

  lemma ActUpdates(w: World, pid: nat, c: Choice)
    requires Active(w, pid)
    ensures Apply(w, Act(pid, c))
         == Updated(w, pid, ProcAfter(w, pid, c), w.procs[pid].target, ImageAfter(w, pid, c), w.next + 1)
  {
  }

  lemma AssembleInv(w: World, pid: nat, p': Proc, img': Image, next: nat)
    requires Inv(w) && pid in w.procs && w.next <= next
    requires ImageOk(w.procs[pid].target, img', next) && (img'.dir ==> |w.procs[pid].target| == ID_LENGTH)
    requires Spared(w, pid, w.procs[pid].target, img', next) && ProcOk(pid, p', img', next)
    requires TableOf(pid, p', w.procs[pid].target, Img(w, w.procs[pid].target), img')
    requires p'.target == w.procs[pid].target || p'.lock.None?
    ensures Inv(Updated(w, pid, p', w.procs[pid].target, img', next))
  {
    UpdateKeepsImages(w, pid, p', w.procs[pid].target, img', next);
    UpdateKeepsProcs(w, pid, p', w.procs[pid].target, img', next);
    UpdateKeepsOwners(w, pid, p', w.procs[pid].target, img', next);
  }

  lemma KillKeepsInv(w: World, pid: nat)
    requires Inv(w) && Active(w, pid)
    ensures Inv(Apply(w, Kill(pid)))
  {
    var p := w.procs[pid];
    var img, img', p' := Img(w, p.target), Release(Img(w, p.target), p.lock), p.(lock := None, pc := Killed);
    assert ProcOk(pid, p, img, w.next) && ImageOk(p.target, img, w.next);
    assert img.dir ==> p.target in w.dirs;
    forall other | other in w.procs && other != pid && w.procs[other].target == p.target
      ensures ProcOk(other, w.procs[other], img', w.next)
    {
      KillSparesOthers(pid, p, other, w.procs[other], img, w.next);
    }
    forall i | i in img.holders ensures img.holders[i].pid == pid ==> p.lock == Some(i) {
      assert OwnerOk(w, p.target, i, img.holders[i].pid);
    }
    AssembleInv(w, pid, p', img', w.next);
    KillUpdates(w, pid);
  }

  lemma KillUpdates(w: World, pid: nat)
    requires Active(w, pid)
    ensures var p := w.procs[pid];
      Apply(w, Kill(pid)) ==
        Updated(w, pid, p.(lock := None, pc := Killed), p.target, Release(Img(w, p.target), p.lock), w.next)
  {
  }

  lemma PowerOffSpares(pid: nat, q: Proc, img: Image, next: nat)
    ensures ProcOk(pid, q, img, next) ==> ProcOk(pid, q, img.(domain := Stopped(img.domain)), next)
  {
    if ProcOk(pid, q, img, next) {
      PolitenessKeepsKnowledge(pid, q, img, img.(domain := Stopped(img.domain)), next, next);
    }
  }

  lemma PowerOffSparesAll(w: World, id: ImageId)
    requires Inv(w)
    ensures ProcsOk(Apply(w, PowerOff(id)))
  {
    var w', img := Apply(w, PowerOff(id)), Img(w, id);
    forall pid | pid in w'.procs ensures ProcOk(pid, w'.procs[pid], Img(w', w'.procs[pid].target), w'.next) {
      assert ProcOk(pid, w.procs[pid], Img(w, w.procs[pid].target), w.next);
      PowerOffSpares(pid, w.procs[pid], img, w.next);
    }
  }

  lemma PowerOffKeepsInv(w: World, id: ImageId)
    requires Inv(w)
    ensures Inv(Apply(w, PowerOff(id)))
  {
    var w', img := Apply(w, PowerOff(id)), Img(w, id);
    var img' := img.(domain := Stopped(img.domain));
    assert ImageOk(id, img, w.next);
    assert img.dir ==> id in w.dirs;
    WithImageKeepsDirs(w, id, img');
    forall other ensures ImageOk(other, Img(w', other), w'.next) {
      assert ImageOk(other, Img(w, other), w.next);
    }
    PowerOffSparesAll(w, id);
    forall other, i | i in Img(w', other).holders ensures OwnerOk(w', other, i, Img(w', other).holders[i].pid) {
      assert i in Img(w, other).holders;
      assert OwnerOk(w, other, i, Img(w, other).holders[i].pid);
    }
  }

  lemma InitialIsOk(pid: nat, cmd: Command, img: Image, next: nat)
    requires WellFormed(cmd)
    ensures ProcOk(pid, Initial(cmd), img, next)
  {
  }

  lemma LaunchKeepsProcs(w: World, pid: nat, cmd: Command)
    requires ProcsOk(w) && pid !in w.procs && WellFormed(cmd)
    ensures ProcsOk(w.(procs := w.procs[pid := Initial(cmd)]))
  {
    var w' := w.(procs := w.procs[pid := Initial(cmd)]);
    forall other | other in w'.procs ensures ProcOk(other, w'.procs[other], Img(w', w'.procs[other].target), w'.next) {
      if other == pid {
        InitialIsOk(pid, cmd, Img(w', w'.procs[pid].target), w.next);
      } else {
        assert ProcOk(other, w.procs[other], Img(w, w.procs[other].target), w.next);
      }
    }
  }

  lemma LaunchKeepsOwners(w: World, pid: nat, cmd: Command)
    requires OwnersOk(w) && pid !in w.procs
    ensures OwnersOk(w.(procs := w.procs[pid := Initial(cmd)]))
  {
    var w' := w.(procs := w.procs[pid := Initial(cmd)]);
    forall id, i | i in Img(w', id).holders ensures OwnerOk(w', id, i, Img(w', id).holders[i].pid) {
      assert i in Img(w, id).holders;
      assert OwnerOk(w, id, i, Img(w, id).holders[i].pid);
    }
  }

  lemma SameImagesAreOk(w: World, procs: map<nat, Proc>)
    requires DirsOk(w) && ImagesOk(w)
    ensures DirsOk(w.(procs := procs)) && ImagesOk(w.(procs := procs))
  {
    assert forall id :: Img(w.(procs := procs), id) == Img(w, id);
  }

  lemma LaunchKeepsInv(w: World, pid: nat, cmd: Command)
    requires Inv(w) && pid !in w.procs && WellFormed(cmd)
    ensures Inv(Apply(w, Launch(pid, cmd)))
  {
    SameImagesAreOk(w, w.procs[pid := Initial(cmd)]);
    LaunchKeepsProcs(w, pid, cmd);
    LaunchKeepsOwners(w, pid, cmd);
  }

  /** Every move keeps the invariant. */
  lemma MoveKeepsInv(w: World, m: Move)
    requires Inv(w)
    ensures Inv(Apply(w, m))
  {
    match m {
      case Launch(pid, cmd) => if pid !in w.procs && WellFormed(cmd) { LaunchKeepsInv(w, pid, cmd); }
      case Act(pid, c) => if Active(w, pid) { ActKeepsInv(w, pid, c); }
      case Kill(pid) => if Active(w, pid) { KillKeepsInv(w, pid); }
      case PowerOff(id) => PowerOffKeepsInv(w, id);
    }
  }

  /** Every run keeps the invariant. */
  lemma {:induction false} RunKeepsInv(w: World, moves: seq<Move>)
    requires Inv(w)
    ensures Inv(Exec(w, moves))
    decreases |moves|
  {
    if moves != [] {
      RunKeepsInv(w, moves[..|moves| - 1]);
      MoveKeepsInv(Exec(w, moves[..|moves| - 1]), moves[|moves| - 1]);
    }
  }

  lemma StartIsOk()
    ensures Inv(START)
  {
  }
}
