/** The commands of podman-bootc as programs over shared state.

    Every system call a command makes is one step.  A step has three parts: Answer is what
    the kernel, podman or libvirt replies, Effect is what the call does to the shared state
    of one image, and Go is the program: which call comes next.  A run of the whole system
    is any sequence of Moves of any number of processes, with processes killed and guests
    powering off at any point. */
module Protocol {
  import opened Common
  import opened CacheNames
  import Size = DiskSize

  type ImageId = string

  // ---- shared state of one image ----

  datatype Mode = Exclusive | Shared

  /** An entry of the lock table: a lock instance is held by the process that opened it. */
  datatype Holder = Holder(pid: nat, mode: Mode)

  /** A libvirt domain.  Each new definition has its own uuid.  A domain undefined while it
      runs keeps running without a persistent definition. */
  datatype Domain = Undefined | Off(uuid: nat) | Running(uuid: nat, persistent: bool)

  datatype Content = Partial | Complete(image: ImageId)

  /** The user.bootc.meta attribute, when present. */
  datatype Meta = Garbled | Digest(image: ImageId)

  datatype Disk = Disk(inode: nat, size: int, content: Content, meta: Option<Meta>)

  /** The cache directory of an image (dir, disk.raw, temporary disks, bc.cfg), its domain
      and its lock.  cfg is the Id in bc.cfg; renames and removals count what happened to
      disk.raw so far. */
  datatype Image = Image(dir: bool, disk: Option<Disk>, temps: map<nat, Disk>, cfg: Option<string>,
                         domain: Domain, holders: map<nat, Holder>, renames: nat, removals: nat)

  const NO_IMAGE := Image(false, None, map[], None, Undefined, map[], 0, 0)

  // ---- processes ----

  /** image: the id podman reports for the name given to run. */
  datatype Command =
    | Run(image: ImageId, imageSize: Size.int64, request: Size.Request, remove: bool, background: bool, hasCmd: bool)
    | Stop(id: string)
    | Rm(id: string, force: bool)
    | RmAll(force: bool)
    | Ssh(id: string, user: string)
    | List

  /** The calls of Install. */
  datatype InstallStep =
    | Pull | LockInstall | MakeDir | OpenDisk | ReadMeta | DropDisk | CreateTemp | Truncate | Build
    | WriteMeta | Rename | DropTemp | UnlockInstall(ok: bool)

  /** The calls of NewVM and of what comes before it. */
  datatype OpenStep = FreePort | ReadCache | Resolve(key: string) | LockVm | Recheck | Lookup

  /** The calls of doRun, doSsh and GetConfig on an open VM.  The counters of the two
      polling loops are the iterations left. */
  datatype UseStep =
    | GenerateKeys | CheckBeforeRun | Define | Start | WaitRunning(polls: nat)
    | WriteConfig | ReadKey | WaitSsh(polls: nat) | Session | LoadConfig | CheckState

  /** What follows a successful Delete. */
  datatype After = ThenUnlock | ThenRemove | ThenDefine

  /** The calls of killVM, Delete, Shutdown, DeleteFromCache and the final Unlock. */
  datatype DeleteStep =
    | CheckBeforeKill | CheckBeforeStop(after: After) | Destroy(after: After) | Exists(after: After)
    | Undefine(after: After) | ClearCache | RemoveDir | Unlock(ok: bool)

  /** The call a process makes next. */
  datatype PC =
    | Installing(install: InstallStep)
    | Opening(open: OpenStep)
    | Using(use: UseStep)
    | Deleting(delete: DeleteStep)
    | Done(ok: bool)
    | Killed
    | Panicked

  const RUNNING_POLLS := 60
  const SSH_POLLS := 120

  /** target: the resolved image; handle: the cached domain; lock: the lock instance held;
      acquired and released: the lock instances taken and given back so far. */
  datatype Proc = Proc(cmd: Command, pc: PC, target: ImageId, handle: Option<nat>, lock: Option<nat>, temp: nat,
                       todo: seq<string>, acquired: seq<nat>, released: seq<nat>)

  predicate Finished(pc: PC) {
    pc.Done? || pc.Killed? || pc.Panicked?
  }

  predicate Loops(cmd: Command) {
    cmd.RmAll? || cmd.List?
  }

  function LockMode(cmd: Command): Mode {
    match cmd
    case Run(_, _, _, _, _, _) => Shared
    case Ssh(_, _) => Shared
    case List => Shared
    case Stop(_) => Exclusive
    case Rm(_, _) => Exclusive
    case RmAll(_) => Exclusive
  }

  // ---- what a call is answered ----

  datatype Reply =
    | Yes | No | Error | Fresh | Found(uuid: nat) | Names(entries: seq<Entry>) | Config(id: string) | NilPointer

  /** The part of a reply that the environment decides: whether the call succeeds, which
      entries an interrupted RemoveAll has already removed, and what image the name given to
      run denotes by now, if not the one inspected. */
  datatype Choice = Choice(ok: bool, disk: bool, temps: set<nat>, cfg: bool, retagged: Option<ImageId>)

  /** The image that podman installs from: the one inspected before, unless the name given to
      run denotes another one by now. */
  function Built(c: Choice, inspected: ImageId): ImageId {
    if c.retagged.Some? then c.retagged.value else inspected
  }

  function Succeeds(ok: bool): Reply {
    if ok then Yes else Error
  }

  /** IsRunning through a cached handle. */
  function StateOf(handle: Option<nat>, domain: Domain, ok: bool): Reply {
    if handle.None? then No
    else if !ok || domain.Undefined? || domain.uuid != handle.value then Error
    else if domain.Running? then Yes
    else No
  }

  predicate Refers(handle: Option<nat>, domain: Domain) {
    handle.Some? && !domain.Undefined? && domain.uuid == handle.value
  }

  predicate CanLock(holders: map<nat, Holder>, mode: Mode) {
    match mode
    case Exclusive => holders == map[]
    case Shared => forall i | i in holders :: holders[i].mode == Shared
  }

  function TryLock(holders: map<nat, Holder>, mode: Mode, ok: bool): Reply {
    if !ok then Error else if CanLock(holders, mode) then Fresh else No
  }

  function AnswerInstall(at: InstallStep, p: Proc, img: Image, c: Choice): Reply {
    match at
    case LockInstall => TryLock(img.holders, Exclusive, c.ok)
    case OpenDisk => if !c.ok then Error else if img.disk.Some? then Yes else No
    case ReadMeta =>
      if img.disk.None? || img.disk.value.meta.None? then Error
      else if img.disk.value.meta.value == Digest(p.target) then Yes
      else No
    case CreateTemp => if c.ok then Fresh else Error
    case Truncate =>
      if p.cmd.Run? then
        var size := Size.FinalSize(p.cmd.imageSize, p.cmd.request);
        Succeeds(c.ok && size.Some? && size.value >= 0)
      else Error
    case UnlockInstall(_) => Yes
    case _ => Succeeds(c.ok)
  }

  function AnswerOpen(at: OpenStep, p: Proc, img: Image, entries: seq<Entry>, c: Choice): Reply {
    match at
    case FreePort => Succeeds(c.ok)
    case ReadCache => if c.ok then Names(entries) else Error
    case Resolve(key) => if c.ok && key != "" then Names(entries) else Error
    case LockVm => TryLock(img.holders, LockMode(p.cmd), c.ok)
    case Recheck => if !c.ok then Error else if img.dir then Yes else No
    case Lookup => if !c.ok then Error else if img.domain.Undefined? then No else Found(img.domain.uuid)
  }

  function AnswerUse(at: UseStep, p: Proc, img: Image, c: Choice): Reply {
    match at
    case GenerateKeys => Succeeds(c.ok)
    case CheckBeforeRun => StateOf(p.handle, img.domain, c.ok)
    case Define => if !c.ok then Error else if img.domain.Undefined? then Fresh else Found(img.domain.uuid)
    case Start => Succeeds(c.ok && Refers(p.handle, img.domain) && img.domain.Off? && img.disk.Some?)
    case WaitRunning(_) => StateOf(p.handle, img.domain, c.ok)
    case WriteConfig => Succeeds(c.ok && img.disk.Some?)
    case ReadKey => Succeeds(c.ok)
    case WaitSsh(_) => if c.ok then Yes else No
    case Session => Succeeds(c.ok && img.cfg.Some?)
    case LoadConfig => if c.ok && img.cfg.Some? then Config(img.cfg.value) else Error
    case CheckState => StateOf(p.handle, img.domain, c.ok)
  }

  function AnswerDelete(at: DeleteStep, p: Proc, img: Image, c: Choice): Reply {
    match at
    case CheckBeforeKill => StateOf(p.handle, img.domain, c.ok)
    case CheckBeforeStop(_) => StateOf(p.handle, img.domain, c.ok)
    case Destroy(_) => Succeeds(c.ok && Refers(p.handle, img.domain) && img.domain.Running?)
    case Exists(_) => if !c.ok then Error else if img.domain.Undefined? then No else Yes
    case Undefine(_) => if p.handle.None? then NilPointer else Succeeds(c.ok && Refers(p.handle, img.domain))
    case ClearCache => Succeeds(c.ok)
    case RemoveDir => Succeeds(c.ok)
    case Unlock(_) => Yes
  }

  function Answer(p: Proc, img: Image, entries: seq<Entry>, c: Choice): Reply {
    match p.pc
    case Installing(at) => AnswerInstall(at, p, img, c)
    case Opening(at) => AnswerOpen(at, p, img, entries, c)
    case Using(at) => AnswerUse(at, p, img, c)
    case Deleting(at) => AnswerDelete(at, p, img, c)
    case _ => Error
  }

  // ---- what a call does to the image ----

  function Release(img: Image, lock: Option<nat>): Image {
    if lock.Some? then img.(holders := img.holders - {lock.value}) else img
  }

  function Discarded(img: Image): nat {
    if img.disk.Some? then 1 else 0
  }

  /** The image after its directory and all that is in it are gone. */
  function Cleared(img: Image): Image {
    img.(dir := false, disk := None, temps := map[], cfg := None, removals := img.removals + Discarded(img))
  }

  /** The image after an unfinished RemoveAll. */
  function PartlyCleared(img: Image, c: Choice): Image {
    img.(disk := if c.disk then None else img.disk,
         temps := img.temps - c.temps,
         cfg := if c.cfg then None else img.cfg,
         removals := img.removals + if c.disk then Discarded(img) else 0)
  }

  function Stopped(domain: Domain): Domain {
    match domain
    case Running(uuid, persistent) => if persistent then Off(uuid) else Undefined
    case _ => domain
  }

  function EffectOfInstall(at: InstallStep, pid: nat, p: Proc, img: Image, r: Reply, c: Choice, next: nat): Image {
    match at
    case LockInstall => if r.Fresh? then img.(holders := img.holders[next := Holder(pid, Exclusive)]) else img
    case MakeDir => if r.Yes? then img.(dir := true) else img
    case DropDisk => if r.Yes? then img.(disk := None, removals := img.removals + Discarded(img)) else img
    case CreateTemp => if r.Fresh? then img.(temps := img.temps[next := Disk(next, 0, Partial, None)]) else img
    case Truncate =>
      if r.Yes? && p.temp in img.temps && p.cmd.Run? then
        var size := Size.FinalSize(p.cmd.imageSize, p.cmd.request);
        img.(temps := img.temps[p.temp := img.temps[p.temp].(size := if size.Some? then size.value else 0)])
      else img
    case Build =>
      if r.Yes? && p.temp in img.temps then
        img.(temps := img.temps[p.temp := img.temps[p.temp].(content := Complete(Built(c, p.target)))])
      else img
    case WriteMeta =>
      if r.Yes? && p.temp in img.temps then
        img.(temps := img.temps[p.temp := img.temps[p.temp].(meta := Some(Digest(p.target)))])
      else img
    case Rename =>
      if r.Yes? && p.temp in img.temps then
        img.(disk := Some(img.temps[p.temp]), temps := img.temps - {p.temp}, renames := img.renames + 1)
      else img
    case DropTemp => if r.Yes? then img.(temps := img.temps - {p.temp}) else img
    case UnlockInstall(_) => Release(img, p.lock)
    case _ => img
  }

  function EffectOfOpen(at: OpenStep, pid: nat, p: Proc, img: Image, r: Reply, next: nat): Image {
    if at.LockVm? && r.Fresh? then img.(holders := img.holders[next := Holder(pid, LockMode(p.cmd))]) else img
  }

  function EffectOfUse(at: UseStep, p: Proc, img: Image, r: Reply, next: nat): Image {
    match at
    case Define =>
      if r.Fresh? then img.(domain := Off(next))
      else if r.Found? && img.domain.Running? then img.(domain := Running(img.domain.uuid, true))
      else img
    case Start => if r.Yes? && img.domain.Off? then img.(domain := Running(img.domain.uuid, true)) else img
    case WriteConfig =>
      if r.Yes? && |p.target| >= SHORT_LENGTH then img.(cfg := Some(ShortId(p.target))) else img
    case _ => img
  }

  function EffectOfDelete(at: DeleteStep, p: Proc, img: Image, r: Reply, c: Choice): Image {
    match at
    case Destroy(_) => if r.Yes? then img.(domain := Stopped(img.domain)) else img
    case Undefine(_) =>
      if r.NilPointer? then Release(img, p.lock)
      else if r.Yes? && img.domain.Running? then img.(domain := Running(img.domain.uuid, false))
      else if r.Yes? then img.(domain := Undefined)
      else img
    case ClearCache => PartlyCleared(img, c)
    case RemoveDir => if r.Yes? then Cleared(img) else img
    case Unlock(_) => Release(img, p.lock)
    case _ => img
  }

  function Effect(pid: nat, p: Proc, img: Image, r: Reply, c: Choice, next: nat): Image {
    match p.pc
    case Installing(at) => EffectOfInstall(at, pid, p, img, r, c, next)
    case Opening(at) => EffectOfOpen(at, pid, p, img, r, next)
    case Using(at) => EffectOfUse(at, p, img, r, next)
    case Deleting(at) => EffectOfDelete(at, p, img, r, c)
    case _ => img
  }

  // ---- the programs ----

  function Take(p: Proc, next: nat): Proc {
    p.(lock := Some(next), acquired := p.acquired + [next])
  }

  function GiveBack(p: Proc): Proc {
    if p.lock.Some? then p.(lock := None, released := p.released + [p.lock.value]) else p
  }

  /** The end of the work on one image: RmAll and List go on to the next one, whatever
      happened, with a new handle. */
  function EndItem(p: Proc, ok: bool): Proc {
    if !Loops(p.cmd) then p.(pc := Done(ok))
    else if p.todo == [] then p.(pc := Done(true))
    else p.(pc := Opening(Resolve(p.todo[0])), todo := p.todo[1..], handle := None)
  }

  /** pkg/bootc/bootc_disk.go: Install. */
  function GoInstall(at: InstallStep, p: Proc, r: Reply, next: nat): Proc {
    match at
    case Pull =>
      if r.Yes? && p.cmd.Run? then p.(target := p.cmd.image, pc := Installing(LockInstall))
      else p.(pc := Done(false))
    case LockInstall => if r.Fresh? then Take(p, next).(pc := Installing(MakeDir)) else p.(pc := Done(false))
    case MakeDir => if r.Yes? then p.(pc := Installing(OpenDisk)) else p.(pc := Installing(UnlockInstall(false)))
    case OpenDisk =>
      if r.Yes? then p.(pc := Installing(ReadMeta))
      else if r.No? then p.(pc := Installing(CreateTemp))
      else p.(pc := Installing(UnlockInstall(false)))
    case ReadMeta =>
      if r.Yes? then p.(pc := Installing(UnlockInstall(true)))
      else if r.No? then p.(pc := Installing(CreateTemp))
      else p.(pc := Installing(DropDisk))
    case DropDisk => p.(pc := Installing(CreateTemp))
    case CreateTemp =>
      if r.Fresh? then p.(temp := next, pc := Installing(Truncate))
      else p.(pc := Installing(UnlockInstall(false)))
    case Truncate => if r.Yes? then p.(pc := Installing(Build)) else p.(pc := Installing(UnlockInstall(false)))
    case Build => if r.Yes? then p.(pc := Installing(WriteMeta)) else p.(pc := Installing(DropTemp))
    case WriteMeta => if r.Yes? then p.(pc := Installing(Rename)) else p.(pc := Installing(DropTemp))
    case Rename => if r.Yes? then p.(pc := Installing(UnlockInstall(true))) else p.(pc := Installing(DropTemp))
    case DropTemp => p.(pc := Installing(UnlockInstall(false)))
    case UnlockInstall(ok) => if ok then GiveBack(p).(pc := Opening(FreePort)) else GiveBack(p).(pc := Done(false))
  }

  /** pkg/vm/vm_linux.go and pkg/vm/vm.go: NewVM, with what each command does with the new handle. */
  function GoOpen(at: OpenStep, p: Proc, r: Reply, next: nat): Proc {
    match at
    case FreePort => if r.Yes? then p.(pc := Opening(Resolve(p.target))) else p.(pc := Done(false))
    case ReadCache =>
      if r.Names? then EndItem(p.(todo := DirNames(r.entries)), true) else p.(pc := Done(false))
    case Resolve(key) =>
      if r.Names? && LastMatch(r.entries, key).Some? then
        p.(target := LastMatch(r.entries, key).value, pc := Opening(LockVm))
      else EndItem(p, false)
    case LockVm => if r.Fresh? then Take(p, next).(pc := Opening(Recheck)) else EndItem(p, false)
    case Recheck => if r.Yes? then p.(pc := Opening(Lookup)) else p.(pc := Deleting(Unlock(false)))
    case Lookup =>
      if r.Found? then p.(handle := Some(r.uuid), pc := FirstUse(p.cmd))
      else if r.No? then p.(handle := None, pc := FirstUse(p.cmd))
      else p.(pc := Deleting(Unlock(false)))
  }

  function FirstUse(cmd: Command): PC {
    match cmd
    case Run(_, _, _, _, _, _) => Using(GenerateKeys)
    case Stop(_) => Deleting(CheckBeforeStop(ThenUnlock))
    case Rm(_, force) => Deleting(if force then CheckBeforeStop(ThenRemove) else CheckBeforeKill)
    case RmAll(force) => Deleting(if force then CheckBeforeStop(ThenRemove) else CheckBeforeKill)
    case Ssh(_, user) => if user == "" then Deleting(Unlock(false)) else Using(Session)
    case List => Using(LoadConfig)
  }

  /** The names of the directories in a listing. */
  function DirNames(entries: seq<CacheNames.Entry>): seq<string> {
    if entries == [] then []
    else if entries[0].isDir then [entries[0].name] + DirNames(entries[1..])
    else DirNames(entries[1..])
  }

  /** cmd/run.go: doRun after NewVM; cmd/ssh.go and cmd/list.go share Session and GetConfig. */
  function GoUse(at: UseStep, p: Proc, r: Reply, next: nat): Proc {
    match at
    case GenerateKeys =>
      if !r.Yes? then p.(pc := Deleting(Unlock(false)))
      else if p.handle.None? then p.(pc := Using(Define))
      else p.(pc := Using(CheckBeforeRun))
    case CheckBeforeRun =>
      if r.No? then p.(pc := Deleting(CheckBeforeStop(ThenDefine)))
      else p.(pc := Deleting(Unlock(false)))
    case Define =>
      if r.Fresh? then p.(handle := Some(next), pc := Using(Start))
      else if r.Found? then p.(handle := Some(r.uuid), pc := Using(Start))
      else p.(handle := None, pc := Deleting(Unlock(false)))
    case Start => if r.Yes? then p.(pc := Using(WaitRunning(RUNNING_POLLS))) else p.(pc := Deleting(Unlock(false)))
    case WaitRunning(n) =>
      if r.Yes? then p.(pc := Using(WriteConfig))
      else if r.No? && n > 1 then p.(pc := Using(WaitRunning(n - 1)))
      else p.(pc := Deleting(Unlock(false)))
    case WriteConfig =>
      if !r.Yes? || !p.cmd.Run? then p.(pc := Deleting(Unlock(false)))
      else if p.cmd.background then p.(pc := Deleting(Unlock(true)))
      else p.(pc := Using(ReadKey))
    case ReadKey => if r.Yes? then p.(pc := Using(WaitSsh(SSH_POLLS))) else p.(pc := Deleting(Unlock(false)))
    case WaitSsh(n) =>
      if r.Yes? then p.(pc := Using(Session))
      else if n > 1 then p.(pc := Using(WaitSsh(n - 1)))
      else p.(pc := Deleting(Unlock(false)))
    case Session =>
      if !r.Yes? then p.(pc := Deleting(Unlock(false)))
      else if p.cmd.Run? && (p.cmd.remove || p.cmd.hasCmd) then p.(pc := Deleting(CheckBeforeStop(ThenUnlock)))
      else p.(pc := Deleting(Unlock(true)))
    case LoadConfig => if r.Config? then p.(pc := Using(CheckState)) else p.(pc := Deleting(Unlock(false)))
    case CheckState => if r.Error? then p.(pc := Deleting(Unlock(false))) else p.(pc := Deleting(Unlock(true)))
  }

  function Continue(after: After): PC {
    match after
    case ThenUnlock => Deleting(Unlock(true))
    case ThenRemove => Deleting(ClearCache)
    case ThenDefine => Using(Define)
  }

  /** cmd/rm.go: killVM and forceKillVM; pkg/vm/vm_linux.go: Delete and Shutdown. */
  function GoDelete(at: DeleteStep, p: Proc, r: Reply): Proc {
    match at
    case CheckBeforeKill =>
      if r.No? then p.(pc := Deleting(CheckBeforeStop(ThenRemove)))
      else p.(pc := Deleting(Unlock(false)))
    case CheckBeforeStop(after) =>
      if r.Yes? then p.(pc := Deleting(Destroy(after)))
      else if r.No? then p.(pc := Deleting(Exists(after)))
      else p.(pc := Deleting(Unlock(false)))
    case Destroy(after) => if r.Yes? then p.(pc := Deleting(Exists(after))) else p.(pc := Deleting(Unlock(false)))
    case Exists(after) =>
      if r.Yes? then p.(pc := Deleting(Undefine(after)))
      else if r.No? then p.(pc := Continue(after))
      else p.(pc := Deleting(Unlock(false)))
    case Undefine(after) =>
      if r.NilPointer? then p.(lock := None, pc := Panicked)
      else if r.Yes? then p.(pc := Continue(after))
      else p.(pc := Deleting(Unlock(false)))
    case ClearCache => if r.Yes? then p.(pc := Deleting(RemoveDir)) else p.(pc := Deleting(Unlock(false)))
    case RemoveDir => if r.Yes? then p.(pc := Deleting(Unlock(true))) else p.(pc := Deleting(Unlock(false)))
    case Unlock(ok) => EndItem(GiveBack(p), ok)
  }

  function Go(p: Proc, r: Reply, next: nat): Proc {
    match p.pc
    case Installing(at) => GoInstall(at, p, r, next)
    case Opening(at) => GoOpen(at, p, r, next)
    case Using(at) => GoUse(at, p, r, next)
    case Deleting(at) => GoDelete(at, p, r)
    case _ => p
  }

  // ---- the whole system ----

  /** dirs: the cache directory's listing; next: the next unused number for lock
      instances, inodes and domain uuids. */
  datatype World = World(imgs: map<ImageId, Image>, dirs: seq<ImageId>, procs: map<nat, Proc>, next: nat)

  datatype Move =
    | Launch(pid: nat, cmd: Command)
    | Act(pid: nat, choice: Choice)
    | Kill(pid: nat)
    | PowerOff(image: ImageId)

  const START := World(map[], [], map[], 0)

  function Img(w: World, id: ImageId): Image {
    if id in w.imgs then w.imgs[id] else NO_IMAGE
  }

  function Entries(w: World): seq<CacheNames.Entry> {
    seq(|w.dirs|, i requires 0 <= i < |w.dirs| => CacheNames.Entry(w.dirs[i], true))
  }

  function WithImage(w: World, id: ImageId, img: Image): World {
    w.(imgs := w.imgs[id := img],
       dirs := if img.dir then Insert(w.dirs, id) else CacheNames.Remove(w.dirs, id))
  }

  function Initial(cmd: Command): Proc {
    var pc := match cmd
      case Run(_, _, _, _, _, _) => Installing(Pull)
      case Stop(id) => Opening(Resolve(id))
      case Rm(id, _) => Opening(Resolve(id))
      case RmAll(_) => Opening(ReadCache)
      case Ssh(id, _) => Opening(Resolve(id))
      case List => Opening(ReadCache);
    Proc(cmd, pc, "", None, None, 0, [], [], [])
  }

  /** Image ids have 64 characters and sizes are not negative. */
  predicate WellFormed(cmd: Command) {
    cmd.Run? ==> |cmd.image| == ID_LENGTH && 0 <= cmd.imageSize
  }

  predicate Active(w: World, pid: nat) {
    pid in w.procs && !Finished(w.procs[pid].pc)
  }

  function ReplyTo(w: World, pid: nat, c: Choice): Reply
    requires pid in w.procs
  {
    var p := w.procs[pid];
    Answer(p, Img(w, p.target), Entries(w), c)
  }

  function ImageAfter(w: World, pid: nat, c: Choice): Image
    requires pid in w.procs
  {
    var p := w.procs[pid];
    Effect(pid, p, Img(w, p.target), ReplyTo(w, pid, c), c, w.next)
  }

  function ProcAfter(w: World, pid: nat, c: Choice): Proc
    requires pid in w.procs
  {
    Go(w.procs[pid], ReplyTo(w, pid, c), w.next)
  }

  /** One move of the system.  A move that is not possible leaves the world as it is. */
  function Apply(w: World, m: Move): World {
    match m
    case Launch(pid, cmd) =>
      if pid in w.procs || !WellFormed(cmd) then w else w.(procs := w.procs[pid := Initial(cmd)])
    case Act(pid, c) =>
      if !Active(w, pid) then w
      else
        WithImage(w, w.procs[pid].target, ImageAfter(w, pid, c))
          .(procs := w.procs[pid := ProcAfter(w, pid, c)], next := w.next + 1)
    case Kill(pid) =>
      if !Active(w, pid) then w
      else
        var p := w.procs[pid];
        WithImage(w, p.target, Release(Img(w, p.target), p.lock))
          .(procs := w.procs[pid := p.(lock := None, pc := Killed)])
    case PowerOff(id) =>
      var img := Img(w, id);
      WithImage(w, id, img.(domain := Stopped(img.domain)))
  }

  /** The world after a run. */
  function Exec(w: World, moves: seq<Move>): World
    decreases |moves|
  {
    if moves == [] then w else Apply(Exec(w, moves[..|moves| - 1]), moves[|moves| - 1])
  }

  lemma {:induction false} ExecConcat(w: World, a: seq<Move>, b: seq<Move>)
    ensures Exec(w, a + b) == Exec(Exec(w, a), b)
    decreases |b|
  {
    if b == [] {
      assert a + b == a;
    } else {
      var c := b[..|b| - 1];
      assert (a + b)[..|a + b| - 1] == a + c;
      ExecConcat(w, a, c);
    }
  }
}
