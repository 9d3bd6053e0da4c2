/** What rm --all does while other processes go on working: their lock tables stay as they are,
    no guest powers off, and the calls of rm itself do not fail.  Everything else that the
    others may do, they may do at any point. */
module Pruning {
  import opened Common
  import opened CacheNames
  import opened Protocol
  import opened Invariant
  import Safety

  ghost predicate CalmMove(w: World, m: Move, me: nat) {
    if m.Act? && m.pid == me then m.choice.ok
    else
      && !m.PowerOff? && m != Kill(me)
      && forall id :: Img(Apply(w, m), id).holders == Img(w, id).holders
  }

  ghost predicate CalmRun(w: World, moves: seq<Move>, me: nat)
    decreases |moves|
  {
    moves == [] ||
    (CalmRun(w, moves[..|moves| - 1], me) && CalmMove(Exec(w, moves[..|moves| - 1]), moves[|moves| - 1], me))
  }

  // ---- what the others leave alone ----

  lemma LocklessInstallKeeps(at: InstallStep, pid: nat, p: Proc, img: Image, r: Reply, c: Choice, next: nat)
    requires at.Pull? || at.LockInstall?
    requires EffectOfInstall(at, pid, p, img, r, c, next).holders == img.holders && next !in img.holders
    ensures EffectOfInstall(at, pid, p, img, r, c, next) == img
  {
  }

  lemma LocklessOpenKeeps(at: OpenStep, pid: nat, p: Proc, img: Image, r: Reply, next: nat)
    requires EffectOfOpen(at, pid, p, img, r, next).holders == img.holders && next !in img.holders
    ensures EffectOfOpen(at, pid, p, img, r, next) == img
  {
  }

  /** A call without a lock that takes none changes nothing. */
  lemma LocklessCallKeeps(pid: nat, p: Proc, img: Image, r: Reply, c: Choice, next: nat)
    requires HolderOk(pid, p, img) && p.lock.None? && ImageOk(p.target, img, next)
    requires Effect(pid, p, img, r, c, next).holders == img.holders
    ensures Effect(pid, p, img, r, c, next) == img
  {
    assert next !in img.holders;
    match p.pc {
      case Installing(at) => LocklessInstallKeeps(at, pid, p, img, r, c, next);
      case Opening(at) => LocklessOpenKeeps(at, pid, p, img, r, next);
      case _ =>
    }
  }

  ghost predicate HeldByOthers(img: Image, me: nat) {
    exists i :: i in img.holders && img.holders[i].pid != me
  }

  /** A calm move of another process changes only images that this process holds. */
  lemma OthersChangeWhatTheyHold(w: World, m: Move, me: nat, id: ImageId)
    requires Inv(w) && CalmMove(w, m, me) && !(m.Act? && m.pid == me)
    requires Img(Apply(w, m), id) != Img(w, id)
    ensures m.Act? && Active(w, m.pid) && w.procs[m.pid].target == id && w.procs[m.pid].lock.Some?
    ensures w.procs[m.pid].lock.value in Img(w, id).holders
    ensures Img(w, id).holders[w.procs[m.pid].lock.value].pid == m.pid
  {
    Safety.ImageAfterMove(w, m, id);
    if m.Act? && Active(w, m.pid) && w.procs[m.pid].target == id {
      Safety.LocalFacts(w, m.pid);
      var p := w.procs[m.pid];
      if p.lock.None? {
        LocklessCallKeeps(m.pid, p, Img(w, id), ReplyTo(w, m.pid, m.choice), m.choice, w.next);
      }
    }
  }

  // ---- one image ----

  /** What rm makes of an image that nobody else works on. */
  function Pruned(img: Image, force: bool): Image {
    if img.holders != map[] || (!force && img.domain.Running?) then img
    else Cleared(img.(domain := Undefined))
  }

  ghost predicate MayKill(img: Image, force: bool) {
    force || !img.domain.Running?
  }

  /** The image without its lock table. */
  function Bare(img: Image): Image {
    img.(holders := map[])
  }

  /** How far rm --all is with an image img0 that nobody else holds. */
  ghost predicate AtWork(p: Proc, img0: Image, img: Image)
    requires p.cmd.RmAll?
  {
    img0.dir && match p.pc
      case Opening(at) => img == img0 && (at.LockVm? || at.Recheck? || at.Lookup?)
      case Deleting(at) => AtDeletion(at, p, img0, img)
      case _ => false
  }

  ghost predicate AtDeletion(at: DeleteStep, p: Proc, img0: Image, img: Image)
    requires p.cmd.RmAll?
  {
    match at
    case CheckBeforeKill => img == img0 && Exact(p.handle, img0.domain) && !p.cmd.force
    case CheckBeforeStop(_) => img == img0 && Exact(p.handle, img0.domain) && MayKill(img0, p.cmd.force)
    case Destroy(_) => img == img0 && Exact(p.handle, img0.domain) && img0.domain.Running? && p.cmd.force
    case Exists(_) =>
      && img == img0.(domain := Stopped(img0.domain))
      && Exact(p.handle, img0.domain) && MayKill(img0, p.cmd.force)
    case Undefine(_) =>
      && img == img0.(domain := Stopped(img0.domain)) && img.domain.Off?
      && Exact(p.handle, img0.domain) && MayKill(img0, p.cmd.force)
    case ClearCache => img == img0.(domain := Undefined) && MayKill(img0, p.cmd.force)
    case RemoveDir => Cleared(img) == Cleared(img0.(domain := Undefined)) && MayKill(img0, p.cmd.force)
    case Unlock(_) => img == Pruned(img0, p.cmd.force)
  }

  lemma OpeningWorksOn(at: OpenStep, pid: nat, p: Proc, img0: Image, img: Image, c: Choice, next: nat)
    requires p.cmd.RmAll? && p.pc == Opening(at) && at in {LockVm, Recheck, Lookup} && c.ok
    requires img0.holders == map[] && AtWork(p, img0, Bare(img))
    requires at.LockVm? ==> img.holders == map[]
    ensures var r := AnswerOpen(at, p, img, [], c);
      AtWork(GoOpen(at, p, r, next), img0, Bare(EffectOfOpen(at, pid, p, img, r, next)))
  {
  }

  lemma DeletingWorksOn(at: DeleteStep, p: Proc, img0: Image, img: Image, c: Choice)
    requires p.cmd.RmAll? && p.pc == Deleting(at) && c.ok && !at.Unlock? && Fits(p)
    requires img0.holders == map[] && AtWork(p, img0, Bare(img))
    ensures var r := AnswerDelete(at, p, img, c);
      AtWork(GoDelete(at, p, r), img0, Bare(EffectOfDelete(at, p, img, r, c)))
  {
    if at.ClearCache? {
      ClearingAgain(Bare(img), c);
    }
  }

  // ---- the loop ----

  predicate Working(p: Proc) {
    || (p.pc.Opening? && (p.pc.open.LockVm? || p.pc.open.Recheck? || p.pc.open.Lookup?))
    || p.pc.Deleting?
  }

  /** The listed names that rm --all has not looked at yet. */
  function Pending(p: Proc): seq<string> {
    if p.pc.Opening? && p.pc.open.Resolve? then [p.pc.open.key] + p.todo else p.todo
  }

  ghost predicate Distinct(names: seq<string>) {
    forall i, j | 0 <= i < j < |names| :: names[i] != names[j]
  }

  /** rm --all is somewhere in its loop. */
  ghost predicate InLoop(p: Proc) {
    && p.cmd.RmAll?
    && (p.pc == Opening(ReadCache) || (p.pc.Opening? && p.pc.open.Resolve?) || Working(p) || p.pc == Done(true))
    && (p.pc == Opening(ReadCache) || p.pc.Done? ==> p.todo == [])
    && Distinct(Pending(p)) && (forall n | n in Pending(p) :: |n| == ID_LENGTH)
    && (Working(p) ==> p.target !in Pending(p))
  }

  /** How far rm --all is with image id, which was img0 when it started and is img now. */
  ghost predicate Stage(p: Proc, id: ImageId, img0: Image, img: Image)
    requires p.cmd.RmAll?
  {
    if p.pc == Opening(ReadCache) then img == img0
    else if Working(p) && p.target == id then AtWork(p, img0, Bare(img))
    else if id in Pending(p) then img == img0 && img0.dir
    else img == if img0.dir then Pruned(img0, p.cmd.force) else img0
  }

  /** The lock table of image id: as it was at the start, but for the lock of process me. */
  ghost predicate TableKept(me: nat, p: Proc, id: ImageId, img0: Image, img: Image) {
    if p.lock.Some? && p.target == id then
      img0.holders == map[] && img.holders == map[p.lock.value := Holder(me, Exclusive)]
    else img.holders == img0.holders
  }

  ghost predicate Kept(me: nat, p: Proc, id: ImageId, img0: Image, img: Image)
    requires p.cmd.RmAll?
  {
    && TableKept(me, p, id, img0, img)
    && (img0.holders == map[] ==> Stage(p, id, img0, img))
  }

  ghost predicate Progressing(w0: World, w: World, me: nat) {
    && me in w0.procs && me in w.procs && InLoop(w.procs[me]) && w.procs[me].cmd == w0.procs[me].cmd
    && forall id :: Kept(me, w.procs[me], id, Img(w0, id), Img(w, id))
  }

  lemma {:induction false} DirNamesOfDirs(dirs: seq<string>, entries: seq<CacheNames.Entry>)
    requires |entries| == |dirs| && forall i | 0 <= i < |dirs| :: entries[i] == CacheNames.Entry(dirs[i], true)
    ensures DirNames(entries) == dirs
  {
    if dirs != [] {
      DirNamesOfDirs(dirs[1..], entries[1..]);
      assert dirs == [dirs[0]] + dirs[1..];
    }
  }

  lemma SortedIsDistinct(names: seq<string>)
    requires Sorted(names)
    ensures Distinct(names)
  {
    forall i, j | 0 <= i < j < |names| ensures names[i] != names[j] {
      assert Before(names[i], names[j]);
      BeforeIsTotalOrder(names[i], names[j], names[j]);
    }
  }

  // ---- a call of rm --all ----

  lemma FirstName(p: Proc, names: seq<string>, ok: bool)
    requires p.cmd.RmAll? && p.lock.None? && Distinct(names) && forall n | n in names :: |n| == ID_LENGTH
    ensures var p' := EndItem(p.(todo := names), ok);
      && InLoop(p') && !Working(p') && Pending(p') == names
      && p'.lock.None? && p'.cmd == p.cmd && p'.pc != Opening(ReadCache)
  {
    var p' := EndItem(p.(todo := names), ok);
    if names != [] {
      assert names == [names[0]] + names[1..];
    }
    assert Pending(p') == names;
  }

  /** The names still to come are distinct and full ids. */
  lemma TodoIsFine(p: Proc)
    requires InLoop(p)
    ensures Distinct(p.todo) && forall n | n in p.todo :: |n| == ID_LENGTH
  {
    if p.pc.Opening? && p.pc.open.Resolve? {
      assert forall i | 0 <= i < |p.todo| :: p.todo[i] == Pending(p)[i + 1];
    }
  }

  /** Moving on to the next name. */
  lemma NextName(p: Proc, ok: bool)
    requires p.cmd.RmAll? && p.lock.None? && Distinct(p.todo) && forall n | n in p.todo :: |n| == ID_LENGTH
    ensures var p' := EndItem(p, ok);
      && InLoop(p') && !Working(p') && Pending(p') == p.todo
      && p'.lock.None? && p'.cmd == p.cmd && p'.pc != Opening(ReadCache)
  {
    FirstName(p, p.todo, ok);
    assert p.(todo := p.todo) == p;
  }

  /** Reading the listing. */
  lemma ListingStarts(w: World, me: nat, c: Choice)
    requires Inv(w) && me in w.procs && w.procs[me].pc == Opening(ReadCache) && c.ok
    ensures Distinct(w.dirs) && (forall n | n in w.dirs :: |n| == ID_LENGTH)
    ensures ProcAfter(w, me, c) == EndItem(w.procs[me].(todo := w.dirs), true)
  {
    DirNamesOfDirs(w.dirs, Entries(w));
    SortedIsDistinct(w.dirs);
    var p := w.procs[me];
    assert Answer(p, Img(w, p.target), Entries(w), c) == Names(Entries(w));
    assert GoOpen(ReadCache, p, Names(Entries(w)), w.next) == EndItem(p.(todo := w.dirs), true);
  }

  /** Resolving a name of the listing: it is still there, or it has gone. */
  lemma NameResolves(w: World, me: nat, c: Choice)
    requires Inv(w) && me in w.procs && InLoop(w.procs[me]) && c.ok
    requires w.procs[me].pc.Opening? && w.procs[me].pc.open.Resolve? && w.procs[me].lock.None?
    ensures var p, p' := w.procs[me], ProcAfter(w, me, c); var key := p.pc.open.key;
      p' == if Img(w, key).dir then p.(target := key, pc := Opening(LockVm)) else EndItem(p, false)
  {
    var key := w.procs[me].pc.open.key;
    assert key == Pending(w.procs[me])[0];
    FullIdResolvesToItself(Entries(w), key);
    if key in w.dirs {
      var i :| 0 <= i < |w.dirs| && w.dirs[i] == key;
      assert Entries(w)[i] == CacheNames.Entry(key, true);
    }
  }

  /** A call that does not concern image id. */
  lemma ElsewhereIsKept(me: nat, p: Proc, p': Proc, id: ImageId, img0: Image, img: Image)
    requires p.cmd.RmAll? && p'.cmd == p.cmd && Kept(me, p, id, img0, img)
    requires p.pc != Opening(ReadCache) && p'.pc != Opening(ReadCache)
    requires (Working(p) || p.lock.Some?) ==> p.target != id
    requires (Working(p') || p'.lock.Some?) ==> p'.target != id
    requires id in Pending(p') <==> id in Pending(p)
    ensures Kept(me, p', id, img0, img)
  {
  }

  /** A call of lockVM or NewVM. */
  lemma OpeningIsKept(at: OpenStep, me: nat, p: Proc, img0: Image, img: Image, c: Choice, next: nat)
    requires InLoop(p) && Working(p) && Kept(me, p, p.target, img0, img) && c.ok && HolderOk(me, p, img)
    requires img0.holders == map[] && p.pc == Opening(at)
    ensures var r := AnswerOpen(at, p, img, [], c); var p' := GoOpen(at, p, r, next);
      && Kept(me, p', p.target, img0, EffectOfOpen(at, me, p, img, r, next))
      && InLoop(p') && Working(p') && p'.target == p.target && p'.cmd == p.cmd && p'.todo == p.todo
  {
    OpeningWorksOn(at, me, p, img0, img, c, next);
  }

  /** A call of killVM or forceKillVM. */
  lemma DeletingIsKept(at: DeleteStep, me: nat, p: Proc, img0: Image, img: Image, c: Choice)
    requires InLoop(p) && Kept(me, p, p.target, img0, img) && c.ok && Fits(p) && HolderOk(me, p, img)
    requires img0.holders == map[] && p.pc == Deleting(at) && !at.Unlock?
    ensures var r := AnswerDelete(at, p, img, c); var p' := GoDelete(at, p, r);
      && Kept(me, p', p.target, img0, EffectOfDelete(at, p, img, r, c))
      && InLoop(p') && Working(p') && p'.target == p.target && p'.cmd == p.cmd && p'.todo == p.todo
  {
    DeletingWorksOn(at, p, img0, img, c);
  }

  /** The lock of an image that others hold is not free. */
  lemma HeldIsSkipped(me: nat, p: Proc, img0: Image, img: Image, c: Choice, next: nat)
    requires InLoop(p) && Working(p) && Kept(me, p, p.target, img0, img) && c.ok && HolderOk(me, p, img)
    requires img0.holders != map[]
    ensures p.pc == Opening(LockVm)
    ensures var r := Answer(p, img, [], c); Go(p, r, next) == EndItem(p, false) && Effect(me, p, img, r, c, next) == img
  {
  }

  /** Giving the lock back: the image is what rm makes of it, and rm goes on. */
  lemma UnlockIsKept(me: nat, p: Proc, p': Proc, img0: Image, img: Image)
    requires InLoop(p) && Kept(me, p, p.target, img0, img) && p.lock.Some? && p'.cmd == p.cmd
    requires p.pc.Deleting? && p.pc.delete.Unlock?
    requires !Working(p') && Pending(p') == p.todo && p'.lock.None? && p'.pc != Opening(ReadCache)
    ensures Kept(me, p', p.target, img0, Release(img, p.lock))
  {
    assert Release(img, p.lock).holders == map[];
    assert Release(img, p.lock) == Bare(img);
  }

  /** Progressing, and the command has just made a call. */
  ghost predicate CallIsKept(w0: World, w: World, me: nat, c: Choice)
    requires me in w.procs
  {
    && InLoop(ProcAfter(w, me, c)) && ProcAfter(w, me, c).cmd == w.procs[me].cmd
    && forall id :: Kept(me, ProcAfter(w, me, c), id, Img(w0, id), Img(Apply(w, Act(me, c)), id))
  }

  lemma ReadingIsKept(w0: World, w: World, me: nat, c: Choice)
    requires Inv(w) && Progressing(w0, w, me) && c.ok && w.procs[me].pc == Opening(ReadCache)
    ensures CallIsKept(w0, w, me, c)
  {
    var p := w.procs[me];
    Safety.LocalFacts(w, me);
    ListingStarts(w, me, c);
    FirstName(p, w.dirs, true);
    forall id ensures Kept(me, ProcAfter(w, me, c), id, Img(w0, id), Img(Apply(w, Act(me, c)), id)) {
      Safety.ImageAfterMove(w, Act(me, c), id);
      assert Kept(me, p, id, Img(w0, id), Img(w, id));
    }
  }

  /** The process after a name is resolved. */
  function Resolved(p: Proc, key: string, found: bool): Proc {
    if found then p.(target := key, pc := Opening(LockVm)) else EndItem(p, false)
  }

  lemma ResolvedInLoop(p: Proc, key: string, found: bool)
    requires InLoop(p) && p.pc == Opening(Resolve(key)) && p.lock.None?
    ensures InLoop(Resolved(p, key, found)) && Pending(Resolved(p, key, found)) == p.todo
    ensures key !in p.todo
  {
    TodoIsFine(p);
    NextName(p, false);
    assert key == Pending(p)[0] && forall i | 0 <= i < |p.todo| :: p.todo[i] == Pending(p)[i + 1];
  }

  lemma ResolvedIsKept(me: nat, p: Proc, key: string, found: bool, id: ImageId, img0: Image, img: Image)
    requires InLoop(p) && p.pc == Opening(Resolve(key)) && p.lock.None? && Kept(me, p, id, img0, img)
    requires id == key ==> found == img.dir
    ensures Kept(me, Resolved(p, key, found), id, img0, img)
  {
    ResolvedInLoop(p, key, found);
    TodoIsFine(p);
    NextName(p, false);
    if id != key {
      ElsewhereIsKept(me, p, Resolved(p, key, found), id, img0, img);
    }
  }

  lemma ResolvingIsKept(w0: World, w: World, me: nat, c: Choice)
    requires Inv(w) && Progressing(w0, w, me) && c.ok && w.procs[me].pc.Opening? && w.procs[me].pc.open.Resolve?
    ensures CallIsKept(w0, w, me, c)
  {
    var p, key := w.procs[me], w.procs[me].pc.open.key;
    Safety.LocalFacts(w, me);
    NameResolves(w, me, c);
    ResolvedInLoop(p, key, Img(w, key).dir);
    forall id ensures Kept(me, ProcAfter(w, me, c), id, Img(w0, id), Img(Apply(w, Act(me, c)), id)) {
      Safety.ImageAfterMove(w, Act(me, c), id);
      ResolvedIsKept(me, p, key, Img(w, key).dir, id, Img(w0, id), Img(w, id));
    }
  }

  lemma WorkingIsKept(w0: World, w: World, me: nat, c: Choice)
    requires Inv(w) && Progressing(w0, w, me) && c.ok && Working(w.procs[me])
    ensures CallIsKept(w0, w, me, c)
  {
    var p, p' := w.procs[me], ProcAfter(w, me, c);
    var img0, img := Img(w0, p.target), Img(w, p.target);
    Safety.LocalFacts(w, me);
    assert Kept(me, p, p.target, img0, img);
    WorkOnTarget(me, p, img0, img, Entries(w), c, w.next);
    forall id ensures Kept(me, p', id, Img(w0, id), Img(Apply(w, Act(me, c)), id)) {
      Safety.ImageAfterMove(w, Act(me, c), id);
      assert Kept(me, p, id, Img(w0, id), Img(w, id));
      if id != p.target {
        ElsewhereIsKept(me, p, p', id, Img(w0, id), Img(w, id));
      }
    }
  }

  lemma WorkOnTarget(me: nat, p: Proc, img0: Image, img: Image, es: seq<CacheNames.Entry>, c: Choice, next: nat)
    requires InLoop(p) && Working(p) && Kept(me, p, p.target, img0, img) && c.ok && Fits(p) && HolderOk(me, p, img)
    ensures var r := Answer(p, img, es, c); var p' := Go(p, r, next);
      && Kept(me, p', p.target, img0, Effect(me, p, img, r, c, next)) && InLoop(p')
      && p'.cmd == p.cmd && (Working(p') || p'.lock.Some? ==> p'.target == p.target)
      && Pending(p') == p.todo && p'.pc != Opening(ReadCache)
  {
    WorkIgnoresListing(p, img, es, c);
    if img0.holders != map[] {
      HeldIsSkipped(me, p, img0, img, c, next);
      TodoIsFine(p);
      NextName(p, false);
    } else if p.pc.Opening? {
      OpeningIsKept(p.pc.open, me, p, img0, img, c, next);
    } else if p.pc.delete.Unlock? {
      TodoIsFine(p);
      NextName(GiveBack(p), p.pc.delete.ok);
      UnlockIsKept(me, p, EndItem(GiveBack(p), p.pc.delete.ok), img0, img);
    } else {
      DeletingIsKept(p.pc.delete, me, p, img0, img, c);
    }
  }

  // ---- the run ----

  lemma OwnCallProgresses(w0: World, w: World, me: nat, c: Choice)
    requires Inv(w) && Active(w, me) && Progressing(w0, w, me) && c.ok
    ensures Progressing(w0, Apply(w, Act(me, c)), me)
  {
    var p := w.procs[me];
    if p.pc == Opening(ReadCache) {
      ReadingIsKept(w0, w, me, c);
    } else if Working(p) {
      WorkingIsKept(w0, w, me, c);
    } else {
      ResolvingIsKept(w0, w, me, c);
    }
    assert Apply(w, Act(me, c)).procs[me] == ProcAfter(w, me, c);
  }

  /** What others hold they may change, but neither its lock table nor anything else. */
  lemma OtherMoveIsKept(me: nat, p: Proc, id: ImageId, img0: Image, img: Image, img': Image)
    requires p.cmd.RmAll? && Kept(me, p, id, img0, img) && img'.holders == img.holders
    requires img' == img || HeldByOthers(img, me)
    ensures Kept(me, p, id, img0, img')
  {
  }

  lemma CalmMoveProgresses(w0: World, w: World, m: Move, me: nat)
    requires Inv(w) && Progressing(w0, w, me) && CalmMove(w, m, me)
    ensures Progressing(w0, Apply(w, m), me)
  {
    if m.Act? && m.pid == me {
      if Active(w, me) {
        OwnCallProgresses(w0, w, me, m.choice);
      }
    } else {
      Safety.OthersKeepProcess(w, m, me);
      forall id ensures Kept(me, w.procs[me], id, Img(w0, id), Img(Apply(w, m), id)) {
        if Img(Apply(w, m), id) != Img(w, id) {
          OthersChangeWhatTheyHold(w, m, me, id);
        }
        OtherMoveIsKept(me, w.procs[me], id, Img(w0, id), Img(w, id), Img(Apply(w, m), id));
      }
    }
  }

  lemma Begins(w0: World, me: nat, force: bool)
    requires Inv(w0) && me in w0.procs && w0.procs[me] == Initial(RmAll(force))
    ensures Progressing(w0, w0, me)
  {
  }

  lemma {:induction false} CalmRunProgresses(w0: World, moves: seq<Move>, me: nat, force: bool)
    requires Inv(w0) && me in w0.procs && w0.procs[me] == Initial(RmAll(force)) && CalmRun(w0, moves, me)
    ensures Progressing(w0, Exec(w0, moves), me)
    decreases |moves|
  {
    if moves == [] {
      Begins(w0, me, force);
    } else {
      var rest := moves[..|moves| - 1];
      CalmRunProgresses(w0, rest, me, force);
      RunKeepsInv(w0, rest);
      CalmMoveProgresses(w0, Exec(w0, rest), moves[|moves| - 1], me);
    }
  }

  // ---- what it comes to ----

  /** Images that nobody else held are pruned, or were no installations; the lock tables are
      as they were. */
  ghost predicate PruneAllOutcome(w: World, w': World, force: bool) {
    && (forall id | Img(w, id).holders == map[] ::
          Img(w', id) == if Img(w, id).dir then Pruned(Img(w, id), force) else Img(w, id))
    && (forall id :: Img(w', id).holders == Img(w, id).holders)
  }

  /** rm --all has returned after a calm run. */
  ghost predicate PrunedCalmly(w0: World, moves: seq<Move>, me: nat, force: bool) {
    && me in w0.procs && w0.procs[me] == Initial(RmAll(force)) && CalmRun(w0, moves, me)
    && me in Exec(w0, moves).procs && Finished(Exec(w0, moves).procs[me].pc)
  }

  lemma PruneAllIsExact(w0: World, moves: seq<Move>, me: nat, force: bool)
    requires Inv(w0) && PrunedCalmly(w0, moves, me, force)
    ensures Exec(w0, moves).procs[me].pc == Done(true)
    ensures PruneAllOutcome(w0, Exec(w0, moves), force)
  {
    var w := Exec(w0, moves);
    CalmRunProgresses(w0, moves, me, force);
    RunKeepsInv(w0, moves);
    Safety.LocalFacts(w, me);
    forall id ensures Kept(me, w.procs[me], id, Img(w0, id), Img(w, id)) {
    }
  }

  lemma LoopSparesHeld(me: nat, p: Proc, img0: Image, img: Image, r: Reply, c: Choice, next: nat)
    requires InLoop(p) && Kept(me, p, p.target, img0, img) && HolderOk(me, p, img) && img0.holders != map[]
    requires c.ok && (Working(p) ==> r == Answer(p, img, [], c))
    ensures Effect(me, p, img, r, c, next) == img
  {
    if Working(p) {
      HeldIsSkipped(me, p, img0, img, c, next);
    }
  }

  lemma WorkIgnoresListing(p: Proc, img: Image, es: seq<CacheNames.Entry>, c: Choice)
    requires Working(p)
    ensures Answer(p, img, es, c) == Answer(p, img, [], c)
  {
  }

  lemma OwnCallSparesHeld(w0: World, w: World, me: nat, c: Choice, id: ImageId)
    requires Inv(w) && Active(w, me) && Progressing(w0, w, me) && c.ok && Img(w0, id).holders != map[]
    ensures Img(Apply(w, Act(me, c)), id) == Img(w, id)
  {
    var p := w.procs[me];
    Safety.ImageAfterMove(w, Act(me, c), id);
    if p.target == id {
      Safety.LocalFacts(w, me);
      assert Kept(me, p, id, Img(w0, id), Img(w, id));
      if Working(p) {
        WorkIgnoresListing(p, Img(w, id), Entries(w), c);
      }
      LoopSparesHeld(me, p, Img(w0, id), Img(w, id), ReplyTo(w, me, c), c, w.next);
    }
  }

  /** While rm --all goes round, an image that others held from the start is changed by its
      holders only, never by rm --all. */
  lemma HeldImagesAreTheirHolders(w0: World, moves: seq<Move>, m: Move, me: nat, force: bool, id: ImageId)
    requires Inv(w0) && me in w0.procs && w0.procs[me] == Initial(RmAll(force))
    requires CalmRun(w0, moves, me) && CalmMove(Exec(w0, moves), m, me) && Img(w0, id).holders != map[]
    requires Img(Apply(Exec(w0, moves), m), id) != Img(Exec(w0, moves), id)
    ensures m.Act? && m.pid != me && m.pid in Exec(w0, moves).procs
    ensures var lock := Exec(w0, moves).procs[m.pid].lock;
      lock.Some? && lock.value in Img(w0, id).holders && Img(w0, id).holders[lock.value].pid == m.pid
  {
    var w := Exec(w0, moves);
    CalmRunProgresses(w0, moves, me, force);
    RunKeepsInv(w0, moves);
    assert Kept(me, w.procs[me], id, Img(w0, id), Img(w, id));
    if m.Act? && m.pid == me {
      if Active(w, me) {
        OwnCallSparesHeld(w0, w, me, m.choice, id);
      }
    } else {
      OthersChangeWhatTheyHold(w, m, me, id);
    }
  }

  ghost predicate HeldShared(img: Image) {
    img.holders != map[] && forall i | i in img.holders :: img.holders[i].mode == Shared
  }

  lemma HolderIsPolite(w: World, pid: nat, c: Choice)
    requires Inv(w) && Active(w, pid) && HeldShared(Img(w, w.procs[pid].target)) && w.procs[pid].lock.Some?
    ensures ImageAfter(w, pid, c).dir == Img(w, w.procs[pid].target).dir
    ensures ImageAfter(w, pid, c).disk == Img(w, w.procs[pid].target).disk
  {
    var p := w.procs[pid];
    Safety.LocalFacts(w, pid);
    StepIsPolite(pid, p, Img(w, p.target), Entries(w), c, w.next);
  }

  /** An image that others use all the time, as ssh sessions do, keeps directory and disk. */
  lemma {:induction false} SharedImagesKeepTheirDisk(w0: World, moves: seq<Move>, me: nat, force: bool, id: ImageId)
    requires Inv(w0) && me in w0.procs && w0.procs[me] == Initial(RmAll(force)) && CalmRun(w0, moves, me)
    requires HeldShared(Img(w0, id))
    ensures Img(Exec(w0, moves), id).holders == Img(w0, id).holders
    ensures Img(Exec(w0, moves), id).dir == Img(w0, id).dir && Img(Exec(w0, moves), id).disk == Img(w0, id).disk
    decreases |moves|
  {
    if moves != [] {
      var rest, m := moves[..|moves| - 1], moves[|moves| - 1];
      var w := Exec(w0, rest);
      SharedImagesKeepTheirDisk(w0, rest, me, force, id);
      RunKeepsInv(w0, rest);
      if Img(Apply(w, m), id) != Img(w, id) {
        HeldImagesAreTheirHolders(w0, rest, m, me, force, id);
        OthersChangeWhatTheyHold(w, m, me, id);
        HolderIsPolite(w, m.pid, m.choice);
        Safety.ImageAfterMove(w, m, id);
      }
      CalmRunProgresses(w0, moves, me, force);
      assert Kept(me, Exec(w0, moves).procs[me], id, Img(w0, id), Img(Exec(w0, moves), id));
    }
  }

  /** The directories that survive a calm rm --all are exactly those that others use and,
      without -f, those of running guests.  Nothing of the latter has changed, and of the
      others neither directory nor disk; of the rest, neither disk nor domain is left. */
  lemma SurvivorsOfPruneAll(w0: World, moves: seq<Move>, me: nat, force: bool, id: ImageId)
    requires Inv(w0) && PrunedCalmly(w0, moves, me, force)
    requires Img(w0, id).holders == map[] || HeldShared(Img(w0, id))
    ensures var w := Exec(w0, moves); var held := Img(w0, id).holders != map[];
      && (id in w.dirs <==> id in w0.dirs && (held || (!force && Img(w0, id).domain.Running?)))
      && (id in w.dirs && !held ==> Img(w, id) == Img(w0, id))
      && (id in w.dirs ==> Img(w, id).disk == Img(w0, id).disk)
      && (id in w0.dirs && id !in w.dirs ==> Img(w, id).domain.Undefined? && Img(w, id).disk.None?)
  {
    PruneAllIsExact(w0, moves, me, force);
    RunKeepsInv(w0, moves);
    assert DirsOk(w0) && DirsOk(Exec(w0, moves));
    if HeldShared(Img(w0, id)) {
      SharedImagesKeepTheirDisk(w0, moves, me, force, id);
    }
  }

  /** A run in which nobody else moves and no call fails is calm. */
  lemma {:induction false} AloneIsCalm(w: World, moves: seq<Move>, me: nat)
    requires forall k | 0 <= k < |moves| :: moves[k].Act? && moves[k].pid == me && moves[k].choice.ok
    ensures CalmRun(w, moves, me)
    decreases |moves|
  {
    if moves != [] {
      AloneIsCalm(w, moves[..|moves| - 1], me);
    }
  }
}
