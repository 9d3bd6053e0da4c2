/** Runs of the system that show what the tool does not rule out: a disk that holds another image
    than its digest says, a run that stops the guest of another run, and two runs that leave a
    guest without a persistent definition, which is the one case that Safety.HandleStaysExact
    excludes. */
module Scenarios {
  import opened Common
  import opened CacheNames
  import opened Protocol
  import opened Invariant
  import opened Safety
  import Size = DiskSize

  const OK := Choice(true, false, {}, false, None)
  const FAIL := OK.(ok := false)

  /** By now the name given to run denotes image other. */
  function Retagged(other: ImageId): Choice {
    OK.(retagged := Some(other))
  }

  function Background(id: ImageId): Command {
    Run(id, 0, Size.Default, false, true, false)
  }

  /** A run and what it leads to. */
  datatype Trace = Trace(moves: seq<Move>, img: Image, procs: map<nat, Proc>, next: nat)

  ghost predicate Leads(t: Trace, id: ImageId) {
    var w := Exec(START, t.moves);
    |id| == ID_LENGTH && Img(w, id) == t.img && w.procs == t.procs && w.next == t.next
  }

  lemma Launched(t: Trace, id: ImageId, pid: nat, cmd: Command) returns (t': Trace)
    requires Leads(t, id) && pid !in t.procs && WellFormed(cmd)
    ensures Leads(t', id) && t' == t.(moves := t'.moves, procs := t.procs[pid := Initial(cmd)])
  {
    t' := t.(moves := t.moves + [Launch(pid, cmd)], procs := t.procs[pid := Initial(cmd)]);
    assert t'.moves[..|t.moves|] == t.moves;
  }

  /** The reply to a call, where it does not depend on other images. */
  ghost predicate Replied(r: Reply, p: Proc, img: Image, c: Choice) {
    if p.pc.Opening? && p.pc.open.Resolve? then r.Names? && LastMatch(r.entries, p.target) == Some(p.target)
    else r == Answer(p, img, [], c)
  }

  lemma ReplyIsKnown(w: World, pid: nat, c: Choice)
    requires Inv(w) && pid in w.procs && w.procs[pid].pc != Opening(ReadCache)
    requires w.procs[pid].pc.Opening? && w.procs[pid].pc.open.Resolve? ==>
      var id := w.procs[pid].target; c.ok && w.procs[pid].pc.open.key == id && |id| == ID_LENGTH && Img(w, id).dir
    ensures Replied(ReplyTo(w, pid, c), w.procs[pid], Img(w, w.procs[pid].target), c)
  {
    var id := w.procs[pid].target;
    if w.procs[pid].pc.Opening? && w.procs[pid].pc.open.Resolve? {
      var k :| 0 <= k < |w.dirs| && w.dirs[k] == id;
      assert Entries(w)[k] == CacheNames.Entry(id, true);
      FullIdResolvesToItself(Entries(w), id);
    }
  }

  /** Process pid makes its next call on the image. */
  lemma Step(t: Trace, id: ImageId, pid: nat, c: Choice) returns (t': Trace, r: Reply)
    requires Leads(t, id) && pid in t.procs && !Finished(t.procs[pid].pc) && t.procs[pid].target == id
    requires t.procs[pid].pc != Opening(ReadCache)
    requires t.procs[pid].pc.Opening? && t.procs[pid].pc.open.Resolve? ==>
      c.ok && t.procs[pid].pc.open.key == id && t.img.dir
    ensures Leads(t', id) && Replied(r, t.procs[pid], t.img, c)
    ensures t'.img == Effect(pid, t.procs[pid], t.img, r, c, t.next)
    ensures t'.procs == t.procs[pid := Go(t.procs[pid], r, t.next)] && t'.next == t.next + 1
  {
    var w := Exec(START, t.moves);
    r := ReplyTo(w, pid, c);
    t' := Trace(t.moves + [Act(pid, c)], ImageAfter(w, pid, c), t.procs[pid := ProcAfter(w, pid, c)], t.next + 1);
    assert t'.moves[..|t.moves|] == t.moves;
    ReachableIsOk(t.moves);
    ReplyIsKnown(w, pid, c);
  }

  lemma StepInstall(t: Trace, id: ImageId, pid: nat, c: Choice) returns (t': Trace)
    requires Leads(t, id) && pid in t.procs && t.procs[pid].pc.Installing? && t.procs[pid].target == id
    ensures Leads(t', id) && t'.next == t.next + 1
    ensures var p := t.procs[pid]; var r := AnswerInstall(p.pc.install, p, t.img, c);
      && t'.img == EffectOfInstall(p.pc.install, pid, p, t.img, r, c, t.next)
      && t'.procs == t.procs[pid := GoInstall(p.pc.install, p, r, t.next)]
  {
    var r: Reply;
    t', r := Step(t, id, pid, c);
  }

  lemma StepUse(t: Trace, id: ImageId, pid: nat, c: Choice) returns (t': Trace)
    requires Leads(t, id) && pid in t.procs && t.procs[pid].pc.Using? && t.procs[pid].target == id
    ensures Leads(t', id) && t'.next == t.next + 1
    ensures var p := t.procs[pid]; var r := AnswerUse(p.pc.use, p, t.img, c);
      t'.img == EffectOfUse(p.pc.use, p, t.img, r, t.next) && t'.procs == t.procs[pid := GoUse(p.pc.use, p, r, t.next)]
  {
    var r: Reply;
    t', r := Step(t, id, pid, c);
  }

  lemma StepDelete(t: Trace, id: ImageId, pid: nat, c: Choice) returns (t': Trace)
    requires Leads(t, id) && pid in t.procs && t.procs[pid].pc.Deleting? && t.procs[pid].target == id
    ensures Leads(t', id) && t'.next == t.next + 1
    ensures var p := t.procs[pid]; var r := AnswerDelete(p.pc.delete, p, t.img, c);
      t'.img == EffectOfDelete(p.pc.delete, p, t.img, r, c) && t'.procs == t.procs[pid := GoDelete(p.pc.delete, p, r)]
  {
    var r: Reply;
    t', r := Step(t, id, pid, c);
  }

  /** run begins, with the podman image at hand. */
  lemma Pulled(t: Trace, id: ImageId, pid: nat) returns (t': Trace)
    requires Leads(t, id) && pid in t.procs && t.procs[pid] == Initial(Background(id))
    ensures Leads(t', id)
    ensures t' == t.(moves := t'.moves, procs := t.procs[pid := Asked(id, Installing(LockInstall))], next := t.next + 1)
  {
    t' := Trace(t.moves + [Act(pid, OK)], t.img, t.procs[pid := Asked(id, Installing(LockInstall))], t.next + 1);
    assert t'.moves[..|t.moves|] == t.moves;
  }

  function Asked(id: ImageId, pc: PC): Proc {
    Initial(Background(id)).(target := id, pc := pc)
  }

  /** The first run is filling its temporary disk. */
  ghost predicate Filling(t: Trace, id: ImageId, at: InstallStep) {
    && Leads(t, id) && t.procs.Keys == {0}
    && t.procs[0].(temp := 0) == Asked(id, Installing(at)).(lock := Some(1), acquired := [1])
    && t.img.holders == map[1 := Holder(0, Exclusive)] && t.img.domain.Undefined? && t.procs[0].temp in t.img.temps
  }

  lemma FirstBegins(id: ImageId) returns (t: Trace)
    requires |id| == ID_LENGTH
    ensures Filling(t, id, Truncate)
  {
    t := Launched(Trace([], NO_IMAGE, map[], 0), id, 0, Background(id));
    t := Pulled(t, id, 0);
    t := StepInstall(t, id, 0, OK);
    assert t.procs[0].pc == Installing(MakeDir);
    t := StepInstall(t, id, 0, OK);
    assert t.procs[0].pc == Installing(OpenDisk);
    t := StepInstall(t, id, 0, OK);
    assert t.procs[0].pc == Installing(CreateTemp);
    t := StepInstall(t, id, 0, OK);
  }

  lemma FirstSizes(t: Trace, id: ImageId) returns (t': Trace)
    requires Filling(t, id, Truncate)
    ensures Filling(t', id, Build)
  {
    assert Size.FinalSize(0, Size.Default) == Some(Size.MINIMUM);
    t' := StepInstall(t, id, 0, OK);
  }

  lemma FirstBuilds(t: Trace, id: ImageId, built: ImageId) returns (t': Trace)
    requires Filling(t, id, Build)
    ensures Filling(t', id, Rename) && t'.img.temps[t'.procs[0].temp].content == Complete(built)
  {
    t' := StepInstall(t, id, 0, Retagged(built));
    assert Filling(t', id, WriteMeta);
    t' := StepInstall(t', id, 0, OK);
  }

  /** It publishes its disk, built from image built, and gives back the Exclusive lock. */
  lemma FirstInstalls(id: ImageId, built: ImageId) returns (t: Trace)
    requires |id| == ID_LENGTH
    ensures Leads(t, id) && t.procs.Keys == {0}
    ensures t.procs[0].(temp := 0) == Asked(id, Opening(FreePort)).(acquired := [1], released := [1])
    ensures t.img.holders == map[] && t.img.domain.Undefined?
    ensures t.img.disk.Some? && t.img.disk.value.content == Complete(built)
  {
    t := FirstBegins(id);
    t := FirstSizes(t, id);
    t := FirstBuilds(t, id, built);
    t := StepInstall(t, id, 0, OK);
    assert t.procs[0].pc == Installing(UnlockInstall(true));
    t := StepInstall(t, id, 0, OK);
  }

  /** Process pid, a run, has installed and is about to open its VM. */
  ghost predicate Between(t: Trace, id: ImageId, pid: nat) {
    pid in t.procs && t.procs[pid].cmd == Background(id) && t.procs[pid].target == id
    && t.procs[pid].pc == Opening(FreePort) && t.procs[pid].lock.None?
  }

  /** A second run locks the directory and finds the disk. */
  lemma SecondLooks(t: Trace, id: ImageId) returns (t': Trace)
    requires Leads(t, id) && t.procs.Keys == {0} && t.img.holders == map[] && t.img.disk.Some?
    ensures Leads(t', id) && t'.procs.Keys == {0, 1} && t'.procs[0] == t.procs[0]
    ensures t'.procs[1].cmd == Background(id) && t'.procs[1].target == id && t'.procs[1].pc == Installing(ReadMeta)
    ensures t'.procs[1].lock.Some? && t'.img.holders == map[t'.procs[1].lock.value := Holder(1, Exclusive)]
    ensures t'.img.domain == t.img.domain && t'.img.disk == t.img.disk
  {
    t' := Launched(t, id, 1, Background(id));
    t' := Pulled(t', id, 1);
    t' := StepInstall(t', id, 1, OK);
    assert t'.procs[1].pc == Installing(MakeDir);
    t' := StepInstall(t', id, 1, OK);
    t' := StepInstall(t', id, 1, OK);
  }

  lemma PublishedIsHonest(t: Trace, id: ImageId)
    requires Leads(t, id) && t.img.disk.Some?
    ensures t.img.dir && t.img.disk.value.meta == Some(Digest(id))
  {
    ReachableIsOk(t.moves);
    ImageFacts(Exec(START, t.moves), id);
  }

  /** It keeps the disk. */
  lemma SecondReuses(t: Trace, id: ImageId) returns (t': Trace)
    requires Leads(t, id) && t.procs.Keys == {0} && Between(t, id, 0)
    requires t.img.holders == map[] && t.img.domain.Undefined? && t.img.disk.Some?
    ensures Leads(t', id) && t'.procs.Keys == {0, 1} && Between(t', id, 0) && Between(t', id, 1)
    ensures t'.img.holders == map[] && t'.img.domain.Undefined? && t'.img.disk == t.img.disk && t'.img.dir
  {
    t' := SecondLooks(t, id);
    PublishedIsHonest(t', id);
    t' := StepInstall(t', id, 1, OK);
    assert t'.procs[1].pc == Installing(UnlockInstall(true));
    t' := StepInstall(t', id, 1, OK);
  }

  lemma InstancesAreOld(t: Trace, id: ImageId)
    requires Leads(t, id)
    ensures forall i | i in t.img.holders :: i < t.next
  {
    ReachableIsOk(t.moves);
    ImageFacts(Exec(START, t.moves), id);
  }

  /** A run locks its VM, beside others that hold it Shared. */
  lemma Locks(t: Trace, id: ImageId, pid: nat) returns (t': Trace)
    requires Leads(t, id) && Between(t, id, pid) && CanLock(t.img.holders, Shared) && t.img.dir
    ensures Leads(t', id) && t'.img == t.img.(holders := t'.img.holders) && CanLock(t'.img.holders, Shared)
    ensures pid in t'.procs && t'.procs == t.procs[pid := t'.procs[pid]]
    ensures t'.procs[pid].cmd == Background(id) && t'.procs[pid].target == id && t'.procs[pid].pc == Opening(Recheck)
    ensures t'.procs[pid].lock.Some? && t'.procs[pid].lock.value !in t.img.holders
    ensures t'.img.holders == t.img.holders[t'.procs[pid].lock.value := Holder(pid, Shared)]
  {
    var r: Reply;
    InstancesAreOld(t, id);
    t', r := Step(t, id, pid, OK);
    t', r := Step(t', id, pid, OK);
    assert t'.procs[pid].pc == Opening(LockVm);
    t', r := Step(t', id, pid, OK);
  }

  /** It looks its domain up and makes its keys. */
  lemma Enters(t: Trace, id: ImageId, pid: nat) returns (t': Trace)
    requires Leads(t, id) && Between(t, id, pid) && CanLock(t.img.holders, Shared) && t.img.dir
    ensures Leads(t', id) && t'.img == t.img.(holders := t'.img.holders) && CanLock(t'.img.holders, Shared)
    ensures pid in t'.procs && t'.procs == t.procs[pid := t'.procs[pid]]
    ensures var p := t'.procs[pid];
      && p.cmd == Background(id) && p.target == id && p.lock.Some? && p.lock.value !in t.img.holders
      && p.handle == (if t.img.domain.Undefined? then None else Some(t.img.domain.uuid))
      && p.pc == Using(if t.img.domain.Undefined? then Define else CheckBeforeRun)
      && t'.img.holders == t.img.holders[p.lock.value := Holder(pid, Shared)]
  {
    var r: Reply;
    t' := Locks(t, id, pid);
    t', r := Step(t', id, pid, OK);
    t', r := Step(t', id, pid, OK);
    assert t'.procs[pid].pc == Using(GenerateKeys);
    t' := StepUse(t', id, pid, OK);
  }

  /** Process pid has its VM open and is about to make call pc. */
  ghost predicate At(t: Trace, id: ImageId, pid: nat, pc: PC) {
    pid in t.procs && t.procs[pid].cmd == Background(id) && t.procs[pid].target == id && t.procs[pid].pc == pc
    && t.procs[pid].lock.Some?
  }

  /** Both runs have the VM open; nobody else does. */
  ghost predicate Both(t: Trace, id: ImageId, first: PC, second: PC) {
    && Leads(t, id) && t.procs.Keys == {0, 1} && At(t, id, 0, first) && At(t, id, 1, second)
    && t.img.holders.Keys == {t.procs[0].lock.value, t.procs[1].lock.value} && t.procs[0].lock != t.procs[1].lock
    && t.img.disk.Some? && !t.img.domain.Undefined? && t.procs[0].handle == t.procs[1].handle == Some(t.img.domain.uuid)
  }

  /** The first run defines the domain, and the second finds it. */
  lemma BothEnter(id: ImageId) returns (t: Trace)
    requires |id| == ID_LENGTH
    ensures Both(t, id, Using(Start), Using(CheckBeforeRun)) && t.img.domain.Off?
  {
    t := FirstInstalls(id, id);
    t := SecondReuses(t, id);
    t := Enters(t, id, 0);
    t := StepUse(t, id, 0, OK);
    assert t.procs[0].pc == Using(Start);
    t := Enters(t, id, 1);
  }

  // ---- the disk of another image ----

  /** For every two images there is a run after which the disk of one carries its digest, but
      holds the other, and a second run has taken it over as it is. */
  lemma DiskMayHoldAnotherImage(id: ImageId, other: ImageId)
    requires |id| == ID_LENGTH
    ensures exists moves :: var w := Exec(START, moves);
      && Img(w, id).disk.Some? && Img(w, id).disk.value.meta == Some(Digest(id))
      && Img(w, id).disk.value.content == Complete(other)
      && 1 in w.procs && w.procs[1].cmd == Background(id) && w.procs[1].pc == Opening(FreePort)
  {
    var t := FirstInstalls(id, other);
    t := SecondReuses(t, id);
    PublishedIsHonest(t, id);
  }

  // ---- a run stops the guest of another run ----

  /** The second run finds the domain off; the first starts it; the second looks again. */
  lemma SecondLooksAgain(t: Trace, id: ImageId) returns (t': Trace)
    requires Both(t, id, Using(Start), Using(CheckBeforeRun)) && t.img.domain.Off?
    ensures Both(t', id, Using(WaitRunning(RUNNING_POLLS)), Deleting(Destroy(ThenDefine))) && t'.img.domain.Running?
  {
    t' := StepUse(t, id, 1, OK);
    assert Both(t', id, Using(Start), Deleting(CheckBeforeStop(ThenDefine)));
    t' := StepUse(t', id, 0, OK);
    t' := StepDelete(t', id, 1, OK);
  }

  /** For every image there is a run in which one run command, which refuses running guests,
      stops the guest that another has just started. */
  lemma RunMayStopAnothersGuest(id: ImageId)
    requires |id| == ID_LENGTH
    ensures exists moves :: var w := Exec(START, moves); var w' := Exec(START, moves + [Act(1, OK)]);
      && 0 in w.procs && At(Trace(moves, Img(w, id), w.procs, w.next), id, 0, Using(WaitRunning(RUNNING_POLLS)))
      && 1 in w.procs && At(Trace(moves, Img(w, id), w.procs, w.next), id, 1, Deleting(Destroy(ThenDefine)))
      && Img(w, id).domain.Running? && !Img(w', id).domain.Running?
  {
    var t := BothEnter(id);
    t := SecondLooksAgain(t, id);
    var w, longer := Exec(START, t.moves), t.moves + [Act(1, OK)];
    assert longer[..|longer| - 1] == t.moves;
    ImageAfterMove(w, Act(1, OK), id);
    assert t == Trace(t.moves, Img(w, id), w.procs, w.next);
  }

  // ---- a guest without a definition ----

  /** The second run decides to delete the domain that it takes to be off. */
  lemma SecondDecides(t: Trace, id: ImageId) returns (t': Trace)
    requires Both(t, id, Using(Start), Using(CheckBeforeRun)) && t.img.domain.Off?
    ensures Both(t', id, Using(Start), Deleting(Undefine(ThenDefine))) && t'.img.domain.Off?
  {
    t' := StepUse(t, id, 1, OK);
    assert Both(t', id, Using(Start), Deleting(CheckBeforeStop(ThenDefine)));
    t' := StepDelete(t', id, 1, OK);
    assert Both(t', id, Using(Start), Deleting(Exists(ThenDefine)));
    t' := StepDelete(t', id, 1, OK);
  }

  /** The first run starts the domain before the second undefines it. */
  lemma SecondUndefines(t: Trace, id: ImageId) returns (t': Trace)
    requires Both(t, id, Using(Start), Deleting(Undefine(ThenDefine))) && t.img.domain.Off?
    ensures Both(t', id, Using(WaitRunning(RUNNING_POLLS)), Using(Define)) && Transient(t'.img.domain)
  {
    t' := StepUse(t, id, 0, OK);
    t' := StepDelete(t', id, 1, OK);
  }

  /** It cannot define the running domain anew, and gives up. */
  lemma SecondFails(t: Trace, id: ImageId) returns (t': Trace)
    requires Both(t, id, Using(WaitRunning(RUNNING_POLLS)), Using(Define)) && Transient(t.img.domain)
    ensures Leads(t', id) && t'.procs.Keys == {0, 1} && At(t', id, 0, Using(WaitRunning(RUNNING_POLLS)))
    ensures t'.img == t.img.(holders := t'.img.holders) && t'.img.holders.Keys == {t'.procs[0].lock.value}
    ensures t'.procs[0] == t.procs[0]
  {
    t' := StepUse(t, id, 1, FAIL);
    assert t'.procs[1].pc == Deleting(Unlock(false));
    t' := StepDelete(t', id, 1, OK);
  }

  /** The first run sees its guest running and returns without an error. */
  lemma FirstSucceeds(t: Trace, id: ImageId) returns (t': Trace)
    requires Leads(t, id) && t.procs.Keys == {0, 1} && At(t, id, 0, Using(WaitRunning(RUNNING_POLLS)))
    requires t.img.holders.Keys == {t.procs[0].lock.value} && t.img.disk.Some? && Transient(t.img.domain)
    requires t.procs[0].handle == Some(t.img.domain.uuid)
    ensures Leads(t', id) && t'.procs.Keys == {0, 1} && t'.procs[0].pc == Done(true)
    ensures t'.img.holders == map[] && t'.img.dir && t'.img.domain == t.img.domain
  {
    PublishedIsHonest(t, id);
    t' := StepUse(t, id, 0, OK);
    assert t'.procs[0].pc == Using(WriteConfig);
    t' := StepUse(t', id, 0, OK);
    assert t'.procs[0].pc == Deleting(Unlock(true));
    t' := StepDelete(t', id, 0, OK);
  }

  lemma ListedIdResolves(w: World, pid: nat, id: ImageId)
    requires Inv(w) && |id| == ID_LENGTH && Img(w, id).dir
    requires pid in w.procs && w.procs[pid] == Initial(Stop(id))
    ensures ProcAfter(w, pid, OK) == Initial(Stop(id)).(target := id, pc := Opening(LockVm))
  {
    var k :| 0 <= k < |w.dirs| && w.dirs[k] == id;
    assert Entries(w)[k] == CacheNames.Entry(id, true);
    FullIdResolvesToItself(Entries(w), id);
  }

  /** A stop resolves its id. */
  lemma StopResolves(t: Trace, id: ImageId) returns (t': Trace)
    requires Leads(t, id) && t.procs.Keys == {0, 1} && t.img.dir
    ensures Leads(t', id) && t'.img == t.img && 2 in t'.procs
    ensures t'.procs[2] == Initial(Stop(id)).(target := id, pc := Opening(LockVm))
  {
    var s := Launched(t, id, 2, Stop(id));
    var w := Exec(START, s.moves);
    ReachableIsOk(s.moves);
    ListedIdResolves(w, 2, id);
    t' := Trace(s.moves + [Act(2, OK)], s.img, s.procs[2 := ProcAfter(w, 2, OK)], s.next + 1);
    assert t'.moves[..|s.moves|] == s.moves;
    ImageAfterMove(w, Act(2, OK), id);
  }

  /** It looks the domain up under the Exclusive lock. */
  lemma StopLooksUp(t: Trace, id: ImageId) returns (t': Trace)
    requires Leads(t, id) && 2 in t.procs && t.procs[2] == Initial(Stop(id)).(target := id, pc := Opening(LockVm))
    requires t.img.holders == map[] && t.img.dir && Transient(t.img.domain)
    ensures Leads(t', id) && t'.img.domain == t.img.domain && 2 in t'.procs
    ensures t'.procs[2].cmd == Stop(id) && t'.procs[2].target == id
    ensures t'.procs[2].pc == Deleting(CheckBeforeStop(ThenUnlock)) && t'.procs[2].handle == Some(t.img.domain.uuid)
  {
    var r: Reply;
    t', r := Step(t, id, 2, OK);
    assert t'.procs[2].pc == Opening(Recheck);
    t', r := Step(t', id, 2, OK);
    assert t'.procs[2].pc == Opening(Lookup);
    t', r := Step(t', id, 2, OK);
  }

  lemma PowerOffEmptiesTheHandle(t: Trace, id: ImageId)
    requires Leads(t, id) && 2 in t.procs && t.procs[2].cmd == Stop(id) && t.procs[2].target == id
    requires t.procs[2].pc == Deleting(CheckBeforeStop(ThenUnlock))
    requires Transient(t.img.domain) && t.procs[2].handle == Some(t.img.domain.uuid)
    ensures Deciding(Exec(START, t.moves), 2) && NilIffUndefined(Exec(START, t.moves), 2)
    ensures Deciding(Exec(START, t.moves + [PowerOff(id)]), 2)
    ensures !NilIffUndefined(Exec(START, t.moves + [PowerOff(id)]), 2)
  {
    var longer := t.moves + [PowerOff(id)];
    assert longer[..|longer| - 1] == t.moves;
  }

  /** For every image there is a run in which a stop holds the Exclusive lock and a handle,
      and the power-off of the guest leaves that handle without a domain. */
  lemma HandleMayOutliveItsDomain(id: ImageId)
    requires |id| == ID_LENGTH
    ensures exists moves ::
      && Deciding(Exec(START, moves), 2) && NilIffUndefined(Exec(START, moves), 2)
      && Exec(START, moves).procs[2].target == id
      && Deciding(Exec(START, moves + [PowerOff(id)]), 2) && !NilIffUndefined(Exec(START, moves + [PowerOff(id)]), 2)
  {
    var t := BothEnter(id);
    t := SecondDecides(t, id);
    t := SecondUndefines(t, id);
    t := SecondFails(t, id);
    t := FirstSucceeds(t, id);
    t := StopResolves(t, id);
    t := StopLooksUp(t, id);
    PowerOffEmptiesTheHandle(t, id);
  }
}
