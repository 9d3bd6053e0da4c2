/** The commands (cmd/rm.go, cmd/stop.go, cmd/ssh.go, cmd/list.go, cmd/run.go), each a run of
    its own process from its first call to its last, with the rest of the system in between. */
module Commands {
  import opened Common
  import opened CacheNames
  import opened Protocol
  import opened Invariant
  import opened Machine
  import opened VirtualMachine
  import opened Pruning
  import Bootc = BootcDisk
  import Safety

  /** The command has returned and has given back every lock instance it took. */
  ghost predicate Returned(p: Proc, ok: bool) {
    p.pc == Done(ok) && p.lock.None? && p.released == p.acquired
  }

  lemma DoneHasReturned(host: Host)
    requires host.Valid() && host.P().pc.Done?
    ensures Returned(host.P(), host.P().pc.ok)
  {
    host.Facts();
  }

  ghost predicate SameImages(w: World, w': World) {
    forall id :: Img(w', id) == Img(w, id)
  }

  // ---- cmd/stop.go ----

  method DoStop(host: Host, id: string) returns (ok: bool)
    requires host.Valid() && host.P() == Initial(Stop(id))
    modifies host
    ensures host.Valid() && old(host.history) <= host.history && Returned(host.P(), ok)
    ensures Quiet(old(host.script)) ==>
      var target := LastMatch(Entries(old(host.w)), id);
      if id == "" || target.None? || Img(old(host.w), target.value).holders != map[] then
        !ok && SameImages(old(host.w), host.w)
      else
        ok && SameElsewhere(old(host.w), host.w, target.value)
        && Img(host.w, target.value) == Img(old(host.w), target.value).(domain := Undefined)
  {
    var vm := NewVM(host, id);
    if vm == null {
      DoneHasReturned(host);
      return false;
    }
    ghost var i, image := vm.cacheDirLock.held.value, vm.Image();
    ok := vm.Delete();
    vm.Unlock();
    DoneHasReturned(host);
    if Quiet(old(host.script)) {
      UnlockUndoesLock(Img(old(host.w), vm.imageID).(domain := Undefined), i, Holder(host.me, Exclusive));
    }
  }

  // ---- cmd/rm.go ----

  method KillVM(vm: BootcVM) returns (ok: bool)
    requires vm.Valid() && vm.host.P().pc == Deleting(CheckBeforeKill)
    modifies vm.host
    ensures vm.Valid() && old(vm.host.history) <= vm.host.history
    ensures vm.host.P() == old(vm.host.P()).(pc := Deleting(Unlock(ok)))
    ensures ok ==> !vm.Image().dir && vm.Image().disk.None? && vm.Image().domain.Undefined?
    ensures Quiet(old(vm.host.script)) && Exact(vm.domain, old(vm.Image()).domain) ==>
      && Quiet(vm.host.script) && SameElsewhere(old(vm.host.w), vm.host.w, vm.imageID)
      && (ok <==> !old(vm.Image()).domain.Running?)
      && vm.Image() == if ok then Cleared(old(vm.Image()).(domain := Undefined)) else old(vm.Image())
  {
    var running, failed := vm.IsRunning();
    assert vm.host.P() == old(vm.host.P()).(pc :=
      Deleting(if failed || running then Unlock(false) else CheckBeforeStop(ThenRemove)));
    assert Quiet(old(vm.host.script)) && Exact(vm.domain, old(vm.Image()).domain) ==>
      !failed && (running <==> old(vm.Image()).domain.Running?) && vm.Image() == old(vm.Image());
    if failed || running {
      return false;
    }
    ok := ForceKillVM(vm); // the rest of killVM is the body of forceKillVM
  }

  method ForceKillVM(vm: BootcVM) returns (ok: bool)
    requires vm.Valid() && vm.host.P().pc == Deleting(CheckBeforeStop(ThenRemove))
    modifies vm.host
    ensures vm.Valid() && old(vm.host.history) <= vm.host.history
    ensures vm.host.P() == old(vm.host.P()).(pc := Deleting(Unlock(ok)))
    ensures ok ==> !vm.Image().dir && vm.Image().disk.None? && vm.Image().domain.Undefined?
    ensures Quiet(old(vm.host.script)) && Exact(vm.domain, old(vm.Image()).domain) ==>
      && Quiet(vm.host.script) && SameElsewhere(old(vm.host.w), vm.host.w, vm.imageID)
      && ok && vm.Image() == Cleared(old(vm.Image()).(domain := Undefined))
  {
    ok := vm.Delete();
    if ok {
      ok := vm.DeleteFromCache();
    }
  }

  /** What an undisturbed rm of id does to the world. */
  ghost predicate PruneOutcome(w: World, w': World, id: string, force: bool, ok: bool) {
    var target := LastMatch(Entries(w), id);
    if id == "" || target.None? then
      !ok && SameImages(w, w')
    else
      && SameElsewhere(w, w', target.value)
      && Img(w', target.value) == Pruned(Img(w, target.value), force)
      && (ok <==> !Img(w', target.value).dir)
  }

  method Prune(host: Host, id: string) returns (ok: bool)
    requires host.Valid() && host.P().pc == Opening(Resolve(id)) && (host.P().cmd.Rm? || host.P().cmd.RmAll?)
    modifies host
    ensures host.Valid() && old(host.history) <= host.history
    ensures Ended(old(host.P()), host.P(), ok)
    ensures Quiet(old(host.script)) ==>
      Quiet(host.script) && PruneOutcome(old(host.w), host.w, id, host.P().cmd.force, ok)
  {
    if LastMatch(Entries(host.w), id).Some? {
      FoundIsThere(host.w, host.history, id);
    }
    var vm := NewVM(host, id);
    if vm == null {
      return false;
    }
    ghost var i := vm.cacheDirLock.held.value;
    ok := KillAndUnlock(vm);
    if Quiet(old(host.script)) {
      PrunedIsKilledUnderLock(Img(old(host.w), vm.imageID), i, Holder(host.me, Exclusive), host.P().cmd.force);
    }
  }

  /** killVM or forceKillVM on a locked image. */
  function Killed(img: Image, force: bool): Image {
    if !force && img.domain.Running? then img else Cleared(img.(domain := Undefined))
  }

  lemma PrunedIsKilledUnderLock(img: Image, i: nat, holder: Holder, force: bool)
    requires img.holders == map[]
    ensures Unlocked(Killed(Locked(img, i, holder), force), i) == Pruned(img, force)
  {
    UnlockUndoesLock(img, i, holder);
    UnlockUndoesLock(Cleared(img.(domain := Undefined)), i, holder);
  }

  method KillAndUnlock(vm: BootcVM) returns (ok: bool)
    requires vm.Valid() && (vm.host.P().cmd.Rm? || vm.host.P().cmd.RmAll?)
    requires vm.host.P().pc == FirstUse(vm.host.P().cmd)
    modifies vm.host, vm.cacheDirLock
    ensures vm.host.Valid() && old(vm.host.history) <= vm.host.history
    ensures Ended(old(vm.host.P()), vm.host.P(), ok)
    ensures Quiet(old(vm.host.script)) && Exact(vm.domain, old(vm.Image()).domain) ==>
      && Quiet(vm.host.script) && SameElsewhere(old(vm.host.w), vm.host.w, vm.imageID)
      && Img(vm.host.w, vm.imageID)
         == Unlocked(Killed(old(vm.Image()), vm.host.P().cmd.force), old(vm.cacheDirLock.held).value)
      && (ok <==> vm.host.P().cmd.force || !old(vm.Image()).domain.Running?)
  {
    if vm.host.P().cmd.force {
      ok := ForceKillVM(vm);
    } else {
      ok := KillVM(vm);
    }
    vm.Unlock();
  }

  method DoRemove(host: Host, id: string) returns (ok: bool)
    requires host.Valid() && host.P().cmd.Rm? && host.P() == Initial(Rm(id, host.P().cmd.force))
    modifies host
    ensures host.Valid() && old(host.history) <= host.history && Returned(host.P(), ok)
    ensures Quiet(old(host.script)) ==> PruneOutcome(old(host.w), host.w, id, old(host.P()).cmd.force, ok)
  {
    ok := Prune(host, id);
    DoneHasReturned(host);
  }

  lemma ListingIsStrict(w: World, history: seq<Move>)
    requires w == Exec(START, history)
    ensures forall i, j | 0 <= i < j < |Entries(w)| :: Entries(w)[i] != Entries(w)[j]
    ensures forall e | e in Entries(w) :: e.isDir && |e.name| == ID_LENGTH && Img(w, e.name).dir
    ensures forall id | Img(w, id).dir :: Entry(id, true) in Entries(w)
  {
    Safety.ReachableIsOk(history);
    assert DirsOk(w);
    forall i, j | 0 <= i < j < |Entries(w)| ensures Entries(w)[i] != Entries(w)[j] {
      assert Before(w.dirs[i], w.dirs[j]);
      BeforeIsTotalOrder(w.dirs[i], w.dirs[i], w.dirs[i]);
    }
    forall e | e in Entries(w) ensures e.isDir && |e.name| == ID_LENGTH && Img(w, e.name).dir {
      ListedIsThere(w, history, e.name);
    }
    forall id | Img(w, id).dir ensures Entry(id, true) in Entries(w) {
      ListedIsThere(w, history, id);
    }
  }

  /** The position of a looping command whose remaining names are todo. */
  ghost predicate LoopAt(p: Proc, names: seq<string>) {
    if names == [] then p.pc == Done(true) else p.pc == Opening(Resolve(names[0])) && p.todo == names[1..]
  }

  /** The moves of the others, and of this command, after history. */
  ghost function Since(history: seq<Move>, later: seq<Move>): seq<Move>
    requires history <= later
  {
    later[|history|..]
  }

  lemma PrunedAll(host: Host, w0: World, history0: seq<Move>, force: bool)
    requires host.Valid() && w0 == Exec(START, history0) && history0 <= host.history && Finished(host.P().pc)
    requires host.me in w0.procs && w0.procs[host.me] == Initial(RmAll(force))
    ensures CalmRun(w0, Since(history0, host.history), host.me) ==>
      host.P().pc == Done(true) && PruneAllOutcome(w0, host.w, force)
  {
    var moves := Since(history0, host.history);
    assert host.history == history0 + moves;
    ExecConcat(START, history0, moves);
    Safety.ReachableIsOk(history0);
    if CalmRun(w0, moves, host.me) {
      PruneAllIsExact(w0, moves, host.me, force);
    }
  }

  lemma QuietIsCalm(host: Host, w0: World, history0: seq<Move>)
    requires host.Valid() && host.quiet && history0 <= host.history && host.start <= |history0|
    ensures CalmRun(w0, Since(history0, host.history), host.me)
  {
    var moves := Since(history0, host.history);
    forall k | 0 <= k < |moves| ensures OwnBenign(moves[k], host.me) {
      assert moves[k] == host.history[|history0| + k];
    }
    AloneIsCalm(w0, moves, host.me);
  }

  /** pruneAll.  If the others take and release no locks meanwhile, no guest powers off and no
      call of its own fails, exactly the images that nobody else uses, and without -f do not
      run, are gone, and rm changes nothing else. */
  method PruneAll(host: Host) returns (ok: bool)
    requires host.Valid() && host.P().cmd.RmAll? && host.P() == Initial(RmAll(host.P().cmd.force))
    modifies host
    ensures host.Valid() && old(host.history) <= host.history && Returned(host.P(), ok)
    ensures CalmRun(old(host.w), Since(old(host.history), host.history), host.me) ==>
      ok && PruneAllOutcome(old(host.w), host.w, old(host.P()).cmd.force)
    ensures host.quiet ==> CalmRun(old(host.w), Since(old(host.history), host.history), host.me)
  {
    ghost var w0, history0, force := host.w, host.history, host.P().cmd.force;
    var entries, failed := ReadCacheDir(host);
    ok := !failed;
    if !failed {
      var i := 0;
      while i < |entries|
        invariant 0 <= i <= |entries| && host.Valid() && history0 <= host.history
        invariant host.P().cmd == RmAll(force) && LoopAt(host.P(), DirNames(entries[i..]))
      {
        assert entries[i..][0] == entries[i] && entries[i..][1..] == entries[i + 1..];
        if entries[i].isDir {
          var removed := Prune(host, entries[i].name);
        }
        i := i + 1;
      }
    }
    DoneHasReturned(host);
    PrunedAll(host, w0, history0, force);
    if host.quiet {
      QuietIsCalm(host, w0, history0);
    }
  }

  method ReadCacheDir(host: Host) returns (entries: seq<Entry>, failed: bool)
    requires host.Valid() && host.P().pc == Opening(ReadCache) && Loops(host.P().cmd)
    modifies host
    ensures host.Valid() && old(host.history) <= host.history && host.P().cmd == old(host.P()).cmd
    ensures failed ==> host.P().pc == Done(false)
    ensures !failed ==> LoopAt(host.P(), DirNames(entries))
    ensures Quiet(old(host.script)) ==>
      !failed && Quiet(host.script) && entries == Entries(old(host.w)) && SameImages(old(host.w), host.w)
  {
    var r, mid, c := host.Call();
    failed := !r.Names?;
    entries := if failed then [] else r.entries;
  }

  // ---- cmd/list.go ----

  /** id is the Id in the configuration file. */
  datatype Row = Row(id: string, running: bool)

  /** What list says about one directory: nothing if it is locked exclusively or has no configuration. */
  function RowOf(img: Image): seq<Row> {
    if CanLock(img.holders, Shared) && img.cfg.Some? then [Row(img.cfg.value, img.domain.Running?)] else []
  }

  function RowsOf(w: World, listed: seq<Entry>): seq<Row> {
    if listed == [] then []
    else RowsOf(w, listed[..|listed| - 1]) + RowOf(Img(w, listed[|listed| - 1].name))
  }

  method GetVMInfo(host: Host, imageId: string) returns (row: Option<Row>)
    requires host.Valid() && host.P().pc == Opening(Resolve(imageId)) && host.P().cmd.List?
    modifies host
    ensures host.Valid() && old(host.history) <= host.history
    ensures Ended(old(host.P()), host.P(), row.Some?)
    ensures row.Some? && |imageId| == ID_LENGTH ==> row.value.id == ShortId(imageId)
    ensures Quiet(old(host.script)) && |imageId| == ID_LENGTH && Img(old(host.w), imageId).dir ==>
      && Quiet(host.script) && SameImages(old(host.w), host.w)
      && RowOf(Img(old(host.w), imageId)) == if row.Some? then [row.value] else []
  {
    ListedIsThere(host.w, host.history, imageId);
    if |imageId| == ID_LENGTH {
      FullIdResolvesToItself(Entries(host.w), imageId);
    }
    var vm := NewVM(host, imageId);
    if vm == null {
      return None;
    }
    ghost var i := vm.cacheDirLock.held.value;
    assert |imageId| == ID_LENGTH ==> vm.imageID == imageId;
    row := ConfigAndUnlock(vm);
    if Quiet(old(host.script)) && i !in Img(old(host.w), vm.imageID).holders {
      UnlockUndoesLock(Img(old(host.w), vm.imageID), i, Holder(host.me, Shared));
    }
  }

  /** getVMInfo after NewVM. */
  method ConfigAndUnlock(vm: BootcVM) returns (row: Option<Row>)
    requires vm.Valid() && vm.host.P().cmd.List? && vm.host.P().pc == Using(LoadConfig)
    modifies vm.host, vm.cacheDirLock
    ensures vm.host.Valid() && old(vm.host.history) <= vm.host.history
    ensures Ended(old(vm.host.P()), vm.host.P(), row.Some?)
    ensures row.Some? ==> row.value.id == ShortId(vm.imageID)
    ensures Quiet(old(vm.host.script)) && Exact(vm.domain, old(vm.Image()).domain) ==>
      && Quiet(vm.host.script) && SameElsewhere(old(vm.host.w), vm.host.w, vm.imageID)
      && Img(vm.host.w, vm.imageID) == Unlocked(old(vm.Image()), old(vm.cacheDirLock.held).value)
      && row == (if old(vm.Image()).cfg.None? then None
                 else Some(Row(old(vm.Image()).cfg.value, old(vm.Image()).domain.Running?)))
  {
    var id, running, ok := vm.GetConfig();
    vm.Unlock();
    row := if ok then Some(Row(id, running)) else None;
  }

  lemma RowsOneMore(w: World, w': World, listed: seq<Entry>, e: Entry)
    requires SameImages(w, w')
    ensures RowsOf(w, listed + [e]) == RowsOf(w, listed) + RowOf(Img(w', e.name))
  {
    assert (listed + [e])[..|listed + [e]| - 1] == listed;
  }

  lemma {:induction false} RowsComeFromEntries(w: World, listed: seq<Entry>, row: Row)
    requires row in RowsOf(w, listed)
    ensures exists at :: 0 <= at < |listed| && RowOf(Img(w, listed[at].name)) == [row]
  {
    var rest := listed[..|listed| - 1];
    if row in RowsOf(w, rest) {
      RowsComeFromEntries(w, rest, row);
      var at :| 0 <= at < |rest| && RowOf(Img(w, rest[at].name)) == [row];
      assert listed[at] == rest[at];
    } else {
      assert RowOf(Img(w, listed[|listed| - 1].name)) == [row];
    }
  }

  /** No directory listed after position at begins with the same 12 characters. */
  ghost predicate LastOfItsShortId(entries: seq<Entry>, at: nat)
    requires at < |entries| && |entries[at].name| >= SHORT_LENGTH
  {
    forall j | at < j < |entries| && entries[j].isDir && |entries[j].name| == ID_LENGTH ::
      ShortId(entries[j].name) != ShortId(entries[at].name)
  }

  /** The row shows the directory listed at this position, and its Id leads back there exactly
      when no later one shares the 12 characters. */
  ghost predicate ShownFor(w: World, row: Row, at: int) {
    && 0 <= at < |Entries(w)| && |Entries(w)[at].name| == ID_LENGTH
    && RowOf(Img(w, Entries(w)[at].name)) == [row] && row.id == ShortId(Entries(w)[at].name)
    && (LastMatch(Entries(w), row.id) == Some(Entries(w)[at].name) <==> LastOfItsShortId(Entries(w), at))
  }

  /** Every Id that list shows was written for one directory of the listing, and leads back to
      it exactly when no later one shares the 12 characters. */
  lemma ShownIdLeadsBack(w: World, history: seq<Move>, row: Row)
    requires w == Exec(START, history) && row in RowsOf(w, Entries(w))
    ensures exists at :: ShownFor(w, row, at)
  {
    var entries := Entries(w);
    RowsComeFromEntries(w, entries, row);
    var at :| 0 <= at < |entries| && RowOf(Img(w, entries[at].name)) == [row];
    ListingIsStrict(w, history);
    assert entries[at] in entries;
    ConfigHasShortId(history, entries[at].name);
    NamesDiffer(entries);
    ShortIdRoundTrip(entries, at);
    assert ShownFor(w, row, at);
  }

  lemma NamesDiffer(entries: seq<Entry>)
    requires forall i, j | 0 <= i < j < |entries| :: entries[i] != entries[j]
    requires forall e | e in entries :: e.isDir
    ensures forall i, j | 0 <= i < j < |entries| :: entries[i].name != entries[j].name
  {
    forall i, j | 0 <= i < j < |entries| ensures entries[i].name != entries[j].name {
      assert entries[i] in entries && entries[j] in entries;
    }
  }

  /** CollectVmList.  Undisturbed, it shows one row for every directory that nobody holds
      exclusively and that has a configuration, in listing order, and changes nothing. */
  method CollectVmList(host: Host) returns (vmList: seq<Row>, ok: bool)
    requires host.Valid() && host.P() == Initial(List)
    modifies host
    ensures host.Valid() && old(host.history) <= host.history && Returned(host.P(), ok)
    ensures Quiet(old(host.script)) ==>
      && ok && SameImages(old(host.w), host.w)
      && vmList == RowsOf(old(host.w), Entries(old(host.w)))
  {
    vmList := [];
    ghost var w0, history0, quiet := host.w, host.history, Quiet(host.script);
    ListingIsStrict(w0, history0);
    var entries, failed := ReadCacheDir(host);
    if failed {
      DoneHasReturned(host);
      return [], false;
    }
    var i := 0;
    while i < |entries|
      invariant 0 <= i <= |entries| && host.Valid() && history0 <= host.history
      invariant host.P().cmd == List && LoopAt(host.P(), DirNames(entries[i..]))
      invariant quiet ==> Quiet(host.script) && SameImages(w0, host.w) && entries == Entries(w0)
      invariant quiet ==> vmList == RowsOf(w0, entries[..i])
    {
      assert entries[i..][0] == entries[i] && entries[i..][1..] == entries[i + 1..];
      assert entries[..i + 1] == entries[..i] + [entries[i]];
      if quiet {
        assert entries[i] in Entries(w0);
        RowsOneMore(w0, host.w, entries[..i], entries[i]);
      }
      if entries[i].isDir {
        var row := GetVMInfo(host, entries[i].name);
        if row.Some? {
          vmList := vmList + [row.value];
        }
      }
      i := i + 1;
    }
    DoneHasReturned(host);
    assert entries[..i] == entries;
    return vmList, true;
  }

  // ---- cmd/ssh.go ----

  method DoSsh(host: Host, id: string, sshUser: string) returns (ok: bool)
    requires host.Valid() && host.P() == Initial(Ssh(id, sshUser))
    modifies host
    ensures host.Valid() && old(host.history) <= host.history && Returned(host.P(), ok)
    ensures Quiet(old(host.script)) ==> SameImages(old(host.w), host.w)
    ensures Quiet(old(host.script)) ==>
      var target := LastMatch(Entries(old(host.w)), id);
      ok <==>
        && id != "" && target.Some? && CanLock(Img(old(host.w), target.value).holders, Shared)
        && sshUser != "" && Img(old(host.w), target.value).cfg.Some?
  {
    var vm := NewVM(host, id);
    if vm == null {
      DoneHasReturned(host);
      return false;
    }
    ghost var i := vm.cacheDirLock.held.value;
    ok := SessionAndUnlock(vm, sshUser);
    DoneHasReturned(host);
    if Quiet(old(host.script)) {
      UnlockUndoesLock(Img(old(host.w), vm.imageID), i, Holder(host.me, Shared));
    }
  }

  /** doSsh after NewVM. */
  method SessionAndUnlock(vm: BootcVM, sshUser: string) returns (ok: bool)
    requires vm.Valid() && vm.host.P().cmd.Ssh? && vm.host.P().cmd.user == sshUser
    requires vm.host.P().pc == FirstUse(vm.host.P().cmd)
    modifies vm, vm.host, vm.cacheDirLock
    ensures vm.host.Valid() && old(vm.host.history) <= vm.host.history && vm.host.P().pc == Done(ok)
    ensures Quiet(old(vm.host.script)) ==>
      && SameElsewhere(old(vm.host.w), vm.host.w, vm.imageID)
      && Img(vm.host.w, vm.imageID) == Unlocked(old(vm.Image()), old(vm.cacheDirLock.held).value)
      && (ok <==> sshUser != "" && old(vm.Image()).cfg.Some?)
  {
    ok := vm.SetUser(sshUser);
    if ok {
      ok := vm.RunSSH();
    }
    vm.Unlock();
  }

  // ---- cmd/run.go ----

  /** The guest is stopped again at the end. */
  predicate StopsAtEnd(cmd: Command)
    requires cmd.Run?
  {
    !cmd.background && (cmd.remove || cmd.hasCmd)
  }

  /** The domain an undisturbed run leaves. */
  ghost predicate DomainAfterRun(domain: Domain, cmd: Command)
    requires cmd.Run?
  {
    if StopsAtEnd(cmd) then domain.Undefined? else domain.Running? && domain.persistent
  }

  method StartVM(vm: BootcVM) returns (ok: bool)
    requires vm.Valid() && vm.host.P().pc == Using(GenerateKeys) && vm.host.P().cmd.Run?
    modifies vm.host, vm
    ensures vm.Valid() && old(vm.host.history) <= vm.host.history && vm.host.P().cmd == old(vm.host.P()).cmd
    ensures vm.host.P().pc == if ok then Using(WriteConfig) else Deleting(Unlock(false))
    ensures
      Quiet(old(vm.host.script)) && Exact(old(vm.domain), old(vm.Image()).domain) && old(vm.Image()).disk.Some? ==>
      && Quiet(vm.host.script) && SameElsewhere(old(vm.host.w), vm.host.w, vm.imageID)
      && (ok <==> !old(vm.Image()).domain.Running?)
      && (!ok ==> vm.Image() == old(vm.Image()))
      && (ok ==> vm.domain.Some? && vm.Image() == old(vm.Image()).(domain := Running(vm.domain.value, true)))
  {
    var r, mid, c := vm.host.Call();
    if !r.Yes? {
      return false;
    }
    ok := vm.Run();
  }

  ghost predicate IsRunningAs(handle: Option<nat>, domain: Domain) {
    handle.Some? && domain == Running(handle.value, true)
  }

  method UseVM(vm: BootcVM) returns (ok: bool)
    requires vm.Valid() && vm.host.P().pc == Using(WriteConfig) && vm.host.P().cmd.Run?
    modifies vm.host
    ensures vm.Valid() && old(vm.host.history) <= vm.host.history
    ensures vm.host.P() == old(vm.host.P()).(pc := Deleting(Unlock(ok)))
    ensures
      Quiet(old(vm.host.script)) && old(vm.Image()).disk.Some? && IsRunningAs(vm.domain, old(vm.Image()).domain) ==>
      && Quiet(vm.host.script) && SameElsewhere(old(vm.host.w), vm.host.w, vm.imageID)
      && ok && DomainAfterRun(vm.Image().domain, vm.host.P().cmd)
      && vm.Image() == old(vm.Image()).(cfg := Some(ShortId(vm.imageID)), domain := vm.Image().domain)
  {
    ok := vm.WriteConfig();
    if !ok || vm.host.P().cmd.background {
      return;
    }
    ghost var got;
    ok, got := vm.WaitForSSHToBeReady();
    if !ok {
      return;
    }
    ok := vm.RunSSH();
    if !ok {
      return;
    }
    if vm.host.P().cmd.remove || vm.host.P().cmd.hasCmd {
      ok := vm.Delete();
    }
  }

  /** An undisturbed run can succeed. */
  ghost predicate CanRun(img: Image, cmd: Command)
    requires cmd.Run?
  {
    Bootc.CanInstall(img, cmd) && !img.domain.Running?
  }

  /** What a successful undisturbed run makes of the image: its disk is the one that was
      there, or a new one; apart from that, configuration and domain have changed. */
  ghost predicate RunOutcome(img: Image, img': Image, cmd: Command)
    requires cmd.Run?
  {
    && Bootc.InstallOutcome(img, img'.(cfg := img.cfg, domain := img.domain), cmd)
    && |cmd.image| >= SHORT_LENGTH && img'.cfg == Some(ShortId(cmd.image)) && DomainAfterRun(img'.domain, cmd)
  }

  ghost predicate StartedOutcome(img: Image, img': Image, cmd: Command)
    requires cmd.Run?
  {
    && DomainAfterRun(img'.domain, cmd) && |cmd.image| >= SHORT_LENGTH
    && img' == img.(cfg := Some(ShortId(cmd.image)), domain := img'.domain)
  }

  lemma RunIsInstallThenStart(img: Image, installed: Image, img': Image, cmd: Command)
    requires cmd.Run? && Bootc.InstallOutcome(img, installed, cmd) && StartedOutcome(installed, img', cmd)
    ensures RunOutcome(img, img', cmd)
  {
    assert img'.(cfg := img.cfg, domain := img.domain) == installed;
  }

  /** A run that finds its guest running has changed nothing but the directory, which was there. */
  lemma RefusedRun(w: World, history: seq<Move>, id: ImageId, installed: Image, cmd: Command)
    requires w == Exec(START, history) && cmd.Run? && Bootc.InstallOutcome(Img(w, id), installed, cmd)
    requires installed.domain.Running?
    ensures Bootc.FailedOutcome(Img(w, id), installed)
  {
    Safety.ReachableIsOk(history);
    Safety.ImageFacts(w, id);
  }

  /** doRun.  at is the length of the history when Install gives its lock back. */
  method DoRun(host: Host) returns (ok: bool, ghost at: nat)
    requires host.Valid() && host.P().cmd.Run? && host.P() == Initial(host.P().cmd)
    modifies host
    ensures host.Valid() && old(host.history) <= host.history && Returned(host.P(), ok)
    ensures host.P().cmd == old(host.P()).cmd
    ensures ok ==> at <= |host.history| && Bootc.DiskInHand(host.history[..at], host.P().cmd.image, host.me)
    ensures Quiet(old(host.script)) ==>
      var id, cmd := host.P().cmd.image, host.P().cmd;
      && SameElsewhere(old(host.w), host.w, id)
      && (ok <==> CanRun(Img(old(host.w), id), cmd))
      && (ok ==> RunOutcome(Img(old(host.w), id), Img(host.w, id), cmd))
      && (!ok ==> Bootc.FailedOutcome(Img(old(host.w), id), Img(host.w, id)))
  {
    Bootc.InstallIsRun(host);
    var disk := new Bootc.BootcDisk(host);
    ok, at := disk.Install();
    if !ok {
      DoneHasReturned(host);
      return;
    }
    ghost var history, installed := host.history, host.w;
    ok := BootInstalled(host, disk.imageId);
    DoneHasReturned(host);
    assert host.history[..at] == history[..at];
    ghost var id := host.P().cmd.image;
    if Quiet(old(host.script)) {
      if ok {
        RunIsInstallThenStart(Img(old(host.w), id), Img(installed, id), Img(host.w, id), host.P().cmd);
      } else {
        RefusedRun(old(host.w), old(host.history), id, Img(installed, id), host.P().cmd);
      }
    }
  }

  /** doRun after Install. */
  method BootInstalled(host: Host, imageId: ImageId) returns (ok: bool)
    requires host.Valid() && host.P().cmd.Run? && host.P().pc == Opening(FreePort) && imageId == host.P().cmd.image
    requires |imageId| == ID_LENGTH && host.P().target == imageId
    modifies host
    ensures host.Valid() && old(host.history) <= host.history && host.P().pc == Done(ok)
    ensures host.P().cmd == old(host.P()).cmd
    ensures
      Quiet(old(host.script)) && Img(old(host.w), imageId).disk.Some? && Img(old(host.w), imageId).holders == map[] ==>
      var img := Img(old(host.w), imageId);
      && SameElsewhere(old(host.w), host.w, imageId)
      && (ok <==> !img.domain.Running?)
      && (ok ==> StartedOutcome(img, Img(host.w, imageId), host.P().cmd))
      && (!ok ==> Img(host.w, imageId) == img)
  {
    var r, mid, c := host.Call();
    if !r.Yes? {
      return false;
    }
    ok := RunInstalled(host, imageId);
  }

  /** doRun from NewVM on. */
  method RunInstalled(host: Host, imageId: ImageId) returns (ok: bool)
    requires host.Valid() && host.P().cmd.Run? && host.P().pc == Opening(Resolve(imageId))
    requires imageId == host.P().cmd.image
    requires |imageId| == ID_LENGTH
    modifies host
    ensures host.Valid() && old(host.history) <= host.history && host.P().pc == Done(ok)
    ensures host.P().cmd == old(host.P()).cmd
    ensures
      Quiet(old(host.script)) && Img(old(host.w), imageId).disk.Some? && Img(old(host.w), imageId).holders == map[] ==>
      var img := Img(old(host.w), imageId);
      && SameElsewhere(old(host.w), host.w, imageId)
      && (ok <==> !img.domain.Running?)
      && (ok ==> StartedOutcome(img, Img(host.w, imageId), host.P().cmd))
      && (!ok ==> Img(host.w, imageId) == img)
  {
    ListedIsThere(host.w, host.history, imageId);
    FullIdResolvesToItself(Entries(host.w), imageId);
    DiskNeedsDir(host.w, host.history, imageId);
    var vm := NewVM(host, imageId);
    if vm == null {
      return false;
    }
    ghost var i := vm.cacheDirLock.held.value;
    ok := StartVM(vm);
    if ok {
      ok := UseVM(vm);
    }
    vm.Unlock();
    if Quiet(old(host.script)) && i !in Img(old(host.w), imageId).holders {
      UnlockUndoesLock(Img(old(host.w), imageId), i, Holder(host.me, Shared));
    }
  }

  lemma DiskNeedsDir(w: World, history: seq<Move>, id: ImageId)
    requires w == Exec(START, history)
    ensures Img(w, id).disk.Some? ==> Img(w, id).dir
  {
    Safety.ReachableIsOk(history);
    Safety.ImageFacts(w, id);
  }

  /** Undisturbed, a run that stops its guest at the end leaves the domain undefined and the
      disk published, and can be repeated. */
  lemma RunCanBeRepeated(img: Image, img': Image, cmd: Command)
    requires cmd.Run? && StopsAtEnd(cmd) && CanRun(img, cmd) && RunOutcome(img, img', cmd)
    ensures CanRun(img', cmd) && img'.domain.Undefined? && img'.disk.Some? && img'.dir && img'.holders == map[]
    ensures img'.renames == img.renames + if img.disk.Some? then 0 else 1
    ensures img.disk.Some? ==> img'.disk == img.disk
  {
    var installed := img'.(cfg := img.cfg, domain := img.domain);
    assert Bootc.InstallOutcome(img, installed, cmd);
    assert installed.holders == img'.holders && installed.disk == img'.disk;
  }

  /** A second run keeps the disk and publishes nothing. */
  lemma RepeatedRunReuses(img: Image, img': Image, cmd: Command)
    requires cmd.Run? && img.disk.Some? && img.dir && RunOutcome(img, img', cmd)
    ensures img'.disk == img.disk && img'.renames == img.renames && img'.removals == img.removals
  {
    assert img'.(cfg := img.cfg, domain := img.domain) == img.(dir := true);
  }

  lemma {:induction false} OwnCallsAddNoProcess(w: World, moves: seq<Move>, me: nat)
    requires forall k | 0 <= k < |moves| :: OwnBenign(moves[k], me)
    ensures Exec(w, moves).procs.Keys == w.procs.Keys
    decreases |moves|
  {
    if moves != [] {
      OwnCallsAddNoProcess(w, moves[..|moves| - 1], me);
    }
  }

  /** A quiet command has seen no new process. */
  lemma NoNewProcess(host: Host, w0: World, history0: seq<Move>)
    requires host.Valid() && host.quiet && history0 <= host.history && host.start == |history0|
    requires w0 == Exec(START, history0)
    ensures host.w.procs.Keys == w0.procs.Keys
  {
    var moves := Since(history0, host.history);
    assert host.history == history0 + moves;
    ExecConcat(START, history0, moves);
    OwnCallsAddNoProcess(w0, moves, host.me);
  }

  /** A new process of the system. */
  method Start(w: World, ghost history: seq<Move>, pid: nat, cmd: Command, script: seq<Turn>) returns (host: Host)
    requires w == Exec(START, history) && pid !in w.procs && WellFormed(cmd)
    ensures fresh(host) && host.Valid() && host.P() == Initial(cmd) && host.me == pid && host.script == script
    ensures host.start == |host.history| && (host.quiet <==> Quiet(script))
    ensures history <= host.history && host.w == w.(procs := w.procs[pid := Initial(cmd)])
  {
    ghost var longer := history + [Launch(pid, cmd)];
    assert longer[..|longer| - 1] == history;
    host := new Host(pid, Apply(w, Launch(pid, cmd)), script, longer);
  }

  /** run, run again and stop, one after the other and undisturbed, of a run that stops its
      guest at the end: all three succeed, the first leaves the domain undefined and the disk
      published, the second publishes nothing, and the stop changes no image. */
  method RunRunStop(w: World, ghost history: seq<Move>, pids: (nat, nat, nat), cmd: Command,
                    scripts: (seq<Turn>, seq<Turn>, seq<Turn>))
    returns (once: World, twice: World, stopped: World, ok: bool, ghost later: seq<Move>)
    requires w == Exec(START, history) && WellFormed(cmd) && cmd.Run? && StopsAtEnd(cmd)
    requires CanRun(Img(w, cmd.image), cmd)
    requires pids.0 !in w.procs && pids.1 !in w.procs && pids.2 !in w.procs
    requires pids.0 != pids.1 && pids.0 != pids.2 && pids.1 != pids.2
    requires Quiet(scripts.0) && Quiet(scripts.1) && Quiet(scripts.2)
    ensures ok && history <= later && stopped == Exec(START, later)
    ensures var img, img1, img2 := Img(w, cmd.image), Img(once, cmd.image), Img(twice, cmd.image);
      && img1.domain.Undefined? && img1.disk.Some? && (img.disk.Some? ==> img1.disk == img.disk)
      && img2.domain.Undefined? && img2.disk == img1.disk && img2.renames == img1.renames
      && img2.removals == img1.removals
    ensures SameImages(twice, stopped)
  {
    var id := cmd.image;
    once, later, ok := RunOnce(w, history, pids.0, cmd, scripts.0);
    var again, stop;
    twice, later, again := RunOnce(once, later, pids.1, cmd, scripts.1);
    RepeatedRunReuses(Img(once, id), Img(twice, id), cmd);
    stopped, later, stop := StopStopped(twice, later, pids.2, id, scripts.2);
    ok := ok && again && stop;
  }

  method RunOnce(w: World, ghost history: seq<Move>, pid: nat, cmd: Command, script: seq<Turn>)
    returns (w': World, ghost later: seq<Move>, ok: bool)
    requires w == Exec(START, history) && WellFormed(cmd) && cmd.Run? && StopsAtEnd(cmd)
    requires CanRun(Img(w, cmd.image), cmd)
    requires pid !in w.procs && Quiet(script)
    ensures ok && history <= later && w' == Exec(START, later) && w'.procs.Keys == w.procs.Keys + {pid}
    ensures RunOutcome(Img(w, cmd.image), Img(w', cmd.image), cmd)
    ensures CanRun(Img(w', cmd.image), cmd) && Img(w', cmd.image).domain.Undefined? && Img(w', cmd.image).disk.Some?
    ensures Img(w', cmd.image).dir && Img(w', cmd.image).holders == map[]
    ensures Img(w, cmd.image).disk.Some? ==> Img(w', cmd.image).disk == Img(w, cmd.image).disk
  {
    var host := Start(w, history, pid, cmd, script);
    ghost var w0, history0 := host.w, host.history;
    ghost var at;
    ok, at := DoRun(host);
    NoNewProcess(host, w0, history0);
    RunCanBeRepeated(Img(w, cmd.image), Img(host.w, cmd.image), cmd);
    w', later := host.w, host.history;
  }

  /** A stop that finds no domain changes no image. */
  method StopStopped(w: World, ghost history: seq<Move>, pid: nat, id: ImageId, script: seq<Turn>)
    returns (w': World, ghost later: seq<Move>, ok: bool)
    requires w == Exec(START, history) && pid !in w.procs && Quiet(script)
    requires |id| == ID_LENGTH && Img(w, id).dir && Img(w, id).holders == map[] && Img(w, id).domain.Undefined?
    ensures ok && history <= later && w' == Exec(START, later) && SameImages(w, w')
  {
    var host := Start(w, history, pid, Stop(id), script);
    ListedIsThere(host.w, host.history, id);
    FullIdResolvesToItself(Entries(host.w), id);
    ok := DoStop(host, id);
    w', later := host.w, host.history;
  }
}
