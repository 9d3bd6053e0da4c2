/** pkg/utils/locks.go, pkg/vm/vm.go and pkg/vm/vm_linux.go: the cache lock and the handle
    on a virtual machine.  Every method is a piece of a run of the system (Host.Valid), so
    the invariant of all runs holds between any two of its calls; its contract says at which
    call of the program it starts and ends, what it hands back, and, when nobody interferes
    and no call fails, exactly what it does to the image. */
module VirtualMachine {
  import opened Common
  import opened CacheNames
  import opened Protocol
  import opened Invariant
  import opened Machine
  import Safety

  ghost predicate SameElsewhere(w: World, w': World, id: ImageId) {
    forall other | other != id :: Img(w', other) == Img(w, other)
  }

  /** The command p0 has finished its image (RmAll and List have gone on to the next one). */
  ghost predicate Ended(p0: Proc, p: Proc, ok: bool) {
    && p.cmd == p0.cmd && p.pc == EndItem(p0, ok).pc && p.todo == EndItem(p0, ok).todo && p.lock.None?
  }

  /** The image with one more, respectively without, a lock instance. */
  function Locked(img: Image, i: nat, holder: Holder): Image {
    img.(holders := img.holders[i := holder])
  }

  function Unlocked(img: Image, i: nat): Image {
    img.(holders := img.holders - {i})
  }

  lemma UnlockUndoesLock(img: Image, i: nat, holder: Holder)
    requires i !in img.holders
    ensures Unlocked(Locked(img, i, holder), i) == img
  {
    assert img.holders[i := holder] - {i} == img.holders;
  }

  class CacheLock {
    const host: Host
    var held: Option<nat>

    ghost predicate Valid()
      reads this, host
    {
      host.Valid() && held == host.P().lock
    }

    /** NewCacheLock: an instance that holds nothing. */
    constructor (host: Host)
      requires host.Valid() && host.P().lock.None?
      ensures Valid() && this.host == host && held.None?
    {
      this.host := host;
      held := None;
    }

    method TryLock(mode: Mode) returns (locked: bool, failed: bool)
      requires Valid()
      requires (host.P().pc == Installing(LockInstall) && mode == Exclusive)
        || (host.P().pc == Opening(LockVm) && mode == LockMode(host.P().cmd))
      modifies this, host
      ensures Valid() && old(host.history) <= host.history
      ensures host.P().target == old(host.P().target)
      ensures locked ==> !failed && held.Some? && held.value in host.Mine().holders
      ensures locked ==> host.Mine().holders[held.value] == Holder(host.me, mode)
      ensures locked ==> host.P() == Take(old(host.P()), held.value).(pc :=
        if old(host.P().pc).Installing? then Installing(MakeDir) else Opening(Recheck))
      ensures !locked ==> Ended(old(host.P()), host.P(), false)
      ensures !locked && old(host.P().pc).Installing? ==> host.P() == old(host.P()).(pc := Done(false))
      ensures Quiet(old(host.script)) ==>
        && Quiet(host.script) && SameElsewhere(old(host.w), host.w, host.P().target)
        && !failed && (locked <==> CanLock(old(host.Mine()).holders, mode))
        && host.Mine() == (if locked then Locked(old(host.Mine()), held.value, Holder(host.me, mode))
                           else old(host.Mine()))
        && (locked ==> held.value !in old(host.Mine()).holders)
    {
      FreshInstance(host.history, host.P().target, host.w.next);
      host.Shape();
      var r, mid, c := host.Call();
      held := host.P().lock;
      locked, failed := r.Fresh?, r.Error?;
    }

    method Unlock()
      requires Valid() && held.Some? && host.Unlocks()
      modifies this, host
      ensures Valid() && old(host.history) <= host.history && held.None?
      ensures host.P().released == old(host.P()).released + [old(held).value]
      ensures host.P().acquired == old(host.P()).acquired
      ensures old(host.P()).pc.Deleting? ==> Ended(old(host.P()), host.P(), old(host.P()).pc.delete.ok)
      ensures old(host.P()).pc.Installing? ==>
        host.P() == GiveBack(old(host.P())).(pc :=
          if old(host.P()).pc.install.ok then Opening(FreePort) else Done(false))
      ensures Quiet(old(host.script)) ==>
        && Quiet(host.script) && SameElsewhere(old(host.w), host.w, old(host.P()).target)
        && Img(host.w, old(host.P()).target) == Unlocked(old(host.Mine()), old(held).value)
    {
      host.CallUnlock();
      held := None;
    }
  }

  /** The second look at the directory, under the lock. */
  method CacheDirExists(host: Host) returns (exist: bool)
    requires host.Valid() && host.P().pc == Opening(Recheck)
    modifies host
    ensures host.Valid() && old(host.history) <= host.history
    ensures host.P() == old(host.P()).(pc := if exist then Opening(Lookup) else Deleting(DeleteStep.Unlock(false)))
    ensures Quiet(old(host.script)) ==>
      && Quiet(host.script) && SameElsewhere(old(host.w), host.w, host.P().target)
      && host.Mine() == old(host.Mine()) && (exist <==> host.Mine().dir)
  {
    var r, mid, c := host.Call();
    return r.Yes?;
  }

  /** lockVM: take the lock, then look again whether the directory is still there. */
  method LockVM(host: Host, mode: Mode) returns (lock: CacheLock, locked: bool)
    requires host.Valid() && host.P().pc == Opening(LockVm) && mode == LockMode(host.P().cmd)
    modifies host
    ensures host.Valid() && old(host.history) <= host.history
    ensures fresh(lock) && lock.host == host && lock.Valid() && host.P().cmd == old(host.P().cmd)
    ensures locked ==> lock.held.Some? && host.P().pc == Opening(Lookup) && host.P().target == old(host.P().target)
    ensures locked ==> host.P().todo == old(host.P().todo) && host.P().handle == old(host.P().handle)
    ensures !locked ==> Ended(old(host.P()), host.P(), false)
    ensures Quiet(old(host.script)) ==>
      && Quiet(host.script) && SameElsewhere(old(host.w), host.w, old(host.P()).target)
      && (locked <==> CanLock(old(host.Mine()).holders, mode) && old(host.Mine()).dir)
      && (!locked ==> Img(host.w, old(host.P()).target) == old(host.Mine()))
    ensures Quiet(old(host.script)) && locked ==>
      && lock.held.value !in old(host.Mine()).holders
      && host.Mine() == Locked(old(host.Mine()), lock.held.value, Holder(host.me, mode))
  {
    host.Shape();
    lock := new CacheLock(host);
    var failed;
    locked, failed := lock.TryLock(mode);
    if locked {
      ghost var i := lock.held.value;
      var cacheDirExists := CacheDirExists(host);
      if !cacheDirExists {
        lock.Unlock();
        locked := false;
        if Quiet(old(host.script)) {
          UnlockUndoesLock(old(host.Mine()), i, Holder(host.me, mode));
        }
      }
    }
  }

  lemma NoNilUndefine(host: Host)
    requires host.Valid() && host.P().pc.Deleting? && host.P().pc.delete.Undefine?
    ensures host.P().handle.Some?
  {
    Safety.ReachableIsOk(host.history);
    Safety.HoldsWhatItUndefines(host.w, host.me);
  }

  lemma DeleteLeavesNoDomain(host: Host, after: After)
    requires host.Valid() && host.P().pc == Continue(after) && Deletes(host.P().cmd, after)
    requires LockMode(host.P().cmd) == Exclusive
    ensures host.Mine().domain.Undefined?
  {
    host.Facts();
  }

  lemma OnlyRemoveClears(host: Host)
    requires host.Valid() && host.P().pc == Deleting(DeleteStep.ClearCache)
    ensures host.P().cmd.Rm? || host.P().cmd.RmAll?
  {
    host.Shape();
  }

  lemma RemoveLeavesNothing(host: Host)
    requires host.Valid() && host.P().pc == Deleting(DeleteStep.Unlock(true))
    requires (host.P().cmd.Rm? || host.P().cmd.RmAll?)
    ensures !host.Mine().dir && host.Mine().disk.None? && host.Mine().domain.Undefined?
  {
    Safety.ReachableIsOk(host.history);
    Safety.SuccessMeansGone(host.w, host.me);
  }

  lemma DeleteFits(host: Host)
    requires host.Valid() && host.P().pc.Deleting? && host.P().pc.delete.CheckBeforeStop?
    ensures Deletes(host.P().cmd, host.P().pc.delete.after)
  {
    host.Shape();
  }

  lemma StartedVmHasDisk(host: Host)
    requires host.Valid() && host.P().pc == Using(UseStep.WriteConfig)
    ensures host.Mine().disk.Some? && host.P().handle.Some?
  {
    host.Facts();
  }

  /** BootcVMLinux with the fields of BootcVMCommon that the protocol uses. */
  class BootcVM {
    const host: Host
    const imageID: string
    const cacheDirLock: CacheLock
    var domain: Option<nat>
    var vmUsername: string

    ghost predicate Valid()
      reads this, host, cacheDirLock
    {
      && cacheDirLock.host == host && cacheDirLock.Valid() && cacheDirLock.held.Some?
      && host.P().target == imageID && |imageID| == ID_LENGTH && host.P().handle == domain
    }

    ghost function Image(): Image
      requires host.Valid()
      reads host
    {
      host.Mine()
    }

    constructor (host: Host, lock: CacheLock)
      requires lock.host == host && lock.Valid() && lock.held.Some? && |host.P().target| == ID_LENGTH
      ensures Valid() && this.host == host && cacheDirLock == lock && imageID == host.P().target
      ensures domain == host.P().handle
    {
      this.host, cacheDirLock := host, lock;
      imageID, domain, vmUsername := host.P().target, host.P().handle, "";
    }

    method SetUser(user: string) returns (ok: bool)
      modifies this`vmUsername
      ensures ok <==> user != ""
      ensures vmUsername == if ok then user else old(vmUsername)
    {
      if user == "" {
        return false;
      }
      vmUsername := user;
      return true;
    }

    /** IsRunning through the cached domain: nil is not running, a domain that is gone is an error. */
    method IsRunning() returns (running: bool, failed: bool)
      requires Valid() && host.LooksAtState()
      modifies host
      ensures Valid() && old(host.history) <= host.history
      ensures var r := if failed then Error else if running then Yes else No;
        host.P() == if old(host.P()).pc.Using? then GoUse(old(host.P()).pc.use, old(host.P()), r, 0)
                    else GoDelete(old(host.P()).pc.delete, old(host.P()), r)
      ensures running ==> !failed && domain.Some?
      ensures Quiet(old(host.script)) ==>
        && Quiet(host.script) && SameElsewhere(old(host.w), host.w, imageID) && Image() == old(Image())
        && (failed <==> domain.Some? && !Refers(domain, Image().domain))
        && (running <==> Refers(domain, Image().domain) && Image().domain.Running?)
    {
      var r := host.CallState();
      running, failed := r.Yes?, r.Error?;
    }

    method Shutdown() returns (ok: bool)
      requires Valid() && host.P().pc.Deleting? && host.P().pc.delete.CheckBeforeStop?
      modifies host
      ensures Valid() && old(host.history) <= host.history
      ensures host.P() == old(host.P()).(pc :=
        if ok then Deleting(DeleteStep.Exists(old(host.P()).pc.delete.after)) else Deleting(DeleteStep.Unlock(false)))
      ensures Quiet(old(host.script)) && Exact(domain, old(Image()).domain) ==>
        && Quiet(host.script) && SameElsewhere(old(host.w), host.w, imageID)
        && ok && Image() == old(Image()).(domain := Stopped(old(Image()).domain))
    {
      var running, failed := IsRunning();
      if failed {
        return false;
      }
      if running {
        var r, mid, c := host.CallDelete();
        return r.Yes?;
      }
      return true;
    }

    /** Exists: by name in the list of all domains, not through the cached one. */
    method Exists() returns (found: bool, failed: bool)
      requires Valid() && host.P().pc.Deleting? && host.P().pc.delete.Exists?
      modifies host
      ensures Valid() && old(host.history) <= host.history
      ensures var r := if failed then Error else if found then Yes else No;
        host.P() == GoDelete(old(host.P()).pc.delete, old(host.P()), r)
      ensures found ==> !failed
      ensures Quiet(old(host.script)) ==>
        && Quiet(host.script) && SameElsewhere(old(host.w), host.w, imageID) && Image() == old(Image())
        && !failed && (found <==> !Image().domain.Undefined?)
    {
      var r, mid, c := host.CallDelete();
      found, failed := r.Yes?, r.Error?;
    }

    /** The undefine call of Delete, through the cached domain, which is not nil here. */
    method Undefine() returns (ok: bool)
      requires Valid() && host.P().pc.Deleting? && host.P().pc.delete.Undefine?
      modifies host
      ensures Valid() && old(host.history) <= host.history && domain.Some?
      ensures host.P() == old(host.P()).(pc :=
        if ok then Continue(old(host.P()).pc.delete.after) else Deleting(DeleteStep.Unlock(false)))
      ensures Quiet(old(host.script)) && Exact(domain, old(Image()).domain) && !old(Image()).domain.Running? ==>
        && Quiet(host.script) && SameElsewhere(old(host.w), host.w, imageID)
        && ok && Image() == old(Image()).(domain := Undefined)
    {
      NoNilUndefine(host);
      var r, mid, c := host.CallDelete();
      return r.Yes?;
    }

    /** Delete: stop the guest and undefine the domain, keeping the cache directory. */
    method Delete() returns (ok: bool)
      requires Valid() && host.P().pc.Deleting? && host.P().pc.delete.CheckBeforeStop?
      modifies host
      ensures Valid() && old(host.history) <= host.history
      ensures host.P() == old(host.P()).(pc :=
        if ok then Continue(old(host.P()).pc.delete.after) else Deleting(DeleteStep.Unlock(false)))
      ensures ok && LockMode(host.P().cmd) == Exclusive ==> Image().domain.Undefined?
      ensures Quiet(old(host.script)) && Exact(domain, old(Image()).domain) ==>
        && Quiet(host.script) && SameElsewhere(old(host.w), host.w, imageID)
        && ok && Image() == old(Image()).(domain := Undefined)
    {
      ghost var after := host.P().pc.delete.after;
      DeleteFits(host);
      ok := Shutdown();
      if !ok {
        return;
      }
      var domainExists, failed := Exists();
      if failed {
        return false;
      }
      if domainExists {
        ok := Undefine();
        if !ok {
          return;
        }
      }
      if LockMode(host.P().cmd) == Exclusive {
        DeleteLeavesNoDomain(host, after);
      }
      return true;
    }

    /** DeleteFromCache: RemoveAll of the cache directory. */
    method DeleteFromCache() returns (ok: bool)
      requires Valid() && host.P().pc == Deleting(DeleteStep.ClearCache)
      modifies host
      ensures Valid() && old(host.history) <= host.history
      ensures host.P() == old(host.P()).(pc := Deleting(DeleteStep.Unlock(ok)))
      ensures ok ==> !Image().dir && Image().disk.None? && Image().domain.Undefined?
      ensures Quiet(old(host.script)) ==>
        && Quiet(host.script) && SameElsewhere(old(host.w), host.w, imageID)
        && ok && Image() == Cleared(old(Image()))
    {
      OnlyRemoveClears(host);
      ghost var c;
      ok, c := ClearCache();
      if ok {
        ClearingAgain(old(Image()), c);
        ok := RemoveDir();
      }
    }

    /** RemoveAll up to its last system call: some files are gone. */
    method ClearCache() returns (ok: bool, ghost c: Choice)
      requires Valid() && host.P().pc == Deleting(DeleteStep.ClearCache)
      modifies host
      ensures Valid() && old(host.history) <= host.history
      ensures host.P() == old(host.P()).(pc := Deleting(if ok then DeleteStep.RemoveDir else DeleteStep.Unlock(false)))
      ensures Quiet(old(host.script)) ==>
        && Quiet(host.script) && SameElsewhere(old(host.w), host.w, imageID)
        && ok && Image() == PartlyCleared(old(Image()), c)
    {
      var r, mid, choice := host.CallDelete();
      return r.Yes?, choice;
    }

    /** Its last system call. */
    method RemoveDir() returns (ok: bool)
      requires Valid() && host.P().pc == Deleting(DeleteStep.RemoveDir) && (host.P().cmd.Rm? || host.P().cmd.RmAll?)
      modifies host
      ensures Valid() && old(host.history) <= host.history
      ensures host.P() == old(host.P()).(pc := Deleting(DeleteStep.Unlock(ok)))
      ensures ok ==> !Image().dir && Image().disk.None? && Image().domain.Undefined?
      ensures Quiet(old(host.script)) ==>
        && Quiet(host.script) && SameElsewhere(old(host.w), host.w, imageID)
        && ok && Image() == Cleared(old(Image()))
    {
      var r, mid, c := host.CallDelete();
      if r.Yes? {
        RemoveLeavesNothing(host);
      }
      return r.Yes?;
    }

    /** Run: replace a stopped domain by a new one and start it. */
    method Run() returns (ok: bool)
      requires Valid()
      requires host.P().pc == Using(if domain.Some? then CheckBeforeRun else UseStep.Define)
      modifies host, this
      ensures Valid() && old(host.history) <= host.history
      ensures host.P().cmd == old(host.P().cmd)
      ensures host.P().pc == if ok then Using(UseStep.WriteConfig) else Deleting(DeleteStep.Unlock(false))
      ensures ok ==> domain.Some? && Image().disk.Some?
      ensures Quiet(old(host.script)) && Exact(old(domain), old(Image()).domain) && old(Image()).disk.Some? ==>
        && Quiet(host.script) && SameElsewhere(old(host.w), host.w, imageID)
        && (ok <==> !old(Image()).domain.Running?)
        && (!ok ==> Image() == old(Image()))
        && (ok ==> domain.Some? && Image() == old(Image()).(domain := Running(domain.value, true)))
    {
      if domain.Some? {
        var running, failed := IsRunning();
        if failed || running {
          return false;
        }
        ok := Delete();
        if !ok {
          return;
        }
      }
      ok := DefineAndStart();
      if ok {
        ghost var got;
        ok, got := WaitForVMToBeRunning();
      }
    }

    method DefineAndStart() returns (ok: bool)
      requires Valid() && host.P().pc == Using(UseStep.Define)
      modifies host, this
      ensures Valid() && old(host.history) <= host.history
      ensures host.P().cmd == old(host.P().cmd)
      ensures host.P().pc == if ok then Using(WaitRunning(RUNNING_POLLS)) else Deleting(DeleteStep.Unlock(false))
      ensures Quiet(old(host.script)) && old(Image()).domain.Undefined? && old(Image()).disk.Some? ==>
        && Quiet(host.script) && SameElsewhere(old(host.w), host.w, imageID)
        && ok && domain.Some? && Image() == old(Image()).(domain := Running(domain.value, true))
    {
      ok := Define();
      if ok {
        ok := Start();
      }
    }

    method Define() returns (ok: bool)
      requires Valid() && host.P().pc == Using(UseStep.Define)
      modifies host, this
      ensures Valid() && old(host.history) <= host.history
      ensures host.P() == old(host.P()).(handle := domain, pc :=
        if ok then Using(UseStep.Start) else Deleting(DeleteStep.Unlock(false)))
      ensures Quiet(old(host.script)) && old(Image()).domain.Undefined? ==>
        && Quiet(host.script) && SameElsewhere(old(host.w), host.w, imageID)
        && ok && domain.Some? && Image() == old(Image()).(domain := Off(domain.value))
    {
      var r, mid, c := host.CallUse();
      domain := host.P().handle;
      return !r.Error?;
    }

    method Start() returns (ok: bool)
      requires Valid() && host.P().pc == Using(UseStep.Start)
      modifies host
      ensures Valid() && old(host.history) <= host.history
      ensures host.P() == old(host.P()).(pc :=
        if ok then Using(WaitRunning(RUNNING_POLLS)) else Deleting(DeleteStep.Unlock(false)))
      ensures var img := old(Image());
        Quiet(old(host.script)) && domain.Some? && img.domain == Off(domain.value) && img.disk.Some? ==>
        && Quiet(host.script) && SameElsewhere(old(host.w), host.w, imageID)
        && ok && Image() == old(Image()).(domain := Running(domain.value, true))
    {
      var r, mid, c := host.CallUse();
      return r.Yes?;
    }

    /** One look at the state of the domain while waiting for it to run. */
    method GetState() returns (running: bool, failed: bool)
      requires Valid() && host.P().pc.Using? && host.P().pc.use.WaitRunning?
      modifies host
      ensures Valid() && old(host.history) <= host.history && host.history != []
      ensures Safety.Replies(host.history, host.me) == Safety.Replies(old(host.history), host.me)
        + [if failed then Error else if running then Yes else No]
      ensures host.P() == old(host.P()).(pc :=
        if running then Using(UseStep.WriteConfig)
        else if !failed && old(host.P()).pc.use.polls > 1 then Using(WaitRunning(old(host.P()).pc.use.polls - 1))
        else Deleting(DeleteStep.Unlock(false)))
      ensures running ==> !failed
      ensures !failed ==> (running <==> RunningIn(host.Before()))
      ensures Quiet(old(host.script)) && Refers(domain, old(Image()).domain) && old(Image()).domain.Running? ==>
        Quiet(host.script) && SameElsewhere(old(host.w), host.w, imageID) && Image() == old(Image()) && running
    {
      var r, mid, c := host.CallUse();
      running, failed := r.Yes?, r.Error?;
    }

    static ghost predicate AllNo(replies: seq<Reply>) {
      forall r | r in replies :: r == No
    }

    static lemma OneMore(before: seq<Reply>, got: seq<Reply>, r: Reply)
      ensures before + got + [r] == before + (got + [r])
      ensures (got + [r])[..|got + [r]| - 1] == got
      ensures AllNo(got) && r == No ==> AllNo(got + [r])
    {
    }

    /** The cached domain is running in this world. */
    ghost predicate RunningIn(w: World)
      reads this
    {
      Refers(domain, Img(w, imageID).domain) && Img(w, imageID).domain.Running?
    }

    /** got are the replies to its calls: either one of the first 60 is Yes and ends the wait, or
        one of them is an error and ends it, or all 60 are No. */
    method WaitForVMToBeRunning() returns (ok: bool, ghost got: seq<Reply>)
      requires Valid() && host.P().pc == Using(WaitRunning(RUNNING_POLLS))
      modifies host
      ensures Valid() && old(host.history) <= host.history
      ensures host.P() == old(host.P()).(pc :=
        if ok then Using(UseStep.WriteConfig) else Deleting(DeleteStep.Unlock(false)))
      ensures ok ==> domain.Some? && Image().disk.Some?
      ensures ok ==> host.history != [] && RunningIn(host.Before())
      ensures Safety.Replies(host.history, host.me) == Safety.Replies(old(host.history), host.me) + got
      ensures ok ==> 1 <= |got| <= 60 && AllNo(got[..|got| - 1]) && got[|got| - 1] == Yes
      ensures !ok ==>
        (1 <= |got| <= 60 && AllNo(got[..|got| - 1]) && got[|got| - 1] == Error) || (|got| == 60 && AllNo(got))
      ensures Quiet(old(host.script)) && Refers(domain, old(Image()).domain) && old(Image()).domain.Running? ==>
        && Quiet(host.script) && SameElsewhere(old(host.w), host.w, imageID) && ok && Image() == old(Image())
    {
      var elapsed := 0;
      ghost var before := Safety.Replies(host.history, host.me);
      got := [];
      while elapsed < RUNNING_POLLS
        invariant 0 <= elapsed <= RUNNING_POLLS && Valid() && old(host.history) <= host.history
        invariant Safety.Replies(host.history, host.me) == before + got
        invariant |got| == elapsed && AllNo(got)
        invariant host.P() == old(host.P()).(pc :=
          if elapsed < RUNNING_POLLS then Using(WaitRunning(RUNNING_POLLS - elapsed))
          else Deleting(DeleteStep.Unlock(false)))
        invariant Quiet(old(host.script)) && Refers(domain, old(Image()).domain) && old(Image()).domain.Running? ==>
          elapsed == 0 && Quiet(host.script) && host.w == old(host.w)
      {
        var running, failed := GetState();
        OneMore(before, got, if failed then Error else if running then Yes else No);
        got := got + [if failed then Error else if running then Yes else No];
        if failed {
          return false, got;
        }
        if running {
          StartedVmHasDisk(host);
          return true, got;
        }
        elapsed := elapsed + 1;
      }
      return false, got;
    }

    method WriteConfig() returns (ok: bool)
      requires Valid() && host.P().pc == Using(UseStep.WriteConfig) && host.P().cmd.Run?
      modifies host
      ensures Valid() && old(host.history) <= host.history
      ensures host.P() == old(host.P()).(pc :=
        if !ok then Deleting(DeleteStep.Unlock(false))
        else if old(host.P()).cmd.background then Deleting(DeleteStep.Unlock(true))
        else Using(UseStep.ReadKey))
      ensures Quiet(old(host.script)) && old(Image()).disk.Some? ==>
        && Quiet(host.script) && SameElsewhere(old(host.w), host.w, imageID) && ok
        && Image() == old(Image()).(cfg := Some(ShortId(imageID)))
    {
      var r, mid, c := host.CallUse();
      return r.Yes?;
    }

    /** Read the private key, then dial until the guest answers.  got are the replies to its
        calls: it fails exactly if the key cannot be read or none of 120 dials succeeds. */
    method WaitForSSHToBeReady() returns (ok: bool, ghost got: seq<Reply>)
      requires Valid() && host.P().pc == Using(UseStep.ReadKey)
      modifies host
      ensures Valid() && old(host.history) <= host.history
      ensures host.P() == old(host.P()).(pc := if ok then Using(Session) else Deleting(DeleteStep.Unlock(false)))
      ensures Safety.Replies(host.history, host.me) == Safety.Replies(old(host.history), host.me) + got
      ensures if ok then 2 <= |got| <= 121 && got[0] == Yes && AllNo(got[1..|got| - 1]) && got[|got| - 1] == Yes
              else got == [Error] || (|got| == 121 && got[0] == Yes && AllNo(got[1..]))
      ensures Quiet(old(host.script)) ==>
        && Quiet(host.script) && SameElsewhere(old(host.w), host.w, imageID) && ok && Image() == old(Image())
    {
      var read := ReadKey();
      if !read {
        return false, [Error];
      }
      ghost var dials;
      ok, dials := DialUntilReady();
      got := [Yes] + dials;
      KeyThenDials(Safety.Replies(old(host.history), host.me), dials);
    }

    static lemma KeyThenDials(before: seq<Reply>, dials: seq<Reply>)
      ensures before + [Yes] + dials == before + ([Yes] + dials)
      ensures ([Yes] + dials)[1..] == dials
      ensures dials != [] ==> ([Yes] + dials)[1..|dials|] == dials[..|dials| - 1]
    {
    }

    method ReadKey() returns (ok: bool)
      requires Valid() && host.P().pc == Using(UseStep.ReadKey)
      modifies host
      ensures Valid() && old(host.history) <= host.history
      ensures Safety.Replies(host.history, host.me)
        == Safety.Replies(old(host.history), host.me) + [if ok then Yes else Error]
      ensures host.P() == old(host.P()).(pc :=
        if ok then Using(WaitSsh(SSH_POLLS)) else Deleting(DeleteStep.Unlock(false)))
      ensures Quiet(old(host.script)) ==>
        && Quiet(host.script) && SameElsewhere(old(host.w), host.w, imageID) && ok && Image() == old(Image())
    {
      var r, mid, c := host.CallUse();
      return r.Yes?;
    }

    method DialUntilReady() returns (ok: bool, ghost got: seq<Reply>)
      requires Valid() && host.P().pc == Using(WaitSsh(SSH_POLLS))
      modifies host
      ensures Valid() && old(host.history) <= host.history
      ensures host.P() == old(host.P()).(pc := if ok then Using(Session) else Deleting(DeleteStep.Unlock(false)))
      ensures Safety.Replies(host.history, host.me) == Safety.Replies(old(host.history), host.me) + got
      ensures if ok then 1 <= |got| <= 120 && AllNo(got[..|got| - 1]) && got[|got| - 1] == Yes
              else |got| == 120 && AllNo(got)
      ensures Quiet(old(host.script)) ==>
        && Quiet(host.script) && SameElsewhere(old(host.w), host.w, imageID) && ok && Image() == old(Image())
    {
      var elapsed := 0;
      ghost var before := Safety.Replies(host.history, host.me);
      got := [];
      while elapsed < SSH_POLLS
        invariant 0 <= elapsed <= SSH_POLLS && Valid() && old(host.history) <= host.history
        invariant Safety.Replies(host.history, host.me) == before + got
        invariant |got| == elapsed && AllNo(got)
        invariant host.P() == old(host.P()).(pc :=
          if elapsed < SSH_POLLS then Using(WaitSsh(SSH_POLLS - elapsed)) else Deleting(DeleteStep.Unlock(false)))
        invariant Quiet(old(host.script)) ==>
          && elapsed == 0 && Quiet(host.script) && SameElsewhere(old(host.w), host.w, imageID)
          && Image() == old(Image())
      {
        var ready := Dial();
        OneMore(before, got, if ready then Yes else No);
        got := got + [if ready then Yes else No];
        if ready {
          return true, got;
        }
        elapsed := elapsed + 1;
      }
      return false, got;
    }

    /** One dial. */
    method Dial() returns (ready: bool)
      requires Valid() && host.P().pc.Using? && host.P().pc.use.WaitSsh?
      modifies host
      ensures Valid() && old(host.history) <= host.history
      ensures Safety.Replies(host.history, host.me)
        == Safety.Replies(old(host.history), host.me) + [if ready then Yes else No]
      ensures host.P() == old(host.P()).(pc :=
        if ready then Using(Session)
        else if old(host.P()).pc.use.polls > 1 then Using(WaitSsh(old(host.P()).pc.use.polls - 1))
        else Deleting(DeleteStep.Unlock(false)))
      ensures Quiet(old(host.script)) ==>
        && Quiet(host.script) && SameElsewhere(old(host.w), host.w, imageID) && ready && Image() == old(Image())
    {
      var r, mid, c := host.CallUse();
      return r.Yes?;
    }

    /** RunSSH: the configuration file and the ssh session, as one call. */
    method RunSSH() returns (ok: bool)
      requires Valid() && host.P().pc == Using(Session)
      modifies host
      ensures Valid() && old(host.history) <= host.history
      ensures host.P() == old(host.P()).(pc :=
        if !ok then Deleting(DeleteStep.Unlock(false))
        else if host.P().cmd.Run? && (host.P().cmd.remove || host.P().cmd.hasCmd)
        then Deleting(CheckBeforeStop(ThenUnlock))
        else Deleting(DeleteStep.Unlock(true)))
      ensures Quiet(old(host.script)) ==>
        && Quiet(host.script) && SameElsewhere(old(host.w), host.w, imageID)
        && (ok <==> Image().cfg.Some?) && Image() == old(Image())
    {
      var r, mid, c := host.CallUse();
      return r.Yes?;
    }

    /** GetConfig: the Id in the configuration file, then the state of the domain. */
    method GetConfig() returns (id: string, running: bool, ok: bool)
      requires Valid() && host.P().pc == Using(LoadConfig)
      modifies host
      ensures Valid() && old(host.history) <= host.history
      ensures host.P() == old(host.P()).(pc := Deleting(DeleteStep.Unlock(ok)))
      ensures ok ==> id == ShortId(imageID)
      ensures Quiet(old(host.script)) && Exact(domain, old(Image()).domain) ==>
        && Quiet(host.script) && SameElsewhere(old(host.w), host.w, imageID) && Image() == old(Image())
        && (ok <==> Image().cfg.Some?)
        && (ok ==> id == Image().cfg.value && (running <==> Image().domain.Running?))
    {
      var read;
      id, read := LoadConfigFile();
      if !read {
        return "", false, false;
      }
      var failed;
      running, failed := IsRunning();
      ok := !failed;
    }

    method LoadConfigFile() returns (id: string, ok: bool)
      requires Valid() && host.P().pc == Using(LoadConfig)
      modifies host
      ensures Valid() && old(host.history) <= host.history
      ensures host.P() == old(host.P()).(pc := if ok then Using(CheckState) else Deleting(DeleteStep.Unlock(false)))
      ensures ok ==> id == ShortId(imageID)
      ensures Quiet(old(host.script)) ==>
        && Quiet(host.script) && SameElsewhere(old(host.w), host.w, imageID) && Image() == old(Image())
        && (ok <==> Image().cfg.Some?) && (ok ==> id == Image().cfg.value)
    {
      var r, mid, c := host.CallUse();
      if !r.Config? {
        return "", false;
      }
      ConfigHasShortId(host.history[..|host.history| - 1], imageID);
      return r.id, true;
    }

    method Unlock()
      requires Valid() && host.P().pc.Deleting? && host.P().pc.delete.Unlock?
      modifies host, cacheDirLock
      ensures host.Valid() && old(host.history) <= host.history && cacheDirLock.held.None?
      ensures Ended(old(host.P()), host.P(), old(host.P()).pc.delete.ok)
      ensures Quiet(old(host.script)) ==>
        && Quiet(host.script) && SameElsewhere(old(host.w), host.w, imageID)
        && Img(host.w, imageID) == Unlocked(old(Image()), old(cacheDirLock.held).value)
    {
      cacheDirLock.Unlock();
    }
  }

  lemma ConfigHasShortId(history: seq<Move>, id: ImageId)
    requires Img(Exec(START, history), id).cfg.Some? && |id| >= SHORT_LENGTH
    ensures Img(Exec(START, history), id).cfg.value == ShortId(id)
  {
    Safety.ReachableIsOk(history);
    Safety.ImageFacts(Exec(START, history), id);
  }

  /** At the lookup of the domain the directory is there. */
  lemma LookupHasDir(history: seq<Move>, me: nat)
    requires me in Exec(START, history).procs && Exec(START, history).procs[me].pc == Opening(Lookup)
    ensures var w := Exec(START, history); Img(w, w.procs[me].target).dir && |w.procs[me].target| == ID_LENGTH
  {
    var w := Exec(START, history);
    Safety.ReachableIsOk(history);
    Safety.LocalFacts(w, me);
    assert w.procs[me].target in w.dirs;
  }

  lemma ListedIsThere(w: World, history: seq<Move>, id: ImageId)
    requires w == Exec(START, history)
    ensures Entry(id, true) in Entries(w) <==> Img(w, id).dir
    ensures Img(w, id).dir ==> |id| == ID_LENGTH
  {
    Safety.ReachableIsOk(history);
    assert DirsOk(w);
    if id in w.dirs {
      var i :| 0 <= i < |w.dirs| && w.dirs[i] == id;
      assert Entries(w)[i] == Entry(id, true);
    }
  }

  /** What LastMatch finds in the listing of a world is a directory of that world. */
  lemma FoundIsThere(w: World, history: seq<Move>, key: string)
    requires w == Exec(START, history) && LastMatch(Entries(w), key).Some?
    ensures var id := LastMatch(Entries(w), key).value; Img(w, id).dir && |id| == ID_LENGTH && key <= id
  {
    LastMatchIsLast(Entries(w), key);
    var k :| LastMatchAt(Entries(w), key, k) && Entries(w)[k].name == LastMatch(Entries(w), key).value;
    assert Entries(w)[k] in Entries(w);
    ListedIsThere(w, history, Entries(w)[k].name);
  }

  /** An id resolves exactly if it is a prefix of the id of an image with a directory. */
  lemma ResolvesIffPrefix(w: World, history: seq<Move>, key: string)
    requires w == Exec(START, history)
    ensures LastMatch(Entries(w), key).Some? <==> exists id :: Img(w, id).dir && key <= id
  {
    LastMatchIsLast(Entries(w), key);
    if LastMatch(Entries(w), key).Some? {
      FoundIsThere(w, history, key);
    }
    if id :| Img(w, id).dir && key <= id {
      ListedIsThere(w, history, id);
      assert Matches(Entry(id, true), key);
    }
  }

  /** GetVMCachePath on the listing read by the call. */
  method ResolveId(host: Host, imageID: string) returns (found: bool)
    requires host.Valid() && host.P().pc == Opening(Resolve(imageID))
    modifies host
    ensures host.Valid() && old(host.history) <= host.history && |old(host.history)| < |host.history|
    ensures found ==> host.P() == old(host.P()).(pc := Opening(OpenStep.LockVm), target := host.P().target)
    ensures found ==> |host.P().target| == ID_LENGTH && imageID <= host.P().target && imageID != ""
    ensures found ==> LastMatch(Entries(host.Before()), imageID) == Some(host.P().target)
    ensures found ==> Img(host.Before(), host.P().target).dir
    ensures !found ==> Ended(old(host.P()), host.P(), false)
    ensures Quiet(old(host.script)) ==>
      && Quiet(host.script) && (forall id :: Img(host.w, id) == Img(old(host.w), id)) && host.Before() == old(host.w)
      && (found <==> imageID != "" && LastMatch(Entries(old(host.w)), imageID).Some?)
      && (found <==> imageID != "" && exists id :: Img(old(host.w), id).dir && imageID <= id)
  {
    ResolvesIffPrefix(host.w, host.history, imageID);
    var entries;
    entries, found := ReadListing(host, imageID);
    if !found {
      return;
    }
    var fullImageId := GetVMCachePath(entries, imageID);
    if fullImageId.Some? {
      FoundIsThere(host.Before(), host.history[..|host.history| - 1], imageID);
    }
    return fullImageId.Some?;
  }

  /** The listing that GetVMCachePath goes through, and where the program goes with it. */
  method ReadListing(host: Host, imageID: string) returns (entries: seq<Entry>, ok: bool)
    requires host.Valid() && host.P().pc == Opening(Resolve(imageID))
    modifies host
    ensures host.Valid() && old(host.history) <= host.history && |old(host.history)| < |host.history|
    ensures ok ==> imageID != "" && entries == Entries(host.Before())
    ensures host.P() == if ok && LastMatch(entries, imageID).Some?
                        then old(host.P()).(target := LastMatch(entries, imageID).value, pc := Opening(OpenStep.LockVm))
                        else EndItem(old(host.P()), false)
    ensures !ok || LastMatch(entries, imageID).None? ==> Ended(old(host.P()), host.P(), false)
    ensures Quiet(old(host.script)) ==>
      && Quiet(host.script) && (forall id :: Img(host.w, id) == Img(old(host.w), id)) && host.Before() == old(host.w)
      && (ok <==> imageID != "")
  {
    host.Shape();
    var r, mid, c := host.Call();
    return if r.Names? then r.entries else [], r.Names?;
  }

  /** The handle is on image id of world w, locked by a new instance and otherwise unchanged,
      and caches its domain. */
  ghost predicate OpenedOn(vm: BootcVM, w: World, id: ImageId, mode: Mode)
    requires vm.Valid()
    reads vm, vm.host, vm.cacheDirLock
  {
    var i := vm.cacheDirLock.held.value;
    && vm.imageID == id && CanLock(Img(w, id).holders, mode) && i !in Img(w, id).holders
    && vm.Image() == Locked(Img(w, id), i, Holder(vm.host.me, mode))
    && Exact(vm.domain, Img(w, id).domain)
    && SameElsewhere(w, vm.host.w, id)
  }

  /** The handle holds its image's lock in this mode. */
  ghost predicate HeldAs(vm: BootcVM, mode: Mode)
    requires vm.Valid()
    reads vm, vm.host, vm.cacheDirLock
  {
    var i := vm.cacheDirLock.held.value;
    i in vm.Image().holders && vm.Image().holders[i] == Holder(vm.host.me, mode)
  }

  lemma LockIsHeld(vm: BootcVM)
    requires vm.Valid() && vm.host.P().pc == FirstUse(vm.host.P().cmd)
    ensures HeldAs(vm, LockMode(vm.host.P().cmd))
  {
    vm.host.Shape();
  }

  /** loadExistingDomain, under the lock; the domain found is host.P().handle. */
  method LoadExistingDomain(host: Host) returns (ok: bool)
    requires host.Valid() && host.P().pc == Opening(Lookup)
    modifies host
    ensures host.Valid() && old(host.history) <= host.history && host.history != []
    ensures host.P() == old(host.P()).(handle := host.P().handle,
                                       pc := if ok then FirstUse(host.P().cmd) else Deleting(DeleteStep.Unlock(false)))
    ensures host.Mine().dir && |host.P().target| == ID_LENGTH
    ensures ok ==> Exact(host.P().handle, Img(host.Before(), host.P().target).domain)
    ensures Quiet(old(host.script)) ==>
      && Quiet(host.script) && SameElsewhere(old(host.w), host.w, host.P().target)
      && ok && host.Mine() == old(host.Mine()) && Exact(host.P().handle, host.Mine().domain)
  {
    var r, mid, c := host.Call();
    LookupHasDir(host.history[..|host.history| - 1], host.me);
    return !r.Error?;
  }

  /** NewVM after the id is resolved: lockVM, then loadExistingDomain. */
  method OpenVM(host: Host) returns (vm: BootcVM?)
    requires host.Valid() && host.P().pc == Opening(OpenStep.LockVm)
    modifies host
    ensures host.Valid() && old(host.history) <= host.history && host.P().cmd == old(host.P().cmd)
    ensures vm == null ==> Ended(old(host.P()), host.P(), false)
    ensures vm != null ==> fresh(vm) && fresh(vm.cacheDirLock) && vm.host == host && vm.Valid()
    ensures vm != null ==> host.P().pc == FirstUse(host.P().cmd) && host.P().todo == old(host.P().todo)
    ensures vm != null ==> vm.imageID == old(host.P().target) && vm.Image().dir && HeldAs(vm, LockMode(host.P().cmd))
    ensures vm != null ==> host.history != [] && Exact(vm.domain, Img(host.Before(), vm.imageID).domain)
    ensures Quiet(old(host.script)) ==> Quiet(host.script)
    ensures Quiet(old(host.script)) && vm != null ==>
      OpenedOn(vm, old(host.w), old(host.P().target), LockMode(host.P().cmd))
    ensures Quiet(old(host.script)) && vm == null ==>
      && (forall id :: Img(host.w, id) == Img(old(host.w), id))
      && (old(host.Mine()).dir ==> !CanLock(old(host.Mine()).holders, LockMode(host.P().cmd)))
  {
    var lock, locked := LockVM(host, LockMode(host.P().cmd));
    if !locked {
      return null;
    }
    var ok := LoadExistingDomain(host);
    if !ok {
      lock.Unlock();
      return null;
    }
    vm := new BootcVM(host, lock);
    LockIsHeld(vm);
  }

  /** While history grew to later, key was resolved to id in the listing of some moment. */
  ghost predicate ResolvedSince(history: seq<Move>, later: seq<Move>, key: string, id: string) {
    exists k :: |history| <= k < |later| && LastMatch(Entries(Exec(START, later[..k])), key) == Some(id)
  }

  lemma ResolvedLongAgo(history: seq<Move>, resolved: seq<Move>, later: seq<Move>, key: string, id: string)
    requires |history| < |resolved| && resolved <= later
    ensures LastMatch(Entries(Exec(START, resolved[..|resolved| - 1])), key) == Some(id) ==>
      ResolvedSince(history, later, key, id)
  {
    assert later[..|resolved| - 1] == resolved[..|resolved| - 1];
  }

  /** NewVM. */
  method NewVM(host: Host, imageID: string) returns (vm: BootcVM?)
    requires host.Valid() && host.P().pc == Opening(Resolve(imageID))
    modifies host
    ensures host.Valid() && old(host.history) <= host.history && host.P().cmd == old(host.P().cmd)
    ensures vm == null ==> Ended(old(host.P()), host.P(), false)
    ensures vm != null ==> fresh(vm) && fresh(vm.cacheDirLock) && vm.host == host && vm.Valid()
    ensures vm != null ==> host.P().pc == FirstUse(host.P().cmd) && host.P().todo == old(host.P().todo)
    ensures vm != null ==> imageID != "" && imageID <= vm.imageID && vm.Image().dir
    ensures vm != null ==> ResolvedSince(old(host.history), host.history, imageID, vm.imageID)
    ensures vm != null ==> HeldAs(vm, LockMode(host.P().cmd))
    ensures vm != null ==> host.history != [] && Exact(vm.domain, Img(host.Before(), vm.imageID).domain)
    ensures Quiet(old(host.script)) ==> Quiet(host.script)
    ensures Quiet(old(host.script)) && vm != null ==>
      && LastMatch(Entries(old(host.w)), imageID) == Some(vm.imageID)
      && OpenedOn(vm, old(host.w), vm.imageID, LockMode(host.P().cmd))
    ensures Quiet(old(host.script)) && vm == null ==>
      && (forall id :: Img(host.w, id) == Img(old(host.w), id))
      && (imageID == "" || LastMatch(Entries(old(host.w)), imageID).None?
          || !CanLock(Img(old(host.w), LastMatch(Entries(old(host.w)), imageID).value).holders, LockMode(host.P().cmd)))
  {
    var found := ResolveId(host, imageID);
    if !found {
      return null;
    }
    ghost var resolved := host.history;
    vm := OpenVM(host);
    ResolvedLongAgo(old(host.history), resolved, host.history, imageID, if vm == null then "" else vm.imageID);
  }

  /** Instances are new: the one taken is in nobody's hands before. */
  lemma FreshInstance(history: seq<Move>, id: ImageId, i: nat)
    ensures i >= Exec(START, history).next ==> i !in Img(Exec(START, history), id).holders
  {
    Safety.ReachableIsOk(history);
    Safety.ImageFacts(Exec(START, history), id);
  }
}
