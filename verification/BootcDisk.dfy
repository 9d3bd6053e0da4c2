/** pkg/bootc/bootc_disk.go: installing the disk of an image, as pieces of a run of the
    system (see VirtualMachine for how the contracts are built). */
module BootcDisk {
  import opened Common
  import opened Protocol
  import opened Invariant
  import opened Machine
  import opened VirtualMachine
  import Size = DiskSize
  import Safety
  import Labels
  import TempDisks

  /** A finished install of image id of the given size. */
  ghost predicate InstalledAs(d: Disk, id: ImageId, size: int) {
    d.size == size && d.content == Complete(id) && d.meta == Some(Digest(id))
  }

  /** ftruncate accepts the size computed from the command's inputs. */
  ghost predicate SizeAccepted(cmd: Command)
    requires cmd.Run?
  {
    Size.FinalSize(cmd.imageSize, cmd.request).Some? && Size.FinalSize(cmd.imageSize, cmd.request).value >= 0
  }

  /** img' is img after publishing a disk of image id. */
  ghost predicate Published(img: Image, img': Image, cmd: Command)
    requires cmd.Run?
  {
    && SizeAccepted(cmd) && img'.disk.Some?
    && InstalledAs(img'.disk.value, cmd.image, Size.FinalSize(cmd.imageSize, cmd.request).value)
    && img' == img.(disk := img'.disk, renames := img.renames + 1)
  }

  /** Undisturbed, Install succeeds for these images. */
  ghost predicate CanInstall(img: Image, cmd: Command)
    requires cmd.Run?
  {
    img.holders == map[] && (img.disk.Some? || SizeAccepted(cmd))
  }

  /** It keeps a published disk, or publishes one. */
  ghost predicate InstallOutcome(img: Image, img': Image, cmd: Command)
    requires cmd.Run?
  {
    if img.disk.Some? then img' == img.(dir := true) else Published(img.(dir := true), img', cmd)
  }

  /** Undisturbed, a failure leaves at most an empty directory or a temporary disk behind. */
  ghost predicate FailedOutcome(img: Image, img': Image) {
    img' == img.(dir := img'.dir, temps := img'.temps)
  }

  /** The disk carries the digest of image id and holds what the name given to run denoted when
      it was built: image id itself exactly if the name still denoted it then. */
  ghost predicate WellLabelled(history: seq<Move>, id: ImageId, d: Disk) {
    && d.meta == Some(Digest(id)) && d.content.Complete?
    && Labels.BuiltFor(history, id, d.inode) == Some(d.content.image)
  }

  /** After this run, process me alone has the image locked, and its disk is published. */
  ghost predicate DiskInHand(history: seq<Move>, id: ImageId, me: nat) {
    var img := Img(Exec(START, history), id);
    && img.disk.Some? && WellLabelled(history, id, img.disk.value)
    && (exists i :: img.holders == map[i := Holder(me, Exclusive)])
  }

  lemma InstallIsRun(host: Host)
    requires host.Valid() && host.P().pc.Installing?
    ensures host.P().cmd.Run? && WellFormed(host.P().cmd)
    ensures host.P().pc.install.Pull? || host.P().target == host.P().cmd.image
    ensures host.P().pc.install.Pull? || host.P().pc.install.LockInstall? <==> host.P().lock.None?
  {
    host.Shape();
  }

  lemma InstalledDisk(host: Host)
    requires host.Valid() && host.P().pc == Installing(UnlockInstall(true))
    ensures host.P().lock.Some? && host.Mine().disk.Some?
    ensures WellLabelled(host.history, host.P().target, host.Mine().disk.value)
    ensures host.Mine().holders == map[host.P().lock.value := Holder(host.me, Exclusive)]
  {
    Safety.ReachableIsOk(host.history);
    Safety.SuccessfulInstallLeavesADisk(host.w, host.me);
    Safety.ImageFacts(host.w, host.P().target);
    Labels.DisksAreFromBuilds(host.history, host.P().target);
  }

  lemma ReadMetaSucceeds(host: Host, mid: World, history: seq<Move>, c: Choice)
    requires mid == Exec(START, history) && host.me in mid.procs && mid.procs[host.me].pc == Installing(ReadMeta)
    ensures Answer(mid.procs[host.me], Img(mid, mid.procs[host.me].target), Entries(mid), c) == Yes
  {
    Safety.ReachableIsOk(history);
    Safety.LocalFacts(mid, host.me);
    Safety.DiskIsReused(host.me, mid.procs[host.me], Img(mid, mid.procs[host.me].target), Entries(mid), c, mid.next);
  }

  lemma NewTempIsNew(history: seq<Move>, id: ImageId)
    ensures var w := Exec(START, history); w.next !in Img(w, id).temps
  {
    Safety.ReachableIsOk(history);
    Safety.ImageFacts(Exec(START, history), id);
  }

  /** TempDisks.InstallCleansUp for the calls made since history0. */
  lemma CleanedUp(host: Host, w0: World, history0: seq<Move>, ok: bool) returns (got: seq<Reply>)
    requires host.Valid() && w0 == Exec(START, history0) && history0 <= host.history
    requires host.me in w0.procs && w0.procs[host.me].pc == Installing(CreateTemp)
    requires host.P().pc == Installing(UnlockInstall(ok))
    ensures got == Safety.RepliesFrom(w0, host.history[|history0|..], host.me)
    ensures host.P().target == w0.procs[host.me].target
    ensures TempDisks.Stage(UnlockInstall(ok), host.P().temp, Img(w0, host.P().target), host.Mine(), got)
  {
    var moves := host.history[|history0|..];
    got := Safety.RepliesFrom(w0, moves, host.me);
    assert host.history == history0 + moves;
    ExecConcat(START, history0, moves);
    Safety.ReachableIsOk(history0);
    TempDisks.InstallCleansUp(w0, moves, host.me, ok);
  }

  class BootcDisk {
    const host: Host
    var imageId: ImageId
    var file: nat

    ghost predicate Valid()
      reads this, host
    {
      host.Valid() && imageId == host.P().target && file == host.P().temp
    }

    ghost function Image(): Image
      requires host.Valid()
      reads host
    {
      host.Mine()
    }

    constructor (host: Host)
      requires host.Valid()
      ensures Valid() && this.host == host
    {
      this.host := host;
      imageId, file := host.P().target, host.P().temp;
    }

    /** bootcInstallImageToDisk: build in a temporary file, write its digest, rename it.  got are
        the replies to its calls in this order.  A failure after the size was accepted makes one
        more call, which removes the file; if that succeeds, nothing is left of it.  What others
        do meanwhile, they do not do to this image. */
    method BootcInstallImageToDisk() returns (ok: bool, ghost got: seq<Reply>)
      requires Valid() && host.P().pc == Installing(InstallStep.CreateTemp)
      requires host.P().cmd.Run? && WellFormed(host.P().cmd)
      requires host.P().target == host.P().cmd.image
      modifies this, host
      ensures Valid() && old(host.history) <= host.history
      ensures host.P() == old(host.P()).(pc := Installing(UnlockInstall(ok)), temp := host.P().temp)
      ensures got == Safety.RepliesFrom(old(host.w), host.history[|old(host.history)|..], host.me)
      ensures TempDisks.Stage(UnlockInstall(ok), file, old(Image()), Image(), got)
      ensures Quiet(old(host.script)) ==>
        && Quiet(host.script) && SameElsewhere(old(host.w), host.w, imageId)
        && (ok <==> SizeAccepted(host.P().cmd))
        && (ok ==> Published(old(Image()), Image(), host.P().cmd))
        && (!ok ==> Image() == old(Image()).(temps := Image().temps))
    {
      NewTempIsNew(host.history, imageId);
      ok := CreateSizedTemp();
      if ok {
        ok := FillAndRename();
      }
      got := CleanedUp(host, old(host.w), old(host.history), ok);
    }

    method CreateSizedTemp() returns (ok: bool)
      requires Valid() && host.P().pc == Installing(InstallStep.CreateTemp)
      requires host.P().cmd.Run? && WellFormed(host.P().cmd)
      modifies this, host
      ensures Valid() && old(host.history) <= host.history
      ensures host.P() == old(host.P()).(pc :=
        if ok then Installing(Build) else Installing(UnlockInstall(false)), temp := host.P().temp)
      ensures ok ==> SizeAccepted(host.P().cmd)
      ensures Quiet(old(host.script)) ==>
        && Quiet(host.script) && SameElsewhere(old(host.w), host.w, imageId)
        && (ok <==> SizeAccepted(host.P().cmd))
        && file == old(host.w).next
        && Image() == old(Image()).(temps := old(Image()).temps[file :=
             Disk(file, if ok then Size.FinalSize(host.P().cmd.imageSize, host.P().cmd.request).value else 0,
                  Partial, None)])
    {
      ok := CreateTemp();
      if ok {
        ok := SizeTemp();
      }
    }

    method CreateTemp() returns (ok: bool)
      requires Valid() && host.P().pc == Installing(InstallStep.CreateTemp)
      modifies this, host
      ensures Valid() && old(host.history) <= host.history
      ensures host.P() == old(host.P()).(pc :=
        if ok then Installing(Truncate) else Installing(UnlockInstall(false)), temp := host.P().temp)
      ensures Quiet(old(host.script)) ==>
        && Quiet(host.script) && SameElsewhere(old(host.w), host.w, imageId) && ok && file == old(host.w).next
        && Image() == old(Image()).(temps := old(Image()).temps[file := Disk(file, 0, Partial, None)])
    {
      var r, mid, c := host.CallInstall();
      file := host.P().temp;
      return r.Fresh?;
    }

    method SizeTemp() returns (ok: bool)
      requires Valid() && host.P().pc == Installing(Truncate) && host.P().cmd.Run? && WellFormed(host.P().cmd)
      modifies host
      ensures Valid() && old(host.history) <= host.history
      ensures host.P() == old(host.P()).(pc := if ok then Installing(Build) else Installing(UnlockInstall(false)))
      ensures ok ==> SizeAccepted(host.P().cmd)
      ensures Quiet(old(host.script)) && file in old(Image()).temps ==>
        && Quiet(host.script) && SameElsewhere(old(host.w), host.w, imageId)
        && (ok <==> SizeAccepted(host.P().cmd))
        && Image() == (if ok then old(Image()).(temps := old(Image()).temps[file :=
             old(Image()).temps[file].(size := Size.FinalSize(host.P().cmd.imageSize, host.P().cmd.request).value)])
             else old(Image()))
    {
      var size := Size.ComputeDiskSize(host.P().cmd.imageSize, host.P().cmd.request);
      var r, mid, c := host.CallInstall();
      return size.Some? && r.Yes?;
    }

    /** The rename takes away the file that was filled before. */
    lemma FilledThenRenamed(temps: map<nat, Disk>, filled: Disk)
      requires file in temps
      ensures temps[file := filled] - {file} == temps - {file}
    {
    }

    method FillAndRename() returns (ok: bool)
      requires Valid() && host.P().pc == Installing(Build)
      modifies host
      ensures Valid() && old(host.history) <= host.history
      ensures host.P() == old(host.P()).(pc := Installing(UnlockInstall(ok)))
      ensures Quiet(old(host.script)) && file in old(Image()).temps ==>
        && Quiet(host.script) && SameElsewhere(old(host.w), host.w, imageId) && ok
        && Image() == old(Image()).(
             disk := Some(old(Image()).temps[file].(content := Complete(imageId), meta := Some(Digest(imageId)))),
             temps := old(Image()).temps - {file}, renames := old(Image()).renames + 1)
    {
      ok := FillTemp();
      if ok {
        if file in old(Image()).temps {
          FilledThenRenamed(old(Image()).temps,
                            old(Image()).temps[file].(content := Complete(imageId), meta := Some(Digest(imageId))));
        }
        ok := RenameToDisk();
      }
      if !ok {
        var r, mid, c := host.CallInstall();
      }
    }

    method FillTemp() returns (ok: bool)
      requires Valid() && host.P().pc == Installing(Build)
      modifies host
      ensures Valid() && old(host.history) <= host.history
      ensures host.P() == old(host.P()).(pc := if ok then Installing(Rename) else Installing(DropTemp))
      ensures Quiet(old(host.script)) && file in old(Image()).temps ==>
        && Quiet(host.script) && SameElsewhere(old(host.w), host.w, imageId) && ok
        && Image() == old(Image()).(temps := old(Image()).temps[file :=
             old(Image()).temps[file].(content := Complete(imageId), meta := Some(Digest(imageId)))])
    {
      ok := RunInstallContainer();
      if ok {
        ok := SetMeta();
      }
    }

    method RunInstallContainer() returns (ok: bool)
      requires Valid() && host.P().pc == Installing(Build)
      modifies host
      ensures Valid() && old(host.history) <= host.history
      ensures host.P() == old(host.P()).(pc := if ok then Installing(WriteMeta) else Installing(DropTemp))
      ensures Quiet(old(host.script)) && file in old(Image()).temps ==>
        && Quiet(host.script) && SameElsewhere(old(host.w), host.w, imageId) && ok
        && Image() == old(Image()).(temps := old(Image()).temps[file :=
             old(Image()).temps[file].(content := Complete(imageId))])
    {
      var r, mid, c := host.CallInstall();
      return r.Yes?;
    }

    method SetMeta() returns (ok: bool)
      requires Valid() && host.P().pc == Installing(WriteMeta)
      modifies host
      ensures Valid() && old(host.history) <= host.history
      ensures host.P() == old(host.P()).(pc := if ok then Installing(Rename) else Installing(DropTemp))
      ensures Quiet(old(host.script)) && file in old(Image()).temps ==>
        && Quiet(host.script) && SameElsewhere(old(host.w), host.w, imageId) && ok
        && Image() == old(Image()).(temps := old(Image()).temps[file :=
             old(Image()).temps[file].(meta := Some(Digest(imageId)))])
    {
      var r, mid, c := host.CallInstall();
      return r.Yes?;
    }

    method RenameToDisk() returns (ok: bool)
      requires Valid() && host.P().pc == Installing(Rename)
      modifies host
      ensures Valid() && old(host.history) <= host.history
      ensures host.P() == old(host.P()).(pc := if ok then Installing(UnlockInstall(true)) else Installing(DropTemp))
      ensures Quiet(old(host.script)) && file in old(Image()).temps ==>
        && Quiet(host.script) && SameElsewhere(old(host.w), host.w, imageId) && ok
        && Image() == old(Image()).(disk := Some(old(Image()).temps[file]), temps := old(Image()).temps - {file},
             renames := old(Image()).renames + 1)
    {
      var r, mid, c := host.CallInstall();
      return r.Yes?;
    }

    /** getOrInstallImageToDisk: reuse the disk if its digest is the image's, else install. */
    method GetOrInstallImageToDisk() returns (ok: bool)
      requires Valid() && host.P().pc == Installing(OpenDisk)
      modifies this, host
      ensures Valid() && old(host.history) <= host.history
      ensures host.P() == old(host.P()).(pc := Installing(UnlockInstall(ok)), temp := host.P().temp)
      ensures ok ==> Image().disk.Some? && WellLabelled(host.history, imageId, Image().disk.value)
      ensures Quiet(old(host.script)) ==> Quiet(host.script) && SameElsewhere(old(host.w), host.w, imageId)
      ensures Quiet(old(host.script)) && old(Image()).disk.Some? ==> ok && Image() == old(Image())
      ensures Quiet(old(host.script)) && old(Image()).disk.None? && host.P().cmd.Run? ==>
        && (ok <==> SizeAccepted(host.P().cmd))
        && (ok ==> Published(old(Image()), Image(), host.P().cmd))
        && (!ok ==> Image() == old(Image()).(temps := Image().temps))
    {
      InstallIsRun(host);
      var r, mid, c := host.CallInstall();
      if r.Error? {
        return false;
      }
      var reuse := false;
      if r.Yes? {
        reuse := CompareDigest();
      }
      if reuse {
        ok := true;
      } else {
        ghost var got;
        ok, got := BootcInstallImageToDisk();
      }
      if ok {
        InstalledDisk(host);
      }
    }

    /** The digest comparison; it never asks for a rebuild (see ExistingDiskIsAlwaysReused). */
    method CompareDigest() returns (same: bool)
      requires Valid() && host.P().pc == Installing(ReadMeta)
      modifies host
      ensures Valid() && old(host.history) <= host.history
      ensures same && host.P() == old(host.P()).(pc := Installing(UnlockInstall(true)))
      ensures Quiet(old(host.script)) ==>
        Quiet(host.script) && SameElsewhere(old(host.w), host.w, imageId) && Image() == old(Image())
    {
      var r, mid, c := host.CallInstall();
      ReadMetaSucceeds(host, mid, host.history[..|host.history| - 1], c);
      return r.Yes?;
    }

    /** Install.  at is the length of the history just before the lock is given back. */
    method Install() returns (ok: bool, ghost at: nat)
      requires Valid() && host.P().pc == Installing(Pull)
      modifies this, host
      ensures Valid() && old(host.history) <= host.history && at <= |host.history|
      ensures host.P().cmd == old(host.P().cmd) && host.P().todo == old(host.P().todo)
      ensures host.P().handle == old(host.P().handle)
      ensures host.P().pc == (if ok then Opening(FreePort) else Done(false)) && host.P().lock.None?
      ensures ok ==> host.P().cmd.Run? && imageId == host.P().cmd.image == host.P().target
      ensures ok ==> DiskInHand(host.history[..at], imageId, host.me)
      ensures Quiet(old(host.script)) && host.P().cmd.Run? ==>
        && Quiet(host.script) && SameElsewhere(old(host.w), host.w, host.P().cmd.image)
        && (ok <==> CanInstall(Img(old(host.w), host.P().cmd.image), host.P().cmd))
        && (ok ==> InstallOutcome(Img(old(host.w), host.P().cmd.image), Img(host.w, host.P().cmd.image), host.P().cmd))
        && (!ok ==> FailedOutcome(Img(old(host.w), host.P().cmd.image), Img(host.w, host.P().cmd.image)))
    {
      InstallIsRun(host);
      var r, mid, c := host.CallInstall();
      imageId := host.P().target;
      if !r.Yes? {
        return false, 0;
      }
      InstallIsRun(host);
      ok, at := InstallUnderLock();
    }

    method MakeDirAndDisk() returns (ok: bool)
      requires Valid() && host.P().pc == Installing(MakeDir) && host.P().cmd.Run?
      modifies this, host
      ensures Valid() && old(host.history) <= host.history
      ensures host.P() == old(host.P()).(pc := Installing(UnlockInstall(ok)), temp := host.P().temp)
      ensures ok ==> DiskInHand(host.history, imageId, host.me)
      ensures Quiet(old(host.script)) ==>
        && Quiet(host.script) && SameElsewhere(old(host.w), host.w, imageId)
        && (ok <==> old(Image()).disk.Some? || SizeAccepted(host.P().cmd))
        && (ok ==> InstallOutcome(old(Image()), Image(), host.P().cmd))
        && (!ok ==> FailedOutcome(old(Image()), Image()))
    {
      var r, mid, c := host.CallInstall();
      if !r.Yes? {
        return false;
      }
      ok := GetOrInstallImageToDisk();
      if ok {
        InstalledDisk(host);
      }
    }

    method InstallUnderLock() returns (ok: bool, ghost at: nat)
      requires Valid() && host.P().pc == Installing(LockInstall) && host.P().cmd.Run? && imageId == host.P().cmd.image
      requires host.P().lock.None?
      modifies this, host
      ensures Valid() && old(host.history) <= host.history && at <= |host.history|
      ensures host.P().cmd == old(host.P().cmd) && host.P().todo == old(host.P().todo)
      ensures host.P().handle == old(host.P().handle)
      ensures host.P().pc == (if ok then Opening(FreePort) else Done(false)) && host.P().lock.None?
      ensures imageId == old(imageId)
      ensures ok ==> DiskInHand(host.history[..at], imageId, host.me)
      ensures Quiet(old(host.script)) ==>
        && Quiet(host.script) && SameElsewhere(old(host.w), host.w, imageId)
        && (ok <==> CanInstall(old(Image()), host.P().cmd))
        && (ok ==> InstallOutcome(old(Image()), Image(), host.P().cmd))
        && (!ok ==> FailedOutcome(old(Image()), Image()))
    {
      var lock := new CacheLock(host);
      var locked, failed := lock.TryLock(Exclusive);
      if !locked {
        return false, 0;
      }
      ghost var i := lock.held.value;
      ok := MakeDirAndDisk();
      at := |host.history|;
      ghost var before := host.history;
      lock.Unlock();
      assert host.history[..at] == before;
      if Quiet(old(host.script)) {
        UnlockUndoesLock(old(Image()), i, Holder(host.me, Exclusive));
      }
    }
  }
}
