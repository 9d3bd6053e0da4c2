/** What becomes of the temporary disks of Install: a failed install removes its own, if the
    remove call succeeds, and leaves those of others alone. */
module TempDisks {
  import opened Common
  import opened Protocol
  import opened Invariant
  import Safety

  /** Nothing has changed but temporary disk file; the guest may have powered off. */
  ghost predicate OnlyTemp(img: Image, img': Image, file: nat) {
    && img' == img.(domain := img'.domain, temps := img'.temps)
    && img'.temps - {file} == img.temps - {file}
  }

  /** A new temporary disk is being filled. */
  ghost predicate Filling(img: Image, img': Image, file: nat) {
    file !in img.temps && file in img'.temps && OnlyTemp(img, img', file)
  }

  ghost predicate Published(img: Image, img': Image, file: nat) {
    && file !in img.temps && img'.disk.Some? && img'.disk.value.inode == file
    && img' == img.(domain := img'.domain, disk := img'.disk, renames := img.renames + 1)
  }

  /** How far the install is that began at img, after these replies to its calls: create,
      truncate, build, write the digest, rename.  The first failure ends it; if the size was
      accepted before, one more call removes the file. */
  ghost predicate Stage(at: InstallStep, file: nat, img: Image, img': Image, got: seq<Reply>) {
    match at
    case CreateTemp => got == [] && Untouched(img, img')
    case Truncate => got == [Fresh] && Filling(img, img', file)
    case Build => got == [Fresh, Yes] && Filling(img, img', file)
    case WriteMeta => got == [Fresh, Yes, Yes] && Filling(img, img', file)
    case Rename => got == [Fresh, Yes, Yes, Yes] && Filling(img, img', file)
    case DropTemp =>
      && 3 <= |got| <= 5 && got[..2] == [Fresh, Yes] && got[|got| - 1] == Error
      && Filling(img, img', file)
    case UnlockInstall(ok) =>
      if ok then got == [Fresh, Yes, Yes, Yes, Yes] && Published(img, img', file)
      else FailedAfter(file, img, img', got)
    case _ => false
  }

  /** The ways to fail: nothing was created; the size was refused, and the file stays; or a later
      call failed, and the file stays only if its removal failed as well. */
  ghost predicate FailedAfter(file: nat, img: Image, img': Image, got: seq<Reply>) {
    || (got == [Error] && Untouched(img, img'))
    || (got == [Fresh, Error] && Filling(img, img', file))
    || (&& 4 <= |got| <= 6 && got[..2] == [Fresh, Yes] && got[|got| - 2] == Error
        && if got[|got| - 1] == Yes then Untouched(img, img') else Filling(img, img', file))
  }

  /** The call of the process itself. */
  lemma OwnCallStages(at: InstallStep, pid: nat, p: Proc,
                      img0: Image, img: Image, c: Choice, next: nat, got: seq<Reply>)
    requires p.pc == Installing(at) && ImageOk(p.target, img, next) && Stage(at, p.temp, img0, img, got)
    ensures var r := AnswerInstall(at, p, img, c); var p' := GoInstall(at, p, r, next);
      p'.pc.Installing? ==>
        Stage(p'.pc.install, p'.temp, img0, EffectOfInstall(at, pid, p, img, r, c, next), got + [r])
  {
  }

  lemma OthersKeepStage(at: InstallStep, file: nat, img0: Image, img: Image, img': Image, got: seq<Reply>)
    requires Stage(at, file, img0, img, got) && Untouched(img, img')
    ensures Stage(at, file, img0, img', got)
  {
  }

  /** Process pid, answered as in got, is still at the install that it began in w0, or has left it. */
  ghost predicate Staged(w0: World, w: World, pid: nat, got: seq<Reply>) {
    && pid in w0.procs && pid in w.procs
    && (w.procs[pid].pc.Installing? ==>
          var p := w.procs[pid];
          && p.target == w0.procs[pid].target && !p.pc.install.Pull? && !p.pc.install.LockInstall?
          && Stage(p.pc.install, p.temp, Img(w0, p.target), Img(w, p.target), got))
  }

  /** Once left, an install is not entered again. */
  lemma InstallIsLeft(p: Proc, r: Reply, next: nat)
    ensures Go(p, r, next).pc.Installing? ==>
      p.pc.Installing? && (p.pc.install.Pull? || Go(p, r, next).target == p.target)
  {
  }

  lemma StagesAreCalls(at: InstallStep, file: nat, img0: Image, img: Image, got: seq<Reply>)
    requires Stage(at, file, img0, img, got)
    ensures !at.Pull? && !at.LockInstall? && !at.MakeDir? && !at.OpenDisk? && !at.ReadMeta? && !at.DropDisk?
  {
  }

  lemma OwnMoveStages(w0: World, w: World, pid: nat, got: seq<Reply>, c: Choice)
    requires Inv(w) && Staged(w0, w, pid, got) && Active(w, pid)
    ensures Staged(w0, Apply(w, Act(pid, c)), pid, got + [ReplyTo(w, pid, c)])
  {
    var p := w.procs[pid];
    Safety.LocalFacts(w, pid);
    InstallIsLeft(p, ReplyTo(w, pid, c), w.next);
    if p.pc.Installing? {
      OwnCallStages(p.pc.install, pid, p, Img(w0, p.target), Img(w, p.target), c, w.next, got);
      Safety.ImageAfterMove(w, Act(pid, c), p.target);
      var p' := ProcAfter(w, pid, c);
      if p'.pc.Installing? {
        StagesAreCalls(p'.pc.install, p'.temp, Img(w0, p.target), ImageAfter(w, pid, c), got + [ReplyTo(w, pid, c)]);
      }
    }
  }

  lemma OtherMoveStages(w0: World, w: World, pid: nat, got: seq<Reply>, m: Move)
    requires Inv(w) && Staged(w0, w, pid, got) && Safety.ByOthers(m, pid)
    ensures Staged(w0, Apply(w, m), pid, got)
  {
    var p := w.procs[pid];
    Safety.OthersKeepProcess(w, m, pid);
    if p.pc.Installing? {
      Safety.OthersLeaveExclusive(w, m, pid);
      OthersKeepStage(p.pc.install, p.temp, Img(w0, p.target), Img(w, p.target), Img(Apply(w, m), p.target), got);
    }
  }

  lemma MoveStages(w0: World, w: World, pid: nat, got: seq<Reply>, m: Move)
    requires Inv(w) && Staged(w0, w, pid, got)
    ensures Staged(w0, Apply(w, m), pid, got + Safety.ReplyTaken(w, m, pid))
  {
    if Safety.ByOthers(m, pid) {
      OtherMoveStages(w0, w, pid, got, m);
      assert got + [] == got;
    } else if m.Act? && Active(w, pid) {
      OwnMoveStages(w0, w, pid, got, m.choice);
    }
  }

  /** Whatever others do meanwhile, bootcInstallImageToDisk goes through these stages. */
  lemma {:induction false} InstallGoesThroughStages(w0: World, moves: seq<Move>, pid: nat)
    requires Inv(w0) && pid in w0.procs && w0.procs[pid].pc == Installing(CreateTemp)
    ensures Staged(w0, Exec(w0, moves), pid, Safety.RepliesFrom(w0, moves, pid))
    decreases |moves|
  {
    if moves != [] {
      var rest := moves[..|moves| - 1];
      InstallGoesThroughStages(w0, rest, pid);
      RunKeepsInv(w0, rest);
      MoveStages(w0, Exec(w0, rest), pid, Safety.RepliesFrom(w0, rest, pid), moves[|moves| - 1]);
    }
  }

  /** An install that fails after its size was accepted has made its remove call, and if that
      has not failed, the temporary disks are as they were; in no case has it touched those of
      others. */
  lemma InstallCleansUp(w0: World, moves: seq<Move>, pid: nat, ok: bool)
    requires Inv(w0) && pid in w0.procs && w0.procs[pid].pc == Installing(CreateTemp)
    requires pid in Exec(w0, moves).procs && Exec(w0, moves).procs[pid].pc == Installing(UnlockInstall(ok))
    ensures var p := Exec(w0, moves).procs[pid];
      && p.target == w0.procs[pid].target
      && Stage(UnlockInstall(ok), p.temp, Img(w0, p.target), Img(Exec(w0, moves), p.target),
               Safety.RepliesFrom(w0, moves, pid))
  {
    InstallGoesThroughStages(w0, moves, pid);
  }

  // ---- litter ----

  /** Process p is at work on temporary disk t of image id. */
  ghost predicate Uses(p: Proc, id: ImageId, t: nat) {
    && p.pc.Installing? && p.target == id && p.temp == t
    && (var at := p.pc.install; at.Truncate? || at.Build? || at.WriteMeta? || at.Rename? || at.DropTemp?)
  }

  ghost predicate InUse(w: World, id: ImageId, t: nat) {
    exists pid :: pid in w.procs && Uses(w.procs[pid], id, t)
  }

  /** Move m abandons temporary disk t: its process is killed, or its size is refused, or the
      call that removes it fails. */
  ghost predicate Abandons(w: World, m: Move, id: ImageId, t: nat) {
    && (m.Kill? || m.Act?) && Active(w, m.pid) && Uses(w.procs[m.pid], id, t)
    && (m.Act? ==>
          && w.procs[m.pid].pc.install in {InstallStep.Truncate, InstallStep.DropTemp}
          && ReplyTo(w, m.pid, m.choice) == Error)
  }

  ghost predicate Litter(w: World, id: ImageId, t: nat) {
    t in Img(w, id).temps && !InUse(w, id, t)
  }

  /** A call of the process that works on t. */
  lemma UserKeepsUsing(pid: nat, p: Proc, img: Image, c: Choice, next: nat, t: nat)
    requires Uses(p, p.target, t)
    ensures var r := Answer(p, img, [], c); var p' := Go(p, r, next);
      || Uses(p', p.target, t) || t !in Effect(pid, p, img, r, c, next).temps
      || (p.pc.install in {InstallStep.Truncate, InstallStep.DropTemp} && r == Error)
  {
  }

  /** A call of any process creates temporary disks only for itself. */
  lemma NewTempIsUsed(pid: nat, p: Proc, img: Image, r: Reply, c: Choice, next: nat, t: nat)
    requires t in Effect(pid, p, img, r, c, next).temps && t !in img.temps
    ensures Uses(Go(p, r, next), p.target, t)
  {
    if p.pc.Installing? {
      NewTempOfInstall(p.pc.install, pid, p, img, r, c, next, t);
    } else if p.pc.Deleting? {
      DeleteMakesNoTemp(p.pc.delete, p, img, r, c, t);
    }
  }

  lemma NewTempOfInstall(at: InstallStep, pid: nat, p: Proc, img: Image, r: Reply, c: Choice, next: nat, t: nat)
    requires t in EffectOfInstall(at, pid, p, img, r, c, next).temps && t !in img.temps
    ensures Uses(GoInstall(at, p, r, next), p.target, t)
  {
  }

  lemma DeleteMakesNoTemp(at: DeleteStep, p: Proc, img: Image, r: Reply, c: Choice, t: nat)
    requires t in EffectOfDelete(at, p, img, r, c).temps
    ensures t in img.temps
  {
  }

  lemma NewTempInUse(w: World, m: Move, id: ImageId, t: nat)
    requires t in Img(Apply(w, m), id).temps && t !in Img(w, id).temps
    ensures InUse(Apply(w, m), id, t)
  {
    Safety.ImageAfterMove(w, m, id);
    NewTempIsUsed(m.pid, w.procs[m.pid], Img(w, id), ReplyTo(w, m.pid, m.choice), m.choice, w.next, t);
    assert Apply(w, m).procs[m.pid] == ProcAfter(w, m.pid, m.choice);
  }

  lemma LitterIsMadeByAbandoning(w: World, m: Move, id: ImageId, t: nat)
    requires Litter(Apply(w, m), id, t) && !Litter(w, id, t)
    ensures Abandons(w, m, id, t)
  {
    Safety.ImageAfterMove(w, m, id);
    if t !in Img(w, id).temps {
      NewTempInUse(w, m, id, t);
    } else {
      var pid :| pid in w.procs && Uses(w.procs[pid], id, t);
      if Safety.ByOthers(m, pid) {
        Safety.OthersKeepProcess(w, m, pid);
      } else if m.Act? {
        UserKeepsUsing(pid, w.procs[pid], Img(w, id), m.choice, w.next, t);
        assert Apply(w, m).procs[pid] == ProcAfter(w, pid, m.choice);
      }
    }
  }

  ghost predicate AbandonsAt(moves: seq<Move>, id: ImageId, t: nat, k: int) {
    0 <= k < |moves| && Abandons(Exec(START, moves[..k]), moves[k], id, t)
  }

  lemma EarlierAbandon(moves: seq<Move>, id: ImageId, t: nat, k: int)
    requires moves != [] && AbandonsAt(moves[..|moves| - 1], id, t, k)
    ensures AbandonsAt(moves, id, t, k)
  {
    assert moves[..|moves| - 1][..k] == moves[..k];
  }

  /** In every run, a temporary disk that nobody works on any more was abandoned by a kill, a
      refused size or a failed removal. */
  lemma {:induction false} LitterHasACause(moves: seq<Move>, id: ImageId, t: nat)
    requires Litter(Exec(START, moves), id, t)
    ensures exists k :: AbandonsAt(moves, id, t, k)
  {
    var rest := moves[..|moves| - 1];
    if Litter(Exec(START, rest), id, t) {
      LitterHasACause(rest, id, t);
      var k :| AbandonsAt(rest, id, t, k);
      EarlierAbandon(moves, id, t, k);
    } else {
      LitterIsMadeByAbandoning(Exec(START, rest), moves[|moves| - 1], id, t);
      assert AbandonsAt(moves, id, t, |moves| - 1);
    }
  }
}
