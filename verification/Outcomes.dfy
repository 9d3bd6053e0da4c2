/** What a command makes of the errors it meets: the first one ends its work, and it does not
    report success any more. */
module Outcomes {
  import opened Common
  import opened Protocol
  import opened Invariant
  import Safety

  /** Only cleaning up is left, and the command fails. */
  predicate Failing(pc: PC) {
    || pc == Installing(DropTemp) || pc == Installing(UnlockInstall(false))
    || pc == Deleting(Unlock(false)) || pc == Done(false) || pc == Killed || pc == Panicked
  }

  lemma FailingStays(p: Proc, r: Reply, next: nat)
    requires !Loops(p.cmd) && Failing(p.pc)
    ensures Failing(Go(p, r, next).pc)
  {
  }

  lemma InstallErrorFails(at: InstallStep, p: Proc, img: Image, c: Choice, next: nat)
    requires AnswerInstall(at, p, img, c) == Error && !at.ReadMeta? && !at.DropDisk?
    ensures Failing(GoInstall(at, p, Error, next).pc)
  {
  }

  lemma OpenErrorFails(at: OpenStep, p: Proc, next: nat)
    requires !Loops(p.cmd)
    ensures Failing(GoOpen(at, p, Error, next).pc)
  {
  }

  lemma UseErrorFails(at: UseStep, p: Proc, img: Image, c: Choice, next: nat)
    requires AnswerUse(at, p, img, c) == Error
    ensures Failing(GoUse(at, p, Error, next).pc)
  {
  }

  lemma DeleteErrorFails(at: DeleteStep, p: Proc, img: Image, c: Choice)
    requires AnswerDelete(at, p, img, c) == Error && !Loops(p.cmd)
    ensures Failing(GoDelete(at, p, Error).pc)
  {
  }

  /** An error from any call ends the work of the command at once. */
  lemma ErrorFails(w: World, pid: nat, c: Choice)
    requires Inv(w) && Active(w, pid) && !Loops(w.procs[pid].cmd) && ReplyTo(w, pid, c) == Error
    ensures Failing(ProcAfter(w, pid, c).pc)
  {
    var p := w.procs[pid];
    Safety.LocalFacts(w, pid);
    match p.pc {
      case Installing(at) =>
        Safety.DiskIsReused(pid, p, Img(w, p.target), Entries(w), c, w.next);
        InstallErrorFails(at, p, Img(w, p.target), c, w.next);
      case Opening(at) => OpenErrorFails(at, p, w.next);
      case Using(at) => UseErrorFails(at, p, Img(w, p.target), c, w.next);
      case Deleting(at) => DeleteErrorFails(at, p, Img(w, p.target), c);
    }
  }

  /** Process pid, answered as in got, has met no error or is failing. */
  ghost predicate Honest(w: World, pid: nat, got: seq<Reply>) {
    if pid !in w.procs then got == []
    else !Loops(w.procs[pid].cmd) && Error in got ==> Failing(w.procs[pid].pc)
  }

  ghost predicate Consistent(moves: seq<Move>, pid: nat) {
    Honest(Exec(START, moves), pid, Safety.Replies(moves, pid))
  }

  lemma CallIsConsistent(w: World, pid: nat, c: Choice, met: bool)
    requires Inv(w) && Active(w, pid) && !Loops(w.procs[pid].cmd) && (met ==> Failing(w.procs[pid].pc))
    requires met || ReplyTo(w, pid, c) == Error
    ensures Failing(Apply(w, Act(pid, c)).procs[pid].pc)
  {
    if met {
      FailingStays(w.procs[pid], ReplyTo(w, pid, c), w.next);
    } else {
      ErrorFails(w, pid, c);
    }
  }

  lemma GoKeepsCommand(p: Proc, r: Reply, next: nat)
    ensures Go(p, r, next).cmd == p.cmd
  {
  }

  lemma CommandStays(w: World, m: Move, pid: nat)
    requires pid in w.procs
    ensures pid in Apply(w, m).procs && Apply(w, m).procs[pid].cmd == w.procs[pid].cmd
  {
    if m.Act? && m.pid == pid && Active(w, pid) {
      GoKeepsCommand(w.procs[pid], ReplyTo(w, pid, m.choice), w.next);
    }
  }

  lemma OthersAreConsistent(w: World, m: Move, pid: nat)
    requires pid in w.procs && Safety.ReplyTaken(w, m, pid) == [] && Failing(w.procs[pid].pc)
    ensures pid in Apply(w, m).procs && Failing(Apply(w, m).procs[pid].pc)
  {
  }

  lemma MoveIsHonest(w: World, m: Move, pid: nat, got: seq<Reply>)
    requires Inv(w) && Honest(w, pid, got) && pid in w.procs
    ensures Honest(Apply(w, m), pid, got + Safety.ReplyTaken(w, m, pid))
  {
    CommandStays(w, m, pid);
    if !Loops(w.procs[pid].cmd) && Error in got + Safety.ReplyTaken(w, m, pid) {
      if Safety.ReplyTaken(w, m, pid) == [] {
        OthersAreConsistent(w, m, pid);
      } else {
        CallIsConsistent(w, pid, m.choice, Error in got);
      }
    }
  }

  lemma NobodyIsHonest(w: World, m: Move, pid: nat)
    requires pid !in w.procs
    ensures Honest(Apply(w, m), pid, Safety.ReplyTaken(w, m, pid))
  {
  }

  lemma MoveIsConsistent(moves: seq<Move>, m: Move, pid: nat)
    requires Consistent(moves, pid)
    ensures Consistent(moves + [m], pid)
  {
    var w, got := Exec(START, moves), Safety.Replies(moves, pid);
    assert (moves + [m])[..|moves|] == moves;
    assert Safety.Replies(moves + [m], pid) == got + Safety.ReplyTaken(w, m, pid);
    if pid in w.procs {
      Safety.ReachableIsOk(moves);
      MoveIsHonest(w, m, pid, got);
    } else {
      NobodyIsHonest(w, m, pid);
    }
  }

  lemma {:induction false} RunsAreConsistent(moves: seq<Move>, pid: nat)
    ensures Consistent(moves, pid)
  {
    if moves != [] {
      RunsAreConsistent(moves[..|moves| - 1], pid);
      MoveIsConsistent(moves[..|moves| - 1], moves[|moves| - 1], pid);
      assert moves == moves[..|moves| - 1] + [moves[|moves| - 1]];
    }
  }

  /** In every run, run, stop, rm and ssh return success only if none of their calls has been
      answered with an error. */
  lemma SuccessMeansNoError(moves: seq<Move>, pid: nat)
    requires pid in Exec(START, moves).procs && !Loops(Exec(START, moves).procs[pid].cmd)
    requires Exec(START, moves).procs[pid].pc == Done(true)
    ensures Error !in Safety.Replies(moves, pid)
  {
    RunsAreConsistent(moves, pid);
  }

  /** A run command comes to delete a domain only by the call that has found it not running; an
      error of that call ends the work with nothing changed. */
  lemma RunDeletesWhatItFoundStopped(w: World, m: Move, pid: nat)
    requires Inv(w) && pid in w.procs && w.procs[pid].pc != Deleting(CheckBeforeStop(ThenDefine))
    requires Apply(w, m).procs[pid].pc == Deleting(CheckBeforeStop(ThenDefine))
    ensures m.Act? && m.pid == pid && w.procs[pid].pc == Using(CheckBeforeRun)
    ensures w.procs[pid].handle.Some? && Img(w, w.procs[pid].target).domain == Off(w.procs[pid].handle.value)
  {
    Safety.LocalFacts(w, pid);
    if !Safety.ByOthers(m, pid) && m.Act? && Active(w, pid) {
      StopIsAfterNo(w.procs[pid], ReplyTo(w, pid, m.choice), w.next);
    }
  }

  lemma StopIsAfterNo(p: Proc, r: Reply, next: nat)
    requires Fits(p) && Go(p, r, next).pc == Deleting(CheckBeforeStop(ThenDefine)) && p.pc != Go(p, r, next).pc
    ensures p.pc == Using(CheckBeforeRun) && r == No
  {
  }

  lemma CheckErrorChangesNothing(w: World, pid: nat, c: Choice)
    requires Active(w, pid) && w.procs[pid].pc == Using(CheckBeforeRun) && ReplyTo(w, pid, c) != No
    ensures ImageAfter(w, pid, c) == Img(w, w.procs[pid].target)
    ensures ProcAfter(w, pid, c).pc == Deleting(Unlock(false))
  {
  }
}
