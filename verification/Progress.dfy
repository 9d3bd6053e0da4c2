/** No command waits for another one: every call of an unfinished command, whatever it is
    answered, brings the command closer to its end.  An ssh session counts as one call. */
module Progress {
  import opened Common
  import opened CacheNames
  import opened Protocol

  /** Calls left after a successful Delete. */
  function CostAfter(after: After): nat {
    match after
    case ThenUnlock => 1
    case ThenRemove => 3
    case ThenDefine => 132 + RUNNING_POLLS
  }

  function CostOfDelete(at: DeleteStep): nat {
    match at
    case Unlock(_) => 1
    case RemoveDir => 2
    case ClearCache => 3
    case Undefine(after) => CostAfter(after) + 1
    case Exists(after) => CostAfter(after) + 2
    case Destroy(after) => CostAfter(after) + 3
    case CheckBeforeStop(after) => CostAfter(after) + 4
    case CheckBeforeKill => 8
  }

  function CostOfUse(at: UseStep): nat {
    match at
    case CheckState => 2
    case LoadConfig => 3
    case Session => 6
    case WaitSsh(n) => 7 + n
    case ReadKey => 8 + SSH_POLLS
    case WriteConfig => 9 + SSH_POLLS
    case WaitRunning(n) => 10 + SSH_POLLS + n
    case Start => 11 + SSH_POLLS + RUNNING_POLLS
    case Define => 12 + SSH_POLLS + RUNNING_POLLS
    case CheckBeforeRun => 17 + SSH_POLLS + RUNNING_POLLS
    case GenerateKeys => 18 + SSH_POLLS + RUNNING_POLLS
  }

  function CostOfOpen(at: OpenStep): nat {
    match at
    case Lookup => 199
    case Recheck => 200
    case LockVm => 201
    case Resolve(_) => 202
    case FreePort => 203
    case ReadCache => 1
  }

  function CostOfInstall(at: InstallStep): nat {
    match at
    case UnlockInstall(_) => 204 case DropTemp => 205 case Rename => 206 case WriteMeta => 207
    case Build => 208 case Truncate => 209 case CreateTemp => 210 case DropDisk => 211 case ReadMeta => 212
    case OpenDisk => 213 case MakeDir => 214 case LockInstall => 215 case Pull => 216
  }

  const PER_IMAGE := 203

  /** An upper bound on the calls a command still makes: images still listed, program point,
      polls left. */
  function Fuel(p: Proc): nat {
    PER_IMAGE * |p.todo| +
    match p.pc
    case Installing(at) => CostOfInstall(at)
    case Opening(at) => CostOfOpen(at)
    case Using(at) => CostOfUse(at)
    case Deleting(at) => CostOfDelete(at)
    case _ => 0
  }

  /** The listing that decides how many images a looping command visits is not read yet. */
  predicate Unread(p: Proc) {
    p.pc == Opening(ReadCache)
  }

  lemma InstallMovesOn(at: InstallStep, p: Proc, r: Reply, next: nat)
    requires p.pc == Installing(at)
    ensures Fuel(GoInstall(at, p, r, next)) < Fuel(p) && !Unread(GoInstall(at, p, r, next))
  {
  }

  lemma OpenMovesOn(at: OpenStep, p: Proc, r: Reply, next: nat)
    requires p.pc == Opening(at) && !at.ReadCache?
    ensures Fuel(GoOpen(at, p, r, next)) < Fuel(p) && !Unread(GoOpen(at, p, r, next))
  {
  }

  lemma UseMovesOn(at: UseStep, p: Proc, r: Reply, next: nat)
    requires p.pc == Using(at)
    ensures Fuel(GoUse(at, p, r, next)) < Fuel(p) && !Unread(GoUse(at, p, r, next))
  {
  }

  lemma DeleteMovesOn(at: DeleteStep, p: Proc, r: Reply)
    requires p.pc == Deleting(at)
    ensures Fuel(GoDelete(at, p, r)) < Fuel(p) && !Unread(GoDelete(at, p, r))
  {
  }

  /** Whatever the call is answered, the bound drops. */
  lemma EveryReplyMovesOn(p: Proc, r: Reply, next: nat)
    requires !Finished(p.pc) && !Unread(p)
    ensures Fuel(Go(p, r, next)) < Fuel(p) && !Unread(Go(p, r, next))
  {
    match p.pc {
      case Installing(at) => InstallMovesOn(at, p, r, next);
      case Opening(at) => OpenMovesOn(at, p, r, next);
      case Using(at) => UseMovesOn(at, p, r, next);
      case Deleting(at) => DeleteMovesOn(at, p, r);
    }
  }

  lemma {:induction false} AtMostAsManyNames(entries: seq<CacheNames.Entry>)
    ensures |DirNames(entries)| <= |entries|
  {
    if entries != [] {
      AtMostAsManyNames(entries[1..]);
    }
  }

  /** Reading the listing sets the bound to its length, once. */
  lemma ReadingTheListingMovesOn(w: World, pid: nat, c: Choice)
    requires Active(w, pid) && Unread(w.procs[pid])
    ensures !Unread(ProcAfter(w, pid, c))
    ensures Fuel(ProcAfter(w, pid, c)) <= PER_IMAGE * |w.dirs| + PER_IMAGE * |w.procs[pid].todo|
  {
    AtMostAsManyNames(Entries(w));
  }

  /** The calls that process pid made in a run. */
  function OwnCalls(w: World, moves: seq<Move>, pid: nat): nat
    decreases |moves|
  {
    if moves == [] then 0
    else
      var rest, m := moves[..|moves| - 1], moves[|moves| - 1];
      OwnCalls(w, rest, pid) + if m.Act? && m.pid == pid && Active(Exec(w, rest), pid) then 1 else 0
  }

  lemma OnlyOwnCallsMatter(w: World, m: Move, pid: nat)
    requires pid in w.procs && !(m.Act? && m.pid == pid && Active(w, pid))
    ensures pid in Apply(w, m).procs
    ensures Apply(w, m).procs[pid] in {w.procs[pid], w.procs[pid].(lock := None, pc := Killed)}
  {
  }

  lemma OwnCallMovesOn(w: World, pid: nat, c: Choice)
    requires Active(w, pid) && !Unread(w.procs[pid])
    ensures pid in Apply(w, Act(pid, c)).procs && !Unread(Apply(w, Act(pid, c)).procs[pid])
    ensures Fuel(Apply(w, Act(pid, c)).procs[pid]) < Fuel(w.procs[pid])
  {
    EveryReplyMovesOn(w.procs[pid], ReplyTo(w, pid, c), w.next);
  }

  /** In every run, the calls a command has made and those it may still make never exceed
      the bound it started with, no matter what the other processes do. */
  lemma {:induction false} WorkIsBounded(w: World, moves: seq<Move>, pid: nat)
    requires pid in w.procs && !Unread(w.procs[pid])
    ensures pid in Exec(w, moves).procs && !Unread(Exec(w, moves).procs[pid])
    ensures OwnCalls(w, moves, pid) + Fuel(Exec(w, moves).procs[pid]) <= Fuel(w.procs[pid])
    decreases |moves|
  {
    if moves != [] {
      var rest, m := moves[..|moves| - 1], moves[|moves| - 1];
      WorkIsBounded(w, rest, pid);
      var mid := Exec(w, rest);
      if m.Act? && m.pid == pid && Active(mid, pid) {
        OwnCallMovesOn(mid, pid, m.choice);
      } else {
        OnlyOwnCallsMatter(mid, m, pid);
      }
    }
  }

  function CallLimit(cmd: Command): nat {
    if cmd.Run? then 216 else 202
  }

  lemma InitialFuel(cmd: Command)
    requires !Loops(cmd)
    ensures Fuel(Initial(cmd)) == CallLimit(cmd) && !Unread(Initial(cmd))
  {
  }

  lemma SpentIsFinished(p: Proc)
    ensures Fuel(p) == 0 ==> Finished(p.pc)
  {
  }

  /** run finishes within 216 calls, of which at most 180 are polls; stop, rm and ssh within 202. */
  lemma CommandsFinish(w: World, pid: nat, cmd: Command, moves: seq<Move>)
    requires pid in w.procs && w.procs[pid] == Initial(cmd) && !Loops(cmd)
    ensures OwnCalls(w, moves, pid) <= CallLimit(cmd)
    ensures pid in Exec(w, moves).procs
    ensures OwnCalls(w, moves, pid) == CallLimit(cmd) ==> Finished(Exec(w, moves).procs[pid].pc)
  {
    InitialFuel(cmd);
    WorkIsBounded(w, moves, pid);
    SpentIsFinished(Exec(w, moves).procs[pid]);
  }

  /** After its listing of n directories, rm --all and list finish within 203 n calls. */
  lemma LoopsFinish(w: World, pid: nat, c: Choice, moves: seq<Move>)
    requires Active(w, pid) && Unread(w.procs[pid]) && w.procs[pid].todo == []
    ensures var w1 := Apply(w, Act(pid, c));
      && OwnCalls(w1, moves, pid) <= PER_IMAGE * |w.dirs|
      && pid in Exec(w1, moves).procs
      && (OwnCalls(w1, moves, pid) == PER_IMAGE * |w.dirs| ==> Finished(Exec(w1, moves).procs[pid].pc))
  {
    ReadingTheListingMovesOn(w, pid, c);
    WorkIsBounded(Apply(w, Act(pid, c)), moves, pid);
    SpentIsFinished(Exec(Apply(w, Act(pid, c)), moves).procs[pid]);
  }
}
