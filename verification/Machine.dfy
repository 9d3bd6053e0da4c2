/** The machine as one running command sees it: every call it makes is one move of the
    system, and before each call the rest of the system makes any moves of its own.  What
    the others do, and which calls fail, is written down in advance in a script, so that a
    contract about all scripts is a contract about all interleavings. */
module Machine {
  import opened Common
  import opened CacheNames
  import opened Protocol
  import opened Invariant
  import opened Safety

  /** The moves of others before a call, and the environment's choice for the call. */
  datatype Turn = Turn(before: seq<Move>, choice: Choice)

  const UNDISTURBED := Turn([], Choice(true, false, {}, false, None))

  /** The call does not fail, and the name given to run still denotes the image inspected. */
  predicate Benign(c: Choice) {
    c.ok && c.retagged.None?
  }

  /** Nobody else moves and every call is benign. */
  ghost predicate Quiet(script: seq<Turn>) {
    forall t | t in script :: t.before == [] && Benign(t.choice)
  }

  predicate OwnBenign(m: Move, me: nat) {
    m.Act? && m.pid == me && Benign(m.choice)
  }

  /** Everything a command learns from a call: the world mid in which the call was made, the
      environment's choice c, the reply r, and the world w after it. */
  ghost predicate Called(mid: World, w: World, me: nat, p: Proc, c: Choice, r: Reply) {
    && me in mid.procs && mid.procs[me] == p
    && r == Answer(p, Img(mid, p.target), Entries(mid), c)
    && me in w.procs && w.procs[me] == Go(p, r, mid.next)
    && Img(w, p.target) == Effect(me, p, Img(mid, p.target), r, c, mid.next)
    && (forall id | id != p.target :: Img(w, id) == Img(mid, id))
  }

  // Called, for the calls of one part of the program.

  ghost predicate CalledInstall(mid: World, w: World, me: nat, p: Proc, c: Choice, r: Reply)
    requires p.pc.Installing?
  {
    && r == AnswerInstall(p.pc.install, p, Img(mid, p.target), c) && me in w.procs
    && w.procs[me] == GoInstall(p.pc.install, p, r, mid.next)
    && Img(w, p.target) == EffectOfInstall(p.pc.install, me, p, Img(mid, p.target), r, c, mid.next)
    && (forall id | id != p.target :: Img(w, id) == Img(mid, id))
  }

  ghost predicate CalledUse(mid: World, w: World, me: nat, p: Proc, c: Choice, r: Reply)
    requires p.pc.Using?
  {
    && r == AnswerUse(p.pc.use, p, Img(mid, p.target), c) && me in w.procs
    && w.procs[me] == GoUse(p.pc.use, p, r, mid.next)
    && Img(w, p.target) == EffectOfUse(p.pc.use, p, Img(mid, p.target), r, mid.next)
    && (forall id | id != p.target :: Img(w, id) == Img(mid, id))
  }

  ghost predicate CalledDelete(mid: World, w: World, me: nat, p: Proc, c: Choice, r: Reply)
    requires p.pc.Deleting?
  {
    && r == AnswerDelete(p.pc.delete, p, Img(mid, p.target), c) && me in w.procs
    && w.procs[me] == GoDelete(p.pc.delete, p, r)
    && Img(w, p.target) == EffectOfDelete(p.pc.delete, p, Img(mid, p.target), r, c)
    && (forall id | id != p.target :: Img(w, id) == Img(mid, id))
  }

  lemma ActIsCalled(mid: World, me: nat, c: Choice)
    requires Active(mid, me)
    ensures Called(mid, Apply(mid, Act(me, c)), me, mid.procs[me], c, ReplyTo(mid, me, c))
  {
  }

  class Host {
    const me: nat
    var w: World
    var script: seq<Turn>
    ghost var history: seq<Move>
    ghost const start: nat
    ghost const quiet: bool

    /** The current world is the outcome of a run of the system.  If the script is quiet, only
        this command has moved since the start. */
    ghost predicate Valid()
      reads this
    {
      && me in w.procs && w == Exec(START, history) && start <= |history|
      && (quiet ==> Quiet(script) && forall k | start <= k < |history| :: OwnBenign(history[k], me))
    }

    function P(): Proc
      requires me in w.procs
      reads this
    {
      w.procs[me]
    }

    /** The world in which the last move was made. */
    ghost function Before(): World
      requires history != []
      reads this
    {
      Exec(START, history[..|history| - 1])
    }

    /** The image the command works on. */
    function Mine(): Image
      requires me in w.procs
      reads this
    {
      Img(w, P().target)
    }

    constructor (me: nat, w: World, script: seq<Turn>, ghost history: seq<Move>)
      requires me in w.procs && w == Exec(START, history)
      ensures Valid() && this.me == me && this.w == w && this.script == script && this.history == history
      ensures start == |history| && (quiet <==> Quiet(script))
    {
      this.me, this.w, this.script, this.history := me, w, script, history;
      start, quiet := |history|, Quiet(script);
    }

    method Interfere(before: seq<Move>)
      requires Valid() && (quiet ==> before == [])
      modifies this`w, this`history
      ensures Valid() && old(history) <= history && Replies(history, me) == Replies(old(history), me)
      ensures P() == old(P()) && (Holding(P()) == Some(Exclusive) ==> Untouched(old(Mine()), Mine()))
      ensures before == [] ==> w == old(w) && history == old(history)
    {
      for i := 0 to |before|
        invariant Valid() && old(history) <= history && P() == old(P())
        invariant Replies(history, me) == Replies(old(history), me)
        invariant Holding(P()) == Some(Exclusive) ==> Untouched(old(Mine()), Mine())
        invariant before == [] ==> w == old(w) && history == old(history)
      {
        if ByOthers(before[i], me) {
          OthersKeepProcess(w, before[i], me);
          if Holding(P()) == Some(Exclusive) {
            ReachableIsOk(history);
            OthersLeaveExclusive(w, before[i], me);
          }
          ghost var longer := history + [before[i]];
          assert longer[..|longer| - 1] == history;
          w := Apply(w, before[i]);
          history := longer;
        }
      }
    }

    /** One call of this command.  The history grows by the moves of others and by this one. */
    method Call() returns (r: Reply, ghost mid: World, ghost c: Choice)
      requires Valid() && !Finished(P().pc)
      modifies this
      ensures Valid() && old(history) <= history && Replies(history, me) == Replies(old(history), me) + [r]
      ensures |old(history)| < |history| && history[|history| - 1] == Act(me, c) && mid == Before()
      ensures Called(mid, w, me, old(P()), c, r)
      ensures Holding(old(P())) == Some(Exclusive) ==> Untouched(old(Mine()), Img(mid, old(P()).target))
      ensures Quiet(old(script)) ==> mid == old(w) && Benign(c) && Quiet(script)
    {
      var turn := UNDISTURBED;
      if script != [] {
        turn := script[0];
        script := script[1..];
      }
      Interfere(turn.before);
      c, mid := turn.choice, w;
      r := ReplyTo(w, me, turn.choice);
      ActIsCalled(w, me, turn.choice);
      ghost var longer := history + [Act(me, c)];
      assert longer[..|longer| - 1] == history;
      w := Apply(w, Act(me, turn.choice));
      history := longer;
    }

    method CallInstall() returns (r: Reply, ghost mid: World, ghost c: Choice)
      requires Valid() && P().pc.Installing?
      modifies this
      ensures Valid() && old(history) <= history && Replies(history, me) == Replies(old(history), me) + [r]
      ensures |old(history)| < |history| && history[|history| - 1] == Act(me, c) && mid == Before()
      ensures me in mid.procs && mid.procs[me] == old(P()) && CalledInstall(mid, w, me, old(P()), c, r)
      ensures Holding(old(P())) == Some(Exclusive) ==> Untouched(old(Mine()), Img(mid, old(P()).target))
      ensures Quiet(old(script)) ==> mid == old(w) && Benign(c) && Quiet(script)
    {
      r, mid, c := Call();
    }

    method CallUse() returns (r: Reply, ghost mid: World, ghost c: Choice)
      requires Valid() && P().pc.Using?
      modifies this
      ensures Valid() && old(history) <= history && Replies(history, me) == Replies(old(history), me) + [r]
      ensures |old(history)| < |history| && history[|history| - 1] == Act(me, c) && mid == Before()
      ensures me in mid.procs && mid.procs[me] == old(P()) && CalledUse(mid, w, me, old(P()), c, r)
      ensures Quiet(old(script)) ==> mid == old(w) && Benign(c) && Quiet(script)
    {
      r, mid, c := Call();
    }

    method CallDelete() returns (r: Reply, ghost mid: World, ghost c: Choice)
      requires Valid() && P().pc.Deleting?
      modifies this
      ensures Valid() && old(history) <= history && Replies(history, me) == Replies(old(history), me) + [r]
      ensures |old(history)| < |history| && history[|history| - 1] == Act(me, c) && mid == Before()
      ensures me in mid.procs && mid.procs[me] == old(P()) && CalledDelete(mid, w, me, old(P()), c, r)
      ensures Quiet(old(script)) ==> mid == old(w) && Benign(c) && Quiet(script)
    {
      r, mid, c := Call();
    }

    predicate LooksAtState()
      requires me in w.procs
      reads this
    {
      || P().pc == Using(CheckBeforeRun) || P().pc == Using(CheckState) || P().pc == Deleting(CheckBeforeKill)
      || (P().pc.Deleting? && P().pc.delete.CheckBeforeStop?)
    }

    method StateInUse() returns (r: Reply)
      requires Valid() && LooksAtState() && P().pc.Using?
      modifies this
      ensures Valid() && old(history) <= history && P() == GoUse(old(P()).pc.use, old(P()), r, 0)
      ensures r.Yes? || r.No? || r.Error?
      ensures r.Yes? ==> P().handle.Some?
      ensures Quiet(old(script)) ==>
        && Quiet(script) && r == StateOf(P().handle, Mine().domain, true) && Mine() == old(Mine())
        && (forall id | id != P().target :: Img(w, id) == Img(old(w), id))
    {
      ghost var mid, c;
      r, mid, c := CallUse();
    }

    method StateInDelete() returns (r: Reply)
      requires Valid() && LooksAtState() && P().pc.Deleting?
      modifies this
      ensures Valid() && old(history) <= history && P() == GoDelete(old(P()).pc.delete, old(P()), r)
      ensures r.Yes? || r.No? || r.Error?
      ensures r.Yes? ==> P().handle.Some?
      ensures Quiet(old(script)) ==>
        && Quiet(script) && r == StateOf(P().handle, Mine().domain, true) && Mine() == old(Mine())
        && (forall id | id != P().target :: Img(w, id) == Img(old(w), id))
    {
      ghost var mid, c;
      r, mid, c := CallDelete();
    }

    /** The call that asks for the state of the cached domain. */
    method CallState() returns (r: Reply)
      requires Valid() && LooksAtState()
      modifies this
      ensures Valid() && old(history) <= history
      ensures P() == if old(P()).pc.Using? then GoUse(old(P()).pc.use, old(P()), r, 0)
                     else GoDelete(old(P()).pc.delete, old(P()), r)
      ensures r.Yes? || r.No? || r.Error?
      ensures r.Yes? ==> P().handle.Some?
      ensures Quiet(old(script)) ==>
        && Quiet(script) && r == StateOf(P().handle, Mine().domain, true) && Mine() == old(Mine())
        && (forall id | id != P().target :: Img(w, id) == Img(old(w), id))
    {
      if P().pc.Using? {
        r := StateInUse();
      } else {
        r := StateInDelete();
      }
    }

    predicate Unlocks()
      requires me in w.procs
      reads this
    {
      (P().pc.Deleting? && P().pc.delete.Unlock?) || (P().pc.Installing? && P().pc.install.UnlockInstall?)
    }

    method UnlockAfterUse()
      requires Valid() && P().pc.Deleting? && P().pc.delete.Unlock?
      modifies this
      ensures Valid() && old(history) <= history
      ensures P() == EndItem(GiveBack(old(P())), old(P()).pc.delete.ok)
      ensures Quiet(old(script)) ==>
        && Quiet(script) && Img(w, old(P()).target) == Release(old(Mine()), old(P()).lock)
        && (forall id | id != old(P()).target :: Img(w, id) == Img(old(w), id))
    {
      var r, mid, c := CallDelete();
    }

    method UnlockAfterInstall()
      requires Valid() && P().pc.Installing? && P().pc.install.UnlockInstall?
      modifies this
      ensures Valid() && old(history) <= history
      ensures P() == GiveBack(old(P())).(pc := if old(P()).pc.install.ok then Opening(FreePort) else Done(false))
      ensures Quiet(old(script)) ==>
        && Quiet(script) && Img(w, old(P()).target) == Release(old(Mine()), old(P()).lock)
        && (forall id | id != old(P()).target :: Img(w, id) == Img(old(w), id))
    {
      var r, mid, c := CallInstall();
    }

    /** The call that gives a lock back: what it does to the lock table. */
    method CallUnlock()
      requires Valid() && Unlocks()
      modifies this
      ensures Valid() && old(history) <= history
      ensures P() == if old(P()).pc.Deleting? then EndItem(GiveBack(old(P())), old(P()).pc.delete.ok)
                     else GiveBack(old(P())).(pc := if old(P()).pc.install.ok then Opening(FreePort) else Done(false))
      ensures Quiet(old(script)) ==>
        && Quiet(script) && Img(w, old(P()).target) == Release(old(Mine()), old(P()).lock)
        && (forall id | id != old(P()).target :: Img(w, id) == Img(old(w), id))
    {
      if P().pc.Deleting? {
        UnlockAfterUse();
      } else {
        UnlockAfterInstall();
      }
    }

    /** The calls this command can be at, and whether it holds its lock there. */
    lemma Shape()
      requires Valid()
      ensures LocalOk(P(), w.next) && HolderOk(me, P(), Mine())
    {
      ReachableIsOk(history);
      LocalFacts(w, me);
    }

    /** The invariant of all runs, where a proof needs it. */
    lemma Facts()
      requires Valid()
      ensures ProcOk(me, P(), Mine(), w.next) && ImageOk(P().target, Mine(), w.next)
    {
      ReachableIsOk(history);
      LocalFacts(w, me);
    }
  }
}
