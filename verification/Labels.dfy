/** What is on a published disk.  Install writes the digest of the image that it inspected, and
    builds from the image that the name given to run denotes at the time of the build. */
module Labels {
  import opened Common
  import opened Protocol
  import opened Invariant
  import Safety

  /** Move m is the successful build of the disk with this inode. */
  ghost predicate Builds(w: World, m: Move, id: ImageId, inode: nat) {
    && m.Act? && m.choice.ok && Active(w, m.pid)
    && w.procs[m.pid].pc == Installing(Build) && w.procs[m.pid].target == id && w.procs[m.pid].temp == inode
  }

  /** So is the move at position k. */
  ghost predicate BuildsAt(moves: seq<Move>, id: ImageId, inode: nat, k: int) {
    0 <= k < |moves| && Builds(Exec(START, moves[..k]), moves[k], id, inode)
  }

  /** The image that the name denoted when this disk was built, if it was. */
  ghost function BuiltFor(moves: seq<Move>, id: ImageId, inode: nat): Option<ImageId> {
    if moves == [] then None
    else if BuildsAt(moves, id, inode, |moves| - 1) then Some(Built(moves[|moves| - 1].choice, id))
    else BuiltFor(moves[..|moves| - 1], id, inode)
  }

  /** It is the image that the last such move built. */
  ghost predicate LastBuild(moves: seq<Move>, id: ImageId, inode: nat, k: int) {
    && BuildsAt(moves, id, inode, k)
    && (forall j | k < j < |moves| :: !BuildsAt(moves, id, inode, j))
    && BuiltFor(moves, id, inode) == Some(Built(moves[k].choice, id))
  }

  lemma EarlierBuilds(moves: seq<Move>, id: ImageId, inode: nat, j: int)
    requires 0 <= j < |moves| - 1
    ensures BuildsAt(moves, id, inode, j) == BuildsAt(moves[..|moves| - 1], id, inode, j)
  {
    assert moves[..|moves| - 1][..j] == moves[..j];
  }

  lemma {:induction false} BuiltForIsTheLastBuild(moves: seq<Move>, id: ImageId, inode: nat)
    requires BuiltFor(moves, id, inode).Some?
    ensures exists k :: LastBuild(moves, id, inode, k)
  {
    var rest := moves[..|moves| - 1];
    if BuildsAt(moves, id, inode, |moves| - 1) {
      assert LastBuild(moves, id, inode, |moves| - 1);
    } else {
      BuiltForIsTheLastBuild(rest, id, inode);
      var k :| LastBuild(rest, id, inode, k);
      forall j | 0 <= j < |rest| ensures BuildsAt(moves, id, inode, j) == BuildsAt(rest, id, inode, j) {
        EarlierBuilds(moves, id, inode, j);
      }
      assert LastBuild(moves, id, inode, k);
    }
  }

  ghost predicate FromBuild(moves: seq<Move>, id: ImageId, d: Disk) {
    d.content.Complete? ==> BuiltFor(moves, id, d.inode) == Some(d.content.image)
  }

  ghost predicate AllFromBuilds(moves: seq<Move>, id: ImageId, img: Image) {
    && (img.disk.Some? ==> FromBuild(moves, id, img.disk.value))
    && (forall t | t in img.temps :: FromBuild(moves, id, img.temps[t]))
  }

  /** A disk after a call is not built yet, or it is one from before. */
  ghost predicate Inherited(img: Image, d: Disk) {
    || d.content.Partial?
    || (img.disk.Some? && d.inode == img.disk.value.inode && d.content == img.disk.value.content)
    || (d.inode in img.temps && d.content == img.temps[d.inode].content)
  }

  lemma InstallInherits(at: InstallStep, pid: nat, p: Proc, img: Image, c: Choice, next: nat)
    requires p.pc == Installing(at) && ImageOk(p.target, img, next) && ProcOk(pid, p, img, next)
    ensures var img' := EffectOfInstall(at, pid, p, img, AnswerInstall(at, p, img, c), c, next);
      && (img'.disk.Some? ==> Inherited(img, img'.disk.value))
      && (forall t | t in img'.temps && !(at.Build? && c.ok && t == p.temp) :: Inherited(img, img'.temps[t]))
      && (at.Build? && c.ok ==> img'.disk.None? && img'.temps[p.temp].content == Complete(Built(c, p.target)))
  {
  }

  /** No disk is new. */
  ghost predicate Fewer(img: Image, img': Image) {
    && (img'.disk.Some? ==> img'.disk == img.disk)
    && (forall t | t in img'.temps :: t in img.temps && img'.temps[t] == img.temps[t])
  }

  lemma DeleteOnlyRemoves(at: DeleteStep, p: Proc, img: Image, r: Reply, c: Choice)
    ensures Fewer(img, EffectOfDelete(at, p, img, r, c))
  {
  }

  lemma OthersOnlyRemove(pid: nat, p: Proc, img: Image, r: Reply, c: Choice, next: nat)
    requires !p.pc.Installing?
    ensures Fewer(img, Effect(pid, p, img, r, c, next))
  {
    if p.pc.Deleting? {
      DeleteOnlyRemoves(p.pc.delete, p, img, r, c);
    }
  }

  /** Disks that are not touched by a build are as they were. */
  lemma InheritedIsFromBuild(moves: seq<Move>, longer: seq<Move>, id: ImageId, img: Image, d: Disk)
    requires AllFromBuilds(moves, id, img) && Inherited(img, d)
    requires forall t | t in img.temps :: img.temps[t].inode == t
    requires BuiltFor(longer, id, d.inode) == BuiltFor(moves, id, d.inode)
    ensures FromBuild(longer, id, d)
  {
  }

  lemma FewerAreFromBuilds(moves: seq<Move>, longer: seq<Move>, id: ImageId, img: Image, img': Image)
    requires AllFromBuilds(moves, id, img) && Fewer(img, img')
    requires forall inode :: BuiltFor(longer, id, inode) == BuiltFor(moves, id, inode)
    ensures AllFromBuilds(longer, id, img')
  {
  }

  lemma OneMoreMove(moves: seq<Move>, m: Move, id: ImageId, inode: nat)
    ensures var longer := moves + [m];
      BuiltFor(longer, id, inode) ==
        if Builds(Exec(START, moves), m, id, inode) then Some(Built(m.choice, id)) else BuiltFor(moves, id, inode)
  {
    assert (moves + [m])[..|moves|] == moves;
  }

  /** A call of Install. */
  lemma InstallIsFromBuilds(moves: seq<Move>, longer: seq<Move>, pid: nat, p: Proc, img: Image, c: Choice, next: nat)
    requires p.pc.Installing? && ImageOk(p.target, img, next) && ProcOk(pid, p, img, next)
    requires AllFromBuilds(moves, p.target, img)
    requires forall inode ::
      BuiltFor(longer, p.target, inode) == if p.pc.install.Build? && c.ok && inode == p.temp
                                           then Some(Built(c, p.target)) else BuiltFor(moves, p.target, inode)
    ensures AllFromBuilds(longer, p.target,
      EffectOfInstall(p.pc.install, pid, p, img, AnswerInstall(p.pc.install, p, img, c), c, next))
  {
    var at := p.pc.install;
    var img' := EffectOfInstall(at, pid, p, img, AnswerInstall(at, p, img, c), c, next);
    InstallInherits(at, pid, p, img, c, next);
    InstallKeepsImage(at, pid, p, img, c, next);
    assert forall t | t in img.temps :: img.temps[t].inode == t;
    if img'.disk.Some? {
      InheritedIsFromBuild(moves, longer, p.target, img, img'.disk.value);
    }
    forall t | t in img'.temps ensures FromBuild(longer, p.target, img'.temps[t]) {
      if !(at.Build? && c.ok && t == p.temp) {
        InheritedIsFromBuild(moves, longer, p.target, img, img'.temps[t]);
      }
    }
  }

  lemma MoveKeepsFromBuilds(moves: seq<Move>, m: Move, id: ImageId)
    requires AllFromBuilds(moves, id, Img(Exec(START, moves), id))
    ensures AllFromBuilds(moves + [m], id, Img(Apply(Exec(START, moves), m), id))
  {
    var w := Exec(START, moves);
    forall inode ensures BuiltFor(moves + [m], id, inode) ==
      if Builds(w, m, id, inode) then Some(Built(m.choice, id)) else BuiltFor(moves, id, inode)
    {
      OneMoreMove(moves, m, id, inode);
    }
    Safety.ReachableIsOk(moves);
    Safety.ImageAfterMove(w, m, id);
    if m.Act? && Active(w, m.pid) && w.procs[m.pid].target == id {
      var p, img := w.procs[m.pid], Img(w, id);
      Safety.LocalFacts(w, m.pid);
      if p.pc.Installing? {
        InstallIsFromBuilds(moves, moves + [m], m.pid, p, img, m.choice, w.next);
      } else {
        OthersOnlyRemove(m.pid, p, img, ReplyTo(w, m.pid, m.choice), m.choice, w.next);
        FewerAreFromBuilds(moves, moves + [m], id, img, ImageAfter(w, m.pid, m.choice));
      }
    } else {
      FewerAreFromBuilds(moves, moves + [m], id, Img(w, id), Img(Apply(w, m), id));
    }
  }

  lemma {:induction false} DisksAreFromBuilds(moves: seq<Move>, id: ImageId)
    ensures AllFromBuilds(moves, id, Img(Exec(START, moves), id))
  {
    if moves != [] {
      var rest, m := moves[..|moves| - 1], moves[|moves| - 1];
      DisksAreFromBuilds(rest, id);
      MoveKeepsFromBuilds(rest, m, id);
      assert moves == rest + [m];
    }
  }

  /** In every run, disk.raw holds what its last Build call made, so it holds the image whose
      digest it carries exactly if the name given to run denoted that image at this call. */
  lemma DiskHoldsItsImageIffNameWasStable(moves: seq<Move>, id: ImageId)
    requires Img(Exec(START, moves), id).disk.Some?
    ensures var d := Img(Exec(START, moves), id).disk.value;
      exists k :: LastBuild(moves, id, d.inode, k)
        && (d.content == Complete(id) <==> Built(moves[k].choice, id) == id)
  {
    var d := Img(Exec(START, moves), id).disk.value;
    DisksAreFromBuilds(moves, id);
    Safety.ReachableIsOk(moves);
    Safety.ImageFacts(Exec(START, moves), id);
    BuiltForIsTheLastBuild(moves, id, d.inode);
  }
}
