/**
 Where the paths of an accepted configuration are found after the operations are replayed
 (agent_sandbox.py:293-413).
 */
module MountLaws {
  import opened Wrappers
  import opened MountReplay
  import opened MountPlan

  /**
   No link leads to where a link or a mount is placed: none is below another one, none is at
   /dev, /proc, /tmp or /run, those at or above home lie inside one of these, and those at or
   above the project inside one of these or home.
   */
  predicate LinksAside(c: Config) {
    && Apart(LinkOps(c.links))
    && (forall i :: 0 <= i < |c.links| ==> c.links[i].target !in {["dev"], ["proc"], TMP, ["run"]})
    && Clear(LinkOps(c.links), BaseOps(c.home)[..4], c.home)
    && Clear(LinkOps(c.links), BaseOps(c.home), c.project)
  }

  /** What the parts of the plan are, by position. */
  lemma PlanParts(c: Config, ops: seq<Op>, runtimeOps: seq<Op>, homeOps: seq<Op>, j: nat)
    requires Accepted(c) && IsPlan(c, ops, runtimeOps, homeOps) && j < |Mounts(c, runtimeOps, homeOps)|
    ensures var mounts, r, h := Mounts(c, runtimeOps, homeOps), |runtimeOps|, |homeOps|;
            && mounts[j].Mount?
            && (j < 5 ==> mounts[j] == BaseOps(c.home)[j])
            && (j == 5 ==> mounts[j] == ProjectOp(c))
            && (6 <= j < 6 + r ==> mounts[j] == runtimeOps[j - 6]
                                   && exists i :: 0 <= i < |c.runtimes| && mounts[j] == RuntimeOp(c.runtimes[i]))
            && (6 + r <= j < 6 + r + h ==> mounts[j] == homeOps[j - 6 - r]
                                           && exists p :: p in c.readOnly + c.readWrite && mounts[j] == HomeOp(c, p))
            && (6 + r + h <= j ==>
                  c.socket.Some? && j == 6 + r + h && mounts[j] == Mount(SOCKET, From(c.socket.value, true)))
  {
    var r, h := |runtimeOps|, |homeOps|;
    if 6 <= j < 6 + r {
      assert runtimeOps[j - 6] in RuntimeSet(c);
    } else if 6 + r <= j < 6 + r + h {
      assert homeOps[j - 6 - r] in HomeOps(c, c.readOnly + c.readWrite);
    }
  }

  lemma AllPlanMounts(c: Config, ops: seq<Op>, runtimeOps: seq<Op>, homeOps: seq<Op>, path: Path)
    requires Accepted(c) && IsPlan(c, ops, runtimeOps, homeOps)
    ensures AllMounts(Mounts(c, runtimeOps, homeOps)) && AllSymlinks(LinkOps(c.links))
    ensures Resolve(ops, path) == Resolve(LinkOps(c.links) + Mounts(c, runtimeOps, homeOps), path)
  {
    hide IsPlan, Accepted, Mounts;
    forall j: nat | j < |Mounts(c, runtimeOps, homeOps)| ensures Mounts(c, runtimeOps, homeOps)[j].Mount? {
      PlanParts(c, ops, runtimeOps, homeOps, j);
    }
    PlanBare(c, ops, runtimeOps, homeOps);
    BareResolves(ops, path);
  }

  lemma PlanBare(c: Config, ops: seq<Op>, runtimeOps: seq<Op>, homeOps: seq<Op>)
    requires Accepted(c) && IsPlan(c, ops, runtimeOps, homeOps)
    ensures Bare(ops) == LinkOps(c.links) + Mounts(c, runtimeOps, homeOps)
  {
  }

  lemma PrivateAt(home: Path, k: nat)
    requires k < 4
    ensures BaseOps(home)[k].target == [["dev"], ["proc"], TMP, ["run"]][k] && |BaseOps(home)[k].target| == 1
    ensures BaseOps(home)[k].target in {["dev"], ["proc"], TMP, ["run"]}
  {
  }

  /** A link at or above a path of one component, which is not the root, is that path. */
  lemma ClearTop(c: Config, mounts: seq<Op>, top: Path)
    requires AcceptedLinks(c) && |top| == 1 && forall j :: 0 <= j < |mounts| ==> |mounts[j].target| >= 1
    ensures Clear(LinkOps(c.links), mounts, top) <==> forall i :: 0 <= i < |c.links| ==> c.links[i].target != top
  {
    forall i | 0 <= i < |c.links|
      ensures LinkOps(c.links)[i].target <= top <==> c.links[i].target == top
      ensures LinkOps(c.links)[i].target == top ==> !Hidden(top, mounts)
    {
      assert AcceptedLink(c, c.links[i]);
      if c.links[i].target <= top {
        assert |c.links[i].target| == 1 && top[..1] == top;
      }
    }
  }

  /** A mount over a path stays over it in longer lists. */
  lemma ClearMore(links: seq<Op>, few: seq<Op>, mounts: seq<Op>, path: Path)
    requires Clear(links, few, path) && few <= mounts
    ensures Clear(links, mounts, path)
  {
    forall i | 0 <= i < |links| && links[i].target <= path ensures Hidden(links[i].target, mounts) {
      var k :| 0 <= k < |few| && few[k].target < links[i].target;
      assert mounts[k] == few[k];
    }
  }

  /** Links above a path below home lie in the home directory, or where those above home do. */
  lemma ClearBelowHome(links: seq<Op>, mounts: seq<Op>, home: Path, path: Path)
    requires Clear(links, mounts, home) && home <= path && exists k :: 0 <= k < |mounts| && mounts[k].target == home
    ensures Clear(links, mounts, path)
  {
    var k :| 0 <= k < |mounts| && mounts[k].target == home;
    forall i | 0 <= i < |links| && links[i].target <= path ensures Hidden(links[i].target, mounts) {
      PrefixesCompare(links[i].target, home, path);
      if !(links[i].target <= home) {
        assert mounts[k].target < links[i].target;
      }
    }
  }

  lemma ClearRuntime(c: Config, mounts: seq<Op>, i: nat)
    requires AcceptedLinks(c) && i < |c.runtimes|
    ensures Clear(LinkOps(c.links), mounts, c.runtimes[i].target)
  {
    hide Hidden;
    forall l | 0 <= l < |c.links| ensures !(LinkOps(c.links)[l].target <= c.runtimes[i].target) {
      assert AcceptedLink(c, c.links[l]);
    }
  }

  lemma ClearSocket(c: Config, mounts: seq<Op>)
    requires AcceptedLinks(c) && exists k :: 0 <= k < |mounts| && mounts[k].target == ["run"]
    requires forall i :: 0 <= i < |c.links| ==> c.links[i].target != ["run"]
    ensures Clear(LinkOps(c.links), mounts, SOCKET)
  {
    var k :| 0 <= k < |mounts| && mounts[k].target == ["run"];
    forall i | 0 <= i < |c.links| && LinkOps(c.links)[i].target <= SOCKET
      ensures Hidden(LinkOps(c.links)[i].target, mounts)
    {
      assert AcceptedLink(c, c.links[i]);
      var t := c.links[i].target;
      assert SOCKET[..1] == ["run"] && SOCKET[..|t|] == t;
      assert mounts[k].target < t;
    }
  }

  /** Of the first six mounts. */
  lemma BasesStraight(c: Config, runtimeOps: seq<Op>, homeOps: seq<Op>)
    requires AcceptedLinks(c)
    ensures var links, mounts := LinkOps(c.links), Mounts(c, runtimeOps, homeOps);
            (forall k :: 0 <= k < 6 ==> Clear(links, mounts[..k], mounts[k].target)) && Apart(links) <==> LinksAside(c)
  {
    hide Clear, Mounts, LinkOps, Apart;
    var links, mounts := LinkOps(c.links), Mounts(c, runtimeOps, homeOps);
    BaseFirst(c, runtimeOps, homeOps);
    forall k | 0 <= k < 4
      ensures mounts[k].target in {["dev"], ["proc"], TMP, ["run"]} && mounts[k].target == BaseOps(c.home)[k].target
      ensures Clear(links, mounts[..k], mounts[k].target) <==>
              forall i :: 0 <= i < |c.links| ==> c.links[i].target != mounts[k].target
    {
      assert mounts[k] == mounts[..5][k];
      forall j | 0 <= j < k ensures |mounts[..k][j].target| >= 1 {
        assert mounts[..k][j] == mounts[..5][j];
        PrivateAt(c.home, j);
      }
      PrivateAt(c.home, k);
      ClearTop(c, mounts[..k], mounts[k].target);
    }
    assert mounts[0].target == ["dev"] && mounts[1].target == ["proc"] && mounts[2].target == TMP
           && mounts[3].target == ["run"];
    assert mounts[..4] == mounts[..5][..4] && mounts[4] == mounts[..5][4];
  }

  /** Nothing of the plan is placed through a link if and only if the links are aside. */
  lemma PlanStraight(c: Config, ops: seq<Op>, runtimeOps: seq<Op>, homeOps: seq<Op>)
    requires Accepted(c) && IsPlan(c, ops, runtimeOps, homeOps)
    ensures Straight(LinkOps(c.links), Mounts(c, runtimeOps, homeOps)) <==> LinksAside(c)
  {
    hide Clear, Mounts, LinkOps, Apart, IsPlan, LinksAside, Lists, Ordered;
    var links, mounts := LinkOps(c.links), Mounts(c, runtimeOps, homeOps);
    BaseFirst(c, runtimeOps, homeOps);
    BasesStraight(c, runtimeOps, homeOps);
    if LinksAside(c) {
      forall k | 0 <= k < |mounts| ensures Clear(links, mounts[..k], mounts[k].target) {
        if 6 <= k {
          LaterClear(c, ops, runtimeOps, homeOps, k);
        }
      }
    }
  }

  lemma AsideParts(c: Config)
    requires LinksAside(c)
    ensures Clear(LinkOps(c.links), BaseOps(c.home)[..4], c.home)
    ensures forall i :: 0 <= i < |c.links| ==> c.links[i].target != ["run"]
  {
  }

  lemma LaterClear(c: Config, ops: seq<Op>, runtimeOps: seq<Op>, homeOps: seq<Op>, k: nat)
    requires Accepted(c) && IsPlan(c, ops, runtimeOps, homeOps) && LinksAside(c)
    requires 6 <= k < |Mounts(c, runtimeOps, homeOps)|
    ensures var mounts := Mounts(c, runtimeOps, homeOps);
            Clear(LinkOps(c.links), mounts[..k], mounts[k].target)
  {
    hide Clear, Mounts, LinkOps, Apart, IsPlan, LinksAside, Lists, Ordered, AcceptedLinks;
    var links, mounts, r := LinkOps(c.links), Mounts(c, runtimeOps, homeOps), |runtimeOps|;
    PlanParts(c, ops, runtimeOps, homeOps, k);
    BaseFirst(c, runtimeOps, homeOps);
    AsideParts(c);
    assert mounts[..k][3] == mounts[..5][3] && mounts[..k][4] == mounts[..5][4];
    if k < 6 + r {
      var i :| 0 <= i < |c.runtimes| && mounts[k] == RuntimeOp(c.runtimes[i]);
      ClearRuntime(c, mounts[..k], i);
    } else if k < 6 + r + |homeOps| {
      assert BaseOps(c.home)[..4] <= mounts[..k] by {
        assert mounts[..k][..4] == mounts[..5][..4];
      }
      ClearMore(links, BaseOps(c.home)[..4], mounts[..k], c.home);
      ClearBelowHome(links, mounts[..k], c.home, mounts[k].target);
    } else {
      ClearSocket(c, mounts[..k]);
    }
  }

  /** Only a runtime mount can cover the project after it is mounted. */
  lemma CoversProject(c: Config, ops: seq<Op>, runtimeOps: seq<Op>, homeOps: seq<Op>, j: nat)
    requires Accepted(c) && IsPlan(c, ops, runtimeOps, homeOps)
    requires 5 < j < |Mounts(c, runtimeOps, homeOps)| && Mounts(c, runtimeOps, homeOps)[j].target <= c.project
    ensures j < 6 + |runtimeOps|
    ensures exists i :: 0 <= i < |c.runtimes| && Mounts(c, runtimeOps, homeOps)[j] == RuntimeOp(c.runtimes[i])
  {
    hide IsPlan, Mounts, Lists, AcceptedRuntimes, AcceptedLinks, AcceptedPolicy;
    assert !(SOCKET <= c.project) by {
      assert PROTECTED[9] == ["run"] && SOCKET[..1] == ["run"];
    }
    PlanParts(c, ops, runtimeOps, homeOps, j);
  }

  /** Where a configured runtime mount stands in the plan. */
  lemma RuntimeIndex(c: Config, ops: seq<Op>, runtimeOps: seq<Op>, homeOps: seq<Op>, i: nat) returns (k: nat)
    requires Accepted(c) && IsPlan(c, ops, runtimeOps, homeOps) && i < |c.runtimes|
    ensures 6 <= k < 6 + |runtimeOps| && k < |Mounts(c, runtimeOps, homeOps)|
    ensures Mounts(c, runtimeOps, homeOps)[k] == RuntimeOp(c.runtimes[i])
  {
    hide Ordered, Accepted, BaseOps;
    assert RuntimeOp(c.runtimes[i]) in RuntimeSet(c);
    assert RuntimeOp(c.runtimes[i]) in runtimeOps;
    var j :| 0 <= j < |runtimeOps| && runtimeOps[j] == RuntimeOp(c.runtimes[i]);
    k := 6 + j;
    assert |BaseOps(c.home)| == 5 by { FiveBases(c.home); }
  }

  lemma FiveBases(home: Path)
    ensures |BaseOps(home)| == 5
  {
  }

  lemma BaseFirst(c: Config, runtimeOps: seq<Op>, homeOps: seq<Op>)
    ensures 5 < |Mounts(c, runtimeOps, homeOps)|
    ensures Mounts(c, runtimeOps, homeOps)[..5] == BaseOps(c.home) && Mounts(c, runtimeOps, homeOps)[5] == ProjectOp(c)
  {
  }

  /**
   The project path is found at the snapshot, writable, exactly when no link leads to a place
   of the plan and no runtime mount of a file is at or above the project.
   */
  lemma ProjectTheorem(c: Config, ops: seq<Op>, runtimeOps: seq<Op>, homeOps: seq<Op>)
    requires Accepted(c) && IsPlan(c, ops, runtimeOps, homeOps)
    ensures Resolve(ops, c.project) == At(From(c.snapshot, true)) <==>
            && LinksAside(c)
            && forall i :: 0 <= i < |c.runtimes| && c.runtimes[i].isFile ==> !(c.runtimes[i].target <= c.project)
  {
    hide Mounts, IsPlan, BaseOps, Clear, LinkOps, Resolve, LinksAside, Straight;
    var links, mounts := LinkOps(c.links), Mounts(c, runtimeOps, homeOps);
    AllPlanMounts(c, ops, runtimeOps, homeOps, c.project);
    PlanStraight(c, ops, runtimeOps, homeOps);
    BaseFirst(c, runtimeOps, homeOps);
    RedirectTheorem(links, mounts, c.project);
    if i :| 0 <= i < |c.runtimes| && c.runtimes[i].target <= c.project {
      assert AcceptedRuntime(c, c.runtimes[i]);
      var j := RuntimeIndex(c, ops, runtimeOps, homeOps, i);
      if LinksAside(c) {
        CoveredTarget(links, mounts, 5, j);
        var l :| 5 < l < |mounts| && mounts[l].target <= c.project
                 && Resolve(links + mounts, c.project) == At(mounts[l].source);
        CoversProject(c, ops, runtimeOps, homeOps, l);
      }
    } else {
      forall j | 5 < j < |mounts| ensures !(mounts[j].target <= c.project) {
        if mounts[j].target <= c.project {
          CoversProject(c, ops, runtimeOps, homeOps, j);
        }
      }
      OwnTarget(links, mounts, 5);
    }
  }

  /** Two listed runtime mounts, or two listed home mounts, do not overlap. */
  lemma RuntimesApart(c: Config, ops: seq<Op>, a: nat, b: nat)
    requires AcceptedRuntimes(c) && Lists(ops, RuntimeSet(c)) && a < |ops| && b < |ops| && a != b
    ensures !Overlap(ops[a].target, ops[b].target)
  {
    assert ops[a] in RuntimeSet(c) && ops[b] in RuntimeSet(c);
    var m, n :| m in c.runtimes && n in c.runtimes && RuntimeOp(m) == ops[a] && RuntimeOp(n) == ops[b];
    var i :| 0 <= i < |c.runtimes| && c.runtimes[i] == m;
    var j :| 0 <= j < |c.runtimes| && c.runtimes[j] == n;
    assert i != j by {
      assert a < b || b < a;
    }
  }

  lemma HomesApart(c: Config, ops: seq<Op>, a: nat, b: nat)
    requires AcceptedHomes(c) && Lists(ops, HomeOps(c, c.readOnly + c.readWrite)) && a < |ops| && b < |ops| && a != b
    ensures !Overlap(ops[a].target, ops[b].target)
  {
    assert ops[a] in HomeOps(c, c.readOnly + c.readWrite) && ops[b] in HomeOps(c, c.readOnly + c.readWrite);
    var p :| p in c.readOnly + c.readWrite && HomeOp(c, p) == ops[a];
    var q :| q in c.readOnly + c.readWrite && HomeOp(c, q) == ops[b];
    assert p != q by {
      assert a < b || b < a;
    }
  }

  /** Only the controller's socket can cover a runtime mount. */
  lemma CoversRuntime(c: Config, ops: seq<Op>, runtimeOps: seq<Op>, homeOps: seq<Op>, k: nat, j: nat)
    requires Accepted(c) && IsPlan(c, ops, runtimeOps, homeOps) && 6 <= k < 6 + |runtimeOps|
    requires k < j < |Mounts(c, runtimeOps, homeOps)|
    requires Mounts(c, runtimeOps, homeOps)[j].target <= Mounts(c, runtimeOps, homeOps)[k].target
    ensures c.socket.Some? && Mounts(c, runtimeOps, homeOps)[j] == Mount(SOCKET, From(c.socket.value, true))
  {
    hide Mounts, Lists, RuntimeSet;
    PlanParts(c, ops, runtimeOps, homeOps, k);
    PlanParts(c, ops, runtimeOps, homeOps, j);
    if j < 6 + |runtimeOps| {
      RuntimesApart(c, runtimeOps, k - 6, j - 6);
    }
  }

  /**
   A runtime target is found at its own source, read-only, exactly when no link leads to a
   place of the plan and the controller's socket is not mounted at or above it; no later
   runtime or home mount hides it.
   */
  lemma RuntimeTheorem(c: Config, ops: seq<Op>, runtimeOps: seq<Op>, homeOps: seq<Op>, i: nat)
    requires Accepted(c) && IsPlan(c, ops, runtimeOps, homeOps) && i < |c.runtimes|
    ensures Resolve(ops, c.runtimes[i].target) == At(From(c.runtimes[i].source, false)) <==>
            LinksAside(c) && (c.socket.Some? ==> !(SOCKET <= c.runtimes[i].target))
  {
    hide Mounts, IsPlan, BaseOps, LinkOps, Resolve, Lists, Hidden, LinksAside, Straight;
    var links, mounts, t := LinkOps(c.links), Mounts(c, runtimeOps, homeOps), c.runtimes[i].target;
    AllPlanMounts(c, ops, runtimeOps, homeOps, t);
    PlanStraight(c, ops, runtimeOps, homeOps);
    RedirectTheorem(links, mounts, t);
    var k := RuntimeIndex(c, ops, runtimeOps, homeOps, i);
    if j :| k < j < |mounts| && mounts[j].target <= t {
      CoversRuntime(c, ops, runtimeOps, homeOps, k, j);
      if LinksAside(c) {
        CoveredTarget(links, mounts, k, j);
        var l :| k < l < |mounts| && mounts[l].target <= t && Resolve(links + mounts, t) == At(mounts[l].source);
        CoversRuntime(c, ops, runtimeOps, homeOps, k, l);
      }
    } else {
      OwnTarget(links, mounts, k);
      if c.socket.Some? {
        SocketLast(c, ops, runtimeOps, homeOps);
      }
    }
  }

  lemma SocketLast(c: Config, ops: seq<Op>, runtimeOps: seq<Op>, homeOps: seq<Op>)
    requires Accepted(c) && IsPlan(c, ops, runtimeOps, homeOps) && c.socket.Some?
    ensures var mounts := Mounts(c, runtimeOps, homeOps);
            |mounts| == 7 + |runtimeOps| + |homeOps| && mounts[|mounts| - 1].target == SOCKET
  {
  }

  /** Below home, an accepted mount's target is covered by no mount but those of the home directory and above. */
  lemma CoversHome(c: Config, ops: seq<Op>, runtimeOps: seq<Op>, homeOps: seq<Op>, p: Path, k: nat, j: nat)
    requires Accepted(c) && IsPlan(c, ops, runtimeOps, homeOps) && p in c.readOnly + c.readWrite
    requires 6 + |runtimeOps| <= k < 6 + |runtimeOps| + |homeOps| && homeOps[k - 6 - |runtimeOps|] == HomeOp(c, p)
    requires 5 <= j < |Mounts(c, runtimeOps, homeOps)| && j != k
    requires Mounts(c, runtimeOps, homeOps)[j].target <= c.home + p
    ensures c.socket.Some? && SOCKET <= c.home + p
  {
    hide Mounts, Lists, RuntimeSet;
    PlanParts(c, ops, runtimeOps, homeOps, j);
    assert AcceptedHome(c, p);
    if 6 + |runtimeOps| <= j < 6 + |runtimeOps| + |homeOps| {
      HomesApart(c, homeOps, k - 6 - |runtimeOps|, j - 6 - |runtimeOps|);
    }
  }

  /**
   A requested home path is found at its own source with exactly the requested permission
   if and only if no link leads to a place of the plan (the controller's socket aside).
   */
  lemma HomeTheorem(c: Config, ops: seq<Op>, runtimeOps: seq<Op>, homeOps: seq<Op>, p: Path)
    requires Accepted(c) && IsPlan(c, ops, runtimeOps, homeOps) && p in c.readOnly + c.readWrite
    requires c.socket.Some? ==> !(SOCKET <= c.home + p)
    ensures Resolve(ops, c.home + p) == At(From(c.sources[p].resolved, p in c.readWrite)) <==> LinksAside(c)
  {
    hide Mounts, BaseOps, LinkOps, Resolve, Hidden, Clear, Ordered, LinksAside, Straight;
    var links, mounts, t := LinkOps(c.links), Mounts(c, runtimeOps, homeOps), c.home + p;
    AllPlanMounts(c, ops, runtimeOps, homeOps, t);
    PlanStraight(c, ops, runtimeOps, homeOps);
    assert p !in c.readOnly * c.readWrite;
    assert HomeOp(c, p) in HomeOps(c, c.readOnly + c.readWrite);
    assert HomeOp(c, p) in homeOps;
    var i :| 0 <= i < |homeOps| && homeOps[i] == HomeOp(c, p);
    var k := 6 + |runtimeOps| + i;
    HomeAt(c, runtimeOps, homeOps, i);
    forall j | k < j < |mounts| ensures !(mounts[j].target <= t) {
      if mounts[j].target <= t {
        CoversHome(c, ops, runtimeOps, homeOps, p, k, j);
      }
    }
    OwnTarget(links, mounts, k);
  }

  lemma HomeAt(c: Config, runtimeOps: seq<Op>, homeOps: seq<Op>, i: nat)
    requires i < |homeOps|
    ensures var mounts, k := Mounts(c, runtimeOps, homeOps), 6 + |runtimeOps| + i;
            k < |mounts| && mounts[k] == homeOps[i]
  {
  }

  // ---------------------------------------------------------------- witnesses

  /** A project at /srv/p, home at /home/work. */
  function Example(runtimes: seq<Runtime>, links: seq<Link>): Config {
    Config(["srv", "p"], "/snapshot", true, ["home", "work"], {}, {}, {}, {}, runtimes, links, map[], None)
  }

  lemma TopsDiffer(a: Path, b: Path)
    requires a != [] && b != [] && a[0] != b[0]
    ensures !Overlap(a, b)
  {
  }

  lemma BelowSrv(project: Path)
    requires project != [] && project[0] == "srv"
    ensures forall i :: 0 <= i < |PROTECTED| ==> !Overlap(project, PROTECTED[i])
  {
    forall i | 0 <= i < |PROTECTED| ensures !Overlap(project, PROTECTED[i]) {
      TopsDiffer(project, PROTECTED[i]);
    }
  }

  lemma ExampleAccepted(runtimes: seq<Runtime>, links: seq<Link>)
    requires AcceptedRuntimes(Example(runtimes, links)) && AcceptedLinks(Example(runtimes, links))
    ensures Accepted(Example(runtimes, links))
  {
    BelowSrv(["srv", "p"]);
    TopsDiffer(["srv", "p"], ["home", "work"]);
  }

  /** Without links and runtime files over it, the project is in place. */
  lemma PlainWitness(ops: seq<Op>, runtimeOps: seq<Op>, homeOps: seq<Op>)
    ensures var c := Example([], []);
            && Accepted(c)
            && (IsPlan(c, ops, runtimeOps, homeOps) ==> Resolve(ops, c.project) == At(From("/snapshot", true)))
  {
    hide IsPlan, Resolve;
    ExampleAccepted([], []);
    if IsPlan(Example([], []), ops, runtimeOps, homeOps) {
      ProjectTheorem(Example([], []), ops, runtimeOps, homeOps);
    }
  }

  /** The file of a runtime mount at the project is accepted, and hides it. */
  lemma RuntimeFileWitness(ops: seq<Op>, runtimeOps: seq<Op>, homeOps: seq<Op>)
    ensures var c := Example([Runtime("/opt/tool", true, ["srv", "p"], false, true, false)], []);
            && Accepted(c)
            && (IsPlan(c, ops, runtimeOps, homeOps) ==> Resolve(ops, c.project) != At(From("/snapshot", true)))
  {
    hide IsPlan, Resolve;
    var runtimes := [Runtime("/opt/tool", true, ["srv", "p"], false, true, false)];
    ExampleAccepted(runtimes, []);
    if IsPlan(Example(runtimes, []), ops, runtimeOps, homeOps) {
      ProjectTheorem(Example(runtimes, []), ops, runtimeOps, homeOps);
      assert Example(runtimes, []).runtimes[0].isFile;
    }
  }

  /** A link above the project is accepted, and the project is placed through it. */
  lemma LinkWitness(ops: seq<Op>, runtimeOps: seq<Op>, homeOps: seq<Op>)
    ensures var c := Example([], [Link(true, ["srv"], "data")]);
            Accepted(c) && (IsPlan(c, ops, runtimeOps, homeOps) ==> Resolve(ops, c.project) == Unknown)
  {
    hide IsPlan, Resolve, Straight;
    var links := [Link(true, ["srv"], "data")];
    var c := Example([], links);
    ExampleAccepted([], links);
    if IsPlan(c, ops, runtimeOps, homeOps) {
      AllPlanMounts(c, ops, runtimeOps, homeOps, c.project);
      PlanStraight(c, ops, runtimeOps, homeOps);
      RedirectTheorem(LinkOps(links), Mounts(c, runtimeOps, homeOps), c.project);
      assert LinkOps(links)[0].target <= c.project;
      assert !Hidden(["srv"], BaseOps(c.home));
    }
  }

  /** A link above home makes a home mount land elsewhere, here on the project; that is accepted too. */
  lemma HomeLinkWitness(ops: seq<Op>, runtimeOps: seq<Op>, homeOps: seq<Op>)
    ensures var c := Config(["srv", "work", "p"], "/snapshot", true, ["home", "work"], {["p"]}, {}, {["p"]}, {}, [],
                            [Link(true, ["home"], "srv")], map[["p"] := Inside("/home/work/p")], None);
            && Accepted(c) && Clear(LinkOps(c.links), BaseOps(c.home), c.project)
            && (IsPlan(c, ops, runtimeOps, homeOps) ==> Resolve(ops, c.project) == Unknown)
  {
    hide IsPlan, Resolve, Straight;
    var links := [Link(true, ["home"], "srv")];
    var c := Config(["srv", "work", "p"], "/snapshot", true, ["home", "work"], {["p"]}, {}, {["p"]}, {}, [], links,
                    map[["p"] := Inside("/home/work/p")], None);
    HomeLinkAccepted(c, links);
    assert !(LinkOps(links)[0].target <= c.project) by {
      assert c.project[..1] == ["srv"];
    }
    if IsPlan(c, ops, runtimeOps, homeOps) {
      AllPlanMounts(c, ops, runtimeOps, homeOps, c.project);
      PlanStraight(c, ops, runtimeOps, homeOps);
      RedirectTheorem(LinkOps(links), Mounts(c, runtimeOps, homeOps), c.project);
      assert LinkOps(links)[0].target <= c.home;
      assert !Hidden(["home"], BaseOps(c.home)[..4]);
    }
  }

  lemma HomeLinkAccepted(c: Config, links: seq<Link>)
    requires links == [Link(true, ["home"], "srv")]
    requires c == Config(["srv", "work", "p"], "/snapshot", true, ["home", "work"], {["p"]}, {}, {["p"]}, {}, [], links,
                         map[["p"] := Inside("/home/work/p")], None)
    ensures Accepted(c)
  {
    BelowSrv(c.project);
    TopsDiffer(c.project, c.home);
    TopsDiffer(c.home + ["p"], c.project);
  }
}
