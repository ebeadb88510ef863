/**
 The checks and the mount operations of `build_sandbox_command` (agent_sandbox.py:218-245,
 276-425). Paths are compared component by component, as `PurePath.relative_to` does.
 */
module MountPlan {
  import opened Wrappers
  import opened MountReplay

  const TMP: Path := ["tmp"]
  const PROTECTED: seq<Path> :=
    [["usr"], ["lib"], ["lib64"], ["bin"], ["sbin"], ["etc"], ["dev"], ["proc"], TMP, ["run"]]
  const SOCKET: Path := ["run", "agent-controller.sock"]

  /** A runtime mount as configured; what its resolved source is was looked up on the host. */
  datatype Runtime = Runtime(source: string, absolute: bool, target: Path, isDir: bool, isFile: bool,
                             sourceIsRoot: bool)

  datatype Link = Link(absolute: bool, target: Path, to: string)

  /** What the host has at a path below home: nothing mountable, something outside home, or a source. */
  datatype HomeSource = Missing | Outside | Inside(resolved: string)

  datatype Config = Config(project: Path, snapshot: string, snapshotIsDir: bool, home: Path,
                           readOnly: set<Path>, readWrite: set<Path>, allowedRead: set<Path>, allowedWrite: set<Path>,
                           runtimes: seq<Runtime>, links: seq<Link>, sources: map<Path, HomeSource>,
                           socket: Option<string>)

  // -------------------------------------------------------------- the checks

  predicate RelativeHomePath(path: Path) {
    path != [] && forall i :: 0 <= i < |path| ==> path[i] !in {"", ".", ".."} && '\\' !in path[i] && '\0' !in path[i]
  }

  predicate AcceptedRoots(c: Config) {
    && c.snapshotIsDir && c.project != [] && c.home != [] && c.project != c.home && !(c.project <= c.home)
    && forall i :: 0 <= i < |PROTECTED| ==>
         !(c.project <= PROTECTED[i]) && (PROTECTED[i] <= c.project ==> PROTECTED[i] == TMP)
  }

  predicate AcceptedPolicy(c: Config) {
    && (forall p :: p in c.readOnly + c.readWrite + c.allowedRead + c.allowedWrite ==> RelativeHomePath(p))
    && c.readOnly * c.readWrite == {} && c.readOnly <= c.allowedRead && c.readWrite <= c.allowedWrite
  }

  predicate AcceptedRuntime(c: Config, m: Runtime) {
    && m.absolute && m.target != [] && (m.isFile || m.isDir) && !m.sourceIsRoot
    && !(m.isDir && m.target <= c.project)
  }

  predicate AcceptedRuntimes(c: Config) {
    && (forall i :: 0 <= i < |c.runtimes| ==> AcceptedRuntime(c, c.runtimes[i]))
    && forall i, j :: 0 <= i < j < |c.runtimes| ==> !Overlap(c.runtimes[i].target, c.runtimes[j].target)
  }

  predicate AcceptedLink(c: Config, l: Link) {
    && l.absolute && l.target != [] && l.to != ""
    && forall i :: 0 <= i < |c.runtimes| ==> !Overlap(l.target, c.runtimes[i].target)
  }

  predicate AcceptedLinks(c: Config) {
    && (forall i :: 0 <= i < |c.links| ==> AcceptedLink(c, c.links[i]))
    && forall i, j :: 0 <= i < j < |c.links| ==> c.links[i].target != c.links[j].target
  }

  predicate AcceptedHome(c: Config, p: Path) {
    && p in c.sources && c.sources[p].Inside?
    && !Overlap(c.home + p, c.project)
    && forall i :: 0 <= i < |c.runtimes| ==> !Overlap(c.runtimes[i].target, c.home + p)
  }

  predicate AcceptedHomes(c: Config) {
    && (forall p :: p in c.readOnly + c.readWrite ==> AcceptedHome(c, p))
    && forall p, q :: p in c.readOnly + c.readWrite && q in c.readOnly + c.readWrite && p != q
         ==> !Overlap(c.home + p, c.home + q)
  }

  predicate Accepted(c: Config) {
    AcceptedRoots(c) && AcceptedPolicy(c) && AcceptedRuntimes(c) && AcceptedLinks(c) && AcceptedHomes(c)
  }

  // ---------------------------------------------------------- the operations

  function LinkOps(links: seq<Link>): (ops: seq<Op>)
    ensures |ops| == |links| && AllSymlinks(ops)
    ensures forall i :: 0 <= i < |links| ==> ops[i].target == links[i].target
  {
    seq(|links|, i requires 0 <= i < |links| => Symlink(links[i].target, links[i].to))
  }

  function BaseOps(home: Path): seq<Op> {
    [Mount(["dev"], Private("dev")), Mount(["proc"], Private("proc")), Mount(TMP, Private("tmpfs")),
     Mount(["run"], Private("tmpfs")), Mount(home, Private("tmpfs"))]
  }

  function ProjectOp(c: Config): Op {
    Mount(c.project, From(c.snapshot, true))
  }

  function RuntimeOp(m: Runtime): Op {
    Mount(m.target, From(m.source, false))
  }

  function HomeOp(c: Config, p: Path): Op
    requires p in c.sources && c.sources[p].Inside?
  {
    Mount(c.home + p, From(c.sources[p].resolved, p !in c.readOnly))
  }

  function SocketOps(c: Config): seq<Op> {
    if c.socket.Some? then [Mount(SOCKET, From(c.socket.value, true))] else []
  }

  /** `ops` lists the operations of `all`, each once. */
  ghost predicate Lists(ops: seq<Op>, all: set<Op>) {
    && (forall op :: op in ops <==> op in all)
    && (forall i, j :: 0 <= i < j < |ops| ==> ops[i] != ops[j])
  }

  function RuntimeSet(c: Config): set<Op> {
    set m | m in c.runtimes :: RuntimeOp(m)
  }

  /** The operations of some of the requested home paths. */
  function HomeOps(c: Config, paths: set<Path>): set<Op>
    requires AcceptedHomes(c) && paths <= c.readOnly + c.readWrite
  {
    set p | p in paths :: HomeOp(c, p)
  }

  /** How a path is written. */
  function Written(path: Path): string {
    if path == [] then "" else "/" + path[0] + Written(path[1..])
  }

  predicate TextLess(a: string, b: string) {
    b != [] && (a == [] || a[0] < b[0] || (a[0] == b[0] && TextLess(a[1..], b[1..])))
  }

  predicate Before(a: Op, b: Op) {
    TextLess(Written(a.target), Written(b.target))
  }

  predicate Ordered(ops: seq<Op>) {
    forall i :: 0 < i < |ops| ==> !Before(ops[i], ops[i - 1])
  }

  function Mounts(c: Config, runtimeOps: seq<Op>, homeOps: seq<Op>): seq<Op> {
    BaseOps(c.home) + [ProjectOp(c)] + runtimeOps + homeOps + SocketOps(c)
  }

  /**
   Directories aside, the operations are the links, the private mounts, the project, the
   runtime, the home mounts and the socket; runtime and home mounts in the order of their paths.
   */
  ghost predicate IsPlan(c: Config, ops: seq<Op>, runtimeOps: seq<Op>, homeOps: seq<Op>)
    requires AcceptedHomes(c)
  {
    && Lists(runtimeOps, RuntimeSet(c)) && Ordered(runtimeOps)
    && Lists(homeOps, HomeOps(c, c.readOnly + c.readWrite)) && Ordered(homeOps)
    && Bare(ops) == LinkOps(c.links) + Mounts(c, runtimeOps, homeOps)
  }

  // ------------------------------------------------------------ what is refused

  /** The paths that a project may not be placed at, above or below; /tmp has private contents, so below it is fine. */
  const SYSTEM: set<Path> :=
    {["usr"], ["lib"], ["lib64"], ["bin"], ["sbin"], ["etc"], ["dev"], ["proc"], ["tmp"], ["run"]}

  /** One path is at or below the other. */
  predicate Nested(a: Path, b: Path) {
    (|a| <= |b| && b[..|a|] == a) || (|b| <= |a| && a[..|b|] == b)
  }

  predicate RefusedRoots(c: Config) {
    || !c.snapshotIsDir || c.project == [] || c.home == []
    || (|c.project| <= |c.home| && c.home[..|c.project|] == c.project)
    || exists system :: system in SYSTEM && Nested(c.project, system) && (system != ["tmp"] || c.project == ["tmp"])
  }

  /** A request that the controller's policy does not allow, that is contradictory, or whose path is not relative. */
  predicate RefusedPolicy(c: Config) {
    || (exists p :: p in c.readOnly && p !in c.allowedRead)
    || (exists p :: p in c.readWrite && p !in c.allowedWrite)
    || (exists p :: p in c.readOnly && p in c.readWrite)
    || (exists p :: p in c.readOnly + c.readWrite + c.allowedRead + c.allowedWrite && BadPath(p))
  }

  predicate BadPath(path: Path) {
    path == [] || exists part :: part in path && (part in {"", ".", ".."} || '\\' in part || '\0' in part)
  }

  predicate BadRuntime(c: Config, m: Runtime) {
    || !m.absolute || m.target == [] || m.sourceIsRoot || (!m.isFile && !m.isDir)
    || (m.isDir && |m.target| <= |c.project| && c.project[..|m.target|] == m.target)
  }

  predicate RefusedRuntimes(c: Config) {
    || (exists i :: 0 <= i < |c.runtimes| && BadRuntime(c, c.runtimes[i]))
    || exists i, j :: 0 <= i < j < |c.runtimes| && Nested(c.runtimes[i].target, c.runtimes[j].target)
  }

  predicate RefusedLinks(c: Config) {
    || (exists i :: 0 <= i < |c.links| && (!c.links[i].absolute || c.links[i].target == [] || c.links[i].to == ""))
    || (exists i, j :: 0 <= i < j < |c.links| && c.links[i].target == c.links[j].target)
    || exists i, j :: 0 <= i < |c.links| && 0 <= j < |c.runtimes| && Nested(c.links[i].target, c.runtimes[j].target)
  }

  predicate RefusedHomes(c: Config) {
    || (exists p :: p in c.readOnly + c.readWrite && (p !in c.sources || !c.sources[p].Inside?))
    || (exists p :: p in c.readOnly + c.readWrite && Nested(c.home + p, c.project))
    || (exists p, i :: p in c.readOnly + c.readWrite && 0 <= i < |c.runtimes|
                       && Nested(c.home + p, c.runtimes[i].target))
    || exists p, q :: p in c.readOnly + c.readWrite && q in c.readOnly + c.readWrite && p != q
                      && Nested(c.home + p, c.home + q)
  }

  predicate Refused(c: Config) {
    RefusedRoots(c) || RefusedPolicy(c) || RefusedRuntimes(c) || RefusedLinks(c) || RefusedHomes(c)
  }

  lemma NestedIs(a: Path, b: Path)
    ensures Nested(a, b) <==> Overlap(a, b)
    ensures Nested(a, b) <==> Nested(b, a)
    ensures a <= b <==> |a| <= |b| && b[..|a|] == a
  {
  }

  lemma RootsRefused(c: Config)
    ensures RefusedRoots(c) <==> !AcceptedRoots(c)
  {
    hide Nested;
    NestedIs(c.project, c.home);
    forall i | 0 <= i < |PROTECTED|
      ensures PROTECTED[i] in SYSTEM && (Nested(c.project, PROTECTED[i]) <==> Overlap(c.project, PROTECTED[i]))
      ensures |PROTECTED[i]| == 1
    {
      NestedIs(c.project, PROTECTED[i]);
    }
    if RefusedRoots(c) && AcceptedRoots(c) {
      var system :| system in SYSTEM && Nested(c.project, system) && (system != ["tmp"] || c.project == ["tmp"]);
      SystemAt(system);
    }
  }

  lemma SystemAt(system: Path)
    requires system in SYSTEM
    ensures exists i :: 0 <= i < |PROTECTED| && PROTECTED[i] == system
  {
    var all := PROTECTED;
    assert all[0] == ["usr"] && all[1] == ["lib"] && all[2] == ["lib64"] && all[3] == ["bin"] && all[4] == ["sbin"];
    assert all[5] == ["etc"] && all[6] == ["dev"] && all[7] == ["proc"] && all[8] == ["tmp"] && all[9] == ["run"];
  }

  lemma PathRefused(path: Path)
    ensures BadPath(path) <==> !RelativeHomePath(path)
  {
    if path != [] && !RelativeHomePath(path) {
      var i :| 0 <= i < |path| && (path[i] in {"", ".", ".."} || '\\' in path[i] || '\0' in path[i]);
      assert path[i] in path;
    }
  }

  lemma PolicyRefused(c: Config)
    ensures RefusedPolicy(c) <==> !AcceptedPolicy(c)
  {
    hide BadPath, RelativeHomePath;
    forall p ensures BadPath(p) <==> !RelativeHomePath(p) {
      PathRefused(p);
    }
    assert forall p :: p in c.readOnly * c.readWrite <==> p in c.readOnly && p in c.readWrite;
  }

  lemma RuntimesRefused(c: Config)
    ensures RefusedRuntimes(c) <==> !AcceptedRuntimes(c)
  {
    hide Nested, Overlap;
    forall a, b ensures Nested(a, b) <==> Overlap(a, b) {
      NestedIs(a, b);
    }
    forall i | 0 <= i < |c.runtimes| ensures BadRuntime(c, c.runtimes[i]) <==> !AcceptedRuntime(c, c.runtimes[i]) {
      NestedIs(c.runtimes[i].target, c.project);
    }
  }

  lemma LinksRefused(c: Config)
    ensures RefusedLinks(c) <==> !AcceptedLinks(c)
  {
    hide Nested, Overlap;
    forall a, b ensures Nested(a, b) <==> Overlap(a, b) {
      NestedIs(a, b);
    }
  }

  lemma HomeRefusedAt(c: Config, p: Path)
    ensures AcceptedHome(c, p) <==>
            && p in c.sources && c.sources[p].Inside? && !Nested(c.home + p, c.project)
            && forall i :: 0 <= i < |c.runtimes| ==> !Nested(c.home + p, c.runtimes[i].target)
  {
    hide Nested, Overlap;
    NestedIs(c.home + p, c.project);
    forall i | 0 <= i < |c.runtimes|
      ensures Overlap(c.runtimes[i].target, c.home + p) <==> Nested(c.home + p, c.runtimes[i].target)
    {
      NestedIs(c.home + p, c.runtimes[i].target);
      NestedIs(c.runtimes[i].target, c.home + p);
    }
  }

  lemma HomesRefused(c: Config)
    ensures RefusedHomes(c) <==> !AcceptedHomes(c)
  {
    hide Nested, Overlap, AcceptedHome;
    forall p ensures AcceptedHome(c, p) <==>
                     && p in c.sources && c.sources[p].Inside? && !Nested(c.home + p, c.project)
                     && forall i :: 0 <= i < |c.runtimes| ==> !Nested(c.home + p, c.runtimes[i].target)
    {
      HomeRefusedAt(c, p);
    }
    forall p, q ensures Nested(c.home + p, c.home + q) <==> Overlap(c.home + p, c.home + q) {
      NestedIs(c.home + p, c.home + q);
    }
  }

  /** Every configuration is either accepted or has one of the faults listed. */
  lemma RefusalTheorem(c: Config)
    ensures Refused(c) <==> !Accepted(c)
  {
    hide RefusedRoots, RefusedPolicy, RefusedRuntimes, RefusedLinks, RefusedHomes,
         AcceptedRoots, AcceptedPolicy, AcceptedRuntimes, AcceptedLinks, AcceptedHomes;
    RootsRefused(c);
    PolicyRefused(c);
    RuntimesRefused(c);
    LinksRefused(c);
    HomesRefused(c);
  }

  // ------------------------------------------------------- what a plan may hold

  /** What gives the sandbox access to `source` at `target`, and who allowed it. */
  predicate Permitted(c: Config, op: Op) {
    match op
    case Dir(_) => true
    case Symlink(target, to) => exists i :: 0 <= i < |c.links| && c.links[i].target == target && c.links[i].to == to
    case Mount(target, Private(kind)) =>
      || (target == ["dev"] && kind == "dev") || (target == ["proc"] && kind == "proc")
      || (target in {["tmp"], ["run"], c.home} && kind == "tmpfs")
    case Mount(target, From(source, true)) =>
      || (target == c.project && source == c.snapshot)
      || (target == ["run", "agent-controller.sock"] && c.socket == Some(source))
      || exists p :: p in c.readWrite && p in c.allowedWrite && target == c.home + p && IsSource(c, p, source)
    case Mount(target, From(source, false)) =>
      || (exists i :: 0 <= i < |c.runtimes| && c.runtimes[i].target == target && c.runtimes[i].source == source)
      || exists p :: p in c.readOnly && p in c.allowedRead && target == c.home + p && IsSource(c, p, source)
  }

  predicate IsSource(c: Config, p: Path, source: string) {
    p in c.sources && c.sources[p] == Inside(source)
  }

  lemma BarePart(ops: seq<Op>, op: Op)
    requires op in ops && !op.Dir?
    ensures op in Bare(ops)
  {
    var i :| 0 <= i < |ops| && ops[i] == op;
    BareAt(ops, i);
  }

  lemma {:induction false} BareAt(ops: seq<Op>, i: nat)
    requires i < |ops| && !ops[i].Dir?
    ensures ops[i] in Bare(ops)
  {
    if i < |ops| - 1 {
      assert ops[..|ops| - 1][i] == ops[i];
      BareAt(ops[..|ops| - 1], i);
    }
  }

  lemma HomePermitted(c: Config, p: Path)
    requires AcceptedHomes(c) && AcceptedPolicy(c) && p in c.readOnly + c.readWrite
    ensures Permitted(c, HomeOp(c, p))
  {
    assert AcceptedHome(c, p);
    assert p !in c.readOnly * c.readWrite;
    assert IsSource(c, p, c.sources[p].resolved);
  }

  lemma BasePermitted(c: Config, op: Op)
    requires op in BaseOps(c.home) + [ProjectOp(c)] + SocketOps(c)
    ensures Permitted(c, op)
  {
  }

  lemma RuntimePermitted(c: Config, op: Op)
    requires op in RuntimeSet(c)
    ensures Permitted(c, op)
  {
    var m :| m in c.runtimes && RuntimeOp(m) == op;
    var i :| 0 <= i < |c.runtimes| && c.runtimes[i] == m;
    assert c.runtimes[i].target == op.target && c.runtimes[i].source == op.source.source;
  }

  lemma LinkPermitted(c: Config, op: Op)
    requires op in LinkOps(c.links)
    ensures Permitted(c, op)
  {
    var i :| 0 <= i < |c.links| && LinkOps(c.links)[i] == op;
    assert c.links[i].target == op.target && c.links[i].to == op.to;
  }

  /** No operation of a plan gives more than what is configured and allowed. */
  lemma PlanPermitted(c: Config, ops: seq<Op>, runtimeOps: seq<Op>, homeOps: seq<Op>, op: Op)
    requires Accepted(c) && IsPlan(c, ops, runtimeOps, homeOps) && op in ops
    ensures Permitted(c, op)
  {
    hide Permitted, Bare, LinkOps, BaseOps, RuntimeSet, HomeOps, Ordered, AcceptedHomes, AcceptedPolicy,
         AcceptedRuntimes, AcceptedLinks, AcceptedRoots;
    if op.Dir? {
      DirPermitted(c, op);
    } else {
      BarePart(ops, op);
      if op in LinkOps(c.links) {
        LinkPermitted(c, op);
      } else if op in runtimeOps {
        RuntimePermitted(c, op);
      } else if op in homeOps {
        var p := HomeOfOp(c, op);
        HomePermitted(c, p);
      } else {
        BasePermitted(c, op);
      }
    }
  }

  lemma DirPermitted(c: Config, op: Op)
    requires op.Dir?
    ensures Permitted(c, op)
  {
  }

  lemma HomeOfOp(c: Config, op: Op) returns (p: Path)
    requires AcceptedHomes(c) && op in HomeOps(c, c.readOnly + c.readWrite)
    ensures p in c.readOnly + c.readWrite && p in c.sources && c.sources[p].Inside? && HomeOp(c, p) == op
  {
    p :| p in c.readOnly + c.readWrite && HomeOp(c, p) == op;
  }

  // ---------------------------------------------------------------- sorting

  lemma {:induction false} TextAsymmetric(a: string, b: string)
    requires TextLess(a, b)
    ensures !TextLess(b, a)
  {
    if a != [] && a[0] == b[0] {
      TextAsymmetric(a[1..], b[1..]);
    }
  }

  /** The order of strings: at the first difference, or the shorter one first. */
  lemma {:induction false} TextOrder(a: string, b: string)
    ensures TextLess(a, b) <==>
            exists k :: 0 <= k <= |a| && k < |b| && a[..k] == b[..k] && (k == |a| || a[k] < b[k])
  {
    if a != [] && b != [] && a[0] == b[0] {
      TextOrder(a[1..], b[1..]);
      if k :| 0 <= k <= |a[1..]| && k < |b[1..]| && a[1..][..k] == b[1..][..k]
              && (k == |a[1..]| || a[1..][k] < b[1..][k])
      {
        assert a[..k + 1] == [a[0]] + a[1..][..k] && b[..k + 1] == [b[0]] + b[1..][..k];
      }
      if k :| 0 <= k <= |a| && k < |b| && a[..k] == b[..k] && (k == |a| || a[k] < b[k]) {
        assert 0 < k;
        assert a[1..][..k - 1] == a[..k][1..] && b[1..][..k - 1] == b[..k][1..];
      }
    } else if b != [] {
      assert a[..0] == b[..0];
      if k :| 0 <= k <= |a| && k < |b| && a[..k] == b[..k] && (k == |a| || a[k] < b[k]) {
        assert 0 < k ==> a[..k][0] == b[..k][0];
      }
    }
  }

  lemma {:induction false} WrittenLonger(path: Path, part: string)
    ensures Written(path + [part]) == Written(path) + "/" + part
  {
    if path == [] {
      assert [part][1..] == [] && path + [part] == [part];
    } else {
      assert (path + [part])[1..] == path[1..] + [part];
      WrittenLonger(path[1..], part);
    }
  }

  function Insert(ops: seq<Op>, op: Op): seq<Op> {
    if ops == [] then [op]
    else if Before(op, ops[0]) then [op] + ops
    else [ops[0]] + Insert(ops[1..], op)
  }

  lemma {:induction false} InsertOrdered(ops: seq<Op>, op: Op)
    requires Ordered(ops)
    ensures Ordered(Insert(ops, op))
    ensures Insert(ops, op)[0] == op || (ops != [] && Insert(ops, op)[0] == ops[0])
  {
    if ops != [] {
      if Before(op, ops[0]) {
        TextAsymmetric(Written(op.target), Written(ops[0].target));
      } else {
        assert forall i :: 0 < i < |ops[1..]| ==> ops[1..][i] == ops[i + 1] && ops[1..][i - 1] == ops[i];
        InsertOrdered(ops[1..], op);
        var rest := Insert(ops[1..], op);
        assert forall i :: 0 < i < |[ops[0]] + rest| ==> ([ops[0]] + rest)[i] == rest[i - 1];
      }
    }
  }

  lemma {:induction false} InsertLists(ops: seq<Op>, op: Op, all: set<Op>)
    requires Lists(ops, all) && op !in all
    ensures Lists(Insert(ops, op), all + {op})
  {
    if ops != [] && !Before(op, ops[0]) {
      var rest := Insert(ops[1..], op);
      ListsTail(ops, all);
      InsertLists(ops[1..], op, all - {ops[0]});
      assert all - {ops[0]} + {op} + {ops[0]} == all + {op};
      ListsCons(ops[0], rest, all - {ops[0]} + {op});
    } else {
      ListsCons(op, ops, all);
      assert ops == [] ==> [op] + ops == [op];
      assert {op} + all == all + {op};
    }
  }

  lemma ListsTail(ops: seq<Op>, all: set<Op>)
    requires Lists(ops, all) && ops != []
    ensures Lists(ops[1..], all - {ops[0]})
  {
    forall op ensures op in ops[1..] <==> op in all - {ops[0]} {
      if op in ops[1..] {
        var i :| 0 <= i < |ops[1..]| && ops[1..][i] == op;
        assert ops[i + 1] == op;
      }
    }
  }

  lemma ListsCons(op: Op, ops: seq<Op>, all: set<Op>)
    requires Lists(ops, all) && op !in all
    ensures Lists([op] + ops, all + {op})
  {
  }

  // ---------------------------------------------------------------- building

  /** The paths above `target` of `from` up to `end - 1` components, shortest first, that are not there yet. */
  function MissingDirs(created: set<Path>, target: Path, from: nat, end: nat): seq<Op>
    requires end <= |target|
    decreases end
  {
    if end <= from then []
    else MissingDirs(created, target, from, end - 1)
         + (if target[..end - 1] in created then [] else [Dir(target[..end - 1])])
  }

  function Parents(target: Path, from: nat, end: nat): set<Path>
    requires end <= |target|
  {
    set n | from <= n < end :: target[..n]
  }

  lemma NoParents(created: set<Path>, target: Path, from: nat)
    requires from <= |target|
    ensures MissingDirs(created, target, from, from) == [] && Parents(target, from, from) == {}
  {
  }

  lemma ParentsStep(created: set<Path>, target: Path, from: nat, n: nat)
    requires from <= n < |target|
    ensures MissingDirs(created, target, from, n + 1)
            == MissingDirs(created, target, from, n) + (if target[..n] in created then [] else [Dir(target[..n])])
    ensures target[..n] !in Parents(target, from, n)
    ensures Parents(target, from, n + 1) == Parents(target, from, n) + {target[..n]}
  {
    assert forall m :: from <= m < n ==> |target[..m]| != |target[..n]|;
    var all, before := Parents(target, from, n + 1), Parents(target, from, n);
    assert target[..n] in all;
    forall p ensures p in all <==> p in before + {target[..n]} {
    }
  }

  /** Every missing directory between `stop` and the target is made, once and from the top, and no other. */
  method AddParentDirs(ops: seq<Op>, created: set<Path>, target: Path, stop: Path)
    returns (ops': seq<Op>, created': set<Path>)
    requires stop <= target && stop != target
    ensures ops' == ops + MissingDirs(created, target, |stop| + 1, |target|) && Bare(ops') == Bare(ops)
    ensures created' == created + Parents(target, |stop| + 1, |target|)
  {
    hide MissingDirs, Parents, Bare;
    ops', created' := ops, created;
    NoParents(created, target, |stop| + 1);
    for n := |stop| + 1 to |target|
      invariant ops' == ops + MissingDirs(created, target, |stop| + 1, n) && Bare(ops') == Bare(ops)
      invariant created' == created + Parents(target, |stop| + 1, n)
    {
      ParentsStep(created, target, |stop| + 1, n);
      if target[..n] !in created' {
        BareSnoc(ops', Dir(target[..n]));
        ops' := ops' + [Dir(target[..n])];
        created' := created' + {target[..n]};
      }
    }
  }

  method CheckRuntimes(c: Config) returns (ok: bool)
    ensures ok == AcceptedRuntimes(c)
  {
    for i := 0 to |c.runtimes|
      invariant forall k :: 0 <= k < i ==> AcceptedRuntime(c, c.runtimes[k])
      invariant forall k, l :: 0 <= k < l < i ==> !Overlap(c.runtimes[k].target, c.runtimes[l].target)
    {
      if !AcceptedRuntime(c, c.runtimes[i]) {
        return false;
      }
      for j := 0 to i
        invariant forall k :: 0 <= k < j ==> !Overlap(c.runtimes[k].target, c.runtimes[i].target)
      {
        if Overlap(c.runtimes[j].target, c.runtimes[i].target) {
          return false;
        }
      }
    }
    ok := true;
  }

  method CheckLinks(c: Config) returns (ok: bool)
    ensures ok == AcceptedLinks(c)
  {
    var seen: set<Path> := {};
    for i := 0 to |c.links|
      invariant forall k :: 0 <= k < i ==> AcceptedLink(c, c.links[k])
      invariant forall k, l :: 0 <= k < l < i ==> c.links[k].target != c.links[l].target
      invariant forall p :: p in seen <==> exists k :: 0 <= k < i && c.links[k].target == p
    {
      if !AcceptedLink(c, c.links[i]) || c.links[i].target in seen {
        return false;
      }
      seen := seen + {c.links[i].target};
    }
    ok := true;
  }

  /** Every request is checked against the host and all other targets, in whatever order the sets give. */
  method CheckHomes(c: Config) returns (ok: bool)
    ensures ok == AcceptedHomes(c)
  {
    var todo, done := c.readOnly + c.readWrite, {};
    while todo != {}
      invariant done + todo == c.readOnly + c.readWrite && done * todo == {}
      invariant forall p :: p in done ==> AcceptedHome(c, p)
      invariant forall p, q :: p in done && q in done && p != q ==> !Overlap(c.home + p, c.home + q)
      decreases |todo|
    {
      var p :| p in todo;
      if !AcceptedHome(c, p) || exists q :: q in done && Overlap(c.home + p, c.home + q) {
        return false;
      }
      todo, done := todo - {p}, done + {p};
    }
    ok := true;
  }

  /** `build_sandbox_command`: an error exactly for the configurations that are not accepted. */
  method BuildPlan(c: Config) returns (r: Result<seq<Op>, string>, ghost runtimeOps: seq<Op>, ghost homeOps: seq<Op>)
    ensures r.Ok? <==> Accepted(c)
    ensures r.Ok? ==> IsPlan(c, r.value, runtimeOps, homeOps)
    ensures r.Err? <==> Refused(c)
    ensures r.Ok? ==> forall op :: op in r.value ==> Permitted(c, op)
  {
    hide Refused, Permitted, IsPlan;
    RefusalTheorem(c);
    runtimeOps, homeOps := [], [];
    if !AcceptedRoots(c) {
      return Err("refused project, snapshot or home"), [], [];
    }
    if !AcceptedPolicy(c) {
      return Err("refused home mounts"), [], [];
    }
    var runtimesOk := CheckRuntimes(c);
    if !runtimesOk {
      return Err("refused runtime mounts"), [], [];
    }
    var linksOk := CheckLinks(c);
    if !linksOk {
      return Err("refused runtime links"), [], [];
    }
    var homesOk := CheckHomes(c);
    if !homesOk {
      return Err("refused home sources"), [], [];
    }
    var ops;
    ops, runtimeOps, homeOps := EmitPlan(c);
    forall op | op in ops ensures Permitted(c, op) {
      PlanPermitted(c, ops, runtimeOps, homeOps, op);
    }
    r := Ok(ops);
  }

  method EmitPlan(c: Config) returns (ops: seq<Op>, ghost runtimeOps: seq<Op>, ghost homeOps: seq<Op>)
    requires Accepted(c)
    ensures IsPlan(c, ops, runtimeOps, homeOps)
  {
    hide Lists, Ordered, AcceptedRuntimes, AcceptedHomes, AcceptedPolicy, AcceptedLinks, AcceptedRoots, LinkOps,
         BaseOps;
    var created;
    ops, created := EmitLinks(c);
    ops, created := EmitBase(c, ops, created);
    var sortedRuntimes := SortRuntimes(c);
    ops, created := EmitMounts(ops, created, sortedRuntimes, []);
    var sortedHomes := SortHomes(c);
    ops, created := EmitMounts(ops, created, sortedHomes, c.home);
    if c.socket.Some? {
      BareSnoc(ops, Mount(SOCKET, From(c.socket.value, true)));
      ops := ops + [Mount(SOCKET, From(c.socket.value, true))];
    }
    runtimeOps, homeOps := sortedRuntimes, sortedHomes;
    assert Bare(ops) == LinkOps(c.links) + Mounts(c, runtimeOps, homeOps);
  }

  method EmitLinks(c: Config) returns (ops: seq<Op>, created: set<Path>)
    requires AcceptedLinks(c)
    ensures Bare(ops) == LinkOps(c.links)
  {
    hide MissingDirs, Parents;
    ops, created := [], {};
    for i := 0 to |c.links|
      invariant Bare(ops) == LinkOps(c.links[..i])
    {
      ops, created := AddParentDirs(ops, created, c.links[i].target, []);
      BareSnoc(ops, Symlink(c.links[i].target, c.links[i].to));
      ops := ops + [Symlink(c.links[i].target, c.links[i].to)];
    }
    assert c.links[..|c.links|] == c.links;
  }

  method EmitBase(c: Config, links: seq<Op>, created: set<Path>) returns (ops: seq<Op>, created': set<Path>)
    requires AcceptedRoots(c)
    ensures Bare(ops) == Bare(links) + BaseOps(c.home) + [ProjectOp(c)]
  {
    hide MissingDirs, Parents, Bare;
    ops := links;
    var fixed := BaseOps(c.home)[..4];
    for i := 0 to 4
      invariant Bare(ops) == Bare(links) + fixed[..i]
    {
      BareSnoc(ops, fixed[i]);
      ops := ops + [fixed[i]];
    }
    BareSnoc(ops, Dir(["etc"]));
    ops := ops + [Dir(["etc"])];
    ops, created' := AddParentDirs(ops, created, c.home, []);
    BareSnoc(ops, Mount(c.home, Private("tmpfs")));
    ops, created' := ops + [Mount(c.home, Private("tmpfs"))], created' + {c.home};
    ops, created' := AddParentDirs(ops, created', c.project, []);
    BareSnoc(ops, ProjectOp(c));
    ops := ops + [ProjectOp(c)];
  }

  method EmitMounts(ops: seq<Op>, created: set<Path>, mounts: seq<Op>, stop: Path)
    returns (ops': seq<Op>, created': set<Path>)
    requires AllMounts(mounts) && forall i :: 0 <= i < |mounts| ==> stop < mounts[i].target
    ensures Bare(ops') == Bare(ops) + mounts
  {
    hide MissingDirs, Parents, Bare;
    ops', created' := ops, created;
    for i := 0 to |mounts|
      invariant Bare(ops') == Bare(ops) + mounts[..i]
    {
      ops', created' := AddParentDirs(ops', created', mounts[i].target, stop);
      BareSnoc(ops', mounts[i]);
      ops' := ops' + [mounts[i]];
    }
  }

  method SortRuntimes(c: Config) returns (ops: seq<Op>)
    requires AcceptedRuntimes(c)
    ensures Lists(ops, RuntimeSet(c)) && Ordered(ops)
    ensures AllMounts(ops) && forall i :: 0 <= i < |ops| ==> [] < ops[i].target
  {
    ops := [];
    ghost var all := {};
    for i := 0 to |c.runtimes|
      invariant all == (set k | 0 <= k < i :: RuntimeOp(c.runtimes[k]))
      invariant Lists(ops, all) && Ordered(ops)
    {
      var op := RuntimeOp(c.runtimes[i]);
      assert forall k :: 0 <= k < i ==> !Overlap(c.runtimes[k].target, c.runtimes[i].target);
      assert op !in all;
      InsertLists(ops, op, all);
      InsertOrdered(ops, op);
      ops, all := Insert(ops, op), all + {op};
    }
    assert all == RuntimeSet(c);
    forall i | 0 <= i < |ops| ensures ops[i].Mount? && [] < ops[i].target {
      assert ops[i] in all;
    }
  }

  lemma HomeOpsMore(c: Config, paths: set<Path>, p: Path)
    requires AcceptedHomes(c) && paths <= c.readOnly + c.readWrite && p in c.readOnly + c.readWrite && p !in paths
    ensures HomeOp(c, p) !in HomeOps(c, paths)
    ensures HomeOps(c, paths + {p}) == HomeOps(c, paths) + {HomeOp(c, p)}
  {
    forall q | q in paths ensures HomeOp(c, q) != HomeOp(c, p) {
      assert !Overlap(c.home + q, c.home + p);
    }
  }

  method SortHomes(c: Config) returns (ops: seq<Op>)
    requires AcceptedHomes(c) && AcceptedPolicy(c)
    ensures Lists(ops, HomeOps(c, c.readOnly + c.readWrite)) && Ordered(ops)
    ensures AllMounts(ops) && forall i :: 0 <= i < |ops| ==> c.home < ops[i].target
  {
    hide Lists, Ordered, HomeOps, AcceptedHomes, AcceptedPolicy;
    ops := [];
    HomeOpsNone(c);
    var todo, done := c.readOnly + c.readWrite, {};
    while todo != {}
      invariant done + todo == c.readOnly + c.readWrite && done * todo == {}
      invariant Lists(ops, HomeOps(c, done)) && Ordered(ops)
      decreases |todo|
    {
      var p :| p in todo;
      HomeSourceOf(c, p);
      HomeOpsMore(c, done, p);
      InsertLists(ops, HomeOp(c, p), HomeOps(c, done));
      InsertOrdered(ops, HomeOp(c, p));
      ops := Insert(ops, HomeOp(c, p));
      todo, done := todo - {p}, done + {p};
    }
    assert done == c.readOnly + c.readWrite;
    HomeOpsAll(c, ops);
  }

  lemma HomeSourceOf(c: Config, p: Path)
    requires AcceptedHomes(c) && p in c.readOnly + c.readWrite
    ensures p in c.sources && c.sources[p].Inside?
  {
  }

  lemma HomeOpsNone(c: Config)
    requires AcceptedHomes(c)
    ensures Lists([], HomeOps(c, {})) && Ordered([])
  {
  }

  lemma HomeOpsAll(c: Config, ops: seq<Op>)
    requires AcceptedHomes(c) && AcceptedPolicy(c) && Lists(ops, HomeOps(c, c.readOnly + c.readWrite))
    ensures AllMounts(ops) && forall i :: 0 <= i < |ops| ==> c.home < ops[i].target
  {
    forall i | 0 <= i < |ops| ensures ops[i].Mount? && c.home < ops[i].target {
      assert ops[i] in HomeOps(c, c.readOnly + c.readWrite);
      var p :| p in c.readOnly + c.readWrite && HomeOp(c, p) == ops[i];
      assert RelativeHomePath(p);
    }
  }
}
