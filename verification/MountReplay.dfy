/**
 What a list of sandbox operations means: they are replayed in order on an empty root, and
 a path is found at the latest operation at or above it. A path that leads through a symbolic
 link is found elsewhere; a link or mount placed at such a path lands elsewhere and may hide
 anything, so nothing is known from then on (the operations of agent_sandbox.py:385-425).
 */
module MountReplay {
  /** An absolute path as its components; the root is the empty sequence. */
  type Path = seq<string>

  datatype Source = Private(kind: string) | From(source: string, writable: bool)

  datatype Op =
    | Dir(target: Path)
    | Symlink(target: Path, to: string)
    | Mount(target: Path, source: Source)

  datatype Found = Unmounted | Redirected | Unknown | At(source: Source)

  /** The links and mounts in place, and whether one landed elsewhere. */
  datatype Tree = Tree(placed: seq<Op>, lost: bool)

  predicate Overlap(a: Path, b: Path) {
    a <= b || b <= a
  }

  function Lookup(placed: seq<Op>, path: Path): Found {
    if placed == [] then Unmounted
    else
      var last := placed[|placed| - 1];
      if last.target <= path && !last.Dir? then if last.Symlink? then Redirected else At(last.source)
      else Lookup(placed[..|placed| - 1], path)
  }

  /** Creating a directory hides nothing. */
  function Apply(tree: Tree, op: Op): Tree {
    if op.Dir? || tree.lost then tree
    else if Lookup(tree.placed, op.target).Redirected? then tree.(lost := true)
    else tree.(placed := tree.placed + [op])
  }

  function Replay(ops: seq<Op>): Tree {
    if ops == [] then Tree([], false) else Apply(Replay(ops[..|ops| - 1]), ops[|ops| - 1])
  }

  function Resolve(ops: seq<Op>, path: Path): Found {
    if Replay(ops).lost then Unknown else Lookup(Replay(ops).placed, path)
  }

  // ------------------------------------------------------------------ laws

  lemma LookupSnoc(placed: seq<Op>, op: Op, path: Path)
    ensures Lookup(placed + [op], path) ==
            if op.target <= path && !op.Dir? then if op.Symlink? then Redirected else At(op.source)
            else Lookup(placed, path)
  {
    assert (placed + [op])[..|placed|] == placed;
  }

  lemma {:induction false} LookupKnown(placed: seq<Op>, path: Path)
    ensures !Lookup(placed, path).Unknown?
  {
    if placed != [] {
      LookupKnown(placed[..|placed| - 1], path);
    }
  }

  /** One more operation, seen from a path. */
  lemma ResolveSnoc(ops: seq<Op>, op: Op, path: Path)
    ensures Resolve(ops + [op], path) ==
            if op.Dir? then Resolve(ops, path)
            else if Resolve(ops, op.target) in {Redirected, Unknown} then Unknown
            else if !(op.target <= path) then Resolve(ops, path)
            else if op.Symlink? then Redirected else At(op.source)
  {
    assert (ops + [op])[..|ops|] == ops;
    LookupSnoc(Replay(ops).placed, op, path);
    LookupKnown(Replay(ops).placed, op.target);
  }

  /** Directories can be left out. */
  function Bare(ops: seq<Op>): seq<Op> {
    if ops == [] then []
    else Bare(ops[..|ops| - 1]) + (if ops[|ops| - 1].Dir? then [] else [ops[|ops| - 1]])
  }

  lemma BareSnoc(ops: seq<Op>, op: Op)
    ensures Bare(ops + [op]) == Bare(ops) + (if op.Dir? then [] else [op])
  {
    assert (ops + [op])[..|ops|] == ops;
  }

  lemma {:induction false} BareResolves(ops: seq<Op>, path: Path)
    ensures Resolve(Bare(ops), path) == Resolve(ops, path)
  {
    if ops != [] {
      var init, last := ops[..|ops| - 1], ops[|ops| - 1];
      assert ops == init + [last];
      BareResolves(init, path);
      BareResolves(init, last.target);
      ResolveSnoc(init, last, path);
      BareSnoc(init, last);
      if last.Dir? {
        assert Bare(init) + [] == Bare(init);
      } else {
        ResolveSnoc(Bare(init), last, path);
      }
    }
  }

  predicate AllSymlinks(ops: seq<Op>) {
    forall i :: 0 <= i < |ops| ==> ops[i].Symlink?
  }

  predicate AllMounts(ops: seq<Op>) {
    forall i :: 0 <= i < |ops| ==> ops[i].Mount?
  }

  /** Every link at or above `path` lies inside one of the mounts. */
  predicate Clear(links: seq<Op>, mounts: seq<Op>, path: Path) {
    forall i :: 0 <= i < |links| && links[i].target <= path ==> Hidden(links[i].target, mounts)
  }

  predicate Hidden(link: Path, mounts: seq<Op>) {
    exists k :: 0 <= k < |mounts| && mounts[k].target < link
  }

  /** No link is at or below an earlier one. */
  predicate Apart(links: seq<Op>) {
    forall i, j :: 0 <= i < j < |links| ==> !(links[i].target <= links[j].target)
  }

  /** No link and no mount is placed through a link. */
  predicate Straight(links: seq<Op>, mounts: seq<Op>) {
    Apart(links) && forall k :: 0 <= k < |mounts| ==> Clear(links, mounts[..k], mounts[k].target)
  }

  lemma {:induction false} LinksRedirect(links: seq<Op>, path: Path)
    requires AllSymlinks(links)
    ensures Resolve(links, path) ==
            if !Apart(links) then Unknown else if Clear(links, [], path) then Unmounted else Redirected
  {
    if links != [] {
      var init, last := links[..|links| - 1], links[|links| - 1];
      assert links == init + [last];
      LinksRedirect(init, path);
      LinksRedirect(init, last.target);
      ResolveSnoc(init, last, path);
      assert forall i :: 0 <= i < |init| ==> links[i] == init[i];
      assert forall link :: !Hidden(link, []);
    }
  }

  /**
   After links and then mounts, everything is known if and only if nothing was placed through
   a link, and then exactly the paths below an unhidden link are redirected.
   */
  lemma {:induction false} RedirectTheorem(links: seq<Op>, mounts: seq<Op>, path: Path)
    requires AllSymlinks(links) && AllMounts(mounts)
    ensures Resolve(links + mounts, path).Unknown? <==> !Straight(links, mounts)
    ensures Straight(links, mounts) ==> (Resolve(links + mounts, path).Redirected? <==> !Clear(links, mounts, path))
    decreases |mounts|
  {
    hide Clear, Resolve, Apart;
    if mounts == [] {
      assert links + mounts == links;
      LinksRedirect(links, path);
    } else {
      var init, last := mounts[..|mounts| - 1], mounts[|mounts| - 1];
      assert mounts == init + [last];
      assert links + mounts == links + init + [last];
      ResolveSnoc(links + init, last, path);
      RedirectTheorem(links, init, path);
      RedirectTheorem(links, init, last.target);
      ClearSnoc(links, init, last, path);
      StraightSnoc(links, init, last);
    }
  }

  lemma StraightSnoc(links: seq<Op>, mounts: seq<Op>, m: Op)
    ensures Straight(links, mounts + [m]) <==> Straight(links, mounts) && Clear(links, mounts, m.target)
  {
    hide Clear;
    var all := mounts + [m];
    assert all[..|mounts|] == mounts && all[|mounts|] == m;
    assert forall k :: 0 <= k < |mounts| ==> all[k] == mounts[k] && all[..k] == mounts[..k];
  }

  lemma ClearSnoc(links: seq<Op>, mounts: seq<Op>, m: Op, path: Path)
    ensures Clear(links, mounts + [m], path) <==>
            Clear(links, mounts, path) || (m.target <= path && Clear(links, mounts, m.target))
  {
    forall i | 0 <= i < |links|
      ensures Hidden(links[i].target, mounts + [m]) <==> Hidden(links[i].target, mounts) || m.target < links[i].target
    {
      HiddenSnoc(links[i].target, mounts, m);
    }
    if m.target <= path && Clear(links, mounts, m.target) {
      forall i | 0 <= i < |links| && links[i].target <= path ensures Hidden(links[i].target, mounts + [m]) {
        PrefixesCompare(links[i].target, m.target, path);
      }
    }
    if Clear(links, mounts + [m], path) && !Clear(links, mounts, path) {
      var i :| 0 <= i < |links| && links[i].target <= path && !Hidden(links[i].target, mounts);
      assert m.target < links[i].target;
      forall j | 0 <= j < |links| && links[j].target <= m.target ensures Hidden(links[j].target, mounts) {
        assert links[j].target <= path;
      }
    }
  }

  lemma HiddenSnoc(link: Path, mounts: seq<Op>, m: Op)
    ensures Hidden(link, mounts + [m]) <==> Hidden(link, mounts) || m.target < link
  {
    var all := mounts + [m];
    assert all[|mounts|] == m;
    assert forall k :: 0 <= k < |mounts| ==> all[k] == mounts[k];
  }

  lemma PrefixesCompare(a: Path, b: Path, path: Path)
    requires a <= path && b <= path
    ensures a <= b || b < a
  {
    assert path[..|a|] == a && path[..|b|] == b;
    if |a| <= |b| {
      assert b[..|a|] == a;
    } else {
      assert a[..|b|] == b;
    }
  }

  /** A mount is found at its own target if nothing was placed through a link and nothing later covers it. */
  lemma {:induction false} OwnTarget(links: seq<Op>, mounts: seq<Op>, k: nat)
    requires AllSymlinks(links) && AllMounts(mounts) && k < |mounts|
    requires forall j :: k < j < |mounts| ==> !(mounts[j].target <= mounts[k].target)
    ensures Resolve(links + mounts, mounts[k].target) ==
            if Straight(links, mounts) then At(mounts[k].source) else Unknown
    decreases |mounts|
  {
    hide Straight, Resolve;
    var init, last := mounts[..|mounts| - 1], mounts[|mounts| - 1];
    assert mounts == init + [last];
    assert links + mounts == links + init + [last];
    ResolveSnoc(links + init, last, mounts[k].target);
    RedirectTheorem(links, mounts, mounts[k].target);
    if k < |mounts| - 1 {
      OwnTarget(links, init, k);
      StraightSnoc(links, init, last);
      assert init[k] == mounts[k];
    }
  }

  /** A mount that a later one covers is not found at its target. */
  lemma {:induction false} CoveredTarget(links: seq<Op>, mounts: seq<Op>, k: nat, j: nat)
    requires AllSymlinks(links) && AllMounts(mounts) && Straight(links, mounts)
    requires k < j < |mounts| && mounts[j].target <= mounts[k].target
    ensures exists i :: k < i < |mounts| && mounts[i].target <= mounts[k].target
                        && Resolve(links + mounts, mounts[k].target) == At(mounts[i].source)
    decreases |mounts|
  {
    hide Straight, Resolve;
    var init, last := mounts[..|mounts| - 1], mounts[|mounts| - 1];
    assert mounts == init + [last];
    assert links + mounts == links + init + [last];
    ResolveSnoc(links + init, last, mounts[k].target);
    RedirectTheorem(links, mounts, mounts[k].target);
    StraightSnoc(links, init, last);
    if j < |init| {
      CoveredTarget(links, init, k, j);
      assert forall i :: 0 <= i < |init| ==> mounts[i] == init[i];
    }
  }
}
