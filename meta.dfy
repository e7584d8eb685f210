/**
  Creating or opening a named keyspace ("tree") on top of the page cache.

  `open_tree` looks the name up in the directory; on a miss it allocates an
  empty leaf and a one-entry root index, tries to install the root under
  the name with a compare-and-swap that expects the name to be absent, and
  when another thread wins that race it frees both pages and starts over.

  Other threads are an oracle: each attempt names what a rival does just
  before the lookup and what it does between the lookup and the CAS, and
  at most one call site of the attempt at which the durable layer fails.
  Once the given attempts are used up the rivals are quiet, so every
  restart is paid for by one rival creation (lock-free, not wait-free).
 */
module Meta {
  import opened Common
  import opened Nodes
  import opened Constants
  import opened Pagecache

  /** A handle on a named keyspace: its name and the root page id it was opened with. */
  datatype Tree = Tree(treeId: Bytes, root: PageId)

  /** The separator key of a root's first child: the encoding of "no common prefix". */
  const EMPTY_PREFIX: Bytes := [0]

  /** The leaf a new tree starts with: no items, unbounded, unlinked, not merging. */
  function EmptyLeaf(): Frag
  {
    Base(Node(Leaf([]), None, [], [], None, false))
  }

  /** The root a new tree starts with: one child, `leaf`, under the empty prefix. */
  function RootIndex(leaf: PageId): Frag
  {
    Base(Node(Index([(EMPTY_PREFIX, leaf)]), None, [], [], None, false))
  }

  // ---------------------------------------------------------------------
  // The environment
  // ---------------------------------------------------------------------

  /**
    What another thread does to the directory entry of the same name:
    nothing, run its own open of the name to completion, or drop the tree
    (its directory entry is removed; the dropped pages are not reclaimed here).
   */
  datatype Rival = Quiet | Creates | Drops

  /** The page-cache calls of one attempt, in program order. */
  datatype FaultPoint = AtLookup | AtLeafAlloc | AtRootAlloc | AtCas | AtRootFree | AtLeafFree

  datatype Fault = NoFault | Fails(at: FaultPoint, code: nat)

  /** The failure, if any, that the call at `point` reports. */
  function IoAt(f: Fault, point: FaultPoint): Option<nat>
  {
    if f.Fails? && f.at == point then Some(f.code) else None
  }

  datatype Attempt = Attempt(before: Rival, during: Rival, fault: Fault)

  /** An attempt that no other thread and no failure disturbs. */
  const CALM: Attempt := Attempt(Quiet, Quiet, NoFault)

  /** How one pass of the loop ends: by returning, or by starting over. */
  datatype Step = Return(result: Result<Tree>) | Retry

  /**
    Table `after` is table `before` plus exactly one freshly bootstrapped
    tree rooted at `root`: a root index whose single child, under the empty
    prefix, is an empty leaf, both on pages that `before` does not have.
   */
  ghost predicate IsNewTree(before: map<PageId, Page>, after: map<PageId, Page>, root: PageId)
  {
    root in after && root !in before
    && var node := after[root].frag.node;
    node.data.Index? && |node.data.children| == 1
    && var leaf := node.data.children[0].1;
    after[root].frag == RootIndex(leaf)
    && leaf in after && leaf !in before
    && after[leaf].frag == EmptyLeaf()
    && after.Keys == before.Keys + {root, leaf}
    && (forall p :: p in before ==> after[p] == before[p])
  }

  /** The effect of a rival's action on the entry for `name`. */
  function RivalStep(s: State, name: Bytes, rival: Rival): (s': State)
    requires Consistent(s)
    ensures Consistent(s')
    ensures s'.meta - {name} == s.meta - {name}
    ensures forall p :: p in s.table ==> p in s'.table && s'.table[p] == s.table[p]
    ensures rival == Quiet ==> s' == s
    ensures rival == Drops ==> s'.table == s.table && s'.meta == s.meta - {name}
    ensures rival == Drops && name !in s.meta ==> s' == s
    ensures rival == Creates ==> name in s'.meta
    ensures rival == Creates && name in s.meta ==> s' == s
    ensures rival == Creates && name !in s.meta ==> IsNewTree(s.table, s'.table, s'.meta[name])
  {
    match rival
    case Quiet => s
    case Drops =>
      if name in s.meta then CasStep(s, name, Some(s.meta[name]), None, None).0 else s
    case Creates =>
      if name in s.meta then s
      else
        var (s1, leaf) := AllocStep(s, EmptyLeaf(), None);
        var (s2, root) := AllocStep(s1, RootIndex(leaf.value.0), None);
        assert root.value.0 !in s2.meta.Values;
        CasStep(s2, name, None, Some(root.value.0), None).0
  }

  /** Discarding two old pages keeps a tree that was added after them. */
  lemma DiscardKeepsNewTree(before: map<PageId, Page>, after: map<PageId, Page>, root: PageId, x: PageId, y: PageId)
    requires IsNewTree(before, after, root)
    requires x in before && y in before
    ensures IsNewTree(before - {x, y}, after - {x} - {y}, root)
  {
    var leaf := after[root].frag.node.data.children[0].1;
    assert (after - {x} - {y}).Keys == (before - {x, y}).Keys + {root, leaf};
  }

  /** A leaf and a root index on two new pages form a new tree. */
  lemma SpeculativeTree(base: map<PageId, Page>, leafId: PageId, leafPtr: Ptr, rootId: PageId, rootPtr: Ptr)
    requires leafId !in base && rootId !in base && leafId != rootId
    ensures var t := base[leafId := Page(EmptyLeaf(), leafPtr)][rootId := Page(RootIndex(leafId), rootPtr)];
            IsNewTree(base, t, rootId) && t - {leafId, rootId} == base
  {
    var t := base[leafId := Page(EmptyLeaf(), leafPtr)][rootId := Page(RootIndex(leafId), rootPtr)];
    assert t[rootId].frag.node.data.children[0].1 == leafId;
    assert t.Keys == base.Keys + {rootId, leafId};
    assert t - {leafId, rootId} == base;
  }

  // ---------------------------------------------------------------------
  // The protocol as a function of the state
  // ---------------------------------------------------------------------

  /**
    Cleaning up after a lost race: free the speculative root, then the
    speculative leaf. Both are still their own current versions, so each
    free that does not fail reports Freed and only those two pages go.
   */
  function Discard(s: State, a: Attempt, leafId: PageId, leafPtr: Ptr, rootId: PageId, rootPtr: Ptr)
    : (res: (State, Step))
    requires Consistent(s) && leafId != rootId
    requires leafId in s.table && s.table[leafId].ptr == leafPtr
    requires rootId in s.table && s.table[rootId].ptr == rootPtr
    requires leafId !in s.meta.Values && rootId !in s.meta.Values
    ensures Consistent(res.0) && res.0.meta == s.meta
    ensures res.1.Return? ==>
              res.1.result.Err? && a.fault.Fails? && a.fault.at in {AtRootFree, AtLeafFree}
              && res.1.result.error == Io(a.fault.code)
    ensures res.1 == Retry <==> !(a.fault.Fails? && a.fault.at in {AtRootFree, AtLeafFree})
    ensures res.1 == Retry ==> res.0.table == s.table - {rootId} - {leafId}
    ensures IoAt(a.fault, AtRootFree).Some? ==> res == (s, Return(Err(Io(a.fault.code))))
    ensures IoAt(a.fault, AtLeafFree).Some? ==>
              res.0.table == s.table - {rootId} && res.1 == Return(Err(Io(a.fault.code)))
  {
    var (s1, freedRoot) := FreeStep(s, rootId, rootPtr, IoAt(a.fault, AtRootFree));
    if freedRoot.Err? then (s1, Return(Err(freedRoot.error)))
    else
      // the `.expect` on this free never fires
      assert freedRoot.value == Freed;
      assert s1.meta == s.meta;
      var (s2, freedLeaf) := FreeStep(s1, leafId, leafPtr, IoAt(a.fault, AtLeafFree));
      if freedLeaf.Err? then (s2, Return(Err(freedLeaf.error)))
      else
        assert freedLeaf.value == Freed;
        (s2, Retry)
  }

  /**
    The CAS and what follows it, on the state the rival left: install the
    root if the name is absent, otherwise discard both speculative pages.
   */
  function Settle(s: State, name: Bytes, a: Attempt, leafId: PageId, leafPtr: Ptr, rootId: PageId, rootPtr: Ptr)
    : (res: (State, Step))
    requires Consistent(s) && leafId != rootId
    requires leafId in s.table && s.table[leafId].ptr == leafPtr
    requires rootId in s.table && s.table[rootId].ptr == rootPtr
    requires leafId !in s.meta.Values && rootId !in s.meta.Values
    ensures Consistent(res.0)
    ensures IoAt(a.fault, AtCas).Some? ==> res == (s, Return(Err(Io(a.fault.code))))
    ensures IoAt(a.fault, AtCas).None? && name !in s.meta ==>
              res == (s.(meta := s.meta[name := rootId]), Return(Ok(Tree(name, rootId))))
    ensures IoAt(a.fault, AtCas).None? && name in s.meta ==>
              res.0.meta == s.meta
              && (res.1 == Retry ==> res.0.table == s.table - {rootId} - {leafId})
              && (res.1.Return? ==>
                    a.fault.Fails? && a.fault.at in {AtRootFree, AtLeafFree}
                    && res.1 == Return(Err(Io(a.fault.code))))
    ensures IoAt(a.fault, AtCas).None? && name in s.meta ==>
              (res.1 == Retry <==> !(a.fault.Fails? && a.fault.at in {AtRootFree, AtLeafFree}))
  {
    var (s1, cas) := CasStep(s, name, None, Some(rootId), IoAt(a.fault, AtCas));
    if cas.Err? then (s1, Return(Err(cas.error)))
    else if cas.value == Installed then (s1, Return(Ok(Tree(name, rootId))))
    else Discard(s, a, leafId, leafPtr, rootId, rootPtr)
  }

  /**
    The race for the directory entry, once the speculative leaf and root
    are in the table: a rival may act in the window, then the root is
    installed if the name is still absent; otherwise both pages are freed
    and the attempt asks to start over.
   */
  function Race(s: State, name: Bytes, a: Attempt, leafId: PageId, leafPtr: Ptr, rootId: PageId, rootPtr: Ptr)
    : (res: (State, Step))
    requires Consistent(s) && name !in s.meta && leafId != rootId
    requires leafId in s.table && s.table[leafId] == Page(EmptyLeaf(), leafPtr)
    requires rootId in s.table && s.table[rootId] == Page(RootIndex(leafId), rootPtr)
    requires leafId !in s.meta.Values && rootId !in s.meta.Values
    ensures Consistent(res.0)
    ensures res.0.meta - {name} == s.meta - {name}
    ensures res.1.Return? && res.1.result.Err? ==>
              a.fault.Fails? && a.fault.at in {AtCas, AtRootFree, AtLeafFree}
              && res.1.result.error == Io(a.fault.code)
    ensures var s1 := RivalStep(s, name, a.during);
            IoAt(a.fault, AtCas).Some? ==> res == (s1, Return(Err(Io(a.fault.code))))
    ensures var s1 := RivalStep(s, name, a.during);
            IoAt(a.fault, AtCas).None? && name !in s1.meta ==>
              res == (s1.(meta := s1.meta[name := rootId]), Return(Ok(Tree(name, rootId))))
    ensures var s1 := RivalStep(s, name, a.during);
            IoAt(a.fault, AtCas).None? && name in s1.meta ==>
              res.0.meta == s1.meta && (res.1 == Retry ==> res.0.table == s1.table - {rootId} - {leafId})
    ensures var s1 := RivalStep(s, name, a.during);
            IoAt(a.fault, AtCas).None? && name in s1.meta ==>
              (res.1 == Retry <==> !(a.fault.Fails? && a.fault.at in {AtRootFree, AtLeafFree}))
              && (res.1.Return? ==> res.1 == Return(Err(Io(a.fault.code))))
  {
    var s1 := RivalStep(s, name, a.during);
    assert leafId !in s1.meta.Values && rootId !in s1.meta.Values by {
      assert s1.meta == s.meta || (name in s1.meta && s1.meta == s.meta[name := s1.meta[name]]
                                    && s1.meta[name] !in s.table);
    }
    Settle(s1, name, a, leafId, leafPtr, rootId, rootPtr)
  }

  /** A won race leaves the table as it was, with our root installed under the name. */
  lemma RaceWonKeepsTable(s: State, name: Bytes, a: Attempt, leafId: PageId, leafPtr: Ptr, rootId: PageId, rootPtr: Ptr)
    requires Consistent(s) && name !in s.meta && leafId != rootId
    requires leafId in s.table && s.table[leafId] == Page(EmptyLeaf(), leafPtr)
    requires rootId in s.table && s.table[rootId] == Page(RootIndex(leafId), rootPtr)
    requires leafId !in s.meta.Values && rootId !in s.meta.Values
    ensures var res := Race(s, name, a, leafId, leafPtr, rootId, rootPtr);
            res.1.Return? && res.1.result.Ok? ==>
              res.1.result.value == Tree(name, rootId) && name in res.0.meta && res.0.meta[name] == rootId
              && res.0.table == s.table
  {
    var s1 := RivalStep(s, name, a.during);
    if name !in s1.meta {
      assert s1 == s;
    }
  }

  /** A lost race leaves the old pages plus exactly the winner's tree. */
  lemma RaceLostAddsWinner(s: State, name: Bytes, a: Attempt, leafId: PageId, leafPtr: Ptr, rootId: PageId, rootPtr: Ptr)
    requires Consistent(s) && name !in s.meta && leafId != rootId
    requires leafId in s.table && s.table[leafId] == Page(EmptyLeaf(), leafPtr)
    requires rootId in s.table && s.table[rootId] == Page(RootIndex(leafId), rootPtr)
    requires leafId !in s.meta.Values && rootId !in s.meta.Values
    ensures var res := Race(s, name, a, leafId, leafPtr, rootId, rootPtr);
            res.1 == Retry ==>
              a.during == Creates && name in res.0.meta
              && IsNewTree(s.table - {leafId, rootId}, res.0.table, res.0.meta[name])
  {
    var res := Race(s, name, a, leafId, leafPtr, rootId, rootPtr);
    var s1 := RivalStep(s, name, a.during);
    if res.1 == Retry {
      assert name in s1.meta;
      var winner := s1.meta[name];
      assert a.during == Creates && IsNewTree(s.table, s1.table, winner);
      assert res.0.table == s1.table - {rootId} - {leafId} && res.0.meta[name] == winner;
      DiscardKeepsNewTree(s.table, s1.table, winner, leafId, rootId);
    }
  }

  /**
    The creating half of an attempt, after a miss: allocate the empty leaf,
    then the root index pointing at it, then race for the entry.
   */
  function Create(s: State, name: Bytes, a: Attempt): (res: (State, Step))
    requires Consistent(s) && name !in s.meta
    ensures Consistent(res.0)
    ensures res.0.meta - {name} == s.meta - {name}
    ensures res.1 == Retry ==>
              a.during == Creates && name in res.0.meta && IsNewTree(s.table, res.0.table, res.0.meta[name])
    ensures res.1.Return? && res.1.result.Ok? ==>
              var t := res.1.result.value;
              t.treeId == name && name in res.0.meta && res.0.meta[name] == t.root
              && IsNewTree(s.table, res.0.table, t.root)
    ensures res.1.Return? && res.1.result.Err? ==>
              a.fault.Fails? && a.fault.at != AtLookup && res.1.result.error == Io(a.fault.code)
    ensures IoAt(a.fault, AtLeafAlloc).Some? ==> res == (s, Return(Err(Io(a.fault.code))))
    ensures a.fault.Fails? && (a.fault.at in {AtRootAlloc, AtCas}
                               || (a.during == Creates && a.fault.at in {AtRootFree, AtLeafFree})) ==>
              res.1 == Return(Err(Io(a.fault.code)))
  {
    var (s1, leafRes) := AllocStep(s, EmptyLeaf(), IoAt(a.fault, AtLeafAlloc));
    if leafRes.Err? then
      assert a.fault.Fails? && a.fault.at == AtLeafAlloc && s1 == s;
      (s1, Return(Err(leafRes.error)))
    else
      var (leafId, leafPtr) := leafRes.value;
      assert IoAt(a.fault, AtLeafAlloc).None? && leafId !in s.table;
      assert leafId !in s1.meta.Values by {
        assert forall n :: n in s.meta ==> s.meta[n] in s.table;
      }
      CreateRoot(s1, s.table, name, a, leafId, leafPtr)
  }

  /**
    The rest of a creation once the leaf is allocated: allocate the root
    index pointing at it, then race for the entry. `base` is the table as
    it was before the leaf was added.
   */
  function CreateRoot(s: State, ghost base: map<PageId, Page>, name: Bytes, a: Attempt, leafId: PageId, leafPtr: Ptr)
    : (res: (State, Step))
    requires Consistent(s) && name !in s.meta
    requires leafId !in base && s.table == base[leafId := Page(EmptyLeaf(), leafPtr)]
    requires leafId !in s.meta.Values
    ensures Consistent(res.0)
    ensures res.0.meta - {name} == s.meta - {name}
    ensures res.1 == Retry ==>
              a.during == Creates && name in res.0.meta && IsNewTree(base, res.0.table, res.0.meta[name])
    ensures res.1.Return? && res.1.result.Ok? ==>
              var t := res.1.result.value;
              t.treeId == name && name in res.0.meta && res.0.meta[name] == t.root
              && IsNewTree(base, res.0.table, t.root)
    ensures res.1.Return? && res.1.result.Err? ==>
              a.fault.Fails? && a.fault.at in {AtRootAlloc, AtCas, AtRootFree, AtLeafFree}
              && res.1.result.error == Io(a.fault.code)
    ensures IoAt(a.fault, AtRootAlloc).Some? ==> res == (s, Return(Err(Io(a.fault.code))))
    ensures a.fault.Fails? && (a.fault.at in {AtRootAlloc, AtCas}
                               || (a.during == Creates && a.fault.at in {AtRootFree, AtLeafFree})) ==>
              res.1 == Return(Err(Io(a.fault.code)))
  {
    var (s2, rootRes) := AllocStep(s, RootIndex(leafId), IoAt(a.fault, AtRootAlloc));
    if rootRes.Err? then (s2, Return(Err(rootRes.error)))
    else
      var (rootId, rootPtr) := rootRes.value;
      SpeculativeTree(base, leafId, leafPtr, rootId, rootPtr);
      assert leafId !in s2.meta.Values && rootId !in s2.meta.Values by {
        assert forall n :: n in s.meta ==> s.meta[n] in s.table;
      }
      RaceWonKeepsTable(s2, name, a, leafId, leafPtr, rootId, rootPtr);
      RaceLostAddsWinner(s2, name, a, leafId, leafPtr, rootId, rootPtr);
      Race(s2, name, a, leafId, leafPtr, rootId, rootPtr)
  }

  /**
    One pass of the loop: after the rival's early action, look the name up;
    a hit returns the stored root, a miss creates, any other error returns.
   */
  function Try(s: State, name: Bytes, a: Attempt): (res: (State, Step))
    requires Consistent(s)
    ensures Consistent(res.0)
    ensures res.0.meta - {name} == s.meta - {name}
    ensures res.1 == Retry ==>
              a.during == Creates && name in res.0.meta && IsNewTree(s.table, res.0.table, res.0.meta[name])
    ensures res.1.Return? && res.1.result.Ok? ==>
              var t := res.1.result.value;
              t.treeId == name && name in res.0.meta && res.0.meta[name] == t.root
              && (t.root in s.table ==> res.0 == s)
              && (t.root !in s.table ==> IsNewTree(s.table, res.0.table, t.root))
    ensures res.1.Return? && res.1.result.Err? ==>
              a.fault.Fails? && res.1.result.error == Io(a.fault.code)
    ensures a.fault.Fails? && a.fault.at == AtLookup ==>
              res == (RivalStep(s, name, a.before), Return(Err(Io(a.fault.code))))
    ensures a.fault.Fails? && name !in RivalStep(s, name, a.before).meta
            && (a.fault.at in {AtLeafAlloc, AtRootAlloc, AtCas}
                || (a.during == Creates && a.fault.at in {AtRootFree, AtLeafFree})) ==>
              res.1 == Return(Err(Io(a.fault.code)))
  {
    var s1 := RivalStep(s, name, a.before);
    match LookupRoot(s1, name, IoAt(a.fault, AtLookup))
    case Ok(rootId) => (s1, Return(Ok(Tree(name, rootId))))
    case Err(e) =>
      if !e.CollectionNotFound? then (s1, Return(Err(e)))
      else Create(s1, name, a)
  }

  /**
    The whole loop: attempts follow `env`, then calm attempts. A calm
    attempt never restarts, so the recursion ends.
   */
  function Run(s: State, name: Bytes, env: seq<Attempt>): (res: (State, Result<Tree>))
    requires Consistent(s)
    ensures Consistent(res.0)
    ensures res.0.meta - {name} == s.meta - {name}
    ensures res.1.Ok? ==>
              res.1.value.treeId == name && name in res.0.meta && res.0.meta[name] == res.1.value.root
    ensures res.1.Err? ==>
              exists i :: 0 <= i < |env| && env[i].fault.Fails? && res.1.error == Io(env[i].fault.code)
    decreases |env|
  {
    var a := if env == [] then CALM else env[0];
    var (s', step) := Try(s, name, a);
    if step.Return? then (s', step.result)
    else
      var res := Run(s', name, env[1..]);
      assert res.1.Err? ==> exists i :: 1 <= i < |env| && env[i].fault.Fails? && res.1.error == Io(env[i].fault.code) by {
        if res.1.Err? {
          var i :| 0 <= i < |env[1..]| && env[1..][i].fault.Fails? && res.1.error == Io(env[1..][i].fault.code);
          assert env[i + 1] == env[1..][i];
        }
      }
      res
  }

  // ---------------------------------------------------------------------
  // Properties of the protocol
  // ---------------------------------------------------------------------

  /**
    Opening a name that is in the directory returns its stored root and
    allocates, frees and installs nothing, unless a rival drops the tree
    first or the lookup itself fails.
   */
  lemma RunOpensExisting(s: State, name: Bytes, env: seq<Attempt>)
    requires Consistent(s) && name in s.meta
    requires env == [] || (env[0].before != Drops && IoAt(env[0].fault, AtLookup) == None)
    ensures Run(s, name, env) == (s, Ok(Tree(name, s.meta[name])))
  {
    var a := if env == [] then CALM else env[0];
    assert RivalStep(s, name, a.before) == s;
  }

  /** A second open of a name just opened returns the same tree and changes nothing. */
  lemma ReopenReturnsSameTree(s: State, name: Bytes, env: seq<Attempt>)
    requires Consistent(s)
    requires Run(s, name, env).1.Ok?
    ensures var (s', r) := Run(s, name, env); Run(s', name, []) == (s', r)
  {
    var (s', r) := Run(s, name, env);
    RunOpensExisting(s', name, []);
  }

  /** When no page-cache call fails, open_tree always returns a tree. */
  lemma RunWithoutFaultsSucceeds(s: State, name: Bytes, env: seq<Attempt>)
    requires Consistent(s)
    requires forall i :: 0 <= i < |env| ==> env[i].fault == NoFault
    ensures Run(s, name, env).1.Ok?
  {
  }

  /**
    Opening two different names one after the other gives two different
    roots, whatever the rivals of each open do.
   */
  lemma DistinctNamesGetDistinctRoots(s: State, n1: Bytes, env1: seq<Attempt>, n2: Bytes, env2: seq<Attempt>)
    requires Consistent(s) && n1 != n2
    requires Run(s, n1, env1).1.Ok?
    requires Run(Run(s, n1, env1).0, n2, env2).1.Ok?
    ensures Run(s, n1, env1).1.value.root != Run(Run(s, n1, env1).0, n2, env2).1.value.root
  {
    var (s1, r1) := Run(s, n1, env1);
    var (s2, r2) := Run(s1, n2, env2);
    assert n1 in s1.meta - {n2};
    assert n1 in s2.meta && s2.meta[n1] == s1.meta[n1];
  }

  /**
    When allocating the root fails, the `?` returns without freeing the
    leaf allocated just before: the table keeps one empty leaf that no
    directory entry reaches.
   */
  lemma RootAllocFailureLeavesLeaf(s: State, name: Bytes, code: nat)
    requires Consistent(s) && name !in s.meta
    ensures var (s', step) := Try(s, name, Attempt(Quiet, Quiet, Fails(AtRootAlloc, code)));
            step == Return(Err(Io(code))) && s'.meta == s.meta
            && exists leaf: PageId :: leaf !in s.table && leaf in s'.table
                                      && s'.table.Keys == s.table.Keys + {leaf}
                                      && s'.table[leaf].frag == EmptyLeaf() && leaf !in s'.meta.Values
  {
    var (s1, leafRes) := AllocStep(s, EmptyLeaf(), None);
    var leaf := leafRes.value.0;
    assert leaf !in s.meta.Values by {
      assert forall n :: n in s.meta ==> s.meta[n] in s.table;
    }
  }

  // ---------------------------------------------------------------------
  // The protocol on the shared cache
  // ---------------------------------------------------------------------

  /** A rival thread's action, performed through the cache's primitives. */
  method RivalActs(cache: PageCache, name: Bytes, rival: Rival)
    requires Consistent(cache.View())
    modifies cache
    ensures cache.View() == RivalStep(old(cache.View()), name, rival)
  {
    match rival
    case Quiet =>
    case Drops =>
      var found := cache.MetaPidForName(name, None);
      if found.Ok? {
        var _ := cache.CasRootInMeta(name, Some(found.value), None, None);
      }
    case Creates =>
      var found := cache.MetaPidForName(name, None);
      if found.Err? {
        var leaf := cache.Allocate(EmptyLeaf(), None);
        var root := cache.Allocate(RootIndex(leaf.value.0), None);
        var _ := cache.CasRootInMeta(name, None, Some(root.value.0), None);
      }
  }

  /** Freeing both speculative pages on the shared cache; performs `Discard`. */
  method DiscardOnce(cache: PageCache, a: Attempt, leafId: PageId, leafPtr: Ptr, rootId: PageId, rootPtr: Ptr)
    returns (step: Step)
    requires Consistent(cache.View()) && leafId != rootId
    requires leafId in cache.table && cache.table[leafId].ptr == leafPtr
    requires rootId in cache.table && cache.table[rootId].ptr == rootPtr
    requires leafId !in cache.meta.Values && rootId !in cache.meta.Values
    modifies cache
    ensures (cache.View(), step) == Discard(old(cache.View()), a, leafId, leafPtr, rootId, rootPtr)
  {
    var freedRoot := cache.Free(rootId, rootPtr, IoAt(a.fault, AtRootFree));
    if freedRoot.Err? {
      return Return(Err(freedRoot.error));
    }
    // the `.expect` on both frees never fires
    assert freedRoot.value == Freed;
    var freedLeaf := cache.Free(leafId, leafPtr, IoAt(a.fault, AtLeafFree));
    if freedLeaf.Err? {
      return Return(Err(freedLeaf.error));
    }
    assert freedLeaf.value == Freed;
    return Retry;
  }

  /** The race of one attempt, on the shared cache; performs `Race`. */
  method RaceOnce(cache: PageCache, name: Bytes, a: Attempt, leafId: PageId, leafPtr: Ptr, rootId: PageId, rootPtr: Ptr)
    returns (step: Step)
    requires Consistent(cache.View()) && name !in cache.meta && leafId != rootId
    requires leafId in cache.table && cache.table[leafId] == Page(EmptyLeaf(), leafPtr)
    requires rootId in cache.table && cache.table[rootId] == Page(RootIndex(leafId), rootPtr)
    requires leafId !in cache.meta.Values && rootId !in cache.meta.Values
    modifies cache
    ensures (cache.View(), step) == Race(old(cache.View()), name, a, leafId, leafPtr, rootId, rootPtr)
  {
    RivalActs(cache, name, a.during);
    var cas := cache.CasRootInMeta(name, None, Some(rootId), IoAt(a.fault, AtCas));
    if cas.Err? {
      return Return(Err(cas.error));
    }
    if cas.value.Lost? {
      // lost the race: discard both speculative pages
      step := DiscardOnce(cache, a, leafId, leafPtr, rootId, rootPtr);
      return;
    }
    return Return(Ok(Tree(name, rootId)));
  }

  /** One attempt of the loop, on the shared cache; performs `Try`. */
  method TryOnce(cache: PageCache, name: Bytes, a: Attempt) returns (step: Step)
    requires Consistent(cache.View())
    modifies cache
    ensures (cache.View(), step) == Try(old(cache.View()), name, a)
  {
    RivalActs(cache, name, a.before);
    var found := cache.MetaPidForName(name, IoAt(a.fault, AtLookup));
    match found {
      case Ok(rootId) =>
        return Return(Ok(Tree(name, rootId)));
      case Err(e) =>
        if !e.CollectionNotFound? {
          return Return(Err(e));
        }
    }
    ghost var missed := cache.View();

    // set up the empty leaf
    var leaf := cache.Allocate(EmptyLeaf(), IoAt(a.fault, AtLeafAlloc));
    if leaf.Err? {
      return Return(Err(leaf.error));
    }
    var (leafId, leafPtr) := leaf.value;

    // set up the root index
    var root := cache.Allocate(RootIndex(leafId), IoAt(a.fault, AtRootAlloc));
    if root.Err? {
      return Return(Err(root.error));
    }
    var (rootId, rootPtr) := root.value;

    SpeculativeTree(missed.table, leafId, leafPtr, rootId, rootPtr);
    assert leafId !in cache.meta.Values && rootId !in cache.meta.Values by {
      assert cache.meta == missed.meta;
      assert forall n :: n in missed.meta ==> missed.meta[n] in missed.table;
    }
    step := RaceOnce(cache, name, a, leafId, leafPtr, rootId, rootPtr);
  }

  /**
    `open_tree`: open the tree called `name`, creating it when it does not
    exist, and start over whenever another thread wins the race to create it.
   */
  method OpenTree(cache: PageCache, name: Bytes, env: seq<Attempt>) returns (r: Result<Tree>)
    requires Consistent(cache.View())
    modifies cache
    ensures Consistent(cache.View())
    ensures (cache.View(), r) == Run(old(cache.View()), name, env)
  {
    var i := 0;
    while true
      invariant i <= |env|
      invariant Consistent(cache.View())
      invariant Run(old(cache.View()), name, env) == Run(cache.View(), name, env[i..])
      decreases |env| - i
    {
      var a := if i < |env| then env[i] else CALM;
      assert a == if env[i..] == [] then CALM else env[i..][0];
      var step := TryOnce(cache, name, a);
      if step.Return? {
        return step.result;
      }
      assert env[i..][1..] == env[i + 1..];
      i := i + 1;
    }
  }
}
