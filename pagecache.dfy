/**
  The page cache as the tree bootstrap sees it: a page table from page ids
  to their current version, the name directory stored under META_PID, and
  the sources of fresh page ids and log positions.

  The pure step functions state the contract of each primitive; the class
  PageCache holds the same state in fields and its methods are proved to
  perform exactly those steps. An `io` argument of `Some(code)` stands for
  the durable layer failing with `Io(code)`.
 */
module Pagecache {
  import opened Common
  import opened Nodes
  import opened Constants

  /** The log position of a page version, returned by allocate and needed by free. */
  type Ptr = nat

  /** The current version of a page: its content and where it was written. */
  datatype Page = Page(frag: Frag, ptr: Ptr)

  datatype State = State(
    table: map<PageId, Page>,
    meta: map<Bytes, PageId>,
    nextPid: PageId,
    nextPtr: Ptr)

  /** What free reports when the outer call succeeded. */
  datatype FreeOutcome = Freed | NotCurrent

  /** What the directory CAS reports when the outer call succeeded. */
  datatype CasOutcome = Installed | Lost(current: Option<PageId>)

  /**
    The invariant of the page cache: live ids are below the counter and
    never reserved, the counter's next id is not reserved, every directory
    root is a live page, and no page is the root of two names.
   */
  ghost predicate Consistent(s: State)
  {
    COUNTER_PID < s.nextPid && !IsReserved(s.nextPid)
    && (forall p :: p in s.table ==> p < s.nextPid && !IsReserved(p))
    && (forall n :: n in s.meta ==> s.meta[n] in s.table)
    && (forall n, m :: n in s.meta && m in s.meta && n != m ==> s.meta[n] != s.meta[m])
  }

  /** The id handed out after `pid`: the counter steps over the batch-manifest sentinel. */
  function NextPid(pid: PageId): (next: PageId)
    requires COUNTER_PID <= pid
    ensures pid < next && !IsReserved(next)
  {
    if pid + 1 == BATCH_MANIFEST_PID then pid + 2 else pid + 1
  }

  /** A page cache with no pages and no named trees. */
  function Empty(): (s: State)
    ensures Consistent(s) && s.table == map[] && s.meta == map[]
  {
    State(map[], map[], NextPid(COUNTER_PID), 0)
  }

  /** `meta_pid_for_name`: the root stored for `name`, or CollectionNotFound. */
  function LookupRoot(s: State, name: Bytes, io: Option<nat>): (r: Result<PageId>)
    ensures io.Some? ==> r == Err(Io(io.value))
    ensures io.None? ==> (r.Ok? <==> name in s.meta)
    ensures io.None? && r.Ok? ==> r.value == s.meta[name]
    ensures io.None? && r.Err? ==> r.error == CollectionNotFound(name)
  {
    if io.Some? then Err(Io(io.value))
    else if name in s.meta then Ok(s.meta[name])
    else Err(CollectionNotFound(name))
  }

  /**
    `allocate`: stores `frag` under an id that is neither live nor reserved
    and returns the id with the log position of the write.
   */
  function AllocStep(s: State, frag: Frag, io: Option<nat>): (res: (State, Result<(PageId, Ptr)>))
    requires Consistent(s)
    ensures Consistent(res.0)
    ensures io.Some? ==> res == (s, Err(Io(io.value)))
    ensures io.None? ==> res.1.Ok?
    ensures res.1.Ok? ==>
              var (pid, ptr) := res.1.value;
              pid !in s.table && !IsReserved(pid)
              && res.0.table == s.table[pid := Page(frag, ptr)]
              && res.0.meta == s.meta
  {
    if io.Some? then (s, Err(Io(io.value)))
    else
      var pid := s.nextPid;
      (State(s.table[pid := Page(frag, s.nextPtr)], s.meta, NextPid(pid), s.nextPtr + 1),
       Ok((pid, s.nextPtr)))
  }

  /**
    `free`: removes `pid` when `ptr` is still its current version, and
    otherwise reports NotCurrent and changes nothing.
   */
  function FreeStep(s: State, pid: PageId, ptr: Ptr, io: Option<nat>): (res: (State, Result<FreeOutcome>))
    ensures io.Some? ==> res == (s, Err(Io(io.value)))
    ensures io.None? ==> res.1.Ok? && (res.1.value == Freed <==> pid in s.table && s.table[pid].ptr == ptr)
    ensures res.1 == Ok(Freed) ==> res.0 == s.(table := s.table - {pid})
    ensures res.1 != Ok(Freed) ==> res.0 == s
    ensures Consistent(s) && pid !in s.meta.Values ==> Consistent(res.0)
  {
    if io.Some? then (s, Err(Io(io.value)))
    else if pid in s.table && s.table[pid].ptr == ptr then
      (s.(table := s.table - {pid}), Ok(Freed))
    else (s, Ok(NotCurrent))
  }

  /**
    `cas_root_in_meta`: when the directory entry for `name` equals
    `expected` it becomes `replacement`; otherwise nothing changes and the current
    entry is reported.
   */
  function CasStep(s: State, name: Bytes, expected: Option<PageId>, replacement: Option<PageId>, io: Option<nat>)
    : (res: (State, Result<CasOutcome>))
    ensures io.Some? ==> res == (s, Err(Io(io.value)))
    ensures io.None? ==> res.1.Ok? && (res.1.value == Installed <==> Get(s.meta, name) == expected)
    ensures res.1 == Ok(Installed) ==> res.0.table == s.table && res.0.meta == Put(s.meta, name, replacement)
    ensures res.1 == Ok(Installed) ==> res.0 == s.(meta := Put(s.meta, name, replacement))
    ensures res.1 != Ok(Installed) ==> res.0 == s
    ensures res.1.Ok? && res.1.value.Lost? ==> res.1.value.current == Get(s.meta, name)
    ensures Consistent(s) && (replacement.Some? ==> replacement.value in s.table && replacement.value !in s.meta.Values)
            ==> Consistent(res.0)
  {
    if io.Some? then (s, Err(Io(io.value)))
    else if Get(s.meta, name) == expected then
      var s' := s.(meta := Put(s.meta, name, replacement));
      assert forall n :: n in s'.meta && n != name ==> n in s.meta && s'.meta[n] == s.meta[n];
      (s', Ok(Installed))
    else (s, Ok(Lost(Get(s.meta, name))))
  }

  /** The shared page cache, updated in place by its primitives. */
  class PageCache {
    var table: map<PageId, Page>
    var meta: map<Bytes, PageId>
    var nextPid: PageId
    var nextPtr: Ptr

    /** The cache's current state as a value. */
    function View(): State
      reads this
    {
      State(table, meta, nextPid, nextPtr)
    }

    constructor ()
      ensures View() == Empty()
    {
      table, meta := map[], map[];
      nextPid, nextPtr := NextPid(COUNTER_PID), 0;
    }

    method MetaPidForName(name: Bytes, io: Option<nat>) returns (r: Result<PageId>)
      ensures r == LookupRoot(View(), name, io)
    {
      if io.Some? {
        return Err(Io(io.value));
      }
      if name in meta {
        r := Ok(meta[name]);
      } else {
        r := Err(CollectionNotFound(name));
      }
    }

    method Allocate(frag: Frag, io: Option<nat>) returns (r: Result<(PageId, Ptr)>)
      requires Consistent(View())
      modifies this
      ensures (View(), r) == AllocStep(old(View()), frag, io)
    {
      if io.Some? {
        return Err(Io(io.value));
      }
      var pid, ptr := nextPid, nextPtr;
      table := table[pid := Page(frag, ptr)];
      nextPid := NextPid(pid);
      nextPtr := ptr + 1;
      r := Ok((pid, ptr));
    }

    method Free(pid: PageId, ptr: Ptr, io: Option<nat>) returns (r: Result<FreeOutcome>)
      modifies this
      ensures (View(), r) == FreeStep(old(View()), pid, ptr, io)
    {
      if io.Some? {
        return Err(Io(io.value));
      }
      if pid in table && table[pid].ptr == ptr {
        table := table - {pid};
        r := Ok(Freed);
      } else {
        r := Ok(NotCurrent);
      }
    }

    method CasRootInMeta(name: Bytes, expected: Option<PageId>, replacement: Option<PageId>, io: Option<nat>)
      returns (r: Result<CasOutcome>)
      modifies this
      ensures (View(), r) == CasStep(old(View()), name, expected, replacement, io)
    {
      if io.Some? {
        return Err(Io(io.value));
      }
      var current := Get(meta, name);
      if current == expected {
        meta := Put(meta, name, replacement);
        r := Ok(Installed);
      } else {
        r := Ok(Lost(current));
      }
    }
  }
}
