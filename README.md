# sled: creating or opening a named tree

This project models the tree bootstrap protocol of the sled embedded
storage engine: how `open_tree` creates a named keyspace, or opens an
existing one, on top of the page cache's primitives. It also models the
page cache layout constants the protocol relies on.

The page cache is a state with four parts:

- a page table from page ids to the current version of each page (its
  fragment and the log position it was written at);
- the name directory, stored under `META_PID`, from names to root page ids;
- a counter of fresh page ids, which starts after `COUNTER_PID` and steps
  over `BATCH_MANIFEST_PID`;
- a counter of log positions.

`Pagecache` gives each primitive as a pure step function: `LookupRoot` for
`meta_pid_for_name`, plus `AllocStep`, `FreeStep` and `CasStep`. Each
step's contract is exactly what the call sites in `open_tree` rely on. The
class `PageCache` holds the same state in fields, and each of its methods
is proved to perform its step. `Consistent` is the invariant of the page
cache:

- live ids are below the counter and never reserved;
- every directory root is a live page;
- no page is the root of two names.

Allocation always keeps it. A free keeps it when the freed page is not a
directory root, and a CAS keeps it when the installed root is a live page
that is not already a root; `open_tree` meets both conditions at each of
its calls.

`Meta` models `open_tree`. `OpenTree` is the loop on a shared `PageCache`,
and `TryOnce`, `RaceOnce`, `DiscardOnce` and `RivalActs` model the parts of
one pass through it. Each method is proved equal to a pure function (`Run`,
`Try`, `Race`, `Discard`, `RivalStep`). The properties are proved about
those functions; `Race` hands the CAS and the clean-up to `Settle`.

Other threads and the durable layer are an oracle, a sequence of
`Attempt`s. Each attempt says:

- what a rival thread does to the same name just before the lookup;
- what a rival does between the lookup and the CAS: nothing, create the
  tree itself, or drop it;
- which page-cache call, if any, fails with an I/O error.

After the sequence runs out, attempts are calm. Only a rival creation
makes an attempt restart. So every restart is paid for by another
thread's progress: the loop is lock-free but not wait-free.

What is proved:

- On any `Ok` return, the tree's name is the requested name, and its root
  is the directory's entry for that name.
- Opening an existing name returns its stored root and changes nothing.
  Reopening a name just opened returns the same tree.
- A new root is an index whose only child is an empty leaf, stored under
  the prefix-encoded empty key `[0]`. Both nodes have empty bounds, no
  sibling link and cleared merge fields.
- The directory CAS expects the name to be absent. It never overwrites
  another thread's root: when a rival's entry is present at the CAS, the
  directory after the attempt is exactly the one the rival left
  (`Race`, `Settle`).
- After a lost attempt, the table is the pre-attempt table plus exactly
  the winner's two pages. Both speculative pages were freed, and the
  `.expect` on each free never fires.
- Every error returned is one of the oracle's I/O failures, passed on
  unchanged. A directory miss never escapes. With no failures, the open
  always succeeds.
- Opening two different names gives two different roots.
- Each `?` passes its failure on at once, and nothing already allocated
  is freed on the way out. A failing leaf allocation changes nothing. A
  failing root allocation leaves the empty leaf behind, unreachable from
  the directory (`RootAllocFailureLeavesLeaf`). A failing CAS leaves both
  pages. A failing first free leaves both pages, and a failing second free
  leaves the leaf. Each of these failures is returned; none of them
  makes the attempt restart.
- The header and blob constants agree with the documented layout. The
  reserved page ids are distinct and fit in a `u64`.

## Model

| member | source | states |
|---|---|---|
| `Constants.HeaderLenIsFieldSum` | src/pagecache/constants.rs:3-9 | the header fields are kind u8, pid u64, lsn i64, len u64 and crc u32, and their widths (bits / 8) sum to MAX_MSG_HEADER_LEN = 29 |
| `Constants.HeaderOffsets` | src/pagecache/constants.rs:3-9 | laid out in order, the fields start at offsets 0, 1, 9, 17 and 25, and the CRC ends exactly at MAX_MSG_HEADER_LEN |
| `Constants.BlobIffQuotaOverflows` | src/pagecache/constants.rs:14-17 | an item is a blob (size > io_buf / MINIMUM_ITEMS_PER_SEGMENT) exactly when 4 copies of it exceed the io buffer |
| `Constants.InlineItemsFit` | src/pagecache/constants.rs:14-17 | the payloads of up to MINIMUM_ITEMS_PER_SEGMENT inline items always fit together in one io buffer (headers not counted) |
| `Constants.ReservedPidsDistinct` | src/pagecache/constants.rs:23-25 | META_PID, COUNTER_PID and BATCH_MANIFEST_PID are pairwise distinct, and u64::MAX - 666 does not underflow |
| `Pagecache.NextPid` | src/pagecache/constants.rs:23-25 | the allocation counter moves strictly forward and never lands on a reserved id |
| `Pagecache.LookupRoot` | crates/sled/src/meta.rs:19-31 | lookup returns the directory entry on a hit, CollectionNotFound(name) exactly on a miss, and an I/O failure unchanged |
| `Pagecache.AllocStep` | crates/sled/src/meta.rs:44 | allocate stores the fragment under an id that is neither live nor reserved, leaves the directory alone and keeps the invariant; a failure changes nothing |
| `Pagecache.FreeStep` | crates/sled/src/meta.rs:80-87 | free reports Freed exactly when the pointer is the page's current version and then removes only that page; otherwise nothing changes |
| `Pagecache.CasStep` | crates/sled/src/meta.rs:70-75 | the directory CAS installs the new entry exactly when the current entry equals the expected one, touches no other name, no page and neither counter, and on failure changes nothing and reports the current entry |
| `Pagecache.PageCache.MetaPidForName` | crates/sled/src/meta.rs:19 | the method returns what LookupRoot gives for the cache's current state |
| `Pagecache.PageCache.Allocate` | crates/sled/src/meta.rs:44-66 | the cache's new state and result are those of AllocStep on its old state |
| `Pagecache.PageCache.Free` | crates/sled/src/meta.rs:80-87 | the cache's new state and result are those of FreeStep on its old state |
| `Pagecache.PageCache.CasRootInMeta` | crates/sled/src/meta.rs:70-75 | the cache's new state and result are those of CasStep on its old state |
| `Meta.RivalStep` | crates/sled/src/meta.rs:16-17 | a racing thread changes only the entry for this name; no page is removed or changed; a creation adds exactly one new bootstrapped tree, and a drop removes the entry and keeps the pages |
| `Meta.SpeculativeTree` | crates/sled/src/meta.rs:35-66 | `EmptyLeaf` (no items, empty bounds, no sibling, merge fields cleared) and `RootIndex(leaf)` (one child under the prefix `[0]`), put on two new pages, form a new tree whose root's only child is the leaf, and removing both pages gives back the old table |
| `Meta.DiscardKeepsNewTree` | crates/sled/src/meta.rs:77-88 | freeing the two speculative pages keeps the winner's tree intact |
| `Meta.Discard` | crates/sled/src/meta.rs:77-88 | the clean-up after a lost CAS frees the root, then the leaf; each free that does not fail reports Freed, so it restarts exactly when neither free fails, with only those two pages gone and the directory untouched; a failing root free changes nothing, and a failing leaf free leaves the leaf in the table |
| `Meta.Settle` | crates/sled/src/meta.rs:70-98 | on the state the rival left: a failing CAS returns its error and changes nothing; with the name absent, the CAS installs our root under it and returns Tree(name, root), changing nothing else; with an entry present, the directory is left exactly as it is, and the attempt restarts, with our two pages freed, exactly when neither free fails; otherwise it returns that free's failure |
| `Meta.Race` | crates/sled/src/meta.rs:70-98 | the rival's move, then the CAS: a failing CAS returns its error on the rival's state; with the name still absent our root is installed and returned; with a rival's entry present that entry survives, the attempt restarts exactly when neither free fails, a restart has freed exactly our two pages, and a failing free is returned; other names are untouched and the invariant is kept |
| `Meta.RaceWonKeepsTable` | crates/sled/src/meta.rs:70-97 | a won race returns Tree(name, root), the directory maps the name to our root, and the table is exactly the one before the race |
| `Meta.RaceLostAddsWinner` | crates/sled/src/meta.rs:76-88 | a race that restarts was lost to a rival creation, and the table is the one before our two pages were added, plus exactly the winner's new tree |
| `Meta.Create` | crates/sled/src/meta.rs:34-98 | after a miss, the open returns a tree whose pages are exactly a new leaf and root index, or restarts with only the winner's tree added, or returns an allocate/CAS/free failure unchanged; a failing leaf allocation changes nothing; a failing allocation or CAS is always returned, and so is a failing free after a lost race |
| `Meta.CreateRoot` | crates/sled/src/meta.rs:52-98 | once the leaf is allocated, the rest of the creation adds exactly a new tree to the table as it was before the leaf, or restarts with only the winner's tree added, or returns a root-allocate/CAS/free failure unchanged; a failing root allocation returns at once with the leaf still in the table, and a failing root allocation or CAS is always returned, and so is a failing free after a lost race |
| `Meta.Try` | crates/sled/src/meta.rs:18-98 | one pass: an Ok result agrees with the directory; an existing root changes nothing, a new root is exactly a new tree; a restart leaves only the winner's tree; a lookup failure returns before any allocation; after a miss, a failing allocation or CAS is returned, and so is a failing free after losing to a rival creation; other names are untouched |
| `Meta.Run` | crates/sled/src/meta.rs:11-100 | the whole loop keeps the invariant, changes only this name's entry, returns a tree whose root is the directory entry, and every error is one of the failures, unchanged |
| `Meta.RunOpensExisting` | crates/sled/src/meta.rs:19-29 | opening a name already in the directory returns Tree(name, stored root) and leaves the state unchanged |
| `Meta.ReopenReturnsSameTree` | crates/sled/src/meta.rs:20-28 | a second open of a name just opened returns the same tree and changes nothing |
| `Meta.RunWithoutFaultsSucceeds` | crates/sled/src/meta.rs:30-31 | when no page-cache call fails, the open returns a tree, so CollectionNotFound never escapes |
| `Meta.DistinctNamesGetDistinctRoots` | crates/sled/src/meta.rs:70-75 | opening two different names one after the other gives two different roots |
| `Meta.RootAllocFailureLeavesLeaf` | crates/sled/src/meta.rs:44-66 | when allocating the root fails, the error is returned and the empty leaf stays in the table, unreachable from the directory |
| `Meta.RivalActs` | crates/sled/src/meta.rs:16-17 | a rival's action on the shared cache has the effect given by RivalStep |
| `Meta.DiscardOnce` | crates/sled/src/meta.rs:77-88 | the two frees on the shared cache perform Discard |
| `Meta.RaceOnce` | crates/sled/src/meta.rs:70-98 | the CAS and the compensating frees on the shared cache perform Race |
| `Meta.TryOnce` | crates/sled/src/meta.rs:19-98 | one pass of the loop on the shared cache performs Try |
| `Meta.OpenTree` | crates/sled/src/meta.rs:11-100 | the loop on the shared cache ends in the state and with the result that Run gives, and keeps the invariant |

## Left out

- The page cache's implementation is not part of this model: the log writer, CRC framing, segment accounting and epoch-based reclamation. Only the contracts that `open_tree` relies on are modelled.
- The `Guard` argument is dropped: reclamation is not modelled.
- How the page cache chooses ids is not shown. The model uses a counter that never reuses an id, and never the free list a real allocator may keep.
- Page ids are unbounded: wrap-around at `u64::MAX` is not modelled.
- Pagecache.AllocStep, Pagecache.FreeStep, Pagecache.CasStep: a failing call leaves the state unchanged in the model. The real cache may have written part of a record before it failed.
- sled's error kinds other than `CollectionNotFound` are all represented by `Io(code)`.
- Real concurrency is reduced to two points per attempt where a rival may act: before the lookup, and between the lookup and the CAS. Allocation does not read the directory, so any interleaving inside the window has the same effect. A rival acts at most once per window and only on this name, and it leaves pages behind only by a complete creation. The whole-table statements (`RaceWonKeepsTable`'s unchanged table, and `Create` and `Try` adding exactly one new tree) hold only under that restriction; a rival that creates and then drops the tree, or fails after allocating, would add other pages. `Discard`'s statement about its own two pages holds regardless.
- A rival's drop removes the directory entry only. Reclaiming the dropped tree's pages is not part of this model.
- Meta.Run: an endless sequence of rival creations, which would keep the loop spinning forever, cannot be represented: the oracle is finite and is followed by calm attempts.
- The `.expect` panics on the frees are proved never to fire, so no panic outcome is modelled.
- `Tree` keeps only the name and the root id it was opened with. The context, the subscriptions, the `concurrency_control` lock and the merge operator (always `None` here) are left out, and so is atomic access to the root.
- The `trace!` and `debug!` logging is left out.
- `MAX_SPACE_AMPLIFICATION` is a floating-point bound used only by tests. It is left out, together with tests/test_space_leaks.rs, an on-disk size check.
- `PAGE_CONSOLIDATION_THRESHOLD` and `SEG_HEADER_LEN` are kept as constants only. The consolidation policy and the segment layout that use them are not part of this model, so `Frag` has only its `Base` form.
- `Constants.IsBlob`: which code decides "inline or blob" is not part of this model. The predicate assumes the fraction is computed with unsigned integer division. Message headers (up to MAX_MSG_HEADER_LEN bytes each) and the segment header (SEG_HEADER_LEN) are not counted, so `InlineItemsFit` bounds payload bytes only. It does not show that four framed items fit in one segment: with a 2048-byte buffer, four 512-byte payloads are inline but take 20 + 4 * 29 + 2048 = 2184 bytes framed.
