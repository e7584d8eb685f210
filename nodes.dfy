/** The logical content of one tree page and the fragments a page is built from. */
module Nodes {
  import opened Common

  /** A logical page slot, independent of where the page is stored. */
  type PageId = nat

  /**
    A leaf holds ordered key/value items; an index holds ordered
    (separator prefix, child page) pairs.
   */
  datatype Data =
    | Leaf(items: seq<(Bytes, Bytes)>)
    | Index(children: seq<(Bytes, PageId)>)

  /**
    A tree node: its data, the right sibling it links to, the inclusive
    low and exclusive high key bounds it is responsible for (an empty `hi`
    is unbounded), and the two flags of the merge protocol.
   */
  datatype Node = Node(
    data: Data,
    next: Option<PageId>,
    lo: Bytes,
    hi: Bytes,
    mergingChild: Option<PageId>,
    merging: bool)

  /** A page fragment; only complete base nodes occur in this model. */
  datatype Frag = Base(node: Node)
}
