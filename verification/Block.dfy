/**
 Block numbers, transaction ids, list headers and segment entries, with the visibility rules every
 MVCC entry follows.
 */
module Block {
  import opened Wrappers
  import opened BitPacking

  // ---------------------------------------------------------------------------------------------
  // Blocks and list headers
  // ---------------------------------------------------------------------------------------------

  type BlockNo = U32
  const INVALID_BLOCK: BlockNo := 0xFFFF_FFFF

  /** `bm25_max_free_space`: a page less its header and its special area, both aligned. */
  const ITEM_SIZE: nat := 8192 - 8 - 24

  datatype LinkedListData = LinkedListData(
    startBlockno: BlockNo,
    lastBlockno: BlockNo,
    npages: nat,
    blocklistStart: BlockNo)

  datatype FileEntry = FileEntry(startingBlock: BlockNo, totalBytes: nat)
  datatype DeleteEntry = DeleteEntry(fileEntry: FileEntry, numDeletedDocs: nat)

  // ---------------------------------------------------------------------------------------------
  // Transactions and snapshots
  // ---------------------------------------------------------------------------------------------

  /** Transaction ids are unbounded: they do not wrap around. */
  type Xid = nat
  const INVALID_XID: Xid := 0
  const FROZEN_XID: Xid := 2
  const FIRST_NORMAL_XID: Xid := 3

  datatype Snapshot = Snapshot(xmin: Xid, xmax: Xid, xip: set<Xid>)

  predicate XidInMVCCSnapshot(x: Xid, s: Snapshot) {
    if x < s.xmin then false
    else if x >= s.xmax then true
    else x in s.xip
  }

  /** A snapshot together with the transaction that looks through it, if it has an id. */
  datatype View = View(snap: Snapshot, current: Option<Xid>) {
    predicate IsCurrent(x: Xid) { current == Some(x) }

    /** The effects of `x` count: it is our own, or the snapshot regards it as finished. */
    predicate Sees(x: Xid) { IsCurrent(x) || !XidInMVCCSnapshot(x, snap) }

    /** `MVCCEntry::visible`, of an entry with these ids. */
    predicate Shows(xmin: Xid, xmax: Xid) {
      var xminVisible := IsCurrent(xmin) || !XidInMVCCSnapshot(xmin, snap);
      var deleted := xmax != INVALID_XID && (IsCurrent(xmax) || !XidInMVCCSnapshot(xmax, snap));
      xminVisible && !deleted
    }

    /** Nothing at or above `horizon` is removable while this view is in use. */
    predicate AtOrAbove(horizon: Xid) {
      horizon <= snap.xmin && (current.Some? ==> horizon <= current.value)
    }
  }

  predicate IsNormal(x: Xid) { x >= FIRST_NORMAL_XID }

  // ---------------------------------------------------------------------------------------------
  // Segment entries
  // ---------------------------------------------------------------------------------------------

  type SegmentId = nat

  datatype Component =
    Postings | Positions | FastFields | FieldNorms | Terms | Store | TempStore | Delete

  datatype SegmentMetaEntry = SegmentMetaEntry(
    segmentId: SegmentId,
    maxDoc: nat,
    xmin: Xid,
    xmax: Xid,
    postings: Option<FileEntry>,
    positions: Option<FileEntry>,
    fastFields: Option<FileEntry>,
    fieldNorms: Option<FileEntry>,
    terms: Option<FileEntry>,
    store: Option<FileEntry>,
    tempStore: Option<FileEntry>,
    delete: Option<DeleteEntry>)
  {
    function GetFileEntry(c: Component): Option<FileEntry> {
      match c
      case Postings => postings
      case Positions => positions
      case FastFields => fastFields
      case FieldNorms => fieldNorms
      case Terms => terms
      case Store => store
      case TempStore => tempStore
      case Delete => if delete.Some? then Some(delete.value.fileEntry) else None
    }

    predicate Visible(view: View) { view.Shows(xmin, xmax) }

    /** `horizon`: every id below it is removable (`GlobalVisCheckRemovableXid`). */
    predicate Recyclable(snap: Snapshot, horizon: Xid) {
      if xmax == INVALID_XID then false
      else if XidInMVCCSnapshot(xmax, snap) then false
      else xmax < horizon
    }

    predicate XminNeedsFreeze(freezeLimit: Xid) { IsNormal(xmin) && xmin < freezeLimit }
    predicate XmaxNeedsFreeze(freezeLimit: Xid) { IsNormal(xmax) && xmax < freezeLimit }

    function IntoFrozen(freezeXmin: bool, freezeXmax: bool): SegmentMetaEntry {
      this.(xmin := if freezeXmin then FROZEN_XID else xmin,
            xmax := if freezeXmax then FROZEN_XID else xmax)
    }

    /** What garbage collection leaves of an entry it keeps. */
    function Freeze(freezeLimit: Xid): SegmentMetaEntry {
      IntoFrozen(XminNeedsFreeze(freezeLimit), XmaxNeedsFreeze(freezeLimit))
    }

    /** The length of the serialised entry: fixed-width integers, one byte for each option. */
    function ByteLen(): nat {
      24 + 4 + 4 + 4 + OptionLen(postings) + OptionLen(positions) + OptionLen(fastFields)
      + OptionLen(fieldNorms) + OptionLen(terms) + OptionLen(store) + OptionLen(tempStore)
      + (if delete.Some? then 1 + 12 + 4 else 1)
    }
  }

  function OptionLen(f: Option<FileEntry>): nat {
    if f.Some? then 1 + 12 else 1
  }

  /** No view still in use can see an entry that garbage collection may remove. */
  lemma RecyclableIsInvisible(e: SegmentMetaEntry, snap: Snapshot, horizon: Xid, view: View)
    requires e.Recyclable(snap, horizon) && view.AtOrAbove(horizon)
    ensures !e.Visible(view)
  {}

  /** Some view that may be in use, now or later, sees the entry. */
  ghost predicate SeenBySome(e: SegmentMetaEntry, horizon: Xid) {
    exists view: View :: view.AtOrAbove(horizon) && e.Visible(view)
  }

  /** Made and deleted by one transaction that the horizon has not passed: nobody ever sees it, yet. */
  predicate StillOwn(e: SegmentMetaEntry, horizon: Xid) {
    e.xmin == e.xmax && horizon <= e.xmax
  }

  /** And the other way round: what may be removed is exactly what no view that may be in use can see, but for
      what one transaction both made and deleted, until the horizon has passed that. */
  lemma RecyclableIff(e: SegmentMetaEntry, snap: Snapshot, horizon: Xid)
    requires horizon <= snap.xmin
    ensures e.Recyclable(snap, horizon) <==> !SeenBySome(e, horizon) && !StillOwn(e, horizon)
  {
    if e.Recyclable(snap, horizon) {
      forall view: View | view.AtOrAbove(horizon) ensures !e.Visible(view) {
        RecyclableIsInvisible(e, snap, horizon, view);
      }
    } else if e.xmax == INVALID_XID {
      var n := if horizon <= e.xmin then e.xmin + 1 else horizon;
      var view := View(Snapshot(n, n, {}), None);
      assert view.AtOrAbove(horizon) && e.Visible(view);
    } else if e.xmin != e.xmax {
      var view := View(Snapshot(horizon, e.xmin + e.xmax + 1, {e.xmax}), None);
      assert view.AtOrAbove(horizon) && e.Visible(view);
    }
  }

  /** What freezing leaves: no id that was given to a transaction below the limit; all else as it was. */
  ghost predicate FrozenBelow(e: SegmentMetaEntry, f: SegmentMetaEntry, limit: Xid) {
    && f == e.(xmin := f.xmin, xmax := f.xmax)
    && FrozenId(e.xmin, f.xmin, limit) && FrozenId(e.xmax, f.xmax, limit)
  }

  predicate FrozenId(x: Xid, y: Xid, limit: Xid) {
    if FIRST_NORMAL_XID <= x < limit then y == FROZEN_XID else y == x
  }

  lemma FreezeMeans(e: SegmentMetaEntry, freezeLimit: Xid)
    ensures FrozenBelow(e, e.Freeze(freezeLimit), freezeLimit)
  {}

  /**
   Freezing below a limit that every view in use has passed changes nothing that any of them sees, nor
   the length of the entry.
   */
  lemma FreezeKeepsVisibility(e: SegmentMetaEntry, freezeLimit: Xid, view: View)
    requires view.AtOrAbove(freezeLimit) && view.AtOrAbove(FIRST_NORMAL_XID)
    ensures e.Freeze(freezeLimit).Visible(view) == e.Visible(view)
    ensures e.Freeze(freezeLimit).segmentId == e.segmentId
    ensures e.Freeze(freezeLimit).ByteLen() == e.ByteLen()
  {}

  lemma FreezeKeepsRecyclability(e: SegmentMetaEntry, freezeLimit: Xid, snap: Snapshot, horizon: Xid)
    requires FIRST_NORMAL_XID <= freezeLimit <= horizon && freezeLimit <= snap.xmin
    ensures e.Freeze(freezeLimit).Recyclable(snap, horizon) == e.Recyclable(snap, horizon)
  {}
}
