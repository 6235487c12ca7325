/**
 The handshake between scans and `ambulkdelete`: the merge lock, the commit of the deletes, and the
 cleanup lock that waits for every pin.
 */
module CleanupLock {
  import opened Wrappers
  import opened Block
  import opened Transactions

  type Ctid = nat

  // ---------------------------------------------------------------------------------------------
  // Reading the documents of a segment
  // ---------------------------------------------------------------------------------------------

  type DocId = nat

  /** The matching documents of a segment, and the bit set of those not deleted, if there is one. */
  class ScorerIter {
    const docs: seq<DocId>
    const aliveBitset: Option<set<DocId>>
    var pos: nat

    constructor (docs: seq<DocId>, aliveBitset: Option<set<DocId>>)
      ensures this.docs == docs && this.aliveBitset == aliveBitset && pos == 0
    {
      this.docs, this.aliveBitset, pos := docs, aliveBitset, 0;
    }

    predicate IsAlive(d: DocId) {
      aliveBitset.Some? ==> d in aliveBitset.value
    }

    /** What is still to come. */
    ghost function Remaining(): seq<DocId>
      requires pos <= |docs|
      reads this
    {
      AliveOf(docs[pos..], aliveBitset)
    }

    method Next() returns (r: Option<DocId>)
      requires pos <= |docs|
      modifies this`pos
      ensures pos <= |docs|
      ensures old(Remaining()) == (if r.Some? then [r.value] else []) + Remaining()
      ensures r.None? ==> Remaining() == []
    {
      while true
        invariant pos <= |docs| && Remaining() == old(Remaining())
        decreases |docs| - pos
      {
        if pos == |docs| {
          return None;
        } else if IsAlive(docs[pos]) {
          var d := docs[pos];
          assert docs[pos..][0] == d && docs[pos..][1..] == docs[pos + 1..];
          pos := pos + 1;
          return Some(d);
        }
        assert docs[pos..][1..] == docs[pos + 1..];
        pos := pos + 1;
      }
    }
  }

  ghost function AliveOf(docs: seq<DocId>, aliveBitset: Option<set<DocId>>): seq<DocId> {
    if docs == [] then []
    else (if aliveBitset.Some? ==> docs[0] in aliveBitset.value then [docs[0]] else [])
         + AliveOf(docs[1..], aliveBitset)
  }

  /** No document that is not alive comes out, and every one that is does. */
  lemma {:induction false} OnlyAliveEmitted(docs: seq<DocId>, aliveBitset: Option<set<DocId>>, d: DocId)
    ensures d in AliveOf(docs, aliveBitset) <==> d in docs && (aliveBitset.Some? ==> d in aliveBitset.value)
  {
    if docs != [] {
      OnlyAliveEmitted(docs[1..], aliveBitset, d);
    }
  }

  // ---------------------------------------------------------------------------------------------
  // Finding what to delete
  // ---------------------------------------------------------------------------------------------

  /** The loops of `ambulkdelete`: every document of every segment is put to the callback. */
  method FindDead(segments: seq<seq<Ctid>>, callback: Ctid -> bool) returns (terms: seq<Ctid>, didDelete: bool)
    ensures didDelete <==> terms != []
    ensures forall d :: d in terms <==> callback(d) && exists i :: 0 <= i < |segments| && d in segments[i]
  {
    terms, didDelete := [], false;
    for i := 0 to |segments|
      invariant didDelete <==> terms != []
      invariant forall d :: d in terms <==> callback(d) && exists j :: 0 <= j < i && d in segments[j]
    {
      ghost var before := terms;
      for docId := 0 to |segments[i]|
        invariant didDelete <==> terms != []
        invariant forall d :: d in terms <==> d in before || (callback(d) && d in segments[i][..docId])
      {
        var ctid := segments[i][docId];
        if callback(ctid) {
          didDelete := true;
          terms := terms + [ctid];
        }
        assert segments[i][..docId + 1] == segments[i][..docId] + [ctid];
      }
      assert segments[i][..|segments[i]|] == segments[i];
    }
  }

  // ---------------------------------------------------------------------------------------------
  // The state machine
  // ---------------------------------------------------------------------------------------------

  /** A document is a version of a row: its ctid may be used again once the version is gone. */
  datatype Doc = Doc(ctid: Ctid, version: nat)

  /** An entry, with the documents its delete file leaves alive. */
  datatype Segment = Segment(xmin: Xid, xmax: Xid, docs: set<Doc>, alive: set<Doc>) {
    predicate Visible(view: View) { view.Shows(xmin, xmax) }

    /** Nobody sees it any more. */
    predicate Gone(oldest: Xid) { xmax != INVALID_XID && xmax < oldest }
  }

  type Segments = map<SegmentId, Segment>

  /** A segment as a commit of deletes left it out: with an xmax, and what was alive in it. */
  datatype LeftOut = LeftOut(id: SegmentId, segment: Segment)

  /** How far a call of `ambulkdelete` is.  There is one at a time. */
  datatype Phase = Idle | Locked | Loaded | Committed | Dropped

  /** A scan: the segments it loaded under its snapshot, and what was alive in each when it opened that. */
  datatype Scan = Scan(pinned: bool, v: nat, loaded: Option<set<SegmentId>>, seen: map<SegmentId, set<Doc>>)

  /** A writer of transaction `x`, which may have others, with what was alive in the segments it has. */
  datatype Writer = Writer(x: Xid, holding: nat, snap: Snapshot, loaded: map<SegmentId, set<Doc>>) {
    function AsView(): View { View(snap, Some(x)) }
  }

  type Writers = map<nat, Writer>

  datatype Holder = ByWriter(w: nat) | ByVacuum

  datatype State = State(
    clock: Clock,
    segments: Segments,
    scans: map<nat, Scan>,
    writers: Writers,
    lastMerge: Xid,
    holder: Option<Holder>,
    phase: Phase,
    vacuum: Option<Xid>,                  // the id of the vacuum's transaction, from when it has one to its end
    dead: set<Ctid>,                      // what the callback calls dead
    found: set<SegmentId>,                // the segments the call reads
    deleted: set<Doc>,                    // what the call deletes
    // for the proof only
    returned: set<Doc>,                   // what the calls that have returned have deleted
    leftOuts: set<LeftOut>,               // what the commits left out
    told: Xid,                            // the last vacuum to release the merge lock
    granted: map<Xid, Snapshot>,
    known: set<Doc>,
    ids: set<SegmentId>)

  const INIT :=
    State(START, map[], map[], map[], INVALID_XID, None, Idle, None, {}, {}, {}, {}, {}, INVALID_XID, map[], {}, {})

  /** What is deleted for good: by the calls that have returned, and by one that has committed. */
  ghost function Past(s: State): set<Doc> {
    s.returned + if s.phase.Committed? || s.phase.Dropped? then s.deleted else {}
  }

  datatype Action =
    | Assign(views: set<nat>)
    | TakeSnapshot(v: nat, xmin: Xid, current: Option<Xid>)
    | ReleaseSnapshot(v: nat)
    | Finish(x: Xid)
    | OpenWriter(w: nat, x: Xid, v: nat)
    | Reread(w: nat, id: SegmentId)                 // the writer reads the delete file again
    | Insert(w: nat, id: SegmentId, docs: set<Doc>)
    | AcquireForMerge(w: nat, v: nat)
    | Merge(w: nat, inputs: set<SegmentId>, id: SegmentId)
    | DropMergeLock(w: nat)
    | CloseWriter(w: nat)
    | CollectSegment(id: SegmentId, horizon: Xid)
    | OpenScan(k: nat, pin: bool, v: nat)
    | LoadScan(k: nat)
    | OpenSegment(k: nat, id: SegmentId)
    | CloseScan(k: nat)
    | AcquireForDelete(dead: set<Ctid>)
    | GetVacuumId(x: Xid)
    | ReadAll(horizon: Xid)
    | CommitDeletes(leaveOut: set<SegmentId>)
    | DropDeleteLock
    | Return
    | Fail                                          // an error, or an interrupt while waiting for the pins

  ghost function VisibleIn(segments: Segments, view: View): set<SegmentId> {
    set id | id in segments && segments[id].Visible(view)
  }

  ghost function DocsOf(segments: Segments, ids: set<SegmentId>): set<Doc> {
    set id, d | id in ids && id in segments && d in segments[id].docs :: d
  }

  ghost function AliveIn(loaded: map<SegmentId, set<Doc>>, ids: set<SegmentId>): set<Doc> {
    set id, d | id in ids && id in loaded && d in loaded[id] :: d
  }

  ghost predicate Enabled(s: State, a: Action) {
    match a
    case Assign(views) => s.clock.CanAssign(views)
    case TakeSnapshot(v, xmin, current) => s.clock.CanTakeSnapshot(v, xmin, current)
    case ReleaseSnapshot(v) =>
      && v in s.clock.live && (forall w :: w in s.writers ==> s.writers[w].holding != v)
      && (forall k :: k in s.scans ==> s.scans[k].v != v)
    case Finish(x) => x in s.clock.active && (s.vacuum == Some(x) ==> s.phase.Idle?)
    case OpenWriter(w, x, v) =>
      && w !in s.writers && x in s.clock.active && s.vacuum != Some(x)
      && v in s.clock.live && s.clock.live[v].current == Some(x)
    case Reread(w, id) => w in s.writers && id in s.writers[w].loaded && id in s.segments
    // what the call regards as dead is not inserted again before the call is over
    case Insert(w, id, docs) =>
      && w in s.writers && id !in s.ids && docs !! s.known
      && (!s.phase.Idle? ==> forall d :: d in docs ==> d.ctid !in s.dead)
    case AcquireForMerge(w, v) =>
      && w in s.writers && s.holder == None
      && v in s.clock.live && s.clock.live[v].current == Some(s.writers[w].x) && s.clock.live[v].Sees(s.lastMerge)
    case Merge(w, inputs, id) =>
      && w in s.writers && s.holder == Some(ByWriter(w)) && id !in s.ids
      && inputs <= s.writers[w].loaded.Keys && inputs <= s.segments.Keys
    case DropMergeLock(w) => w in s.writers && s.holder == Some(ByWriter(w))
    case CloseWriter(w) => w in s.writers && s.holder != Some(ByWriter(w))
    case CollectSegment(id, horizon) =>
      id in s.segments && s.segments[id].Gone(horizon) && s.clock.MayRemoveBelow(horizon)
    case OpenScan(k, pin, v) => k !in s.scans && v in s.clock.live
    case LoadScan(k) => k in s.scans && s.scans[k].loaded == None && s.scans[k].v in s.clock.live
    case OpenSegment(k, id) =>
      k in s.scans && s.scans[k].loaded.Some? && id in s.scans[k].loaded.value && id in s.segments
    case CloseScan(k) => k in s.scans
    // by the same transaction again, or after its end: a vacuum holds a lock on the table to the end
    case AcquireForDelete(dead) => s.phase.Idle? && s.holder == None
    case GetVacuumId(x) =>
      && s.vacuum == None && (s.phase.Locked? || s.phase.Loaded? || s.phase.Committed?)
      && x in s.clock.active && forall w :: w in s.writers ==> s.writers[w].x != x
    case ReadAll(horizon) => s.phase.Locked? && s.clock.MayRemoveBelow(horizon)
    // segments with no document left alive may be left out of the commit: they get an xmax instead
    case CommitDeletes(leaveOut) =>
      && s.phase.Loaded? && leaveOut <= s.found && leaveOut <= s.segments.Keys
      && (leaveOut != {} ==> s.vacuum.Some?)
      && (forall id :: id in leaveOut ==> s.segments[id].alive <= s.deleted)
    case DropDeleteLock => s.phase.Committed? && s.vacuum.Some?
    // the cleanup lock waits for all pins, if there was anything to delete
    case Return => s.phase.Dropped? && (s.deleted != {} ==> forall k :: k in s.scans ==> !s.scans[k].pinned)
    // who fails with the merge lock records its transaction when it lets go of it
    case Fail => s.phase.Dropped? || ((s.phase.Locked? || s.phase.Loaded?) && s.vacuum.Some?)
  }

  ghost function Merged(segments: Segments, inputs: set<SegmentId>, x: Xid, id: SegmentId, alive: set<Doc>): Segments {
    map i | i in segments.Keys + {id} ::
      if i == id then Segment(x, INVALID_XID, alive, alive)
      else if i in inputs then segments[i].(xmax := x)
      else segments[i]
  }

  ghost function LeavingOut(segments: Segments, leaveOut: set<SegmentId>, x: Xid): Segments {
    map id | id in leaveOut && id in segments :: segments[id].(xmax := x)
  }

  ghost function AsLeftOuts(segments: Segments): set<LeftOut> {
    set id | id in segments :: LeftOut(id, segments[id])
  }

  ghost function Deleting(segments: Segments, found: set<SegmentId>, deleted: set<Doc>, leaveOut: Segments): Segments {
    map id | id in segments ::
      if id in leaveOut then leaveOut[id]
      else if id in found then segments[id].(alive := segments[id].alive - deleted)
      else segments[id]
  }

  ghost function IdOf(vacuum: Option<Xid>): Xid {
    if vacuum.Some? then vacuum.value else INVALID_XID
  }

  ghost function Apply(s: State, a: Action): State
    requires Enabled(s, a)
  {
    match a
    case Assign(views) => s.(clock := s.clock.Assign(views))
    case TakeSnapshot(v, xmin, current) => s.(clock := s.clock.TakeSnapshot(v, xmin, current))
    case ReleaseSnapshot(v) => s.(clock := s.clock.Release(v))
    case Finish(x) =>
      var live := s.clock.Finish(x).live;
      s.(clock := s.clock.Finish(x),
         writers := map w | w in s.writers && s.writers[w].x != x :: s.writers[w],
         scans := map k | k in s.scans && s.scans[k].v in live :: s.scans[k],
         holder := if s.holder.Some? && s.holder.value.ByWriter? && s.holder.value.w in s.writers
                      && s.writers[s.holder.value.w].x == x then None else s.holder,
         vacuum := if s.vacuum == Some(x) then None else s.vacuum)
    case OpenWriter(w, x, v) =>
      var ids := VisibleIn(s.segments, s.clock.live[v]);
      s.(writers := s.writers[w := Writer(x, v, s.clock.live[v].snap, map id | id in ids :: s.segments[id].alive)])
    case Reread(w, id) =>
      var u := s.writers[w];
      s.(writers := s.writers[w := u.(loaded := u.loaded[id := s.segments[id].alive])])
    case Insert(w, id, docs) =>
      var u := s.writers[w];
      s.(segments := s.segments[id := Segment(u.x, INVALID_XID, docs, docs)],
         writers := s.writers[w := u.(loaded := u.loaded[id := docs])],
         known := s.known + docs, ids := s.ids + {id})
    case AcquireForMerge(w, v) =>
      var u := s.writers[w];
      s.(lastMerge := u.x, holder := Some(ByWriter(w)), granted := s.granted[u.x := u.snap])
    case Merge(w, inputs, id) =>
      var u := s.writers[w];
      var alive := AliveIn(u.loaded, inputs);
      s.(segments := Merged(s.segments, inputs, u.x, id, alive),
         writers := s.writers[w := u.(loaded := (u.loaded - inputs)[id := alive])], ids := s.ids + {id})
    case DropMergeLock(w) => s.(lastMerge := s.writers[w].x, holder := None)
    case CloseWriter(w) => s.(writers := s.writers - {w})
    case CollectSegment(id, horizon) => s.(segments := s.segments - {id}, clock := s.clock.RemoveBelow(horizon))
    case OpenScan(k, pin, v) => s.(scans := s.scans[k := Scan(pin, v, None, map[])])
    case LoadScan(k) =>
      var ids := VisibleIn(s.segments, s.clock.live[s.scans[k].v]);
      s.(scans := s.scans[k := s.scans[k].(loaded := Some(ids))])
    case OpenSegment(k, id) =>
      s.(scans := s.scans[k := s.scans[k].(seen := s.scans[k].seen[id := s.segments[id].alive])])
    case CloseScan(k) => s.(scans := s.scans - {k})
    case AcquireForDelete(dead) => s.(phase := Locked, holder := Some(ByVacuum), dead := dead)
    case GetVacuumId(x) => s.(vacuum := Some(x))
    case ReadAll(horizon) =>
      var found := set id | id in s.segments && !s.segments[id].Gone(horizon);
      s.(phase := Loaded, clock := s.clock.RemoveBelow(horizon), found := found,
         deleted := set d | d in DocsOf(s.segments, found) && d.ctid in s.dead)
    case CommitDeletes(leaveOut) =>
      var out := LeavingOut(s.segments, leaveOut, IdOf(s.vacuum));
      s.(phase := Committed, leftOuts := s.leftOuts + AsLeftOuts(out),
         segments := Deleting(s.segments, s.found, s.deleted, out))
    case DropDeleteLock => s.(phase := Dropped, holder := None, lastMerge := IdOf(s.vacuum), told := IdOf(s.vacuum))
    case Return => s.(phase := Idle, deleted := {}, returned := s.returned + s.deleted)
    case Fail =>
      if s.phase.Dropped? then s.(phase := Idle, deleted := {})
      else s.(phase := Idle, deleted := {}, holder := None, lastMerge := IdOf(s.vacuum), told := IdOf(s.vacuum))
  }

  ghost function Run(actions: seq<Action>): Option<State> {
    if actions == [] then Some(INIT)
    else
      var before := Run(actions[..|actions| - 1]);
      var a := actions[|actions| - 1];
      if before.Some? && Enabled(before.value, a) then Some(Apply(before.value, a)) else None
  }

  ghost predicate CleanFor(segments: Segments, loaded: map<SegmentId, set<Doc>>, deleted: set<Doc>) {
    forall id :: id in loaded && id in segments ==> loaded[id] !! deleted
  }

  /** The merge lock goes to a writer that has nothing alive, in the segments of the list, of what is deleted
      for good. */
  ghost predicate CleanStep(s: State, a: Action) {
    a.AcquireForMerge? && a.w in s.writers ==> CleanFor(s.segments, s.writers[a.w].loaded, Past(s))
  }

  ghost predicate AllClean(actions: seq<Action>) {
    actions != [] ==>
      var before := Run(actions[..|actions| - 1]);
      AllClean(actions[..|actions| - 1]) && (before.Some? ==> CleanStep(before.value, actions[|actions| - 1]))
  }

  // ---------------------------------------------------------------------------------------------
  // What every step keeps
  // ---------------------------------------------------------------------------------------------

  ghost predicate Inv(s: State) {
    Tracking(s) && Cleaning(s)
  }

  ghost predicate Tracking(s: State) {
    && s.clock.Valid() && Writing(s.writers, s.clock, s.vacuum)
    && Scanning(s.scans, s.clock.live)
    && Locks(s.phase, s.vacuum, s.holder, s.writers, s.lastMerge, s.clock.active)
    && Known(s.segments, s.writers, s.known, s.ids)
    && Stamps(s.segments, s.leftOuts, s.vacuum, s.lastMerge, s.clock.nextXid)
    && Loads(s.segments, s.writers, s.scans, s.clock.live, s.ids)
    && Shrinks(s.segments, s.writers)
  }

  ghost predicate Cleaning(s: State) {
    && Deletes(s.phase, s.segments, s.found, s.dead, s.deleted, s.returned, s.known, s.clock.oldest)
    && Clean(s.segments, s.leftOuts, Past(s), s.clock.oldest)
    && CleanHolder(s.holder, s.segments, s.writers, Past(s))
    && CleanScans(s.scans, s.clock.live, s.segments, s.leftOuts, s.returned)
  }

  ghost predicate Writing(writers: Writers, clock: Clock, vacuum: Option<Xid>) {
    forall w :: w in writers ==>
      && writers[w].x in clock.active && vacuum != Some(writers[w].x)
      && writers[w].holding in clock.live && clock.live[writers[w].holding] == writers[w].AsView()
  }

  ghost predicate Scanning(scans: map<nat, Scan>, live: map<nat, View>) {
    forall k :: k in scans ==>
      && scans[k].v in live
      && (forall id :: id in scans[k].seen ==> scans[k].loaded.Some? && id in scans[k].loaded.value)
  }

  ghost predicate Locks(phase: Phase, vacuum: Option<Xid>, holder: Option<Holder>, writers: Writers, lastMerge: Xid,
                        active: set<Xid>)
  {
    && (vacuum.Some? ==> vacuum.value in active) && (phase.Dropped? ==> vacuum.Some?)
    && (phase.Idle? || phase.Dropped? <==> holder != Some(ByVacuum))
    && (holder.Some? && holder.value.ByWriter? ==>
          holder.value.w in writers && writers[holder.value.w].x == lastMerge)
  }

  ghost predicate Known(segments: Segments, writers: Writers, known: set<Doc>, ids: set<SegmentId>) {
    && segments.Keys <= ids
    && (forall id :: id in segments ==> segments[id].alive <= segments[id].docs <= known)
    && (forall w :: w in writers ==> KnownLoad(writers[w].loaded, known, ids))
  }

  ghost predicate KnownLoad(loaded: map<SegmentId, set<Doc>>, known: set<Doc>, ids: set<SegmentId>) {
    forall id :: id in loaded ==> id in ids && loaded[id] <= known
  }

  ghost predicate Stamps(segments: Segments, leftOuts: set<LeftOut>, vacuum: Option<Xid>, lastMerge: Xid,
                         nextXid: Xid)
  {
    && (forall id :: id in segments ==> segments[id].xmin < nextXid && segments[id].xmax < nextXid)
    && (forall o :: o in leftOuts ==> o.segment.xmin < nextXid && INVALID_XID != o.segment.xmax < nextXid)
    && (vacuum.Some? ==> INVALID_XID != vacuum.value < nextXid) && lastMerge < nextXid
  }

  /** What was loaded under a snapshot in use is not gone. */
  ghost predicate Loads(segments: Segments, writers: Writers, scans: map<nat, Scan>, live: map<nat, View>,
                        ids: set<SegmentId>)
  {
    && (forall w :: w in writers ==> NotGone(segments, writers[w].loaded.Keys, writers[w].snap))
    && (forall k :: k in scans && scans[k].loaded.Some? && scans[k].v in live ==>
          scans[k].loaded.value <= ids && NotGone(segments, scans[k].loaded.value, live[scans[k].v].snap))
  }

  ghost predicate NotGone(segments: Segments, ids: set<SegmentId>, snap: Snapshot) {
    forall id :: id in ids && id in segments ==> !segments[id].Gone(snap.xmin)
  }

  ghost predicate Deletes(phase: Phase, segments: Segments, found: set<SegmentId>, dead: set<Ctid>,
                          deleted: set<Doc>, returned: set<Doc>, known: set<Doc>, oldest: Xid)
  {
    && (phase.Idle? || phase.Locked? ==> deleted == {}) && deleted <= known && returned <= known
    && (forall d :: d in deleted ==> d.ctid in dead)
    && (phase.Loaded? ==>
          forall id :: id in segments && id !in found ==>
            segments[id].Gone(oldest) || forall d :: d in segments[id].docs ==> d.ctid !in dead)
  }

  /** The segment was left out, with the xmax it has, when the document was alive in it. */
  ghost predicate IsLeftOut(leftOuts: set<LeftOut>, id: SegmentId, e: Segment, d: Doc) {
    exists o :: o in leftOuts && o.id == id && d in o.segment.alive
                && o.segment.xmin == e.xmin && o.segment.xmax == e.xmax
  }

  /** What is deleted for good is alive only in what was left out, or in what is gone. */
  ghost predicate Clean(segments: Segments, leftOuts: set<LeftOut>, past: set<Doc>, oldest: Xid) {
    forall id, d :: id in segments && d in segments[id].alive && d in past ==>
      segments[id].Gone(oldest) || IsLeftOut(leftOuts, id, segments[id], d)
  }

  /** What is alive in a segment only becomes less after a writer has loaded it. */
  ghost predicate Shrinks(segments: Segments, writers: Writers) {
    forall w, id :: w in writers && id in writers[w].loaded && id in segments ==>
      segments[id].alive <= writers[w].loaded[id]
  }

  ghost predicate CleanHolder(holder: Option<Holder>, segments: Segments, writers: Writers, past: set<Doc>) {
    holder.Some? && holder.value.ByWriter? && holder.value.w in writers ==>
      CleanFor(segments, writers[holder.value.w].loaded, past)
  }

  /** What a pinned scan has opened, or may, is clean, but for what was left out and shows to it. */
  ghost predicate CleanScans(scans: map<nat, Scan>, live: map<nat, View>, segments: Segments, leftOuts: set<LeftOut>,
                             returned: set<Doc>)
  {
    forall k :: k in scans && scans[k].pinned && scans[k].v in live ==>
      CleanScan(scans[k], live[scans[k].v], segments, leftOuts, returned)
  }

  ghost predicate CleanScan(c: Scan, view: View, segments: Segments, leftOuts: set<LeftOut>, returned: set<Doc>) {
    && (c.loaded.Some? ==>
          forall id, d :: id in c.loaded.value && id in segments && d in segments[id].alive && d in returned ==>
            Excused(leftOuts, id, view, d))
    && (forall id, d :: id in c.seen && d in c.seen[id] && d in returned ==> Excused(leftOuts, id, view, d))
  }

  ghost predicate Excused(leftOuts: set<LeftOut>, id: SegmentId, view: View, d: Doc) {
    exists o :: o in leftOuts && o.id == id && d in o.segment.alive && o.segment.Visible(view)
  }

  lemma {:induction false} InvHolds(actions: seq<Action>)
    requires Run(actions).Some? && AllClean(actions)
    ensures Inv(Run(actions).value)
  {
    hide Inv, Enabled, Apply, CleanStep;
    if actions == [] {
      InitHolds();
    } else {
      InvHolds(actions[..|actions| - 1]);
      StepKeeps(Run(actions[..|actions| - 1]).value, actions[|actions| - 1]);
    }
  }

  lemma InitHolds()
    ensures Inv(INIT)
  {}

  lemma StepKeeps(s: State, a: Action)
    requires Inv(s) && Enabled(s, a) && CleanStep(s, a)
    ensures Inv(Apply(s, a))
  {
    hide Inv, Enabled, Apply, CleanStep;
    match a
    case Assign(views) => AssignKeeps(s, a);
    case TakeSnapshot(v, xmin, current) => TakeSnapshotKeeps(s, a);
    case ReleaseSnapshot(v) => ReleaseKeeps(s, a);
    case Finish(x) => FinishKeeps(s, a);
    case OpenWriter(w, x, v) => OpenWriterKeeps(s, a);
    case Reread(w, id) => RereadKeeps(s, a);
    case Insert(w, id, docs) => InsertKeeps(s, a);
    case AcquireForMerge(w, v) => AcquireKeeps(s, a);
    case Merge(w, inputs, id) => MergeKeeps(s, a);
    case DropMergeLock(w) => DropLockKeeps(s, a);
    case CloseWriter(w) => DropLockKeeps(s, a);
    case CollectSegment(id, horizon) => CollectKeeps(s, a);
    case OpenScan(k, pin, v) => ScanKeeps(s, a);
    case LoadScan(k) => LoadScanKeeps(s, a);
    case OpenSegment(k, id) => OpenSegmentKeeps(s, a);
    case CloseScan(k) => ScanKeeps(s, a);
    case AcquireForDelete(dead) => VacuumLockKeeps(s, a);
    case GetVacuumId(x) => VacuumLockKeeps(s, a);
    case ReadAll(horizon) => ReadKeeps(s, a);
    case CommitDeletes(leaveOut) => CommitKeeps(s, a);
    case DropDeleteLock => DropDeleteKeeps(s, a);
    case Return => ReturnKeeps(s, a);
    case Fail => FailKeeps(s, a);
  }

  lemma SamePast(s: State, a: Action)
    requires Enabled(s, a) && !a.CommitDeletes? && !a.Fail?
    ensures Past(Apply(s, a)) == Past(s)
  {
    hide Merged, VisibleIn, AliveIn, DocsOf;
    if a.Return? {
      assert (s.returned + s.deleted) + {} == s.returned + s.deleted;
    }
  }

  lemma AssignKeeps(s: State, a: Action)
    requires a.Assign?
    requires Inv(s) && Enabled(s, a)
    ensures Inv(Apply(s, a))
  {
    hide Tracking, Cleaning, Apply, Enabled;
    AssignKeepsTracking(s, a);
    AssignKeepsCleaning(s, a);
  }

  lemma AssignKeepsTracking(s: State, a: Action)
    requires a.Assign? && Inv(s) && Enabled(s, a)
    ensures Tracking(Apply(s, a))
  {
    hide Cleaning, Known, Shrinks, Clock.Valid, NotGone;
    AssignKeepsClock(s.clock, a.views);
  }

  lemma AssignKeepsCleaning(s: State, a: Action)
    requires a.Assign? && Inv(s) && Enabled(s, a)
    ensures Cleaning(Apply(s, a))
  {
    hide Deletes, Clean, CleanHolder, Writing, Scanning, Locks, Known, Loads, Shrinks, Past, Clock.Valid;
    assert Past(Apply(s, a)) == Past(s) by { SamePast(s, a); }
    AssignKeepsClock(s.clock, a.views);
  }

  lemma TakeSnapshotKeeps(s: State, a: Action)
    requires a.TakeSnapshot?
    requires Inv(s) && Enabled(s, a)
    ensures Inv(Apply(s, a))
  {
    hide Known, Deletes, Clean, Shrinks, Clock.Valid;
    TakeSnapshotKeepsClock(s.clock, a.v, a.xmin, a.current);
    RunningIsUnseen(s.clock.TakeSnapshot(a.v, a.xmin, a.current), a.v);
  }

  lemma ReleaseKeeps(s: State, a: Action)
    requires a.ReleaseSnapshot?
    requires Inv(s) && Enabled(s, a)
    ensures Inv(Apply(s, a))
  {
    hide Known, Stamps, Deletes, Clean, Shrinks, Clock.Valid;
    ReleaseKeepsClock(s.clock, a.v);
  }

  lemma FinishKeeps(s: State, a: Action)
    requires a.Finish? && Inv(s) && Enabled(s, a)
    ensures Inv(Apply(s, a))
  {
    hide Tracking, Cleaning, Apply, Enabled;
    FinishKeepsTracking(s, a);
    FinishKeepsCleaning(s, a);
  }

  lemma FinishKeepsTracking(s: State, a: Action)
    requires a.Finish? && Inv(s) && Enabled(s, a)
    ensures Tracking(Apply(s, a))
  {
    hide Cleaning, Clock.Valid, NotGone, KnownLoad;
    FinishKeepsClock(s.clock, a.x);
  }

  lemma FinishKeepsCleaning(s: State, a: Action)
    requires a.Finish? && Inv(s) && Enabled(s, a)
    ensures Cleaning(Apply(s, a))
  {
    hide Writing, Known, Stamps, Loads, Deletes, Clean, CleanScan, Clock.Valid;
  }

  lemma OpenWriterKeeps(s: State, a: Action)
    requires a.OpenWriter? && Inv(s) && Enabled(s, a)
    ensures Inv(Apply(s, a))
  {
    hide Tracking, Cleaning, Apply, Enabled;
    OpenWriterKeepsTracking(s, a);
    OpenWriterKeepsCleaning(s, a);
  }

  lemma OpenWriterKeepsTracking(s: State, a: Action)
    requires a.OpenWriter? && Inv(s) && Enabled(s, a)
    ensures Tracking(Apply(s, a))
  {
    hide Scanning, Stamps, Cleaning, Clock.Valid;
  }

  lemma OpenWriterKeepsCleaning(s: State, a: Action)
    requires a.OpenWriter? && Inv(s) && Enabled(s, a)
    ensures Cleaning(Apply(s, a))
  {
    hide Writing, Scanning, Known, Stamps, Loads, Shrinks, Deletes, Clean, CleanScans, Clock.Valid;
  }

  lemma RereadKeeps(s: State, a: Action)
    requires a.Reread? && Inv(s) && Enabled(s, a)
    ensures Inv(Apply(s, a))
  {
    hide Tracking, Cleaning, Apply, Enabled;
    RereadKeepsTracking(s, a);
    RereadKeepsCleaning(s, a);
  }

  lemma RereadKeepsTracking(s: State, a: Action)
    requires a.Reread? && Inv(s) && Enabled(s, a)
    ensures Tracking(Apply(s, a))
  {
    hide Scanning, Stamps, Cleaning, Clock.Valid;
  }

  lemma RereadKeepsCleaning(s: State, a: Action)
    requires a.Reread? && Inv(s) && Enabled(s, a)
    ensures Cleaning(Apply(s, a))
  {
    hide Scanning, Known, Stamps, Deletes, CleanScans, Clock.Valid;
    WriterIsAbove(s, a.w);
  }

  lemma InsertKeeps(s: State, a: Action)
    requires a.Insert? && Inv(s) && Enabled(s, a)
    ensures Inv(Apply(s, a))
  {
    hide Tracking, Cleaning, Apply, Enabled;
    InsertKeepsTracking(s, a);
    InsertKeepsCleaning(s, a);
  }

  lemma InsertKeepsTracking(s: State, a: Action)
    requires a.Insert? && Inv(s) && Enabled(s, a)
    ensures Tracking(Apply(s, a))
  {
    hide Scanning, Cleaning, Clock.Valid, Known, Loads, Shrinks;
    var u := s.writers[a.w];
    RunningIsClocked(s.clock, u.x);
    InsertedIsKnown(s, a.w, a.id, a.docs);
  }

  lemma InsertedIsKnown(s: State, w: nat, id: SegmentId, docs: set<Doc>)
    requires Tracking(s) && w in s.writers && id !in s.ids
    ensures var u := s.writers[w];
            var after := s.segments[id := Segment(u.x, INVALID_XID, docs, docs)];
            var writers := s.writers[w := u.(loaded := u.loaded[id := docs])];
            && Known(after, writers, s.known + docs, s.ids + {id})
            && Loads(after, writers, s.scans, s.clock.live, s.ids + {id})
            && Shrinks(after, writers)
  {
    hide Scanning, Clock.Valid, Locks, Stamps;
  }

  lemma InsertKeepsCleaning(s: State, a: Action)
    requires a.Insert? && Inv(s) && Enabled(s, a)
    ensures Cleaning(Apply(s, a))
  {
    hide Writing, Scanning, Locks, Stamps, Shrinks, CleanScans, IsLeftOut, Clock.Valid, NotGone;
    InsertedScans(s, a);
  }

  lemma InsertedScans(s: State, a: Action)
    requires a.Insert? && Inv(s) && Enabled(s, a)
    ensures var t := Apply(s, a); CleanScans(t.scans, t.clock.live, t.segments, t.leftOuts, t.returned)
  {
    hide Writing, Scanning, Locks, Stamps, Shrinks, Clean, CleanHolder, Deletes, Known, Excused, Clock.Valid, NotGone;
  }

  lemma AcquireKeeps(s: State, a: Action)
    requires a.AcquireForMerge?
    requires Inv(s) && Enabled(s, a) && CleanStep(s, a)
    ensures Inv(Apply(s, a))
  {
    hide Scanning, Known, Loads, Shrinks, Deletes, Clean, CleanScans, Clock.Valid;
    RunningIsClocked(s.clock, s.writers[a.w].x);
  }

  lemma MergeKeeps(s: State, a: Action)
    requires a.Merge? && Inv(s) && Enabled(s, a)
    ensures Inv(Apply(s, a))
  {
    hide Tracking, Cleaning, Apply, Enabled;
    MergeKeepsTracking(s, a);
    MergeKeepsCleaning(s, a);
  }

  lemma MergeKeepsTracking(s: State, a: Action)
    requires a.Merge? && Inv(s) && Enabled(s, a)
    ensures Tracking(Apply(s, a))
  {
    hide Scanning, Cleaning, Clock.Valid, Loads, Known, Merged, Shrinks;
    var u := s.writers[a.w];
    RunningIsClocked(s.clock, u.x);
    MergedStamps(s, u.x, a.inputs, a.id, AliveIn(u.loaded, a.inputs));
    MergedIsKnown(s, a.w, a.inputs, a.id);
    MergedLoads(s, a.w, a.inputs, a.id);
  }

  lemma MergedStamps(s: State, x: Xid, inputs: set<SegmentId>, id: SegmentId, alive: set<Doc>)
    requires Tracking(s) && x < s.clock.nextXid
    ensures Stamps(Merged(s.segments, inputs, x, id, alive), s.leftOuts, s.vacuum, s.lastMerge, s.clock.nextXid)
  {
    hide Scanning, Clock.Valid, Loads, Known, Writing, Locks;
  }

  lemma MergedIsKnown(s: State, w: nat, inputs: set<SegmentId>, id: SegmentId)
    requires Tracking(s) && w in s.writers && id !in s.ids && inputs <= s.segments.Keys
    ensures var u := s.writers[w];
            var alive := AliveIn(u.loaded, inputs);
            var after := Merged(s.segments, inputs, u.x, id, alive);
            var writers := s.writers[w := u.(loaded := (u.loaded - inputs)[id := alive])];
            && Known(after, writers, s.known, s.ids + {id}) && Shrinks(after, writers)
  {
    hide Scanning, Clock.Valid, Loads, Writing, Locks, Stamps;
  }

  /** Giving an xmax that no snapshot in use has passed makes nothing gone. */
  lemma NotGoneKept(before: Segments, after: Segments, ids: set<SegmentId>, snap: Snapshot)
    requires NotGone(before, ids, snap)
    requires forall id :: id in ids && id in after ==>
      || (id in before && after[id].xmax == before[id].xmax)
      || after[id].xmax == INVALID_XID || snap.xmin <= after[id].xmax
    ensures NotGone(after, ids, snap)
  {}

  lemma LoadsKept(before: Segments, after: Segments, writers: Writers, scans: map<nat, Scan>, clock: Clock,
                  ids: set<SegmentId>, ids': set<SegmentId>)
    requires Loads(before, writers, scans, clock.live, ids) && Writing(writers, clock, None) && ids <= ids'
    requires forall v, id :: v in clock.live && id in after && id in ids ==>
      || (id in before && after[id].xmax == before[id].xmax)
      || after[id].xmax == INVALID_XID || clock.live[v].snap.xmin <= after[id].xmax
    requires forall w :: w in writers ==> writers[w].loaded.Keys <= ids
    ensures Loads(after, writers, scans, clock.live, ids')
  {
    hide NotGone;
    forall w | w in writers ensures NotGone(after, writers[w].loaded.Keys, writers[w].snap) {
      NotGoneKept(before, after, writers[w].loaded.Keys, writers[w].snap);
    }
    forall k | k in scans && scans[k].loaded.Some? && scans[k].v in clock.live
      ensures NotGone(after, scans[k].loaded.value, clock.live[scans[k].v].snap)
    {
      NotGoneKept(before, after, scans[k].loaded.value, clock.live[scans[k].v].snap);
    }
  }

  lemma WritersHold(writers: Writers, clock: Clock, vacuum: Option<Xid>)
    requires Writing(writers, clock, vacuum)
    ensures Writing(writers, clock, None)
  {}

  lemma MergedLoads(s: State, w: nat, inputs: set<SegmentId>, id: SegmentId)
    requires Tracking(s) && w in s.writers && id !in s.ids && inputs <= s.segments.Keys
    ensures var u := s.writers[w];
            var alive := AliveIn(u.loaded, inputs);
            Loads(Merged(s.segments, inputs, u.x, id, alive),
                  s.writers[w := u.(loaded := (u.loaded - inputs)[id := alive])], s.scans, s.clock.live, s.ids + {id})
  {
    hide Scanning, Clock.Valid, Stamps, NotGone;
    var u := s.writers[w];
    var alive := AliveIn(u.loaded, inputs);
    var after := Merged(s.segments, inputs, u.x, id, alive);
    RunningIsYounger(s.clock, u.x);
    WritersHold(s.writers, s.clock, s.vacuum);
    LoadsKept(s.segments, after, s.writers, s.scans, s.clock, s.ids, s.ids + {id});
    NotGoneGrows(after, u.loaded.Keys, (u.loaded - inputs)[id := alive].Keys, id, u.snap);
  }

  lemma NotGoneGrows(segments: Segments, before: set<SegmentId>, after: set<SegmentId>, id: SegmentId, snap: Snapshot)
    requires NotGone(segments, before, snap) && after <= before + {id}
    requires id in segments && segments[id].xmax == INVALID_XID
    ensures NotGone(segments, after, snap)
  {}

  lemma MergeKeepsCleaning(s: State, a: Action)
    requires a.Merge? && Inv(s) && Enabled(s, a)
    ensures Cleaning(Apply(s, a))
  {
    hide Tracking, Deletes, Clean, CleanHolder, CleanScans, Merged, Past;
    assert Past(Apply(s, a)) == Past(s) by { SamePast(s, a); }
    MergedIsClean(s, a.w, a.inputs, a.id);
    MergedScans(s, a.w, a.inputs, a.id);
  }

  lemma WriterIsAbove(s: State, w: nat)
    requires Tracking(s) && w in s.writers
    ensures s.clock.oldest <= s.writers[w].snap.xmin
    ensures forall id :: id in s.writers[w].loaded && id in s.segments ==> !s.segments[id].Gone(s.clock.oldest)
  {
    hide Scanning, Locks, Known, Stamps, Shrinks, Clock.Valid;
    LiveIsAbove(s.clock, s.writers[w].holding);
  }

  lemma MergedIsClean(s: State, w: nat, inputs: set<SegmentId>, id: SegmentId)
    requires Inv(s) && w in s.writers && s.holder == Some(ByWriter(w)) && id !in s.ids
    requires inputs <= s.segments.Keys && inputs <= s.writers[w].loaded.Keys
    ensures var u := s.writers[w];
            var alive := AliveIn(u.loaded, inputs);
            var after := Merged(s.segments, inputs, u.x, id, alive);
            && Deletes(s.phase, after, s.found, s.dead, s.deleted, s.returned, s.known, s.clock.oldest)
            && Clean(after, s.leftOuts, Past(s), s.clock.oldest)
            && CleanHolder(s.holder, after, s.writers[w := u.(loaded := (u.loaded - inputs)[id := alive])], Past(s))
  {
    hide Scanning, Stamps, CleanScans, Clock.Valid, Writing, Loads, Past, IsLeftOut;
    assert s.phase.Idle? || s.phase.Dropped?;
    WriterIsAbove(s, w);
  }

  lemma MergedScans(s: State, w: nat, inputs: set<SegmentId>, id: SegmentId)
    requires Inv(s) && w in s.writers && id !in s.ids && inputs <= s.segments.Keys
    ensures var u := s.writers[w];
            var after := Merged(s.segments, inputs, u.x, id, AliveIn(u.loaded, inputs));
            CleanScans(s.scans, s.clock.live, after, s.leftOuts, s.returned)
  {
    hide Scanning, Stamps, Clean, CleanHolder, Deletes, Clock.Valid, Writing, Shrinks, Known, NotGone, AliveIn, Excused;
  }

  lemma DropLockKeeps(s: State, a: Action)
    requires a.DropMergeLock? || a.CloseWriter?
    requires Inv(s) && Enabled(s, a)
    ensures Inv(Apply(s, a))
  {
    hide Tracking, Cleaning, Apply, Enabled;
    DropLockKeepsTracking(s, a);
    DropLockKeepsCleaning(s, a);
  }

  lemma DropLockKeepsTracking(s: State, a: Action)
    requires (a.DropMergeLock? || a.CloseWriter?) && Inv(s) && Enabled(s, a)
    ensures Tracking(Apply(s, a))
  {
    hide Scanning, Cleaning, KnownLoad, NotGone, Clock.Valid;
  }

  lemma DropLockKeepsCleaning(s: State, a: Action)
    requires (a.DropMergeLock? || a.CloseWriter?) && Inv(s) && Enabled(s, a)
    ensures Cleaning(Apply(s, a))
  {
    hide Tracking, Deletes, Clean, CleanScans, CleanFor, Past;
    assert Past(Apply(s, a)) == Past(s) by { SamePast(s, a); }
  }

  lemma CollectKeeps(s: State, a: Action)
    requires a.CollectSegment? && Inv(s) && Enabled(s, a)
    ensures Inv(Apply(s, a))
  {
    hide Tracking, Cleaning, Apply, Enabled;
    CollectKeepsTracking(s, a);
    CollectKeepsCleaning(s, a);
  }

  lemma CollectKeepsTracking(s: State, a: Action)
    requires a.CollectSegment? && Inv(s) && Enabled(s, a)
    ensures Tracking(Apply(s, a))
  {
    hide Scanning, Locks, Cleaning, Clock.Valid;
    RemoveBelowKeepsClock(s.clock, a.horizon);
  }

  lemma CollectKeepsCleaning(s: State, a: Action)
    requires a.CollectSegment? && Inv(s) && Enabled(s, a)
    ensures Cleaning(Apply(s, a))
  {
    hide Writing, Scanning, Locks, Known, Stamps, Loads, Shrinks, IsLeftOut, Excused, Clock.Valid;
    RemoveBelowKeepsClock(s.clock, a.horizon);
  }

  lemma ScanKeeps(s: State, a: Action)
    requires a.OpenScan? || a.CloseScan?
    requires Inv(s) && Enabled(s, a)
    ensures Inv(Apply(s, a))
  {
    hide Tracking, Cleaning, Apply, Enabled;
    ScanKeepsTracking(s, a);
    ScanKeepsCleaning(s, a);
  }

  lemma ScanKeepsTracking(s: State, a: Action)
    requires (a.OpenScan? || a.CloseScan?) && Inv(s) && Enabled(s, a)
    ensures Tracking(Apply(s, a))
  {
    hide Cleaning, Writing, Locks, Known, Stamps, Shrinks, Clock.Valid, NotGone;
  }

  lemma ScanKeepsCleaning(s: State, a: Action)
    requires (a.OpenScan? || a.CloseScan?) && Inv(s) && Enabled(s, a)
    ensures Cleaning(Apply(s, a))
  {
    hide Tracking, Deletes, Clean, CleanHolder, Excused;
  }

  lemma LoadScanKeeps(s: State, a: Action)
    requires a.LoadScan?
    requires Inv(s) && Enabled(s, a)
    ensures Inv(Apply(s, a))
  {
    hide Tracking, Cleaning, Apply, Enabled;
    LoadScanKeepsTracking(s, a);
    LoadScanKeepsCleaning(s, a);
  }

  lemma LoadScanKeepsTracking(s: State, a: Action)
    requires a.LoadScan? && Inv(s) && Enabled(s, a)
    ensures Tracking(Apply(s, a))
  {
    hide Cleaning, Writing, Locks, Stamps, Shrinks, Clock.Valid;
    LiveIsAbove(s.clock, s.scans[a.k].v);
  }

  lemma LoadScanKeepsCleaning(s: State, a: Action)
    requires a.LoadScan? && Inv(s) && Enabled(s, a)
    ensures Cleaning(Apply(s, a))
  {
    hide Writing, Locks, Known, Stamps, Loads, Shrinks, Deletes, CleanHolder, IsLeftOut, Excused, Past, Clock.Valid;
    assert Past(Apply(s, a)) == Past(s) by { SamePast(s, a); }
    ReturnedIsPast(s);
    var v := s.scans[a.k].v;
    forall id, d | id in s.segments && s.segments[id].Visible(s.clock.live[v]) && d in s.segments[id].alive
                   && d in s.returned
      ensures Excused(s.leftOuts, id, s.clock.live[v], d)
    {
      VisibleIsLeftOut(s, v, id, d);
      LeftOutIsExcused(s.leftOuts, id, s.segments[id], s.clock.live[v], d);
    }
  }

  lemma ReturnedIsPast(s: State)
    ensures s.returned <= Past(s)
  {}

  lemma LeftOutIsExcused(leftOuts: set<LeftOut>, id: SegmentId, e: Segment, view: View, d: Doc)
    requires IsLeftOut(leftOuts, id, e, d) && e.Visible(view)
    ensures Excused(leftOuts, id, view, d)
  {}

  lemma OpenSegmentKeeps(s: State, a: Action)
    requires a.OpenSegment?
    requires Inv(s) && Enabled(s, a)
    ensures Inv(Apply(s, a))
  {
    hide Writing, Locks, Stamps, Deletes, CleanHolder, Shrinks, Clock.Valid;
    LiveIsAbove(s.clock, s.scans[a.k].v);
  }

  lemma VacuumLockKeeps(s: State, a: Action)
    requires a.AcquireForDelete? || a.GetVacuumId?
    requires Inv(s) && Enabled(s, a)
    ensures Inv(Apply(s, a))
  {
    hide Scanning, Known, Loads, Clock.Valid;
    if a.GetVacuumId? {
      RunningIsClocked(s.clock, a.x);
    }
  }

  lemma ReadKeeps(s: State, a: Action)
    requires a.ReadAll? && Inv(s) && Enabled(s, a)
    ensures Inv(Apply(s, a))
  {
    hide Tracking, Cleaning, Apply, Enabled;
    ReadKeepsTracking(s, a);
    ReadKeepsCleaning(s, a);
  }

  lemma ReadKeepsTracking(s: State, a: Action)
    requires a.ReadAll? && Inv(s) && Enabled(s, a)
    ensures Tracking(Apply(s, a))
  {
    hide Scanning, Stamps, Loads, Deletes, Clean, CleanHolder, Shrinks, CleanScans, Clock.Valid;
    RemoveBelowKeepsClock(s.clock, a.horizon);
  }

  lemma ReadKeepsCleaning(s: State, a: Action)
    requires a.ReadAll? && Inv(s) && Enabled(s, a)
    ensures Cleaning(Apply(s, a))
  {
    hide Writing, Scanning, Stamps, Loads, Shrinks, CleanScans, IsLeftOut, Clock.Valid;
    RemoveBelowKeepsClock(s.clock, a.horizon);
  }

  lemma CommitKeeps(s: State, a: Action)
    requires a.CommitDeletes? && Inv(s) && Enabled(s, a)
    ensures Inv(Apply(s, a))
  {
    hide Tracking, Cleaning, Apply, Enabled;
    CommitKeepsTracking(s, a);
    CommitKeepsCleaning(s, a);
  }

  lemma CommitKeepsTracking(s: State, a: Action)
    requires a.CommitDeletes? && Inv(s) && Enabled(s, a)
    ensures Tracking(Apply(s, a))
  {
    hide Scanning, Deletes, Clean, CleanHolder, Shrinks, CleanScans, Clock.Valid, Loads, Known, Stamps;
    hide Deleting, LeavingOut, AsLeftOuts;
    CommittedIsKnown(s, a.leaveOut);
    CommittedLoads(s, a.leaveOut);
  }

  lemma CommittedIsKnown(s: State, leaveOut: set<SegmentId>)
    requires Inv(s) && s.phase.Loaded? && leaveOut <= s.segments.Keys && (leaveOut != {} ==> s.vacuum.Some?)
    ensures var out := LeavingOut(s.segments, leaveOut, IdOf(s.vacuum));
            var after := Deleting(s.segments, s.found, s.deleted, out);
            && Known(after, s.writers, s.known, s.ids)
            && Stamps(after, s.leftOuts + AsLeftOuts(out), s.vacuum, s.lastMerge, s.clock.nextXid)
            && Shrinks(after, s.writers)
  {
    hide Cleaning, Scanning, Clock.Valid, Loads, Writing, Locks;
  }

  lemma CommittedLoads(s: State, leaveOut: set<SegmentId>)
    requires Inv(s) && s.phase.Loaded? && leaveOut <= s.segments.Keys && (leaveOut != {} ==> s.vacuum.Some?)
    ensures var out := LeavingOut(s.segments, leaveOut, IdOf(s.vacuum));
            Loads(Deleting(s.segments, s.found, s.deleted, out), s.writers, s.scans, s.clock.live, s.ids)
  {
    hide Cleaning, Scanning, Clock.Valid, Stamps, NotGone, Loads;
    var after := Deleting(s.segments, s.found, s.deleted, LeavingOut(s.segments, leaveOut, IdOf(s.vacuum)));
    if s.vacuum.Some? {
      RunningIsYounger(s.clock, s.vacuum.value);
    }
    WritersHold(s.writers, s.clock, s.vacuum);
    LoadsKept(s.segments, after, s.writers, s.scans, s.clock, s.ids, s.ids);
  }

  lemma CommitKeepsCleaning(s: State, a: Action)
    requires a.CommitDeletes? && Inv(s) && Enabled(s, a)
    ensures Cleaning(Apply(s, a))
  {
    hide Tracking, Deletes, Clean, CleanScans, CleanHolder, Deleting, LeavingOut, AsLeftOuts;
    CommittedIsClean(s, a);
    CommittedScans(s, a);
    NoWriterHolds(s);
  }

  lemma NoWriterHolds(s: State)
    requires Tracking(s) && s.phase.Loaded?
    ensures s.holder == Some(ByVacuum)
    ensures forall segments, past :: CleanHolder(s.holder, segments, s.writers, past)
  {
    hide Scanning, Stamps, Clock.Valid, Writing, Shrinks, Known, Loads;
  }

  lemma CommittedIsClean(s: State, a: Action)
    requires a.CommitDeletes? && Inv(s) && Enabled(s, a)
    ensures var out := LeavingOut(s.segments, a.leaveOut, IdOf(s.vacuum));
            var after := Deleting(s.segments, s.found, s.deleted, out);
            && Deletes(Committed, after, s.found, s.dead, s.deleted, s.returned, s.known, s.clock.oldest)
            && Clean(after, s.leftOuts + AsLeftOuts(out), s.returned + s.deleted, s.clock.oldest)
  {
    hide Writing, Scanning, Locks, Loads, Shrinks, CleanHolder, CleanScans, Apply, Clock.Valid, IsLeftOut, Stamps;
    var out := LeavingOut(s.segments, a.leaveOut, IdOf(s.vacuum));
    var after := Deleting(s.segments, s.found, s.deleted, out);
    var leftOuts := s.leftOuts + AsLeftOuts(out);
    forall id, d | id in after && d in after[id].alive && d in s.returned + s.deleted
      ensures after[id].Gone(s.clock.oldest) || IsLeftOut(leftOuts, id, after[id], d)
    {
      if id in a.leaveOut {
        IsOut(leftOuts, id, after[id], d);
      } else if d in s.returned {
        StaysLeftOut(s.leftOuts, leftOuts, id, s.segments[id], after[id], d);
      }
    }
  }

  lemma IsOut(leftOuts: set<LeftOut>, id: SegmentId, e: Segment, d: Doc)
    requires LeftOut(id, e) in leftOuts && d in e.alive
    ensures IsLeftOut(leftOuts, id, e, d)
  {}

  lemma StaysLeftOut(before: set<LeftOut>, after: set<LeftOut>, id: SegmentId, e: Segment, e': Segment, d: Doc)
    requires before <= after && e'.xmin == e.xmin && e'.xmax == e.xmax
    ensures IsLeftOut(before, id, e, d) ==> IsLeftOut(after, id, e', d)
  {}

  lemma CommittedScans(s: State, a: Action)
    requires a.CommitDeletes? && Inv(s) && Enabled(s, a)
    ensures var out := LeavingOut(s.segments, a.leaveOut, IdOf(s.vacuum));
            CleanScans(s.scans, s.clock.live, Deleting(s.segments, s.found, s.deleted, out),
                       s.leftOuts + AsLeftOuts(out), s.returned)
  {
    hide Scanning, Stamps, Clean, CleanHolder, Deletes, Clock.Valid, Writing, Shrinks, Known, NotGone, Apply, Excused;
    hide AsLeftOuts;
    forall leftOuts, id, view, d | s.leftOuts <= leftOuts && Excused(s.leftOuts, id, view, d)
      ensures Excused(leftOuts, id, view, d)
    {
      StaysExcused(s.leftOuts, leftOuts, id, view, d);
    }
  }

  lemma StaysExcused(before: set<LeftOut>, after: set<LeftOut>, id: SegmentId, view: View, d: Doc)
    requires before <= after && Excused(before, id, view, d)
    ensures Excused(after, id, view, d)
  {}

  lemma DropDeleteKeeps(s: State, a: Action)
    requires a.DropDeleteLock? && Inv(s) && Enabled(s, a)
    ensures Inv(Apply(s, a))
  {
    hide Tracking, Cleaning, Apply, Enabled;
    DropDeleteKeepsTracking(s, a);
    DropDeleteKeepsCleaning(s, a);
  }

  lemma DropDeleteKeepsTracking(s: State, a: Action)
    requires a.DropDeleteLock? && Inv(s) && Enabled(s, a)
    ensures Tracking(Apply(s, a))
  {
    hide Scanning, Known, Loads, Deletes, Clean, CleanHolder, Shrinks, CleanScans, Clock.Valid;
  }

  lemma DropDeleteKeepsCleaning(s: State, a: Action)
    requires a.DropDeleteLock? && Inv(s) && Enabled(s, a)
    ensures Cleaning(Apply(s, a))
  {
    hide Scanning, Known, Loads, Shrinks, Clock.Valid;
  }

  lemma ReturnKeeps(s: State, a: Action)
    requires a.Return?
    requires Inv(s) && Enabled(s, a)
    ensures Inv(Apply(s, a))
  {
    hide Writing, Scanning, Known, Stamps, Loads, Shrinks, Clean, CleanHolder, CleanScan, Clock.Valid;
    assert s.returned + s.deleted == Past(s) == Past(Apply(s, a));
    if s.deleted == {} {
      assert s.returned + s.deleted == s.returned;
    }
  }

  lemma FailKeeps(s: State, a: Action)
    requires a.Fail?
    requires Inv(s) && Enabled(s, a)
    ensures Inv(Apply(s, a))
  {
    hide Writing, Scanning, Known, Loads, Shrinks, CleanScan, IsLeftOut, Clock.Valid;
  }

  // ---------------------------------------------------------------------------------------------
  // After the call
  // ---------------------------------------------------------------------------------------------

  ghost predicate CanEmit(s: State, k: nat, d: Doc) {
    k in s.scans && exists id :: id in s.scans[k].seen && d in s.scans[k].seen[id]
  }

  /** A segment that some commit left out, with the document alive in it, showed to the view. */
  ghost predicate LeftOutFor(s: State, view: View, d: Doc) {
    exists o :: o in s.leftOuts && o.segment.Visible(view) && d in o.segment.alive
  }

  /** One that has the xmax yet, shows to it. */
  ghost predicate StillLeftOutFor(s: State, view: View, d: Doc) {
    exists id :: id in s.segments && s.segments[id].Visible(view) && d in s.segments[id].alive
                 && IsLeftOut(s.leftOuts, id, s.segments[id], d)
  }

  /** Over all interleavings of any number of calls in which the merge lock is granted cleanly: a scan that
      pinned before it loaded, and holds the pin, emits nothing that a call deleted that has returned, but out
      of a segment that a commit left out and that shows to the scan's snapshot. */
  lemma PinnedScansAreSafe(actions: seq<Action>, k: nat, d: Doc)
    requires Run(actions).Some? && AllClean(actions)
    requires var s := Run(actions).value; d in s.returned && k in s.scans && s.scans[k].pinned
    ensures var s := Run(actions).value;
            && s.scans[k].v in s.clock.live
            && (!LeftOutFor(s, s.clock.live[s.scans[k].v], d) ==> !CanEmit(s, k, d))
  {
    hide Run, AllClean, Clock.Valid;
    InvHolds(actions);
  }

  /** So it emits nothing deleted if its snapshot sees finished every vacuum that left a segment out with the
      document alive in it, be it the one that deleted the document or a later one. */
  lemma FinishedVacuumIsSafe(actions: seq<Action>, k: nat, d: Doc)
    requires Run(actions).Some? && AllClean(actions)
    requires var s := Run(actions).value; d in s.returned && k in s.scans && s.scans[k].pinned
    requires var s := Run(actions).value;
             s.scans[k].v in s.clock.live && forall o :: o in s.leftOuts && d in o.segment.alive ==>
               s.clock.live[s.scans[k].v].Sees(o.segment.xmax)
    ensures !CanEmit(Run(actions).value, k, d)
  {
    hide Run, AllClean, CanEmit, Cleaning;
    InvHolds(actions);
    PinnedScansAreSafe(actions, k, d);
  }

  /** Exactly then: a scan that has pinned and not loaded yet can come to emit what a call deleted that has
      returned if and only if a segment shows to its snapshot that was left out, by that call or a later one,
      under the xmax it has now. */
  lemma PinnedScanEmitsIff(actions: seq<Action>, k: nat, d: Doc)
    requires Run(actions).Some? && AllClean(actions)
    requires var s := Run(actions).value;
             d in s.returned && k in s.scans && s.scans[k].pinned && s.scans[k].loaded == None
    ensures var s := Run(actions).value;
            && s.scans[k].v in s.clock.live
            && (StillLeftOutFor(s, s.clock.live[s.scans[k].v], d) <==>
                exists id :: Run(actions + [LoadScan(k), OpenSegment(k, id)]).Some?
                             && CanEmit(Run(actions + [LoadScan(k), OpenSegment(k, id)]).value, k, d))
  {
    hide Run, AllClean, CanEmit, IsLeftOut;
    InvHolds(actions);
    var s := Run(actions).value;
    PinnedScansAreSafe(actions, k, d);
    var view := s.clock.live[s.scans[k].v];
    if StillLeftOutFor(s, view, d) {
      var id :| id in s.segments && s.segments[id].Visible(view) && d in s.segments[id].alive;
      LoadsAndOpens(actions, k, id, d);
    }
    if id :| Run(actions + [LoadScan(k), OpenSegment(k, id)]).Some?
             && CanEmit(Run(actions + [LoadScan(k), OpenSegment(k, id)]).value, k, d) {
      OpenedIsListed(actions, k, id, d);
      VisibleIsLeftOut(s, s.scans[k].v, id, d);
    }
  }

  lemma TwoSteps(actions: seq<Action>, a: Action, b: Action)
    ensures (actions + [a, b])[..|actions| + 1] == actions + [a] && (actions + [a, b])[|actions| + 1] == b
    ensures (actions + [a])[..|actions|] == actions && (actions + [a])[|actions|] == a
  {}

  lemma LoadsAndOpens(actions: seq<Action>, k: nat, id: SegmentId, d: Doc)
    requires Run(actions).Some?
    requires var s := Run(actions).value;
             && k in s.scans && s.scans[k].loaded == None && s.scans[k].v in s.clock.live
             && id in s.segments && s.segments[id].Visible(s.clock.live[s.scans[k].v]) && d in s.segments[id].alive
    ensures Run(actions + [LoadScan(k), OpenSegment(k, id)]).Some?
    ensures CanEmit(Run(actions + [LoadScan(k), OpenSegment(k, id)]).value, k, d)
  {
    TwoSteps(actions, LoadScan(k), OpenSegment(k, id));
    var s1 := Apply(Run(actions).value, LoadScan(k));
    assert Run(actions + [LoadScan(k)]) == Some(s1);
    var s2 := Apply(s1, OpenSegment(k, id));
    assert Run(actions + [LoadScan(k), OpenSegment(k, id)]) == Some(s2);
    assert id in s2.scans[k].seen && d in s2.scans[k].seen[id];
  }

  /** A scan that had opened nothing emits out of what it opens. */
  lemma OpenedIsListed(actions: seq<Action>, k: nat, id: SegmentId, d: Doc)
    requires Run(actions).Some?
    requires var s := Run(actions).value;
             && k in s.scans && s.scans[k].loaded == None && s.scans[k].seen == map[] && s.scans[k].v in s.clock.live
    requires Run(actions + [LoadScan(k), OpenSegment(k, id)]).Some?
    requires CanEmit(Run(actions + [LoadScan(k), OpenSegment(k, id)]).value, k, d)
    ensures var s := Run(actions).value;
            id in s.segments && s.segments[id].Visible(s.clock.live[s.scans[k].v]) && d in s.segments[id].alive
  {
    TwoSteps(actions, LoadScan(k), OpenSegment(k, id));
    var s1 := Run(actions + [LoadScan(k)]).value;
    assert s1 == Apply(Run(actions).value, LoadScan(k));
    var s2 := Run(actions + [LoadScan(k), OpenSegment(k, id)]).value;
    assert s2 == Apply(s1, OpenSegment(k, id));
    assert s2.scans[k].seen.Keys == {id};
  }

  lemma VisibleIsLeftOut(s: State, v: nat, id: SegmentId, d: Doc)
    requires Inv(s) && v in s.clock.live && id in s.segments && s.segments[id].Visible(s.clock.live[v])
    requires d in s.segments[id].alive && d in Past(s)
    ensures IsLeftOut(s.leftOuts, id, s.segments[id], d)
  {
    hide Writing, Scanning, Locks, Known, Stamps, Loads, Deletes, CleanHolder, Shrinks, CleanScans, Past, IsLeftOut;
    LiveIsAbove(s.clock, v);
  }

  /** From the commit on, what was deleted is alive only in what was left out, and in what nobody sees any
      more: no merge brings it back. */
  lemma MergesKeepDeletes(actions: seq<Action>, id: SegmentId, v: nat, d: Doc)
    requires Run(actions).Some? && AllClean(actions)
    requires var s := Run(actions).value;
             && d in Past(s) && id in s.segments && !IsLeftOut(s.leftOuts, id, s.segments[id], d) && v in s.clock.live
    ensures var s := Run(actions).value;
            s.segments[id].Visible(s.clock.live[v]) ==> d !in s.segments[id].alive
  {
    hide Run, AllClean, Inv, Past, IsLeftOut;
    InvHolds(actions);
    var s := Run(actions).value;
    if s.segments[id].Visible(s.clock.live[v]) && d in s.segments[id].alive {
      VisibleIsLeftOut(s, v, id, d);
    }
  }
}
