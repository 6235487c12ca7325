/**
 Running transactions and the snapshots in use, as far as visibility depends on them.
 */
module Transactions {
  import opened Wrappers
  import opened Block

  /** `oldest` bounds from below all that was ever taken for removable. */
  datatype Clock = Clock(nextXid: Xid, active: set<Xid>, live: map<nat, View>, oldest: Xid) {
    /** A snapshot regards the transactions still running as running, all but its own. */
    ghost predicate Valid() {
      && FIRST_NORMAL_XID <= oldest <= nextXid
      && (forall x :: x in active ==> oldest <= x < nextXid)
      && (forall v :: v in live ==>
            && oldest <= live[v].snap.xmin <= live[v].snap.xmax <= nextXid
            && (live[v].current.Some? ==> live[v].current.value in active)
            && RegardsAsRunning(live[v], active))
    }

    /** Reading views that have no transaction id yet get one: they are of one transaction. */
    ghost predicate CanAssign(views: set<nat>) {
      forall v :: v in views ==> v in live && live[v].current.None?
    }

    ghost function Assign(views: set<nat>): Clock {
      Clock(nextXid + 1, active + {nextXid},
            map v | v in live :: if v in views then live[v].(current := Some(nextXid)) else live[v], oldest)
    }

    /** `xmin` is the oldest transaction running. */
    ghost predicate CanTakeSnapshot(v: nat, xmin: Xid, current: Option<Xid>) {
      && v !in live && (current.Some? ==> current.value in active)
      && (xmin in active || xmin == nextXid) && (forall x :: x in active ==> xmin <= x)
    }

    ghost function TakeSnapshot(v: nat, xmin: Xid, current: Option<Xid>): Clock {
      var others := if current.Some? then active - {current.value} else active;
      this.(live := live[v := View(Snapshot(xmin, nextXid, others), current)])
    }

    ghost function Release(v: nat): Clock {
      this.(live := live - {v})
    }

    /** Commit or abort: visibility does not tell them apart. */
    ghost function Finish(x: Xid): Clock {
      this.(active := active - {x}, live := map v | v in live && live[v].current != Some(x) :: live[v])
    }

    /** No id from `horizon` on is removable: someone in use may still care. */
    ghost predicate MayRemoveBelow(horizon: Xid) {
      && horizon <= nextXid
      && (forall x :: x in active ==> horizon <= x)
      && (forall v :: v in live ==> horizon <= live[v].snap.xmin)
    }

    ghost function RemoveBelow(horizon: Xid): Clock {
      if oldest < horizon then this.(oldest := horizon) else this
    }
  }

  const START := Clock(FIRST_NORMAL_XID, {}, map[], FIRST_NORMAL_XID)

  /** What `s2` regards as running, `s1` does. */
  predicate NotOlder(s2: Snapshot, s1: Snapshot) {
    s1.xmin <= s2.xmin && s1.xmax <= s2.xmax && forall a :: a in s2.xip && s1.xmin <= a < s1.xmax ==> a in s1.xip
  }

  /** What a transaction takes later is not older than what it, or one that had no id, took before. */
  lemma LaterIsNotOlder(c: Clock, earlier: nat, v: nat, xmin: Xid, current: Option<Xid>)
    requires c.Valid() && c.CanTakeSnapshot(v, xmin, current)
    requires earlier in c.live && (c.live[earlier].current == current || c.live[earlier].current == None)
    ensures NotOlder(c.TakeSnapshot(v, xmin, current).live[v].snap, c.live[earlier].snap)
  {
    var s1, s2 := c.live[earlier].snap, c.TakeSnapshot(v, xmin, current).live[v].snap;
    assert s2.xip <= c.active;
    forall a | a in s2.xip && s1.xmin <= a < s1.xmax
      ensures a in s1.xip
    {
      assert XidInMVCCSnapshot(a, s1);
    }
  }

  ghost predicate RegardsAsRunning(view: View, active: set<Xid>) {
    forall x :: x in active ==> view.snap.xmin <= x && (view.IsCurrent(x) || XidInMVCCSnapshot(x, view.snap))
  }

  lemma AssignKeepsClock(c: Clock, views: set<nat>)
    requires c.Valid() && c.CanAssign(views)
    ensures c.Assign(views).Valid()
    ensures forall v: nat, y: Xid :: v in c.live && y < c.nextXid ==>
      c.Assign(views).live[v].Sees(y) == c.live[v].Sees(y)
  {}

  lemma TakeSnapshotKeepsClock(c: Clock, v: nat, xmin: Xid, current: Option<Xid>)
    requires c.Valid() && c.CanTakeSnapshot(v, xmin, current)
    ensures c.TakeSnapshot(v, xmin, current).Valid()
    ensures forall y: Xid :: y < c.nextXid && y !in c.active ==>
      !XidInMVCCSnapshot(y, c.TakeSnapshot(v, xmin, current).live[v].snap)
  {}

  lemma ReleaseKeepsClock(c: Clock, v: nat)
    requires c.Valid()
    ensures c.Release(v).Valid()
  {}

  lemma FinishKeepsClock(c: Clock, x: Xid)
    requires c.Valid()
    ensures c.Finish(x).Valid()
  {}

  lemma RemoveBelowKeepsClock(c: Clock, horizon: Xid)
    requires c.Valid() && c.MayRemoveBelow(horizon)
    ensures c.RemoveBelow(horizon).Valid() && horizon <= c.RemoveBelow(horizon).oldest
  {}

  /** What a view in use does not see cannot be removed, nor can its own transaction's. */
  lemma UnseenIsKept(c: Clock, v: nat, x: Xid)
    requires c.Valid() && v in c.live && (!c.live[v].Sees(x) || x in c.active)
    ensures c.oldest <= c.live[v].snap.xmin <= x
  {}

  lemma RunningIsUnseen(c: Clock, v: nat)
    requires c.Valid() && v in c.live
    ensures forall x :: x in c.active && !c.live[v].IsCurrent(x) ==> !c.live[v].Sees(x)
  {}

  lemma RunningIsClocked(c: Clock, x: Xid)
    requires c.Valid() && x in c.active
    ensures FIRST_NORMAL_XID <= x < c.nextXid
  {}

  lemma LiveIsAbove(c: Clock, v: nat)
    requires c.Valid() && v in c.live
    ensures c.live[v].AtOrAbove(c.oldest)
  {}

  lemma RunningIsYounger(c: Clock, x: Xid)
    requires c.Valid() && x in c.active
    ensures forall v :: v in c.live ==> c.live[v].snap.xmin <= x
  {}
}
