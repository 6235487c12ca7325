/**
 The merge lock and the deletes: granting the lock is safe exactly when the writer has nothing deleted.
 */
module CleanupGrants {
  import opened Wrappers
  import opened Block
  import opened Transactions
  import opened CleanupLock

  /** A pinned scan emits what a call deleted that has returned, and no segment that was left out accounts
      for it. */
  ghost predicate LeaksTo(s: State, k: nat, d: Doc) {
    && d in s.returned && k in s.scans && s.scans[k].pinned && s.scans[k].v in s.clock.live
    && CanEmit(s, k, d) && !LeftOutFor(s, s.clock.live[s.scans[k].v], d)
  }

  ghost predicate Leaks(actions: seq<Action>) {
    Run(actions).Some? && exists k, d :: LeaksTo(Run(actions).value, k, d)
  }

  ghost predicate NoGrants(more: seq<Action>) {
    forall a :: a in more ==> !a.AcquireForMerge?
  }

  /**
   Exactly then: granting the merge lock can let no pinned scan emit what was deleted, whatever happens after
   it but further grants, if and only if the writer that gets it has nothing alive, in the segments of the
   list, of what is deleted for good.
   */
  lemma GrantIsSafeIff(actions: seq<Action>, grant: Action)
    requires Run(actions).Some? && AllClean(actions)
    requires grant.AcquireForMerge? && Enabled(Run(actions).value, grant)
    ensures CleanStep(Run(actions).value, grant) <==>
            forall more :: NoGrants(more) ==> !Leaks(actions + [grant] + more)
  {
    hide Run, AllClean, CleanStep, Enabled, Leaks, NoGrants;
    if CleanStep(Run(actions).value, grant) {
      forall more | NoGrants(more) ensures !Leaks(actions + [grant] + more) {
        StaysClean(actions, grant, more);
        CleanRunsDoNotLeak(actions + [grant] + more);
      }
    } else {
      var more := UncleanGrantLeaks(actions, grant);
    }
  }

  lemma CleanRunsDoNotLeak(actions: seq<Action>)
    requires AllClean(actions)
    ensures !Leaks(actions)
  {
    hide Run, AllClean, CanEmit, LeftOutFor;
    if k, d :| Run(actions).Some? && LeaksTo(Run(actions).value, k, d) {
      PinnedScansAreSafe(actions, k, d);
    }
  }

  lemma {:induction false} StaysClean(actions: seq<Action>, grant: Action, more: seq<Action>)
    requires Run(actions).Some? && AllClean(actions) && CleanStep(Run(actions).value, grant) && NoGrants(more)
    ensures AllClean(actions + [grant] + more)
  {
    hide Run, Enabled, CleanFor;
    var all := actions + [grant] + more;
    if more == [] {
      assert all == actions + [grant] && all[..|all| - 1] == actions;
    } else {
      var front := more[..|more| - 1];
      assert all[..|all| - 1] == actions + [grant] + front && all[|all| - 1] == more[|more| - 1];
      StaysClean(actions, grant, front);
    }
  }

  // ---------------------------------------------------------------------------------------------
  // An unclean grant leaks
  // ---------------------------------------------------------------------------------------------

  lemma Append(actions: seq<Action>, more: seq<Action>, a: Action) returns (longer: seq<Action>, t: State)
    requires Run(actions + more).Some? && Enabled(Run(actions + more).value, a) && NoGrants(more) && !a.AcquireForMerge?
    ensures longer == more + [a] && NoGrants(longer)
    ensures Run(actions + longer) == Some(t) && t == Apply(Run(actions + more).value, a)
  {
    hide Enabled, Apply;
    longer := more + [a];
    var all := actions + longer;
    assert all[..|all| - 1] == actions + more && all[|all| - 1] == a;
    t := Apply(Run(actions + more).value, a);
  }

  lemma {:induction false} FreshNat(s: set<nat>) returns (n: nat)
    ensures forall m :: m in s ==> m < n
  {
    if s == {} {
      n := 0;
    } else {
      var m :| m in s;
      var n0 := FreshNat(s - {m});
      n := if n0 <= m then m + 1 else n0;
      forall k | k in s ensures k < n {
        assert k == m || k in s - {m};
      }
    }
  }

  /** The document is deleted, and alive in a segment that was not left out and that stays. */
  ghost predicate Tainted(s: State, id: SegmentId, d: Doc) {
    && s.clock.Valid() && (s.phase.Idle? || s.phase.Dropped?) && d in Past(s)
    && id in s.segments && d in s.segments[id].alive
    && s.segments[id].xmax == INVALID_XID && s.segments[id].xmin < s.clock.nextXid
    && (forall o :: o in s.leftOuts ==> INVALID_XID != o.segment.xmax < s.clock.nextXid)
  }

  lemma UncleanGrantLeaks(actions: seq<Action>, grant: Action) returns (more: seq<Action>)
    requires Run(actions).Some? && AllClean(actions)
    requires grant.AcquireForMerge? && Enabled(Run(actions).value, grant) && !CleanStep(Run(actions).value, grant)
    ensures NoGrants(more) && Leaks(actions + [grant] + more)
  {
    hide Run, AllClean, CleanStep, Enabled, Leaks, Tainted, Apply, CanEmit, LeaksTo;
    var granted := actions + [grant];
    var s, id, d;
    more, s, id, d := MergesDeleted(actions, grant);
    more, s := ScansClose(granted, more, id, d);
    more, s := CallReturns(granted, more, id, d);
    more, s := AllFinish(granted, more, id, d);
    more := ScanEmits(granted, more, id, d);
  }

  lemma MergesDeleted(actions: seq<Action>, grant: Action)
    returns (more: seq<Action>, s: State, id: SegmentId, d: Doc)
    requires Run(actions).Some? && AllClean(actions)
    requires grant.AcquireForMerge? && Enabled(Run(actions).value, grant) && !CleanStep(Run(actions).value, grant)
    ensures NoGrants(more) && Run(actions + [grant] + more) == Some(s) && Tainted(s, id, d)
  {
    hide Run, AllClean, Inv;
    InvHolds(actions);
    var s0 := Run(actions).value;
    var s1 := Apply(s0, grant);
    assert Run(actions + [grant]) == Some(s1) by { RunOneMore(actions, grant); }
    var i :| i in s0.writers[grant.w].loaded && i in s0.segments && !(s0.writers[grant.w].loaded[i] !! Past(s0));
    d :| d in s0.writers[grant.w].loaded[i] && d in Past(s0);
    id := FreshNat(s0.ids);
    assert actions + [grant] + [] == actions + [grant];
    more, s := Append(actions + [grant], [], Merge(grant.w, {i}, id));
    MergeTaints(s0, grant, i, id, d);
  }

  lemma RunOneMore(actions: seq<Action>, a: Action)
    requires Run(actions).Some? && Enabled(Run(actions).value, a)
    ensures Run(actions + [a]) == Some(Apply(Run(actions).value, a))
  {
    hide Enabled, Apply;
    assert (actions + [a])[..|actions + [a]| - 1] == actions;
  }

  lemma MergeTaints(s: State, grant: Action, i: SegmentId, id: SegmentId, d: Doc)
    requires Inv(s) && grant.AcquireForMerge? && Enabled(s, grant) && id !in s.ids
    requires i in s.writers[grant.w].loaded && i in s.segments
    requires d in s.writers[grant.w].loaded[i] && d in Past(s)
    requires Enabled(Apply(s, grant), Merge(grant.w, {i}, id))
    ensures Tainted(Apply(Apply(s, grant), Merge(grant.w, {i}, id)), id, d)
  {
    hide Scanning, Loads, Known, Shrinks, Deletes, Clean, CleanHolder, CleanScans, Clock.Valid;
    RunningIsClocked(s.clock, s.writers[grant.w].x);
    assert d in AliveIn(s.writers[grant.w].loaded, {i});
  }

  lemma {:induction false} ScansClose(actions: seq<Action>, before: seq<Action>, id: SegmentId, d: Doc)
    returns (more: seq<Action>, s: State)
    requires NoGrants(before) && Run(actions + before).Some? && Tainted(Run(actions + before).value, id, d)
    ensures NoGrants(more) && Run(actions + more) == Some(s) && Tainted(s, id, d) && s.scans == map[]
    decreases |Run(actions + before).value.scans|
  {
    hide Run, NoGrants, Clock.Valid;
    s := Run(actions + before).value;
    more := before;
    if s.scans != map[] {
      var k :| k in s.scans;
      more, s := Append(actions, before, CloseScan(k));
      assert |s.scans| < |Run(actions + before).value.scans| by {
        assert s.scans.Keys == Run(actions + before).value.scans.Keys - {k};
      }
      more, s := ScansClose(actions, more, id, d);
    }
  }

  lemma CallReturns(actions: seq<Action>, before: seq<Action>, id: SegmentId, d: Doc)
    returns (more: seq<Action>, s: State)
    requires NoGrants(before) && Run(actions + before).Some? && Tainted(Run(actions + before).value, id, d)
    requires Run(actions + before).value.scans == map[]
    ensures NoGrants(more) && Run(actions + more) == Some(s) && Tainted(s, id, d) && s.phase.Idle?
  {
    hide Run, NoGrants, Clock.Valid;
    s := Run(actions + before).value;
    more := before;
    if s.phase.Dropped? {
      more, s := Append(actions, before, Return);
    }
  }

  lemma {:induction false} AllFinish(actions: seq<Action>, before: seq<Action>, id: SegmentId, d: Doc)
    returns (more: seq<Action>, s: State)
    requires NoGrants(before) && Run(actions + before).Some? && Tainted(Run(actions + before).value, id, d)
    requires Run(actions + before).value.phase.Idle?
    ensures NoGrants(more) && Run(actions + more) == Some(s) && Tainted(s, id, d) && s.phase.Idle?
    ensures s.clock.active == {}
    decreases |Run(actions + before).value.clock.active|
  {
    hide Run, NoGrants, Clock.Valid;
    s := Run(actions + before).value;
    more := before;
    if s.clock.active != {} {
      var x :| x in s.clock.active;
      FinishKeepsClock(s.clock, x);
      more, s := Append(actions, before, Finish(x));
      more, s := AllFinish(actions, more, id, d);
    }
  }

  /** A snapshot that sees everything, and a scan under it that pins before it loads. */
  lemma ScanEmits(actions: seq<Action>, before: seq<Action>, id: SegmentId, d: Doc) returns (more: seq<Action>)
    requires NoGrants(before) && Run(actions + before).Some? && Tainted(Run(actions + before).value, id, d)
    requires var s := Run(actions + before).value; s.phase.Idle? && s.clock.active == {}
    ensures NoGrants(more) && Leaks(actions + more)
  {
    hide Run, NoGrants, Clock.Valid;
    var s0 := Run(actions + before).value;
    var v := FreshNat(s0.clock.live.Keys);
    var k := FreshNat(s0.scans.Keys);
    var s;
    more, s := Append(actions, before, TakeSnapshot(v, s0.clock.nextXid, None));
    more, s := Append(actions, more, OpenScan(k, true, v));
    more, s := Append(actions, more, LoadScan(k));
    more, s := Append(actions, more, OpenSegment(k, id));
    assert id in s.scans[k].seen && d in s.scans[k].seen[id];
    assert LeaksTo(s, k, d);
  }
}
