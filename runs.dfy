/** A declarative reading of the compactor: the events split into maximal runs
    in which each event joins its predecessor (at most 10 minutes later, same
    label); the blocks are exactly those runs, each spanning from its first
    event to its last and carrying its first event's metadata. There is one
    such split, so every event belongs to exactly one block. */
module CompactorRuns {
  import opened Common
  import opened Entities
  import opened Labels
  import opened Compactor

  function Last<T>(s: seq<T>): T
    requires |s| > 0
  {
    s[|s| - 1]
  }

  function Flatten(rs: seq<seq<RawEvent>>): seq<RawEvent>
    decreases |rs|
  {
    if |rs| == 0 then [] else Flatten(rs[..|rs| - 1]) + rs[|rs| - 1]
  }

  /** Event b may extend an interval whose last event is a. */
  predicate Joins(a: RawEvent, b: RawEvent, hostOf: string -> string) {
    b.ts - a.ts <= PadUs && Label(b, hostOf) == Label(a, hostOf)
  }

  /** Inside a run, every event joins its predecessor. */
  predicate RunJoined(run: seq<RawEvent>, hostOf: string -> string) {
    forall j :: 0 < j < |run| ==> Joins(run[j - 1], run[j], hostOf)
  }

  /** Runs k - 1 and k are both non-empty and the first event of run k does
      not join the last event of run k - 1. */
  predicate SplitAt(rs: seq<seq<RawEvent>>, k: nat, hostOf: string -> string) {
    0 < k < |rs| && |rs[k - 1]| > 0 && |rs[k]| > 0 && !Joins(Last(rs[k - 1]), rs[k][0], hostOf)
  }

  /** rs splits events into non-empty runs, joined inside, unjoined across. */
  ghost predicate IsRunPartition(events: seq<RawEvent>, rs: seq<seq<RawEvent>>, hostOf: string -> string) {
    && Flatten(rs) == events
    && (forall k :: 0 <= k < |rs| ==> |rs[k]| > 0 && RunJoined(rs[k], hostOf))
    && (forall k :: 0 < k < |rs| ==> SplitAt(rs, k, hostOf))
  }

  /** The interval a run becomes. */
  function IntervalOfRun(run: seq<RawEvent>, sc: Scope, hostOf: string -> string): Interval
    requires |run| > 0
  {
    Open(run[0], Label(run[0], hostOf), sc).(end := Last(run).ts)
  }

  function IntervalsOf(rs: seq<seq<RawEvent>>, sc: Scope, hostOf: string -> string): (ivs: seq<Interval>)
    requires forall k :: 0 <= k < |rs| ==> |rs[k]| > 0
    ensures |ivs| == |rs|
    decreases |rs|
  {
    if |rs| == 0 then []
    else IntervalsOf(rs[..|rs| - 1], sc, hostOf) + [IntervalOfRun(rs[|rs| - 1], sc, hostOf)]
  }

  /** The maximal runs, built one event at a time. */
  function RunsOf(events: seq<RawEvent>, hostOf: string -> string): (rs: seq<seq<RawEvent>>)
    ensures |rs| <= |events|
    ensures |events| > 0 ==> |rs| > 0 && |rs[|rs| - 1]| > 0
    ensures forall k :: 0 <= k < |rs| ==> |rs[k]| > 0
    decreases |events|
  {
    if |events| == 0 then []
    else
      var init := events[..|events| - 1];
      var e := events[|events| - 1];
      var rs0 := RunsOf(init, hostOf);
      if |init| > 0 && Joins(Last(init), e, hostOf) then rs0[..|rs0| - 1] + [Last(rs0) + [e]]
      else rs0 + [[e]]
  }

  lemma {:induction false} FlattenLast(rs: seq<seq<RawEvent>>)
    requires |rs| > 0 && |Last(rs)| > 0
    ensures |Flatten(rs)| > 0 && Last(Flatten(rs)) == Last(Last(rs))
  {
  }

  lemma FlattenSnoc(rs: seq<seq<RawEvent>>, run: seq<RawEvent>)
    ensures Flatten(rs + [run]) == Flatten(rs) + run
  {
    assert (rs + [run])[..|rs|] == rs;
  }

  lemma RunJoinedSnoc(run: seq<RawEvent>, e: RawEvent, hostOf: string -> string)
    requires |run| > 0 && RunJoined(run, hostOf) && Joins(Last(run), e, hostOf)
    ensures RunJoined(run + [e], hostOf)
  {
    var r := run + [e];
    forall j | 0 < j < |r| ensures Joins(r[j - 1], r[j], hostOf) {
      if j < |run| {
        assert r[j - 1] == run[j - 1] && r[j] == run[j];
      }
    }
  }

  /** RunsOf really is a run partition. */
  lemma {:induction false} RunsOfPartition(events: seq<RawEvent>, hostOf: string -> string)
    ensures IsRunPartition(events, RunsOf(events, hostOf), hostOf)
    decreases |events|
  {
    if |events| > 0 {
      var init := events[..|events| - 1];
      var e := events[|events| - 1];
      var rs0 := RunsOf(init, hostOf);
      RunsOfPartition(init, hostOf);
      var rs := RunsOf(events, hostOf);
      assert events == init + [e];
      if |init| > 0 && Joins(Last(init), e, hostOf) {
        RunsOfJoin(init, e, rs0, rs, hostOf);
      } else {
        RunsOfSplit(init, e, rs0, rs, hostOf);
      }
    }
  }

  lemma RunsOfJoin(init: seq<RawEvent>, e: RawEvent, rs0: seq<seq<RawEvent>>, rs: seq<seq<RawEvent>>, hostOf: string -> string)
    requires IsRunPartition(init, rs0, hostOf) && |init| > 0 && |rs0| > 0
    requires Joins(Last(init), e, hostOf)
    requires rs == rs0[..|rs0| - 1] + [Last(rs0) + [e]]
    ensures IsRunPartition(init + [e], rs, hostOf)
  {
    var n := |rs0|;
    var L := rs0[n - 1];
    assert rs0 == rs0[..n - 1] + [L];
    FlattenSnoc(rs0[..n - 1], L);
    FlattenSnoc(rs0[..n - 1], L + [e]);
    FlattenLast(rs0);
    RunJoinedSnoc(L, e, hostOf);
    forall k | 0 <= k < |rs| ensures |rs[k]| > 0 && RunJoined(rs[k], hostOf) {
      if k < n - 1 {
        assert rs[k] == rs0[k];
      }
    }
    forall k | 0 < k < |rs| ensures SplitAt(rs, k, hostOf) {
      assert SplitAt(rs0, k, hostOf);
      assert rs[k - 1] == rs0[k - 1];
      assert rs[k][0] == rs0[k][0];
    }
  }

  lemma RunsOfSplit(init: seq<RawEvent>, e: RawEvent, rs0: seq<seq<RawEvent>>, rs: seq<seq<RawEvent>>, hostOf: string -> string)
    requires IsRunPartition(init, rs0, hostOf)
    requires |init| > 0 ==> |rs0| > 0 && !Joins(Last(init), e, hostOf)
    requires |init| == 0 ==> rs0 == []
    requires rs == rs0 + [[e]]
    ensures IsRunPartition(init + [e], rs, hostOf)
  {
    var n := |rs0|;
    FlattenSnoc(rs0, [e]);
    forall k | 0 <= k < |rs| ensures |rs[k]| > 0 && RunJoined(rs[k], hostOf) {
      if k < n {
        assert rs[k] == rs0[k];
      }
    }
    forall k | 0 < k < |rs| ensures SplitAt(rs, k, hostOf) {
      if k < n {
        assert SplitAt(rs0, k, hostOf);
        assert rs[k - 1] == rs0[k - 1] && rs[k] == rs0[k];
      } else {
        FlattenLast(rs0);
        assert rs[k - 1] == Last(rs0);
      }
    }
  }

  /** What RunFollowsRuns states about a non-empty sequence of events. */
  predicate FollowsRuns(events: seq<RawEvent>, sc: Scope, hostOf: string -> string)
    requires |events| > 0
  {
    var a := Run(events, sc, hostOf);
    var rs := RunsOf(events, hostOf);
    && a.open == Some(IntervalOfRun(Last(rs), sc, hostOf))
    && a.done == IntervalsOf(rs[..|rs| - 1], sc, hostOf)
    && a.open.value.end == Last(events).ts
    && a.open.value.title == Label(Last(events), hostOf)
  }

  /** The loop state after any non-empty prefix: the open interval is the
      last run's, the closed ones are the earlier runs'. */
  lemma {:induction false} RunFollowsRuns(events: seq<RawEvent>, sc: Scope, hostOf: string -> string)
    requires |events| > 0
    ensures var a := Run(events, sc, hostOf);
      var rs := RunsOf(events, hostOf);
      && a.open == Some(IntervalOfRun(Last(rs), sc, hostOf))
      && a.done == IntervalsOf(rs[..|rs| - 1], sc, hostOf)
      && a.open.value.end == Last(events).ts
      && a.open.value.title == Label(Last(events), hostOf)
    decreases |events|
  {
    var init := events[..|events| - 1];
    var e := events[|events| - 1];
    if |init| == 0 {
      var rs := RunsOf(events, hostOf);
      assert rs == [[e]];
      assert rs[..0] == [];
      assert Run(init, sc, hostOf) == Acc([], None);
    } else {
      RunFollowsRuns(init, sc, hostOf);
      if Joins(Last(init), e, hostOf) {
        FollowsJoin(events, sc, hostOf);
      } else {
        FollowsSplit(events, sc, hostOf);
      }
    }
  }

  /** The induction step when the last event extends the open interval. */
  lemma FollowsJoin(events: seq<RawEvent>, sc: Scope, hostOf: string -> string)
    requires |events| > 1
    requires FollowsRuns(events[..|events| - 1], sc, hostOf)
    requires Joins(Last(events[..|events| - 1]), Last(events), hostOf)
    ensures FollowsRuns(events, sc, hostOf)
  {
    var init := events[..|events| - 1];
    var e := events[|events| - 1];
    var rs := RunsOf(events, hostOf);
    var a0 := Run(init, sc, hostOf);
    var rs0 := RunsOf(init, hostOf);
    var n := |rs0|;
    var L := rs0[n - 1];
    var I := IntervalOfRun(L, sc, hostOf);
    var st := Step(a0.open, e, sc, hostOf);
    assert st == (None, I.(end := e.ts));
    assert Run(events, sc, hostOf) == Acc(a0.done + [], Some(st.1));
    assert rs == rs0[..n - 1] + [L + [e]];
    assert (L + [e])[0] == L[0];
    assert rs[..n - 1] == rs0[..n - 1];
  }

  /** The induction step when the last event opens a new interval. */
  lemma FollowsSplit(events: seq<RawEvent>, sc: Scope, hostOf: string -> string)
    requires |events| > 1
    requires FollowsRuns(events[..|events| - 1], sc, hostOf)
    requires !Joins(Last(events[..|events| - 1]), Last(events), hostOf)
    ensures FollowsRuns(events, sc, hostOf)
  {
    var init := events[..|events| - 1];
    var e := events[|events| - 1];
    var rs := RunsOf(events, hostOf);
    var a0 := Run(init, sc, hostOf);
    var rs0 := RunsOf(init, hostOf);
    var n := |rs0|;
    var L := rs0[n - 1];
    var I := IntervalOfRun(L, sc, hostOf);
    var st := Step(a0.open, e, sc, hostOf);
    assert st == (Some(I), Open(e, Label(e, hostOf), sc));
    assert Run(events, sc, hostOf) == Acc(a0.done + [I], Some(st.1));
    assert rs == rs0 + [[e]];
    assert rs[..n] == rs0;
    assert rs0[..n - 1] + [L] == rs0;
  }

  /** The compaction creates exactly the intervals of the maximal runs. */
  lemma CompactIsRuns(events: seq<RawEvent>, sc: Scope, hostOf: string -> string)
    ensures Compact(events, sc, hostOf) == IntervalsOf(RunsOf(events, hostOf), sc, hostOf)
  {
    if |events| > 0 {
      RunFollowsRuns(events, sc, hostOf);
      var rs := RunsOf(events, hostOf);
      assert rs[..|rs| - 1] + [Last(rs)] == rs;
    }
  }

  lemma {:induction false} FlattenEmpty(rs: seq<seq<RawEvent>>)
    requires forall k :: 0 <= k < |rs| ==> |rs[k]| > 0
    ensures Flatten(rs) == [] <==> rs == []
  {
    if |rs| > 0 {
      FlattenLast(rs);
    }
  }

  /** A run partition is unique: it is the one RunsOf builds. */
  lemma {:induction false} PartitionIsRunsOf(events: seq<RawEvent>, rs: seq<seq<RawEvent>>, hostOf: string -> string)
    requires IsRunPartition(events, rs, hostOf)
    ensures rs == RunsOf(events, hostOf)
    decreases |events|
  {
    FlattenEmpty(rs);
    if |events| > 0 {
      var init := events[..|events| - 1];
      var n := |rs|;
      RunsOfStep(events, hostOf);
      if |rs[n - 1]| > 1 {
        PartitionShrink(events, rs, hostOf);
        PartitionIsRunsOf(init, rs[..n - 1] + [rs[n - 1][..|rs[n - 1]| - 1]], hostOf);
      } else {
        PartitionDrop(events, rs, hostOf);
        PartitionIsRunsOf(init, rs[..n - 1], hostOf);
      }
    }
  }

  /** One step of RunsOf, unfolded. */
  lemma RunsOfStep(events: seq<RawEvent>, hostOf: string -> string)
    requires |events| > 0
    ensures var init := events[..|events| - 1];
      var rs0 := RunsOf(init, hostOf);
      RunsOf(events, hostOf) ==
        if |init| > 0 && Joins(Last(init), Last(events), hostOf) then rs0[..|rs0| - 1] + [Last(rs0) + [Last(events)]]
        else rs0 + [[Last(events)]]
  {
  }

  /** Dropping the last event from a run of two or more keeps a run partition,
      and that event joined its predecessor. */
  lemma PartitionShrink(events: seq<RawEvent>, rs: seq<seq<RawEvent>>, hostOf: string -> string)
    requires IsRunPartition(events, rs, hostOf) && |rs| > 0 && |Last(rs)| > 1
    ensures |events| > 1
    ensures IsRunPartition(events[..|events| - 1], rs[..|rs| - 1] + [Last(rs)[..|Last(rs)| - 1]], hostOf)
    ensures Joins(Last(events[..|events| - 1]), Last(events), hostOf)
    ensures var rs' := rs[..|rs| - 1] + [Last(rs)[..|Last(rs)| - 1]];
      rs == rs'[..|rs'| - 1] + [Last(rs') + [Last(events)]]
  {
    var n := |rs|;
    var R := rs[n - 1];
    var R' := R[..|R| - 1];
    var rs' := rs[..n - 1] + [R'];
    assert rs == rs[..n - 1] + [R];
    FlattenSnoc(rs[..n - 1], R);
    FlattenSnoc(rs[..n - 1], R');
    FlattenLast(rs);
    var init := events[..|events| - 1];
    var e := Last(events);
    assert R == R' + [e];
    assert Flatten(rs') == init;
    forall k | 0 <= k < |rs'| ensures |rs'[k]| > 0 && RunJoined(rs'[k], hostOf) {
      if k < n - 1 {
        assert rs'[k] == rs[k];
      } else {
        assert RunJoined(R, hostOf);
        forall j | 0 < j < |R'| ensures Joins(R'[j - 1], R'[j], hostOf) {
          assert R'[j - 1] == R[j - 1] && R'[j] == R[j];
        }
      }
    }
    forall k | 0 < k < |rs'| ensures SplitAt(rs', k, hostOf) {
      assert SplitAt(rs, k, hostOf);
      assert rs'[k - 1] == rs[k - 1];
      assert rs'[k][0] == rs[k][0];
    }
    assert Last(init) == R[|R| - 2];
    assert RunJoined(R, hostOf);
    assert Joins(R[|R| - 2], R[|R| - 1], hostOf);
    assert rs'[..|rs'| - 1] == rs[..n - 1];
  }

  /** Dropping a last run of one event keeps a run partition, and that event
      did not join its predecessor. */
  lemma PartitionDrop(events: seq<RawEvent>, rs: seq<seq<RawEvent>>, hostOf: string -> string)
    requires IsRunPartition(events, rs, hostOf) && |rs| > 0 && |Last(rs)| == 1
    ensures |events| > 0
    ensures IsRunPartition(events[..|events| - 1], rs[..|rs| - 1], hostOf)
    ensures |events| > 1 ==> !Joins(Last(events[..|events| - 1]), Last(events), hostOf)
    ensures |events| == 1 ==> |rs| == 1
    ensures rs == rs[..|rs| - 1] + [[Last(events)]]
  {
    var n := |rs|;
    var R := rs[n - 1];
    var rs' := rs[..n - 1];
    assert rs == rs' + [R];
    FlattenSnoc(rs', R);
    FlattenLast(rs);
    var init := events[..|events| - 1];
    assert R == [Last(events)];
    assert Flatten(rs') == init;
    forall k | 0 <= k < |rs'| ensures |rs'[k]| > 0 && RunJoined(rs'[k], hostOf) {
      assert rs'[k] == rs[k];
    }
    forall k | 0 < k < |rs'| ensures SplitAt(rs', k, hostOf) {
      assert SplitAt(rs, k, hostOf);
      assert rs'[k - 1] == rs[k - 1] && rs'[k] == rs[k];
    }
    FlattenEmpty(rs');
    if |init| > 0 {
      assert SplitAt(rs, n - 1, hostOf);
      FlattenLast(rs');
      assert Last(rs[n - 2]) == Last(init);
    }
  }

  /** The merge rule, declaratively: for EVERY split of the events into runs
      that are joined inside and unjoined across, the compaction creates one
      interval per run, spanning from the run's first event to its last and
      carrying the first event's label, url, path, user and host. */
  lemma CompactByRuns(events: seq<RawEvent>, sc: Scope, hostOf: string -> string, rs: seq<seq<RawEvent>>)
    requires IsRunPartition(events, rs, hostOf)
    ensures Compact(events, sc, hostOf) == IntervalsOf(rs, sc, hostOf)
  {
    PartitionIsRunsOf(events, rs, hostOf);
    CompactIsRuns(events, sc, hostOf);
  }

  /** Such a split always exists; every event lies in exactly one run. */
  lemma RunPartitionExists(events: seq<RawEvent>, hostOf: string -> string)
    ensures exists rs :: IsRunPartition(events, rs, hostOf)
  {
    RunsOfPartition(events, hostOf);
  }
}
