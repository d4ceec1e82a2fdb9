/** The compactor of server/tracker/views.py (`compact_rawevents_into_blocks`):
    time-ordered events are folded into intervals with one open interval;
    an event extends it when it comes at most 10 minutes after the interval's
    end and has the same label, otherwise the interval is closed and a new one
    opens at this event. Closed intervals become blocks whose minutes are the
    floored elapsed minutes rounded up to a multiple of 6, and at least 6.

    The fold is specified here by `Run`/`Compact`, shaped like the loop; the
    store's `Rebuild` method is proved against it. `RunsOf` and
    `IsRunPartition` give an independent, declarative reading: the blocks are
    the maximal runs of consecutive events that join each other. */
module Compactor {
  import opened Common
  import opened Entities
  import opened Labels

  const BlockPadMinutes: int := 10
  const MinBlockDuration: int := 6
  const BlockGranularity: int := 6
  const DefaultUser: string := "unknown-user"
  const DefaultHost: string := "unknown-host"

  /** The gap threshold, in microseconds. */
  const PadUs: int := BlockPadMinutes * MinuteUs

  // ---------------------------------------------------------------------------
  // Duration policy
  // ---------------------------------------------------------------------------

  /** `_round_up_minutes(n, g)`. */
  function RoundUpMinutes(n: int, g: int): int
    requires g > 0
  {
    if n % g == 0 then n else n + (g - n % g)
  }

  /** For g > 0, RoundUpMinutes(n, g) is the multiple of g in [n, n + g); so
      it is n itself when n is already a multiple. */
  lemma RoundUpFacts(n: int, g: int)
    requires g > 0
    ensures RoundUpMinutes(n, g) % g == 0
    ensures n <= RoundUpMinutes(n, g) < n + g
    ensures n % g == 0 ==> RoundUpMinutes(n, g) == n
  {
    var m := n % g;
    var q := n / g;
    assert n == g * q + m;
    assert n + (g - m) == g * (q + 1);
    MultipleModZero(g, q + 1);
  }

  /** No multiple of g that is at least n lies below RoundUpMinutes(n, g). */
  lemma RoundUpIsLeast(n: int, g: int, k: int)
    requires g > 0 && k % g == 0 && k >= n
    ensures RoundUpMinutes(n, g) <= k
  {
    var r := RoundUpMinutes(n, g);
    RoundUpFacts(n, g);
    var q := r / g - k / g;
    assert r == g * (r / g) && k == g * (k / g);
    assert r - k == g * q;
    ProductBounds(g, q);
  }

  lemma ProductBounds(g: int, q: int)
    requires g > 0
    ensures q <= 0 ==> g * q <= 0
    ensures q >= 1 ==> g * q >= g
  {
  }

  lemma MultipleModZero(g: int, q: int)
    requires g > 0
    ensures (g * q) % g == 0
  {
    var x := g * q;
    var d := q - x / g;
    assert x == g * (x / g) + x % g;
    assert x % g == g * q - g * (x / g) == g * d;
    ProductBounds(g, d);
  }

  /** `int((end - start).total_seconds() // 60)`: whole minutes, floored. */
  function ElapsedMinutes(start: Time, end: Time): int {
    (end - start) / MinuteUs
  }

  /** `max(MIN_BLOCK_DURATION, _round_up_minutes(dur, BLOCK_GRANULARITY))`:
      the least multiple of 6 that is at least 6 and at least the floored
      elapsed minutes. */
  function BlockMinutes(start: Time, end: Time): (r: int)
    ensures r >= MinBlockDuration && r % BlockGranularity == 0
    ensures r >= ElapsedMinutes(start, end)
    ensures r - BlockGranularity < MinBlockDuration || r - BlockGranularity < ElapsedMinutes(start, end)
  {
    var n := ElapsedMinutes(start, end);
    var rounded := RoundUpMinutes(n, BlockGranularity);
    RoundUpFacts(n, BlockGranularity);
    if rounded < MinBlockDuration then MinBlockDuration else rounded
  }

  /** A block that spans less than 7 whole minutes, a single-event block
      among them, gets the 6-minute floor. */
  lemma ShortBlocksGetTheFloor(start: Time, end: Time)
    requires start <= end < start + 7 * MinuteUs
    ensures BlockMinutes(start, end) == MinBlockDuration
  {
    var n := ElapsedMinutes(start, end);
    assert 0 <= n <= 6;
  }

  /** The computed block minutes never fall short of the real span by a whole minute
      or more (flooring happens before rounding up). */
  lemma MinutesCoverSpan(start: Time, end: Time)
    ensures end - start < (BlockMinutes(start, end) + 1) * MinuteUs
  {
  }

  // ---------------------------------------------------------------------------
  // The merge fold
  // ---------------------------------------------------------------------------

  /** The `user` / `hostname` arguments of the compaction: None or "" means "all". */
  datatype Scope = Scope(user: Option<string>, hostname: Option<string>)

  /** The `current` dict of the loop. */
  datatype Interval = Interval(
    start: Time,
    end: Time,
    title: string,
    url: string,
    filePath: string,
    user: string,
    hostname: string)

  /** Opening an interval at event e with label lbl (views.py:211-222). */
  function Open(e: RawEvent, lbl: string, sc: Scope): Interval {
    Interval(e.ts, e.ts, lbl, Or(e.url, ""), Or(e.filePath, ""),
             Or(sc.user, Or(e.user, DefaultUser)),
             Or(sc.hostname, Or(e.hostname, DefaultHost)))
  }

  /** One iteration of the loop: the interval it closes, if any, and the open
      interval after it. With no open interval the event opens one (the
      source then compares the event with itself, which always extends to the
      same end). */
  function Step(cur: Option<Interval>, e: RawEvent, sc: Scope, hostOf: string -> string): (Option<Interval>, Interval) {
    var lbl := Label(e, hostOf);
    if cur.None? then (None, Open(e, lbl, sc))
    else if e.ts - cur.value.end <= PadUs && lbl == cur.value.title then (None, cur.value.(end := e.ts))
    else (Some(cur.value), Open(e, lbl, sc))
  }

  /** Loop state: the intervals closed so far and the open one. */
  datatype Acc = Acc(done: seq<Interval>, open: Option<Interval>)

  /** The loop state after the events, one at a time from the front. */
  function Run(events: seq<RawEvent>, sc: Scope, hostOf: string -> string): (a: Acc)
    ensures |events| > 0 <==> a.open.Some?
    decreases |events|
  {
    if |events| == 0 then Acc([], None)
    else
      var a := Run(events[..|events| - 1], sc, hostOf);
      var (closed, next) := Step(a.open, events[|events| - 1], sc, hostOf);
      Acc(a.done + (if closed.Some? then [closed.value] else []), Some(next))
  }

  /** All intervals the compaction creates: the closed ones, then the one still open. */
  function Compact(events: seq<RawEvent>, sc: Scope, hostOf: string -> string): seq<Interval> {
    var a := Run(events, sc, hostOf);
    a.done + (if a.open.Some? then [a.open.value] else [])
  }

  // ---------------------------------------------------------------------------
  // Blocks
  // ---------------------------------------------------------------------------

  /** `finalize_and_create(cur)`: the block row made of an interval. */
  function Finalize(iv: Interval, id: nat, org: Option<OrgId>): (b: Block) {
    Block(id, org, OrStr(iv.user, DefaultUser), OrStr(iv.hostname, DefaultHost),
          iv.start, iv.end, BlockMinutes(iv.start, iv.end),
          iv.title, iv.url, iv.filePath, None, None, None, "", false)
  }

  /** The blocks made of `ivs` in order, with consecutive ids from `firstId`. */
  function Materialize(ivs: seq<Interval>, firstId: nat, org: Option<OrgId>): (bs: seq<Block>)
    ensures |bs| == |ivs|
    decreases |ivs|
  {
    if |ivs| == 0 then []
    else Materialize(ivs[..|ivs| - 1], firstId, org) + [Finalize(ivs[|ivs| - 1], firstId + |ivs| - 1, org)]
  }

  lemma {:induction false} MaterializeAt(ivs: seq<Interval>, firstId: nat, org: Option<OrgId>, k: nat)
    requires k < |ivs|
    ensures Materialize(ivs, firstId, org)[k] == Finalize(ivs[k], firstId + k, org)
    decreases |ivs|
  {
    if k < |ivs| - 1 {
      MaterializeAt(ivs[..|ivs| - 1], firstId, org, k);
    }
  }

  /** Every block created has the rounded duration of its span, so at least 6
      and a multiple of 6, carries its interval's span, title and metadata,
      and falls back to the default user and host when its interval has none. */
  lemma MaterializedBlocks(ivs: seq<Interval>, firstId: nat, org: Option<OrgId>, k: nat)
    requires k < |ivs|
    ensures var b := Materialize(ivs, firstId, org)[k];
      && b.id == firstId + k && b.org == org
      && b.start == ivs[k].start && b.end == ivs[k].end
      && b.minutes == BlockMinutes(b.start, b.end)
      && b.minutes >= MinBlockDuration && b.minutes % BlockGranularity == 0
      && b.user == OrStr(ivs[k].user, DefaultUser) && b.hostname == OrStr(ivs[k].hostname, DefaultHost)
      && b.title == ivs[k].title && b.url == ivs[k].url && b.filePath == ivs[k].filePath
      && b.client.None? && b.project.None? && b.task.None? && b.notes == "" && !b.locked
  {
    MaterializeAt(ivs, firstId, org, k);
  }

  /** Block contents do not depend on the ids they receive. */
  lemma {:induction false} MaterializeIgnoresIds(ivs: seq<Interval>, id1: nat, id2: nat, org: Option<OrgId>, k: nat)
    requires k < |ivs|
    ensures Materialize(ivs, id1, org)[k].(id := 0) == Materialize(ivs, id2, org)[k].(id := 0)
  {
    MaterializeAt(ivs, id1, org, k);
    MaterializeAt(ivs, id2, org, k);
  }

  // ---------------------------------------------------------------------------
  // Shape of the output
  // ---------------------------------------------------------------------------

  predicate SortedByTs(events: seq<RawEvent>) {
    forall i, j :: 0 <= i < j < |events| ==> events[i].ts <= events[j].ts
  }

  /** Each interval has start <= end, and every interval ends no later than any
      later interval starts (they can touch only when timestamps tie): so the
      intervals are in start order and do not overlap. */
  predicate WellShaped(ivs: seq<Interval>) {
    && (forall k :: 0 <= k < |ivs| ==> ivs[k].start <= ivs[k].end)
    && (forall k, l :: 0 <= k < l < |ivs| ==> ivs[k].end <= ivs[l].start)
  }

  lemma {:induction false} RunShape(events: seq<RawEvent>, sc: Scope, hostOf: string -> string)
    requires SortedByTs(events)
    ensures var a := Run(events, sc, hostOf);
      && WellShaped(a.done)
      && (|events| > 0 ==> a.open.value.start <= a.open.value.end == events[|events| - 1].ts)
      && (|events| > 0 ==> forall k :: 0 <= k < |a.done| ==> a.done[k].end <= a.open.value.start)
    decreases |events|
  {
    if |events| > 0 {
      var init := events[..|events| - 1];
      var e := events[|events| - 1];
      assert SortedByTs(init);
      RunShape(init, sc, hostOf);
      if |init| > 0 {
        assert init[|init| - 1].ts <= e.ts;
      }
    }
  }

  /** Given events in timestamp order, the blocks are well shaped. */
  lemma CompactShape(events: seq<RawEvent>, sc: Scope, hostOf: string -> string)
    requires SortedByTs(events)
    ensures WellShaped(Compact(events, sc, hostOf))
  {
    RunShape(events, sc, hostOf);
  }

  /** No events, no blocks; never more blocks than events. */
  lemma {:induction false} CompactSize(events: seq<RawEvent>, sc: Scope, hostOf: string -> string)
    ensures |Compact(events, sc, hostOf)| <= |events|
    ensures events == [] <==> Compact(events, sc, hostOf) == []
  {
    RunSize(events, sc, hostOf);
  }

  lemma {:induction false} RunSize(events: seq<RawEvent>, sc: Scope, hostOf: string -> string)
    ensures |events| > 0 ==> |Run(events, sc, hostOf).done| < |events|
    decreases |events|
  {
    if |events| > 0 {
      RunSize(events[..|events| - 1], sc, hostOf);
    }
  }

  /** What a scoped compaction promises about each interval: it starts at or
      after the earliest allowed time, and its user and hostname are the
      scope's when given, else the event's, else the defaults. */
  ghost predicate InScopeInterval(iv: Interval, lower: Time, sc: Scope) {
    && iv.start >= lower
    && iv.user != "" && iv.hostname != ""
    && (Truthy(sc.user) ==> iv.user == sc.user.value)
    && (Truthy(sc.hostname) ==> iv.hostname == sc.hostname.value)
  }

  lemma {:induction false} RunInScope(events: seq<RawEvent>, lower: Time, sc: Scope, hostOf: string -> string)
    requires forall i :: 0 <= i < |events| ==> events[i].ts >= lower
    ensures var a := Run(events, sc, hostOf);
      && (forall k :: 0 <= k < |a.done| ==> InScopeInterval(a.done[k], lower, sc))
      && (a.open.Some? ==> InScopeInterval(a.open.value, lower, sc))
    decreases |events|
  {
    if |events| > 0 {
      RunInScope(events[..|events| - 1], lower, sc, hostOf);
    }
  }

  lemma CompactInScope(events: seq<RawEvent>, lower: Time, sc: Scope, hostOf: string -> string)
    requires forall i :: 0 <= i < |events| ==> events[i].ts >= lower
    ensures forall k :: 0 <= k < |Compact(events, sc, hostOf)| ==> InScopeInterval(Compact(events, sc, hostOf)[k], lower, sc)
  {
    RunInScope(events, lower, sc, hostOf);
  }
}
