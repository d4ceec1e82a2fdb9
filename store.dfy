/** The server's tables as one object: `compact_rawevents_into_blocks`,
    the recompute loop of `suggestions_today` and `label_block`
    (server/tracker/views.py) as methods that update them in place, each
    proved against the value-level definitions of StoreSpec and LabelSpec. */
module Store {
  import opened Common
  import opened Entities
  import opened Labels
  import opened Compactor
  import opened Rules
  import opened StoreSpec
  import opened LabelSpec

  class TrackerStore {
    /** RawEvent, Block, Suggestion, Rule and Client/Project/Task rows. */
    var events: seq<RawEvent>
    var blocks: seq<Block>
    var suggestions: seq<Suggestion>
    var rules: seq<Rule>
    var master: seq<MasterRecord>
    /** The next primary key the Block table hands out. */
    var nextId: nat

    /** Block ids are positive, below nextId and grow with insertion order;
        every suggestion belongs to a stored block. */
    ghost predicate Valid()
      reads this
    {
      && 0 < nextId
      && (forall k :: 0 <= k < |blocks| ==> 0 < blocks[k].id < nextId)
      && IdsIncreasing(blocks)
      && OwnedRefs(suggestions, Ids(blocks))
    }

    constructor(log: seq<RawEvent>, ruleRows: seq<Rule>, masterRows: seq<MasterRecord>)
      ensures Valid()
      ensures events == log && rules == ruleRows && master == masterRows
      ensures blocks == [] && suggestions == [] && nextId == 1
    {
      events := log;
      blocks := [];
      suggestions := [];
      rules := ruleRows;
      master := masterRows;
      nextId := 1;
    }

    /** `finalize_and_create(cur)`: one new Block row; returns 1. */
    method FinalizeAndCreate(cur: Interval, org: Option<OrgId>) returns (n: nat)
      modifies this`blocks, this`nextId
      ensures blocks == old(blocks) + [Finalize(cur, old(nextId), org)]
      ensures nextId == old(nextId) + 1
      ensures n == 1
    {
      blocks := blocks + [Finalize(cur, nextId, org)];
      nextId := nextId + 1;
      n := 1;
    }

    /** One pass of the loop body of `compact_rawevents_into_blocks`: open
        an interval if none is open, then extend it with e or close it into
        a new block and open a fresh one at e. */
    method Feed(current: Option<Interval>, e: RawEvent, sc: Scope, org: Option<OrgId>, hostOf: string -> string)
      returns (next: Interval, n: nat)
      modifies this`blocks, this`nextId
      ensures var st := Step(current, e, sc, hostOf);
        && next == st.1
        && n == (if st.0.Some? then 1 else 0)
        && (st.0.None? ==> blocks == old(blocks))
        && (st.0.Some? ==> blocks == old(blocks) + [Finalize(st.0.value, old(nextId), org)])
        && nextId == old(nextId) + n
    {
      var lbl := Label(e, hostOf);
      StepOfSource(current, e, lbl, sc, hostOf);
      var cur := current;
      if cur.None? {
        cur := Some(Open(e, lbl, sc));
      }
      var gap := e.ts - cur.value.end;
      if gap <= PadUs && lbl == cur.value.title {
        next := cur.value.(end := e.ts);
        n := 0;
      } else {
        n := FinalizeAndCreate(cur.value, org);
        next := Open(e, lbl, sc);
      }
    }

    /** The `for e in events` loop of `compact_rawevents_into_blocks`: the
        blocks closed along the way are appended with consecutive new ids,
        and the interval still open is returned. */
    method MergeLoop(evs: seq<RawEvent>, sc: Scope, org: Option<OrgId>, hostOf: string -> string)
      returns (current: Option<Interval>, created: nat)
      modifies this`blocks, this`nextId
      ensures current == Run(evs, sc, hostOf).open
      ensures blocks == old(blocks) + Materialize(Run(evs, sc, hostOf).done, old(nextId), org)
      ensures created == |Run(evs, sc, hostOf).done|
      ensures nextId == old(nextId) + created
    {
      ghost var before := blocks;
      ghost var n0 := nextId;
      ghost var done: seq<Interval> := [];
      created := 0;
      current := None;
      for i := 0 to |evs|
        invariant Run(evs[..i], sc, hostOf) == Acc(done, current)
        invariant blocks == before + Materialize(done, n0, org)
        invariant created == |done|
        invariant nextId == n0 + created
      {
        RunSnoc(evs, i, sc, hostOf);
        ghost var st := Step(current, evs[i], sc, hostOf);
        ghost var prev := blocks;
        ghost var id := nextId;
        var next, n := Feed(current, evs[i], sc, org, hostOf);
        if st.0.Some? {
          AppendBlock(prev, before, done, st.0.value, n0, id, org);
          done := done + [st.0.value];
        }
        created := created + n;
        current := Some(next);
      }
      assert evs[..|evs|] == evs;
    }

    /** The loop and the final `if current: created += finalize_and_create(current)`. */
    method MergeEvents(evs: seq<RawEvent>, sc: Scope, org: Option<OrgId>, hostOf: string -> string) returns (created: nat)
      modifies this`blocks, this`nextId
      ensures blocks == old(blocks) + Materialize(Compact(evs, sc, hostOf), old(nextId), org)
      ensures created == |Compact(evs, sc, hostOf)|
      ensures nextId == old(nextId) + created
    {
      ghost var before := blocks;
      ghost var n0 := nextId;
      ghost var done := Run(evs, sc, hostOf).done;
      var current;
      current, created := MergeLoop(evs, sc, org, hostOf);
      CompactOfRun(evs, done, current, sc, hostOf);
      if current.Some? {
        ghost var prev := blocks;
        ghost var id := nextId;
        var n := FinalizeAndCreate(current.value, org);
        AppendBlock(prev, before, done, current.value, n0, id, org);
        created := created + n;
      }
    }

    /** `compact_rawevents_into_blocks(user, hostname, org)` for the day
        starting at dayStart: delete the blocks in scope (and with them their
        suggestions), then merge the day's events into new blocks. */
    method Rebuild(dayStart: Time, sc: Scope, org: Option<OrgId>, hostOf: string -> string) returns (created: nat)
      requires Valid()
      modifies this`blocks, this`suggestions, this`nextId
      ensures blocks == RebuiltBlocks(old(blocks), events, dayStart, sc, org, old(nextId), hostOf)
      ensures suggestions == OwnedBy(old(suggestions), Ids(KeptBlocks(old(blocks), dayStart, sc)))
      ensures created == |Rebuilt(events, dayStart, sc, hostOf)|
      ensures nextId == old(nextId) + created
      ensures Valid()
    {
      var evs := ScopeEvents(events, dayStart, sc);
      var kept := KeptBlocks(blocks, dayStart, sc);
      KeptValid(blocks, dayStart, sc, nextId);
      OwnedByRefs(suggestions, Ids(kept));
      suggestions := OwnedBy(suggestions, Ids(kept));
      blocks := kept;
      created := MergeEvents(evs, sc, org, hostOf);
      RebuiltValid(kept, Compact(evs, sc, hostOf), old(nextId), org);
      OwnedRefsGrow(suggestions, Ids(kept), Ids(blocks));
    }

    /** The body of the loop of `suggestions_today` for block b: delete its
        suggestions, create one row per rule hit among the first three, and
        report the block with the rows it now owns. */
    method ReplaceSuggestions(b: Block, rs: seq<Rule>, m: Matchers) returns (view: BlockView)
      requires OwnedRefs(suggestions, Ids(blocks)) && b.id in Ids(blocks)
      modifies this`suggestions
      ensures suggestions == WithoutBlock(old(suggestions), b.id) + SuggestionsFor(b, rs, m)
      ensures view == ViewOf(b, SuggestionsFor(b, rs, m), master)
      ensures OwnedRefs(suggestions, Ids(blocks))
    {
      WithoutBlockRefs(suggestions, b.id, Ids(blocks));
      suggestions := WithoutBlock(suggestions, b.id);
      ghost var cleared := suggestions;
      var hits := ApplyRules(b, rs, m);
      var top := Take(hits, SuggestionCap);
      for j := 0 to |top|
        invariant suggestions == cleared + Rows(b.id, top[..j])
        invariant OwnedRefs(suggestions, Ids(blocks))
      {
        RowsSnoc(b.id, top, j);
        suggestions := suggestions + [Suggestion(b.id, top[j].field, top[j].valueText, top[j].confidence, RuleSource)];
      }
      assert top[..|top|] == top;
      assert Rows(b.id, top) == SuggestionsFor(b, rs, m);
      ForBlockAfterReplace(old(suggestions), b.id, Rows(b.id, top));
      view := ViewOf(b, ForBlock(suggestions, b.id), master);
    }

    /** The transaction of `suggestions_today` over the blocks of the day in
        scope, in table order. */
    method RecomputeSuggestions(dayStart: Time, sc: Scope, org: Option<OrgId>, m: Matchers)
      returns (out: seq<BlockView>)
      requires Valid()
      modifies this`suggestions
      ensures suggestions == Recompute(old(suggestions), ScopedBlocks(blocks, dayStart, sc), RulesFor(rules, org), m)
      ensures out == BlockViews(ScopedBlocks(blocks, dayStart, sc), RulesFor(rules, org), m, master)
      ensures forall k :: 0 <= k < |ScopedBlocks(blocks, dayStart, sc)| ==>
        ForBlock(suggestions, ScopedBlocks(blocks, dayStart, sc)[k].id)
          == SuggestionsFor(ScopedBlocks(blocks, dayStart, sc)[k], RulesFor(rules, org), m)
      ensures Valid()
    {
      var qs := ScopedBlocks(blocks, dayStart, sc);
      var rs := RulesFor(rules, org);
      ghost var s0 := suggestions;
      out := [];
      for k := 0 to |qs|
        invariant suggestions == Recompute(s0, qs[..k], rs, m)
        invariant out == BlockViews(qs[..k], rs, m, master)
        invariant OwnedRefs(suggestions, Ids(blocks))
      {
        ScopedId(blocks, dayStart, sc, k);
        RecomputeSnoc(s0, qs, k, rs, m);
        BlockViewsSnoc(qs, k, rs, m, master);
        var view := ReplaceSuggestions(qs[k], rs, m);
        out := out + [view];
      }
      assert qs[..|qs|] == qs;
      ScopedIncreasing(blocks, dayStart, sc);
      RecomputeFacts(s0, qs, rs, m);
    }

    /** `suggestions_today`: rebuild the day's blocks, then recompute their
        suggestions; the response covers exactly the new blocks. */
    method SuggestionsToday(dayStart: Time, sc: Scope, org: Option<OrgId>, hostOf: string -> string, m: Matchers)
      returns (out: seq<BlockView>)
      requires Valid()
      modifies this`blocks, this`suggestions, this`nextId
      ensures blocks == RebuiltBlocks(old(blocks), events, dayStart, sc, org, old(nextId), hostOf)
      ensures suggestions == Recompute(OwnedBy(old(suggestions), Ids(KeptBlocks(old(blocks), dayStart, sc))),
                                       Materialize(Rebuilt(events, dayStart, sc, hostOf), old(nextId), org),
                                       RulesFor(rules, org), m)
      ensures out == BlockViews(Materialize(Rebuilt(events, dayStart, sc, hostOf), old(nextId), org),
                                RulesFor(rules, org), m, master)
      ensures Valid()
    {
      var _ := Rebuild(dayStart, sc, org, hostOf);
      RebuiltScope(old(blocks), events, dayStart, sc, org, old(nextId), hostOf);
      out := RecomputeSuggestions(dayStart, sc, org, m);
    }

    /** The `if (v := get(...))` / `if ... is not None` mutations of
        `label_block` on block b, before the save. */
    method ApplyLabels(b: Block, req: LabelRequest) returns (r: Result<Block>)
      ensures r == Relabel(b, req, master)
    {
      var nb := b;
      if Truthy(req.client) {
        var v := Lookup(master, "client", nb.org, req.client.value);
        if v.None? {
          return Err(NoSuchEntity("client"));
        }
        nb := nb.(client := v);
      }
      if Truthy(req.project) {
        var v := Lookup(master, "project", nb.org, req.project.value);
        if v.None? {
          return Err(NoSuchEntity("project"));
        }
        nb := nb.(project := v);
      }
      if Truthy(req.task) {
        var v := Lookup(master, "task", nb.org, req.task.value);
        if v.None? {
          return Err(NoSuchEntity("task"));
        }
        nb := nb.(task := v);
      }
      if req.notes.Some? {
        nb := nb.(notes := req.notes.value);
      }
      return Ok(nb);
    }

    /** `label_block`: check the id, find the block, apply the labels and
        save, then optionally check and create a rule. */
    method LabelBlock(req: LabelRequest) returns (status: Status)
      requires Valid()
      modifies this`blocks, this`rules
      ensures Effect(blocks, rules, status) == LabelEffect(old(blocks), old(rules), master, req)
      ensures Valid()
    {
      if !IdGiven(req.blockId) {
        return Failed(MissingBlockId);
      }
      var found := FindBlock(blocks, req.blockId.value);
      if found.None? {
        return Failed(BlockNotFound);
      }
      var k := found.value;
      var labelled := ApplyLabels(blocks[k], req);
      if labelled.Err? {
        return Failed(labelled.error);
      }
      var b := labelled.value;
      RelabelKeepsId(blocks[k], req, master);
      IdsUpdate(blocks, k, b);
      blocks := blocks[k := b];
      if req.createRule {
        if !(req.ruleField.Some? && req.ruleField.value in RuleFields) {
          return Failed(BadRuleField);
        }
        if !Truthy(req.ruleValue) {
          return Failed(MissingRuleValue);
        }
        var pattern := Or(req.pattern, DefaultPattern(b));
        rules := rules + [Rule(b.org, pattern, req.ruleField.value, req.ruleValue.value, Or(req.kind, DefaultKind), true)];
      }
      return Done;
    }
  }

  lemma RelabelKeepsId(b: Block, req: LabelRequest, master: seq<MasterRecord>)
    requires Relabel(b, req, master).Ok?
    ensures Relabel(b, req, master).value.id == b.id
    ensures Relabel(b, req, master).value.org == b.org
  {
  }

  lemma CompactOfRun(evs: seq<RawEvent>, done: seq<Interval>, cur: Option<Interval>, sc: Scope, hostOf: string -> string)
    requires Run(evs, sc, hostOf) == Acc(done, cur)
    ensures Compact(evs, sc, hostOf) == done + (if cur.Some? then [cur.value] else [])
  {
  }

  lemma OwnedRefsGrow(sugs: seq<Suggestion>, a: set<nat>, b: set<nat>)
    requires OwnedRefs(sugs, a) && a <= b
    ensures OwnedRefs(sugs, b)
  {
  }

  /** One more event: the loop state after evs[..i+1] is one Step from the
      state after evs[..i]. */
  lemma RunSnoc(evs: seq<RawEvent>, i: nat, sc: Scope, hostOf: string -> string)
    requires i < |evs|
    ensures var a := Run(evs[..i], sc, hostOf);
      var st := Step(a.open, evs[i], sc, hostOf);
      Run(evs[..i + 1], sc, hostOf) == Acc(a.done + (if st.0.Some? then [st.0.value] else []), Some(st.1))
  {
    assert evs[..i + 1][..i] == evs[..i];
  }

  /** The loop body as the source writes it (open when nothing is open, then
      compare) is one Step. */
  lemma StepOfSource(cur: Option<Interval>, e: RawEvent, lbl: string, sc: Scope, hostOf: string -> string)
    requires lbl == Label(e, hostOf)
    ensures var c := if cur.None? then Open(e, lbl, sc) else cur.value;
      && (e.ts - c.end <= PadUs && lbl == c.title ==> Step(cur, e, sc, hostOf) == (None, c.(end := e.ts)))
      && (!(e.ts - c.end <= PadUs && lbl == c.title) ==> Step(cur, e, sc, hostOf) == (Some(c), Open(e, lbl, sc)))
  {
  }

  lemma MaterializeSnoc(ivs: seq<Interval>, iv: Interval, n0: nat, org: Option<OrgId>)
    ensures Materialize(ivs + [iv], n0, org) == Materialize(ivs, n0, org) + [Finalize(iv, n0 + |ivs|, org)]
  {
    assert (ivs + [iv])[..|ivs|] == ivs;
  }

  /** Creating the block of one more closed interval. */
  lemma AppendBlock(prev: seq<Block>, before: seq<Block>, done: seq<Interval>, iv: Interval, n0: nat, id: nat,
                    org: Option<OrgId>)
    requires prev == before + Materialize(done, n0, org)
    requires id == n0 + |done|
    ensures prev + [Finalize(iv, id, org)] == before + Materialize(done + [iv], n0, org)
  {
    MaterializeSnoc(done, iv, n0, org);
  }

  /** What survives the delete keeps the id invariants. */
  lemma KeptValid(bs: seq<Block>, dayStart: Time, sc: Scope, nextId: nat)
    requires forall k :: 0 <= k < |bs| ==> 0 < bs[k].id < nextId
    requires IdsIncreasing(bs)
    ensures var kept := KeptBlocks(bs, dayStart, sc);
      && (forall k :: 0 <= k < |kept| ==> 0 < kept[k].id < nextId)
      && IdsIncreasing(kept)
      && Ids(kept) <= Ids(bs)
  {
    var p := (b: Block) => !BlockInScope(b, dayStart, sc);
    var kept := KeptBlocks(bs, dayStart, sc);
    FilterIncreasing(bs, p);
    FilterIds(bs, p);
    forall k | 0 <= k < |kept| ensures 0 < kept[k].id < nextId {
      FilterSubset(bs, p, k);
    }
  }

  /** New blocks appended after the kept ones keep the id invariants. */
  lemma RebuiltValid(kept: seq<Block>, ivs: seq<Interval>, n0: nat, org: Option<OrgId>)
    requires 0 < n0
    requires forall k :: 0 <= k < |kept| ==> 0 < kept[k].id < n0
    requires IdsIncreasing(kept)
    ensures var bs := kept + Materialize(ivs, n0, org);
      && (forall k :: 0 <= k < |bs| ==> 0 < bs[k].id < n0 + |ivs|)
      && IdsIncreasing(bs)
      && Ids(bs) == Ids(kept) + Ids(Materialize(ivs, n0, org))
  {
    var created := Materialize(ivs, n0, org);
    var bs := kept + created;
    MaterializeIds(ivs, n0, org);
    IdsAppend(kept, created);
    forall k | 0 <= k < |bs| ensures 0 < bs[k].id < n0 + |ivs| {
      if k >= |kept| {
        assert bs[k] == created[k - |kept|];
      }
    }
    forall i, j | 0 <= i < j < |bs| ensures bs[i].id < bs[j].id {
      if j >= |kept| {
        assert bs[j] == created[j - |kept|];
        if i >= |kept| { assert bs[i] == created[i - |kept|]; }
      }
    }
  }
}
