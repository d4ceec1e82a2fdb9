/** The effect of `label_block` (server/tracker/views.py) on the block and
    rule tables, stated on values: the id check, the lookup of the block,
    the client/project/task lookups, the save, and then the optional rule
    creation with its own checks and defaults. */
module LabelSpec {
  import opened Common
  import opened Entities

  /** `[:200]` on the default pattern. */
  const PatternLimit: nat := 200
  const DefaultKind: string := "contains"
  const RuleFields: set<string> := {"client", "project", "task"}

  /** The JSON body of the request; an absent key is None. */
  datatype LabelRequest = LabelRequest(
    blockId: Option<int>,
    client: Option<string>,
    project: Option<string>,
    task: Option<string>,
    notes: Option<string>,
    createRule: bool,
    ruleField: Option<string>,
    ruleValue: Option<string>,
    pattern: Option<string>,
    kind: Option<string>)

  datatype LabelError =
    | MissingBlockId          // ValidationError on "block_id"
    | BlockNotFound           // NotFound
    | NoSuchEntity(kind: string)  // a Client/Project/Task `.get` that finds no row or several
    | BadRuleField            // ValidationError on "create_rule_field"
    | MissingRuleValue        // ValidationError on "create_rule_value"

  datatype Status = Done | Failed(error: LabelError)

  /** The tables after the request, and its answer. */
  datatype Effect = Effect(blocks: seq<Block>, rules: seq<Rule>, status: Status)

  datatype Result<T> = Ok(value: T) | Err(error: LabelError)

  /** `if not block_id`: None and 0 are both refused. */
  predicate IdGiven(id: Option<int>) {
    id.Some? && id.value != 0
  }

  /** The position of the block with this primary key, if any. */
  function FindBlock(bs: seq<Block>, id: int): (r: Option<nat>)
    ensures r.Some? ==> r.value < |bs| && bs[r.value].id == id
    ensures r.None? <==> forall k :: 0 <= k < |bs| ==> bs[k].id != id
    decreases |bs|
  {
    if |bs| == 0 then None
    else if bs[0].id == id then Some(0)
    else match FindBlock(bs[1..], id)
      case None => None
      case Some(k) => Some(k + 1)
  }

  /** With distinct ids, the block found is the one carrying the id. */
  lemma FindBlockExact(bs: seq<Block>, k: nat)
    requires k < |bs|
    requires forall i, j :: 0 <= i < j < |bs| ==> bs[i].id != bs[j].id
    ensures FindBlock(bs, bs[k].id) == Some(k)
  {
    var r := FindBlock(bs, bs[k].id);
    assert r.Some?;
    assert bs[r.value].id == bs[k].id;
  }

  /** The master rows `Model.objects.get(org=org, name=name)` looks at. */
  function Matching(master: seq<MasterRecord>, kind: string, org: Option<OrgId>, name: string): seq<MasterRecord> {
    Filter(master, (x: MasterRecord) => x.kind == kind && x.org == org && x.name == name)
  }

  /** `.get` succeeds only when exactly one row matches. */
  function Lookup(master: seq<MasterRecord>, kind: string, org: Option<OrgId>, name: string): Option<EntityId> {
    var ms := Matching(master, kind, org, name);
    if |ms| == 1 then Some(ms[0].id) else None
  }

  /** A lookup returns the id of a row of that kind, org and name, and it
      fails when no such row exists. */
  lemma LookupFacts(master: seq<MasterRecord>, kind: string, org: Option<OrgId>, name: string)
    ensures Lookup(master, kind, org, name).Some? ==>
      exists x :: x in master && x.kind == kind && x.org == org && x.name == name
                  && x.id == Lookup(master, kind, org, name).value
    ensures (forall x :: x in master ==> !(x.kind == kind && x.org == org && x.name == name)) ==>
      Lookup(master, kind, org, name).None?
  {
    var p := (x: MasterRecord) => x.kind == kind && x.org == org && x.name == name;
    var ms := Matching(master, kind, org, name);
    if |ms| == 1 {
      FilterMembers(master, p, ms[0]);
    }
    if |ms| > 0 {
      FilterMembers(master, p, ms[0]);
    }
  }

  /** `.get` finds a row that is the only one of that kind, org and name. */
  lemma {:induction false} LookupUnique(master: seq<MasterRecord>, kind: string, org: Option<OrgId>, name: string, i: nat)
    requires i < |master|
    requires master[i].kind == kind && master[i].org == org && master[i].name == name
    requires forall j :: 0 <= j < |master| && j != i ==>
      !(master[j].kind == kind && master[j].org == org && master[j].name == name)
    ensures Lookup(master, kind, org, name) == Some(master[i].id)
  {
    var p := (x: MasterRecord) => x.kind == kind && x.org == org && x.name == name;
    var pre, mid, post := master[..i], [master[i]], master[i + 1..];
    assert master == pre + mid + post;
    FilterAppend(pre + mid, post, p);
    FilterAppend(pre, mid, p);
    forall j | 0 <= j < |pre| ensures !p(pre[j]) {
      assert pre[j] == master[j];
    }
    forall j | 0 <= j < |post| ensures !p(post[j]) {
      assert post[j] == master[i + 1 + j];
    }
    FilterNone(pre, p);
    FilterNone(post, p);
    assert Filter(mid, p) == [master[i]] by {
      assert mid[..0] == [];
    }
  }

  /** `.get` fails (`MultipleObjectsReturned`) when two rows match. */
  lemma LookupAmbiguous(master: seq<MasterRecord>, kind: string, org: Option<OrgId>, name: string, i: nat, j: nat)
    requires i < j < |master|
    requires master[i].kind == kind && master[i].org == org && master[i].name == name
    requires master[j].kind == kind && master[j].org == org && master[j].name == name
    ensures Lookup(master, kind, org, name).None?
  {
    var p := (x: MasterRecord) => x.kind == kind && x.org == org && x.name == name;
    var pre, post := master[..j], master[j..];
    assert master == pre + post;
    FilterAppend(pre, post, p);
    assert pre[i] == master[i];
    assert post[0] == master[j];
    FilterMembers(pre, p, master[i]);
    FilterMembers(post, p, master[j]);
  }

  /** `if (v := get(kind)): b.kind = Model.objects.get(...)`: None means the
      lookup raised, Some(x) is the new value of the field. */
  function Assign(cur: Option<EntityId>, v: Option<string>, master: seq<MasterRecord>, kind: string,
                  org: Option<OrgId>): Option<Option<EntityId>> {
    if !Truthy(v) then Some(cur)
    else match Lookup(master, kind, org, v.value)
      case None => None
      case Some(id) => Some(Some(id))
  }

  /** The mutations of the block before `b.save()`. */
  function Relabel(b: Block, req: LabelRequest, master: seq<MasterRecord>): Result<Block> {
    match Assign(b.client, req.client, master, "client", b.org)
    case None => Err(NoSuchEntity("client"))
    case Some(c) =>
      match Assign(b.project, req.project, master, "project", b.org)
      case None => Err(NoSuchEntity("project"))
      case Some(p) =>
        match Assign(b.task, req.task, master, "task", b.org)
        case None => Err(NoSuchEntity("task"))
        case Some(t) =>
          Ok(b.(client := c, project := p, task := t,
                notes := if req.notes.Some? then req.notes.value else b.notes))
  }

  /** `(b.url or b.file_path or (b.title or ""))[:200]`. */
  function DefaultPattern(b: Block): string {
    Take(OrStr(b.url, OrStr(b.filePath, b.title)), PatternLimit)
  }

  /** The rule checks and the created rule, on the saved block. */
  function RuleFrom(b: Block, req: LabelRequest): Result<Rule> {
    if !(req.ruleField.Some? && req.ruleField.value in RuleFields) then Err(BadRuleField)
    else if !Truthy(req.ruleValue) then Err(MissingRuleValue)
    else Ok(Rule(b.org, Or(req.pattern, DefaultPattern(b)), req.ruleField.value, req.ruleValue.value,
                 Or(req.kind, DefaultKind), true))
  }

  /** The whole request. Nothing runs in a transaction, so a rule error comes
      after the block has been saved. */
  function LabelEffect(bs: seq<Block>, rules: seq<Rule>, master: seq<MasterRecord>, req: LabelRequest): Effect {
    if !IdGiven(req.blockId) then Effect(bs, rules, Failed(MissingBlockId))
    else match FindBlock(bs, req.blockId.value)
      case None => Effect(bs, rules, Failed(BlockNotFound))
      case Some(k) =>
        match Relabel(bs[k], req, master)
        case Err(e) => Effect(bs, rules, Failed(e))
        case Ok(b) =>
          var saved := bs[k := b];
          if !req.createRule then Effect(saved, rules, Done)
          else match RuleFrom(b, req)
            case Err(e) => Effect(saved, rules, Failed(e))
            case Ok(r) => Effect(saved, rules + [r], Done)
  }

  /** A missing, null or zero block id is refused before anything else and
      changes nothing. */
  lemma LabelNeedsBlockId(bs: seq<Block>, rules: seq<Rule>, master: seq<MasterRecord>, req: LabelRequest)
    ensures LabelEffect(bs, rules, master, req).status == Failed(MissingBlockId)
        <==> !IdGiven(req.blockId)
    ensures !IdGiven(req.blockId) ==> LabelEffect(bs, rules, master, req) == Effect(bs, rules, Failed(MissingBlockId))
  {
  }

  /** An id no block carries gives NotFound and changes nothing. */
  lemma LabelUnknownBlock(bs: seq<Block>, rules: seq<Rule>, master: seq<MasterRecord>, req: LabelRequest)
    requires IdGiven(req.blockId)
    ensures (forall k :: 0 <= k < |bs| ==> bs[k].id != req.blockId.value) <==>
      LabelEffect(bs, rules, master, req) == Effect(bs, rules, Failed(BlockNotFound))
  {
  }

  /** A truthy client/project/task names exactly one row of the block's org,
      or the request fails and nothing is saved; the first failing lookup, in
      the order client, project, task, is the one reported. */
  lemma LabelLookupFails(bs: seq<Block>, rules: seq<Rule>, master: seq<MasterRecord>, req: LabelRequest, k: nat)
    requires IdGiven(req.blockId) && FindBlock(bs, req.blockId.value) == Some(k)
    requires || (Truthy(req.client) && Lookup(master, "client", bs[k].org, req.client.value).None?)
             || (Truthy(req.project) && Lookup(master, "project", bs[k].org, req.project.value).None?)
             || (Truthy(req.task) && Lookup(master, "task", bs[k].org, req.task.value).None?)
    ensures LabelEffect(bs, rules, master, req).blocks == bs
    ensures LabelEffect(bs, rules, master, req).rules == rules
    ensures LabelEffect(bs, rules, master, req).status.Failed?
    ensures LabelEffect(bs, rules, master, req).status.error.NoSuchEntity?
    ensures Truthy(req.client) && Lookup(master, "client", bs[k].org, req.client.value).None? ==>
      LabelEffect(bs, rules, master, req).status == Failed(NoSuchEntity("client"))
  {
  }

  /** What a successful relabel does to the block: client/project/task change
      only when the request's value is truthy, notes changes whenever it is
      present (even as ""), and no other field changes. */
  lemma RelabelFields(b: Block, req: LabelRequest, master: seq<MasterRecord>)
    requires Relabel(b, req, master).Ok?
    ensures var nb := Relabel(b, req, master).value;
      && nb.client == (if Truthy(req.client) then Lookup(master, "client", b.org, req.client.value) else b.client)
      && nb.project == (if Truthy(req.project) then Lookup(master, "project", b.org, req.project.value) else b.project)
      && nb.task == (if Truthy(req.task) then Lookup(master, "task", b.org, req.task.value) else b.task)
      && nb.notes == (if req.notes.Some? then req.notes.value else b.notes)
      && nb.(client := b.client, project := b.project, task := b.task, notes := b.notes) == b
    ensures req.client == Some("") ==> Relabel(b, req, master).value.client == b.client
    ensures req.notes == Some("") ==> Relabel(b, req, master).value.notes == ""
  {
  }

  /** Once the block is found and its lookups succeed, it is saved with the
      new labels and no other block changes, whatever the rule checks say
      afterwards; a failed rule check creates no rule. */
  lemma LabelSavesBeforeRuleChecks(bs: seq<Block>, rules: seq<Rule>, master: seq<MasterRecord>, req: LabelRequest, k: nat)
    requires IdGiven(req.blockId) && FindBlock(bs, req.blockId.value) == Some(k)
    requires Relabel(bs[k], req, master).Ok?
    ensures var e := LabelEffect(bs, rules, master, req);
      && |e.blocks| == |bs|
      && e.blocks[k] == Relabel(bs[k], req, master).value
      && (forall j :: 0 <= j < |bs| && j != k ==> e.blocks[j] == bs[j])
    ensures var e := LabelEffect(bs, rules, master, req);
      req.createRule && !(req.ruleField.Some? && req.ruleField.value in RuleFields) ==>
        e.status == Failed(BadRuleField) && e.rules == rules
    ensures var e := LabelEffect(bs, rules, master, req);
      req.createRule && req.ruleField.Some? && req.ruleField.value in RuleFields && !Truthy(req.ruleValue) ==>
        e.status == Failed(MissingRuleValue) && e.rules == rules
    ensures var e := LabelEffect(bs, rules, master, req);
      !req.createRule ==> e.status == Done && e.rules == rules
    ensures var e := LabelEffect(bs, rules, master, req);
      req.createRule && req.ruleField.Some? && req.ruleField.value in RuleFields && Truthy(req.ruleValue) ==>
        e.status == Done && |e.rules| == |rules| + 1 && e.rules[..|rules|] == rules
  {
  }

  /** A created rule is active, belongs to the block's org, has a valid field
      and a non-empty value, its pattern defaults to the block's url, else
      its file path, else its title, cut to 200 characters, and its kind to
      "contains". */
  lemma CreatedRule(bs: seq<Block>, rules: seq<Rule>, master: seq<MasterRecord>, req: LabelRequest)
    requires LabelEffect(bs, rules, master, req).rules != rules
    ensures IdGiven(req.blockId) && req.createRule
    ensures var e := LabelEffect(bs, rules, master, req);
      var k := FindBlock(bs, req.blockId.value).value;
      var r := e.rules[|rules|];
      && FindBlock(bs, req.blockId.value).Some?
      && e.status == Done
      && e.rules == rules + [r]
      && r.active && r.org == bs[k].org
      && r.field in RuleFields && r.valueText != ""
      && r.field == req.ruleField.value && r.valueText == req.ruleValue.value
      && r.pattern == (if Truthy(req.pattern) then req.pattern.value else DefaultPattern(bs[k]))
      && r.kind == (if Truthy(req.kind) then req.kind.value else "contains")
  {
  }

  /** The default pattern is a prefix of at most 200 characters of the
      block's url, or of its file path when the url is empty, or of its
      title when both are. */
  lemma DefaultPatternFacts(b: Block)
    ensures |DefaultPattern(b)| <= PatternLimit
    ensures b.url != "" ==> IsPrefix(DefaultPattern(b), b.url)
    ensures b.url == "" && b.filePath != "" ==> IsPrefix(DefaultPattern(b), b.filePath)
    ensures b.url == "" && b.filePath == "" ==> IsPrefix(DefaultPattern(b), b.title)
    ensures |b.url| <= PatternLimit && b.url != "" ==> DefaultPattern(b) == b.url
  {
  }
}
