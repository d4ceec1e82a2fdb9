/** The records of the tracker: raw observations, blocks, rules and
    suggestions, shaped after the tables of server/tracker/models.py. */
module Entities {
  import opened Common

  /** A UTC instant, in microseconds since the epoch. */
  type Time = int

  const MinuteUs: int := 60_000_000

  /** One raw desktop-activity observation; every field but the timestamp is nullable. */
  datatype RawEvent = RawEvent(
    ts: Time,
    appName: Option<string>,
    bundleId: Option<string>,
    windowTitle: Option<string>,
    url: Option<string>,
    filePath: Option<string>,
    user: Option<string>,
    hostname: Option<string>)

  /** Identity of a tenant group (`auth.Group`), of a Client/Project/Task row. */
  type OrgId = nat
  type EntityId = nat

  /** A stored block of activity. `id` is the primary key the store assigns;
      `minutes` is the computed block duration, which the schema has no
      column for and the code does not store. */
  datatype Block = Block(
    id: nat,
    org: Option<OrgId>,
    user: string,
    hostname: string,
    start: Time,
    end: Time,
    minutes: int,
    title: string,
    url: string,
    filePath: string,
    client: Option<EntityId>,
    project: Option<EntityId>,
    task: Option<EntityId>,
    notes: string,
    locked: bool)

  /** An admin-authored rule. `kind` and `field` are free strings: the store
      does not enforce the choices listed in the schema. */
  datatype Rule = Rule(
    org: Option<OrgId>,
    pattern: string,
    field: string,
    valueText: string,
    kind: string,
    active: bool)

  /** What the rule engine emits per matching rule: (field, value_text, confidence). */
  datatype Hit = Hit(field: string, valueText: string, confidence: real)

  /** A stored suggestion row, owned by the block `blockId`. */
  datatype Suggestion = Suggestion(
    blockId: nat,
    labelType: string,
    valueText: string,
    confidence: real,
    source: string)

  /** A Client, Project or Task row of the master data: `kind` is
      "client", "project" or "task". */
  datatype MasterRecord = MasterRecord(kind: string, org: Option<OrgId>, name: string, id: EntityId)
}
