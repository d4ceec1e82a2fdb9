# Time tracker core, modelled in Dafny

This project models the core of a time tracker. A macOS agent watches the frontmost window. It writes a raw event each time the user has stayed on one window (app, title, url, file path) long enough. The server then folds each day's raw events into blocks of work. It attaches up to three rule-based suggestions (client, project or task) to each block, and lets a user label a block. Labelling can also create a new rule.

The model covers these parts:

- **Labels** (`labels.dfy`): the label of an event is the url's host, else the file's basename, else the window title cut to 80 characters, else the app name, else `"Unknown"`.
- **Compactor** (`compactor.dfy`, `runs.dfy`): the merge itself.
  - An event extends the open interval when both hold:
    - it comes at most 10 minutes after the interval's end;
    - it has the interval's label.
  - Otherwise the interval is closed and a new one opens.
  - A closed interval becomes a block. Its computed minutes are the floored elapsed minutes, rounded up to a multiple of 6, and at least 6. The model keeps them on the block (see "## Left out" on the `minutes` column).
  - `runs.dfy` gives a second, declarative reading: the blocks are exactly the maximal runs of consecutive events that join each other. Such a split always exists and is unique.
- **Store** (`store.dfy`, `store_spec.dfy`): the class `TrackerStore` holds the event, block, suggestion, rule and master-data tables. Its methods update them in place:
  - the scoped, destructive rebuild of today's blocks, in which suggestions are deleted with their blocks;
  - the recompute of suggestions per block: delete the block's rows, then store the first three rule hits;
  - the response rows of `suggestions_today`;
  - `label_block`.

  Each method is proved against functions on the tables. The properties (scope, idempotence, which rows each block owns) are lemmas about those functions.
- **Rules** (`rules.dfy`, `glob.dfy`): `apply_rules`.
  - `contains` matches case-insensitively against the text "title url file_path".
  - `regex` is handed to a parameter.
  - `glob` is fnmatch on the url or the file path. `*`, `?` and literals are modelled; bracket classes are handed to a parameter.
  - Every active matching rule gives one hit with confidence 0.85.
- **Label requests** (`label_spec.dfy`): in order, `label_block` does the following.
  - It validates the block id and looks the block up.
  - It looks up the client, project and task by name in the block's org, and then saves.
  - Only after the save does it run the rule checks and create the rule, with its default pattern and kind.
- **Permissions** (`permissions.dfy`): the agent-key check. It accepts `X-Agent-Key`, or else `Authorization: Bearer <key>`.
- **Agent** (`agent.dfy`): the dwell state machine of the agent's main loop (class `DwellFilter`) and `write_event`.
- **Scenarios** (`scenarios.dfy`): concrete runs:
  - two docs visits then Slack give two 6-minute blocks;
  - a 15-minute gap splits a block;
  - a label change splits a block;
  - a `*.pdf` glob rule;
  - five matching rules give three suggestions.

Timestamps are integers in microseconds. Python's `//` on a positive divisor is Dafny's `/`.

## Model

| member | source | states |
|---|---|---|
| Labels.LabelPriority | server/tracker/views.py:60-73 | the label is the url host when there is one; else the whole '/'-free segment after the last '/' of the path with trailing slashes removed; else exactly the first min(80, length) characters of the title; else the app name or "Unknown" |
| Labels.EmptyLabelOnlyFromSlashPath | server/tracker/views.py:69-70 | an empty label arises only from a file path made only of '/' characters, when there is no url host |
| Labels.StripTrailingSlashes | server/tracker/views.py:70 | `rstrip("/")` gives the prefix that has no trailing '/', and only '/' was cut |
| Labels.LastSegment | server/tracker/views.py:70 | `split("/")[-1]` is the '/'-free suffix after the last '/' |
| Compactor.RoundUpFacts | server/tracker/views.py:75-76 | the rounded value is a multiple of g, at least n and less than n + g; multiples of g are unchanged |
| Compactor.RoundUpIsLeast | server/tracker/views.py:75-76 | no multiple of g that is at least n is smaller than the rounded value |
| Compactor.BlockMinutes | server/tracker/views.py:167-168 | block minutes are at least 6 and a multiple of 6 and cover the floored elapsed minutes, and they are the least such value |
| Compactor.ShortBlocksGetTheFloor | server/tracker/views.py:167-168 | a block shorter than 7 minutes, including a single-event block, gets exactly 6 minutes |
| Compactor.MinutesCoverSpan | server/tracker/views.py:167-168 | the elapsed time is less than the block minutes plus one minute |
| Compactor.MaterializedBlocks | server/tracker/views.py:166-206 | each created block has the next id and the caller's org, its interval's start, end, label, url and path, exactly BlockMinutes of its span (so at least 6, in steps of 6), the interval's user and host or else the defaults "unknown-user" and "unknown-host", and no client, project, task or notes |
| Compactor.MaterializeIgnoresIds | server/tracker/views.py:166-206 | the blocks created do not depend on the ids they receive |
| Compactor.CompactShape | server/tracker/views.py:209-245 | on time-ordered events the blocks are in start order, start <= end, and each block ends no later than the next one starts (they touch only on equal timestamps) |
| Compactor.CompactSize | server/tracker/views.py:209-245 | no more blocks than events, and no blocks exactly when there are no events |
| Compactor.CompactInScope | server/tracker/views.py:209-245 | every block starts no earlier than the events' lower bound, has a non-empty user and host, and carries the requested user and host when they are given |
| CompactorRuns.RunsOfPartition | server/tracker/views.py:209-245 | the maximal runs split the events into non-empty runs; inside a run each event joins its predecessor (gap <= 10 minutes, same label), and across runs no event does |
| CompactorRuns.PartitionIsRunsOf | server/tracker/views.py:209-245 | such a split is unique |
| CompactorRuns.RunFollowsRuns | server/tracker/views.py:209-243 | after every prefix of the events, the open interval is the last run's and the closed ones are the earlier runs' |
| CompactorRuns.CompactByRuns | server/tracker/views.py:209-245 | for every such split, the compactor creates one block per run, from its first event's time to its last event's, carrying the first event's label, url, path, user and host |
| CompactorRuns.RunPartitionExists | server/tracker/views.py:209-245 | such a split always exists |
| StoreSpec.ScopeEventsFacts | server/tracker/views.py:147-152 | the events compacted are exactly the log's events in scope (at or after day start, and of the user and host when given), as a multiset, ordered by timestamp |
| StoreSpec.RebuiltShape | server/tracker/views.py:145-245 | the blocks a rebuild creates are in start order and do not overlap |
| StoreSpec.FreshBlocksInScope | server/tracker/views.py:155-160 | every block a rebuild creates falls in the same scope the rebuild deletes |
| StoreSpec.RebuiltScope | server/tracker/views.py:145-245 | after a rebuild the in-scope blocks are exactly the newly created ones, and the out-of-scope blocks are unchanged |
| StoreSpec.LockedBlocksNotSpared | server/tracker/views.py:155-160 | a locked block in scope is deleted like any other |
| StoreSpec.RebuildTwice | server/tracker/views.py:145-245 | rebuilding twice leaves the out-of-scope blocks unchanged and gives the same blocks as rebuilding once, up to ids |
| StoreSpec.RulesForMembers | server/tracker/views.py:314 | the rules used are the active ones, limited to the org when there is one |
| StoreSpec.SuggestionsForArePrefix | server/tracker/views.py:318-324 | a block gets min(3, number of hits) rows, and they are the first hits in rule order, owned by the block, with source "rule" |
| StoreSpec.RecomputedClosedForm | server/tracker/views.py:318-324 | after the loop, the suggestion table is the rows of blocks outside the query, followed by each queried block's new rows in query order |
| StoreSpec.RecomputeFacts | server/tracker/views.py:318-324 | after the loop, each queried block owns exactly its new rows; every other block keeps its rows; recomputing again changes nothing |
| StoreSpec.RecomputeIdempotent | server/tracker/views.py:318-324 | running the per-block replace loop twice equals running it once, for any row function that produces only rows owned by each block |
| StoreSpec.BlockViewsFacts | server/tracker/views.py:325-340 | the response lists the queried blocks in order; each entry lists at most 3 suggestions, and they are the block's rows after the recompute |
| StoreSpec.ShownMinutes | server/tracker/views.py:329 | the minutes shown are the whole minutes elapsed, truncated, and never more than the computed block minutes |
| Store.TrackerStore.FinalizeAndCreate | server/tracker/views.py:166-206 | appends the block of the interval with the next id and returns 1 |
| Store.TrackerStore.Feed | server/tracker/views.py:209-240 | one loop iteration: extends the open interval, or closes it into a block and opens a new one, as Step says |
| Store.TrackerStore.MergeLoop | server/tracker/views.py:209-241 | after the loop, the blocks created and the open interval are those of the fold over all events |
| Store.TrackerStore.MergeEvents | server/tracker/views.py:209-245 | appends exactly the blocks of Compact, with consecutive ids, and returns how many |
| Store.TrackerStore.Rebuild | server/tracker/views.py:144-245 | the new block table is the out-of-scope blocks plus the compaction of the in-scope events; suggestions of deleted blocks go with them; the count returned is the number of blocks created; ids stay increasing |
| Store.TrackerStore.ReplaceSuggestions | server/tracker/views.py:318-340 | deletes the block's rows, stores its first three hits, and returns its response entry |
| Store.TrackerStore.RecomputeSuggestions | server/tracker/views.py:307-340 | the suggestion table becomes the recompute over the in-scope blocks with the org's active rules, the response is their views, and each in-scope block now owns exactly its first three rule hits |
| Store.TrackerStore.SuggestionsToday | server/tracker/views.py:297-341 | a rebuild followed by the recompute over exactly the blocks just created |
| Store.TrackerStore.ApplyLabels | server/tracker/views.py:359-367 | the block after the client/project/task lookups and the notes update |
| Store.TrackerStore.LabelBlock | server/tracker/views.py:345-386 | the block and rule tables and the answer are those of LabelEffect; ids stay valid |
| Store.RelabelKeepsId | server/tracker/views.py:359-368 | relabelling keeps the block's id and org |
| LabelSpec.FindBlock | server/tracker/views.py:352-356 | the block found carries the id; none is found exactly when no block carries it |
| LabelSpec.FindBlockExact | server/tracker/views.py:352-354 | with distinct ids, the block found is the one that carries the id |
| LabelSpec.LookupFacts | server/tracker/views.py:361 | a successful lookup returns the id of a row of that kind, org and name; a name with no such row fails |
| LabelSpec.LookupUnique | server/tracker/views.py:361 | when exactly one row has that kind, org and name, the lookup returns its id |
| LabelSpec.LookupAmbiguous | server/tracker/views.py:361 | when two rows have that kind, org and name, the lookup fails |
| LabelSpec.LabelNeedsBlockId | server/tracker/views.py:349-351 | a missing or zero id is refused before anything else, changes nothing, and is the only way to get this error |
| LabelSpec.LabelUnknownBlock | server/tracker/views.py:352-356 | an id that no block carries gives NotFound and changes nothing, and only such an id does |
| LabelSpec.LabelLookupFails | server/tracker/views.py:359-365 | a truthy client, project or task name without exactly one row in the block's org fails and saves nothing; a client failure is reported first |
| LabelSpec.RelabelFields | server/tracker/views.py:359-367 | client, project and task change only for truthy values; notes change whenever present, even as ""; nothing else changes |
| LabelSpec.LabelSavesBeforeRuleChecks | server/tracker/views.py:368-376 | once the lookups succeed, the block is saved and no other block changes, even when the rule field or value is then refused; a refused rule creates nothing; with create_rule, a valid field and a truthy value exactly one rule is appended and the status is done |
| LabelSpec.CreatedRule | server/tracker/views.py:377-385 | a created rule is active and in the block's org, with a valid field and a non-empty value; its pattern defaults to url, else path, else title, cut to 200 characters; its kind defaults to "contains" |
| LabelSpec.DefaultPatternFacts | server/tracker/views.py:377 | the default pattern is at most 200 characters long and is a prefix of the url, else of the path, else of the title |
| Rules.ApplyRules | server/tracker/rules.py:3-16 | the loop returns exactly the rule-hit sequence of the rules in order |
| Rules.RuleHitsMembers | server/tracker/rules.py:7-15 | a hit is in the output exactly when some active rule matches and the hit is that rule's field, value and 0.85 |
| Rules.RuleHitsLength | server/tracker/rules.py:7-15 | at most one hit per rule |
| Rules.RuleHitsAppend | server/tracker/rules.py:7-16 | the hits of concatenated rule lists are the concatenated hits, so rule order is kept |
| Rules.InactiveRulesIgnored | server/tracker/rules.py:14 | the output equals that of the active rules alone |
| Rules.ContainsRuleMatches | server/tracker/rules.py:5-10 | a contains rule matches exactly when its lowercased pattern occurs in the lowercased "title url file_path" text |
| Rules.GlobRuleIgnoresTitle | server/tracker/rules.py:12 | a glob rule matches exactly when the url or the file path matches, and the title never matters |
| Rules.UnknownKindNeverMatches | server/tracker/rules.py:9-13 | rules whose kind is none of contains, regex or glob give no hits |
| Rules.ContainsExample | server/tracker/rules.py:10 | a contains rule "github.com" matches a block whose url is https://github.com/org/repo |
| Glob.StarThenLiteral | server/tracker/rules.py:12 | `*` followed by a literal tail matches exactly the names that end in that tail |
| Glob.LiteralMatchesOnlyItself | server/tracker/rules.py:12 | a pattern with no wildcard matches only the name equal to it |
| Glob.StarMatchesAll | server/tracker/rules.py:12 | `*` matches every name |
| Glob.QuestionMatchesOneChar | server/tracker/rules.py:12 | `?` followed by p matches a name exactly when its first character can be anything and the rest matches p; it never matches the empty name |
| Glob.GlobIsCaseSensitive | server/tracker/rules.py:12 | "*.pdf" matches "/x/doc.pdf" and "*.PDF" does not |
| Permissions.HasPermissionIff | server/tracker/permissions.py:11-22 | access is granted exactly when the key is set and non-empty and either X-Agent-Key equals it or Authorization is "Bearer " + key |
| Permissions.EmptyKeyDenies | server/tracker/permissions.py:12-14 | an unset or empty key denies every request |
| Permissions.BearerFallback | server/tracker/permissions.py:16-21 | a wrong or absent X-Agent-Key does not block a correct Bearer header |
| Permissions.BearerIsExact | server/tracker/permissions.py:19-20 | "bearer " and "Bearer  " with two spaces are refused |
| Permissions.BearerForm | server/tracker/permissions.py:20 | `startswith("Bearer ") and auth[7:] == key` says exactly that auth == "Bearer " + key |
| Agent.Flush | mac_agent/main.py:385-388 | writes at most one record; it writes one exactly when a signature is held and has dwelt at least the minimum, and the record carries that signature, the flush time, user and host |
| Agent.DefaultConfig | mac_agent/main.py:44-48 | with the environment unset the minimum dwell is 15 seconds, no bundle is excluded, and the user is `$USER` or else "unknown" (read at line 362) |
| Agent.DefaultDwellThreshold | mac_agent/main.py:44 | under the default settings a changed signature writes the previous one exactly when it was held for at least 15 seconds |
| Agent.NextKeepsConsistent | mac_agent/main.py:366-418 | the signature and dwell start are always both set or both cleared |
| Agent.NoFrontmostIsIdle | mac_agent/main.py:372-377 | a poll with no frontmost app changes nothing and writes nothing |
| Agent.SameSignatureKeepsDwell | mac_agent/main.py:404-416 | the same signature again writes nothing and keeps the dwell start |
| Agent.ChangedSignature | mac_agent/main.py:404-413 | a new signature writes the previous one exactly when it dwelt long enough, then holds the new one from now |
| Agent.ExcludedResets | mac_agent/main.py:382-392 | an excluded bundle flushes under the same rule and then clears the state |
| Agent.SteadySignatureWritesNothing | mac_agent/main.py:369-418 | however long one signature stays frontmost, with polls without a frontmost app in between, nothing is written and the dwell start stays |
| Agent.RecordsStampedAtPolls | mac_agent/main.py:326-340 | every record written is stamped with the time of one of the polls |
| Agent.DwellFilter.WriteEvent | mac_agent/main.py:326-340 | appends the record of the signature stamped now, with the title, url, path, user and host |
| Agent.DwellFilter.FlushAt | mac_agent/main.py:405-410 | appends exactly what Flush gives for the current state |
| Agent.DwellFilter.Observe | mac_agent/main.py:369-418 | one loop pass: the new state and the records appended are those of Next |
| Agent.DwellFilter.Stop | mac_agent/main.py:420-426 | on interrupt, one last flush under the same rule, with the state unchanged |
| Scenarios.DocsThenSlack | server/tracker/views.py:209-245 | docs.google.com at 9:00 and 9:04, then Slack "#general" at 9:20, give two blocks (9:00-9:04 "docs.google.com" and 9:20 "#general") of 6 minutes each |
| Scenarios.GapSplitsBlock | server/tracker/views.py:225-240 | the same label at 0, 5 and 20 minutes gives two blocks, split at the 15-minute gap |
| Scenarios.LabelChangeSplitsBlock | server/tracker/views.py:226 | a label change one minute later splits the block |
| Scenarios.GlobPdfRule | server/tracker/rules.py:12 | a "*.pdf" glob rule fires on a block whose path ends in ".pdf" and not on a block with only a url |
| Scenarios.FiveRulesThreeSuggestions | server/tracker/views.py:320 | five active matching rules give exactly three stored suggestions: those of the first three rules, in order |

## Left out

- Django's ORM, HTTP layer, serializers and transactions are not modelled. Tables are sequences in the store class. An atomic block becomes one method call.
- The local day start is a parameter (`dayStart`). It is not computed from the clock and time zone. The code reads the clock twice, once in the compactor and once in `suggestions_today`, so a request that crosses local midnight can use two different day starts; the model uses one.
- `urllib.parse.urlparse(...).hostname` is a parameter `hostOf`. It returns "" for no host or for a parse error.
- `re.search(..., re.I)` is a parameter. A malformed regex, which raises `re.error`, is not modelled.
- fnmatch bracket classes (`[...]`) are a parameter. fnmatch is modelled as case-sensitive, as on POSIX hosts.
- `str.lower()` is modelled for ASCII letters only.
- Confidence values are opaque reals (0.85). Floating point is not modelled.
- Order of the event query:
  - `order_by("ts_utc")` is a stable sort of the event log;
  - timestamp ties keep log order, where the database leaves them unspecified.
- Order of the block query: `order_by("start")` is modelled as table order. Blocks created by the rebuild are appended in start order, and the ones `suggestions_today` walks are exactly those.
- Order of the rule query: `Rule.objects.filter(active=True, ...)` has no `order_by`, and the `Rule` class sets no `Meta.ordering`. The query is modelled as table order. Which three hits survive the `[:3]` cut therefore follows table order in the model (StoreSpec.SuggestionsForArePrefix, Scenarios.FiveRulesThreeSuggestions), where the database leaves the order unspecified.
- `b.suggestions.all().order_by("-confidence")[:3]` in the response is modelled as creation order. All rule rows have the same confidence.
- The org of a created block:
  - it is a parameter;
  - `None` stands for both "no org" and the default-org group that the code may `get_or_create`;
  - the group lookup itself is not modelled.
- `hasattr(Block, ...)` probing of the schema is left out: every probed field is taken to exist. `Block` in `server/tracker/models.py` declares `user`, `hostname` and `org` but no `minutes` column, so the code computes `dur` and then discards it. The model keeps the computed value in `Block.minutes` as if the column existed; the properties about block minutes are about that computed value, not about anything the code stores.
- Lookups of Client, Project and Task:
  - a `.get` that finds no row or several rows is `NoSuchEntity`; in the code this is an uncaught exception, so a server error;
  - the request's block id is modelled as an integer, and other JSON types are not modelled;
  - `create_rule` is tested by JSON truthiness in the code (a string such as "false" or a non-zero number creates a rule); the model's `createRule` is a bool standing for that truthiness.
- `label_block` is not atomic in the code. The saved block survives a later rule error, and the model keeps that.
- Ingestion endpoints, the health view, CSV export, models, settings and URL routing are not part of this model.
- The agent's window probing, AppleScript and Quartz calls, the SQLite writes, HTTP posting and logging are left out.
  - Each poll arrives as an observation, and the clock is a parameter.
  - Records are appended to a sequence in place of the database and the POST.
  - The catch-all `except Exception` of the main loop, which logs, sleeps and keeps the current state, is not modelled: a poll either completes its transition or does not happen.
  - `time.time()` is a float in seconds; the model's `now` is an integer.
  - The dwell arithmetic reads `time.time()` while `write_event` stamps the record with `datetime.now(timezone.utc)`, two separate clock reads. The model uses one `now` per poll for both.
- Store.TrackerStore.Rebuild: ids are fresh on every rebuild. Idempotence is stated up to ids (StoreSpec.RebuildTwice) and not as byte-identical tables.
- `locked` blocks are not honoured by the rebuild, as in the code (StoreSpec.LockedBlocksNotSpared).
