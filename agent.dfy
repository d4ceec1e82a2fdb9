/** The desktop agent's dwell filter (mac_agent/main.py, the loop of `main`):
    it remembers the signature seen last and when it was first seen, and
    writes the previous signature as a raw event only when the signature
    changes, the frontmost app becomes excluded, or the agent stops, and only
    when the signature was held for at least MIN_DWELL_SECONDS. Clock reads
    are the `now` parameters; the window-system probing is left out and
    arrives as the polled observation. */
module Agent {
  import opened Common

  /** `AGENT_MIN_DWELL_SECONDS` when the variable is unset. */
  const DefaultMinDwellSeconds: int := 15

  /** `sig = (app_name, bundle_id, title, url, fpath)`. */
  datatype Signature = Signature(appName: string, bundleId: string, title: string, url: Option<string>, filePath: Option<string>)

  /** One poll of the frontmost app. */
  datatype Poll = NoFrontmost | Frontmost(sig: Signature)

  /** The row `write_event` records and posts. */
  datatype AgentRecord = AgentRecord(
    ts: int,
    appName: string,
    bundleId: string,
    windowTitle: string,
    url: Option<string>,
    filePath: Option<string>,
    user: string,
    hostname: string)

  /** `(current_sig, dwell_start)`; dwell start in seconds. */
  datatype DwellState = DwellState(current: Option<Signature>, dwellStart: Option<int>)

  /** Settings read once at start-up. */
  datatype Config = Config(minDwell: int, excluded: set<string>, user: string, hostname: string)

  /** The settings read at start-up when the environment sets none of them:
      the default dwell, no excluded bundles, and `$USER or "unknown"`. */
  function DefaultConfig(user: Option<string>, hostname: string): (c: Config)
    ensures c.minDwell == DefaultMinDwellSeconds && c.excluded == {}
    ensures c.user != "" && (Truthy(user) ==> c.user == user.value)
  {
    Config(DefaultMinDwellSeconds, {}, Or(user, "unknown"), hostname)
  }

  const Initial: DwellState := DwellState(None, None)

  /** Both fields are set together, or both are None. */
  predicate Consistent(st: DwellState) {
    st.current.Some? <==> st.dwellStart.Some?
  }

  /** The guard `current_sig and dwell_start`: a dwell start of 0 is false in Python. */
  predicate Dwelling(st: DwellState) {
    st.current.Some? && st.dwellStart.Some? && st.dwellStart.value != 0
  }

  /** `write_event(..., sig)` at time now; `title or ""` leaves a string title as it is. */
  function Record(sig: Signature, now: int, cfg: Config): AgentRecord {
    AgentRecord(now, sig.appName, sig.bundleId, OrStr(sig.title, ""), sig.url, sig.filePath, cfg.user, cfg.hostname)
  }

  /** The flush rule shared by the three places that write: the previous
      signature, stamped with the flush time, when it dwelt long enough. */
  function Flush(st: DwellState, now: int, cfg: Config): (out: seq<AgentRecord>)
    ensures |out| <= 1
    ensures |out| == 1 <==> Dwelling(st) && now - st.dwellStart.value >= cfg.minDwell
    ensures |out| == 1 ==>
      && out[0].ts == now && out[0].appName == st.current.value.appName
      && out[0].bundleId == st.current.value.bundleId && out[0].windowTitle == st.current.value.title
      && out[0].url == st.current.value.url && out[0].filePath == st.current.value.filePath
      && out[0].user == cfg.user && out[0].hostname == cfg.hostname
  {
    if Dwelling(st) && now - st.dwellStart.value >= cfg.minDwell then [Record(st.current.value, now, cfg)] else []
  }

  /** One iteration of the loop: the new state and what it writes. */
  function Next(st: DwellState, poll: Poll, now: int, cfg: Config): (DwellState, seq<AgentRecord>) {
    match poll
    case NoFrontmost => (st, [])
    case Frontmost(sig) =>
      if sig.bundleId in cfg.excluded then (DwellState(None, None), Flush(st, now, cfg))
      else if st.current != Some(sig) then (DwellState(Some(sig), Some(now)), Flush(st, now, cfg))
      else (st, [])
  }

  /** With the default settings a signature is written once it has been held
      for 15 seconds, and not before; no bundle is excluded. */
  lemma DefaultDwellThreshold(st: DwellState, sig: Signature, now: int, user: Option<string>, hostname: string)
    requires Dwelling(st) && st.current != Some(sig)
    ensures var cfg := DefaultConfig(user, hostname);
      |Next(st, Frontmost(sig), now, cfg).1| == (if now - st.dwellStart.value >= 15 then 1 else 0)
  {
  }

  /** A poll never breaks the pairing of the two fields. */
  lemma NextKeepsConsistent(st: DwellState, poll: Poll, now: int, cfg: Config)
    requires Consistent(st)
    ensures Consistent(Next(st, poll, now, cfg).0)
  {
  }

  /** No frontmost app: nothing changes and nothing is written. */
  lemma NoFrontmostIsIdle(st: DwellState, now: int, cfg: Config)
    ensures Next(st, NoFrontmost, now, cfg) == (st, [])
  {
  }

  /** The same signature again: nothing is written and the dwell start stays. */
  lemma SameSignatureKeepsDwell(st: DwellState, sig: Signature, now: int, cfg: Config)
    requires sig.bundleId !in cfg.excluded && st.current == Some(sig)
    ensures Next(st, Frontmost(sig), now, cfg) == (st, [])
  {
  }

  /** A new signature: the previous one is written iff it existed and dwelt at
      least minDwell; then the state becomes (sig, now). */
  lemma ChangedSignature(st: DwellState, sig: Signature, now: int, cfg: Config)
    requires sig.bundleId !in cfg.excluded && st.current != Some(sig)
    ensures Next(st, Frontmost(sig), now, cfg).0 == DwellState(Some(sig), Some(now))
    ensures |Next(st, Frontmost(sig), now, cfg).1| == 1 <==>
      Dwelling(st) && now - st.dwellStart.value >= cfg.minDwell
    ensures |Next(st, Frontmost(sig), now, cfg).1| <= 1
  {
  }

  /** An excluded bundle: same flush rule, then both fields reset. */
  lemma ExcludedResets(st: DwellState, sig: Signature, now: int, cfg: Config)
    requires sig.bundleId in cfg.excluded
    ensures Next(st, Frontmost(sig), now, cfg) == (Initial, Flush(st, now, cfg))
  {
  }

  /** The loop over a list of timed polls. */
  function Trace(st: DwellState, polls: seq<(Poll, int)>, cfg: Config): (DwellState, seq<AgentRecord>)
    decreases |polls|
  {
    if |polls| == 0 then (st, [])
    else
      var (st1, out1) := Next(st, polls[0].0, polls[0].1, cfg);
      var (st2, out2) := Trace(st1, polls[1..], cfg);
      (st2, out1 + out2)
  }

  /** While the frontmost signature stays the same (polls without a frontmost
      app may come in between), nothing is written and the dwell keeps its
      start, however long it lasts. */
  lemma {:induction false} SteadySignatureWritesNothing(st: DwellState, sig: Signature, polls: seq<(Poll, int)>, cfg: Config)
    requires st.current == Some(sig) && sig.bundleId !in cfg.excluded
    requires forall i :: 0 <= i < |polls| ==> polls[i].0 in {NoFrontmost, Frontmost(sig)}
    ensures Trace(st, polls, cfg) == (st, [])
    decreases |polls|
  {
    if |polls| > 0 {
      assert polls[0].0 in {NoFrontmost, Frontmost(sig)};
      assert Next(st, polls[0].0, polls[0].1, cfg) == (st, []);
      SteadySignatureWritesNothing(st, sig, polls[1..], cfg);
      var rest := Trace(st, polls[1..], cfg);
      assert rest == (st, []);
      assert Trace(st, polls, cfg) == (rest.0, [] + rest.1);
      assert [] + rest.1 == [];
    }
  }

  /** Every record a trace writes is stamped with the time of one of its polls. */
  lemma {:induction false} RecordsStampedAtPolls(st: DwellState, polls: seq<(Poll, int)>, cfg: Config, k: nat)
    requires k < |Trace(st, polls, cfg).1|
    ensures exists i :: 0 <= i < |polls| && Trace(st, polls, cfg).1[k].ts == polls[i].1
    decreases |polls|
  {
    var (st1, out1) := Next(st, polls[0].0, polls[0].1, cfg);
    if k >= |out1| {
      RecordsStampedAtPolls(st1, polls[1..], cfg, k - |out1|);
      var i :| 0 <= i < |polls[1..]| && Trace(st1, polls[1..], cfg).1[k - |out1|].ts == polls[1..][i].1;
      assert polls[1..][i] == polls[i + 1];
    }
  }

  /** The agent's loop state and event log. */
  class DwellFilter {
    const cfg: Config
    var current: Option<Signature>
    var dwellStart: Option<int>
    var emitted: seq<AgentRecord>

    ghost function State(): DwellState
      reads this
    {
      DwellState(current, dwellStart)
    }

    ghost predicate Valid()
      reads this
    {
      Consistent(State())
    }

    /** `current_sig = None; dwell_start = None` before the loop. */
    constructor (cfg: Config)
      ensures Valid()
      ensures this.cfg == cfg && current == None && dwellStart == None && emitted == []
    {
      this.cfg := cfg;
      current := None;
      dwellStart := None;
      emitted := [];
    }

    /** `write_event`: appends the record of sig stamped now. */
    method WriteEvent(sig: Signature, now: int)
      modifies this`emitted
      ensures emitted == old(emitted) + [Record(sig, now, cfg)]
    {
      emitted := emitted + [Record(sig, now, cfg)];
    }

    /** The three copies of `if current_sig and dwell_start: ... write_event`. */
    method FlushAt(now: int)
      modifies this`emitted
      ensures emitted == old(emitted) + Flush(State(), now, cfg)
    {
      if current.Some? && dwellStart.Some? && dwellStart.value != 0 {
        var dwell := now - dwellStart.value;
        if dwell >= cfg.minDwell {
          WriteEvent(current.value, now);
        }
      }
    }

    /** One pass of the `while True` body for the poll made at time now. */
    method Observe(poll: Poll, now: int)
      requires Valid()
      modifies this
      ensures Valid()
      ensures State() == Next(old(State()), poll, now, cfg).0
      ensures emitted == old(emitted) + Next(old(State()), poll, now, cfg).1
    {
      match poll {
        case NoFrontmost =>
        case Frontmost(sig) =>
          if sig.bundleId in cfg.excluded {
            FlushAt(now);
            current := None;
            dwellStart := None;
          } else if current != Some(sig) {
            FlushAt(now);
            current := Some(sig);
            dwellStart := Some(now);
          }
      }
    }

    /** The KeyboardInterrupt handler: one last flush, then the loop ends. */
    method Stop(now: int)
      requires Valid()
      modifies this
      ensures Valid() && State() == old(State())
      ensures emitted == old(emitted) + Flush(old(State()), now, cfg)
    {
      FlushAt(now);
    }
  }
}
