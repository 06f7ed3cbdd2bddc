/**
 * The resilience manager of `scraper/resilience.py`: a shutdown flag that a
 * signal handler raises, and the `job_state` table keyed by job name.  The
 * table is held in memory as a map from job name to its saved state; the
 * database connection and the signal registration are not modelled.
 */
module Resilience {
  import opened Common
  import opened Dicts
  import opened Json

  /** One row of `job_state`, without its name (the map key) and its id. */
  datatype JobState = JobState(lastUrl: Json, lastPage: Json, itemsScraped: Json, status: Json)

  const Running := JStr("running")
  const Completed := JStr("completed")

  /** The row `save_job_state` writes: the state's four fields, defaulted. */
  function StateOf(state: Dict<string, Json>): (s: JobState)
    ensures s.lastUrl == GetOr(state, "last_url", JStr(""))
    ensures s.lastPage == GetOr(state, "last_page", JNum(0.0))
    ensures s.itemsScraped == GetOr(state, "items_scraped", JNum(0.0))
    ensures s.status == GetOr(state, "status", Running)
    ensures "status" !in Keys(state) ==> s.status == Running
  {
    JobState(GetOr(state, "last_url", JStr("")), GetOr(state, "last_page", JNum(0.0)),
             GetOr(state, "items_scraped", JNum(0.0)), GetOr(state, "status", Running))
  }

  /** Every value of the row can be bound as an `sqlite3` parameter. */
  predicate Storable(s: JobState) {
    Bindable(s.lastUrl) && Bindable(s.lastPage) && Bindable(s.itemsScraped) && Bindable(s.status)
  }

  /** A state whose fields are scalars (or absent) can be saved. */
  lemma StorableState(state: Dict<string, Json>)
    requires forall k :: k in Keys(state) ==> Bindable(Get(state, k).value)
    ensures Storable(StateOf(state))
  {
    forall k | k in ["last_url", "last_page", "items_scraped", "status"]
      ensures k in Keys(state) ==> Bindable(GetOr(state, k, JNull))
    {
    }
  }

  /** The dict `load_job_state` returns: the row's four fields, or `{}` for an unknown job. */
  function Loaded(jobs: map<string, JobState>, name: string): (d: Dict<string, Json>)
    ensures name !in jobs ==> d == []
    ensures name in jobs ==>
      && Keys(d) == ["last_url", "last_page", "items_scraped", "status"]
      && Get(d, "last_url") == Some(jobs[name].lastUrl)
      && Get(d, "last_page") == Some(jobs[name].lastPage)
      && Get(d, "items_scraped") == Some(jobs[name].itemsScraped)
      && Get(d, "status") == Some(jobs[name].status)
  {
    if name !in jobs then []
    else
      var s := jobs[name];
      var d := [("last_url", s.lastUrl), ("last_page", s.lastPage), ("items_scraped", s.itemsScraped),
                ("status", s.status)];
      assert Keys(d) == ["last_url", "last_page", "items_scraped", "status"];
      GetAt(d, 0);
      GetAt(d, 1);
      GetAt(d, 2);
      GetAt(d, 3);
      d
  }

  /** The table after `UPDATE job_state SET status = 'completed' WHERE job_name = ?`. */
  function MarkedCompleted(jobs: map<string, JobState>, name: string): (r: map<string, JobState>)
    ensures r.Keys == jobs.Keys
    ensures name in jobs ==> r[name] == jobs[name].(status := Completed)
    ensures forall n :: n in jobs && n != name ==> r[n] == jobs[n]
  {
    if name in jobs then jobs[name := jobs[name].(status := Completed)] else jobs
  }

  /**
   * A successful save (a `Storable` row) then a load gives back the saved
   * state's fields, each defaulted as `save_job_state` defaults it; other
   * jobs load as before.
   */
  lemma SaveThenLoad(jobs: map<string, JobState>, name: string, state: Dict<string, Json>, other: string)
    requires other != name
    ensures var d := Loaded(jobs[name := StateOf(state)], name);
      && Keys(d) == ["last_url", "last_page", "items_scraped", "status"]
      && Get(d, "last_url") == Some(GetOr(state, "last_url", JStr("")))
      && Get(d, "last_page") == Some(GetOr(state, "last_page", JNum(0.0)))
      && Get(d, "items_scraped") == Some(GetOr(state, "items_scraped", JNum(0.0)))
      && Get(d, "status") == Some(GetOr(state, "status", Running))
    ensures Loaded(jobs[name := StateOf(state)], other) == Loaded(jobs, other)
  {
  }

  /** Saving twice under one name keeps only the second state. */
  lemma SaveReplaces(jobs: map<string, JobState>, name: string, s1: Dict<string, Json>, s2: Dict<string, Json>)
    ensures jobs[name := StateOf(s1)][name := StateOf(s2)] == jobs[name := StateOf(s2)]
  {
  }

  /** Marking a saved job completed: only its status changes, and it loads with status `completed`. */
  lemma LoadAfterCompleted(jobs: map<string, JobState>, name: string)
    requires name in jobs
    ensures var d := Loaded(MarkedCompleted(jobs, name), name);
      && Get(d, "status") == Some(Completed)
      && Get(d, "last_url") == Some(jobs[name].lastUrl)
      && Get(d, "last_page") == Some(jobs[name].lastPage)
      && Get(d, "items_scraped") == Some(jobs[name].itemsScraped)
  {
  }

  /** Marking an unknown job completed changes nothing, and it still loads as `{}`. */
  lemma CompletedUnknownIsNoop(jobs: map<string, JobState>, name: string)
    requires name !in jobs
    ensures MarkedCompleted(jobs, name) == jobs
    ensures Loaded(MarkedCompleted(jobs, name), name) == []
  {
  }

  /** `circuit_breaker`: the circuit is always closed. */
  function CircuitBreaker(domain: string, failureThreshold: int): (open_: bool)
    ensures !open_
  {
    false
  }

  class ResilienceManager {
    const dbPath: string
    /** Set by the signal handler; no method clears it. */
    var shutdownRequested: bool
    /** The `job_state` table, by job name. */
    var jobs: map<string, JobState>

    /** `jobs` is what the database already holds: the table is created only if missing. */
    constructor(dbPath: string, jobs: map<string, JobState>)
      ensures this.dbPath == dbPath && this.jobs == jobs
      ensures !shutdownRequested
    {
      this.dbPath := dbPath;
      this.shutdownRequested := false;
      this.jobs := jobs;
    }

    method SignalHandler(signum: int)
      modifies this`shutdownRequested
      ensures shutdownRequested
    {
      shutdownRequested := true;
    }

    function CheckShutdownRequested(): bool
      reads this
    {
      shutdownRequested
    }

    /**
     * `INSERT OR REPLACE`: the job's whole row is replaced; the flag is
     * untouched. A list or dict value cannot be bound: the call raises and
     * nothing is written.
     */
    method SaveJobState(name: string, state: Dict<string, Json>) returns (r: Outcome<()>)
      modifies this`jobs
      ensures r.Raised? <==> !Storable(StateOf(state))
      ensures r.Value? ==> jobs == old(jobs)[name := StateOf(state)]
      ensures r.Raised? ==> jobs == old(jobs)
    {
      var row := JobState(GetOr(state, "last_url", JStr("")), GetOr(state, "last_page", JNum(0.0)),
                          GetOr(state, "items_scraped", JNum(0.0)), GetOr(state, "status", Running));
      if !(Bindable(row.lastUrl) && Bindable(row.lastPage) && Bindable(row.itemsScraped) && Bindable(row.status)) {
        return Raised;
      }
      jobs := jobs[name := row];
      r := Value(());
    }

    method LoadJobState(name: string) returns (d: Dict<string, Json>)
      ensures d == Loaded(jobs, name)
    {
      if name in jobs {
        var row := jobs[name];
        d := [("last_url", row.lastUrl), ("last_page", row.lastPage), ("items_scraped", row.itemsScraped),
              ("status", row.status)];
      } else {
        d := [];
      }
    }

    method MarkJobCompleted(name: string)
      modifies this`jobs
      ensures jobs == MarkedCompleted(old(jobs), name)
    {
      if name in jobs {
        jobs := jobs[name := jobs[name].(status := Completed)];
      }
    }
  }

  /** The manager's operations, as a caller issues them. */
  datatype Op = Signal | Save(name: string, state: Dict<string, Json>) | MarkCompleted(name: string) | Load(name: string)

  /** The flag and the table after a sequence of operations, as the methods above change them. */
  function Run(flag: bool, jobs: map<string, JobState>, ops: seq<Op>): (bool, map<string, JobState>)
    decreases |ops|
  {
    if |ops| == 0 then (flag, jobs)
    else
      var (f, js) := Run(flag, jobs, ops[..|ops| - 1]);
      match ops[|ops| - 1]
      case Signal => (true, js)
      case Save(n, s) => (f, if Storable(StateOf(s)) then js[n := StateOf(s)] else js)
      case MarkCompleted(n) => (f, MarkedCompleted(js, n))
      case Load(_) => (f, js)
  }

  /**
   * The shutdown flag is monotone: once raised, any sequence of the
   * manager's operations leaves it raised, and only the signal raises it.
   */
  lemma {:induction false} ShutdownMonotone(flag: bool, jobs: map<string, JobState>, ops: seq<Op>)
    ensures flag ==> Run(flag, jobs, ops).0
    ensures Run(flag, jobs, ops).0 <==> flag || Signal in ops
    decreases |ops|
  {
    if |ops| > 0 {
      ShutdownMonotone(flag, jobs, ops[..|ops| - 1]);
      assert ops == ops[..|ops| - 1] + [ops[|ops| - 1]];
    }
  }
}
