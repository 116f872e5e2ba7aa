/** The scheduler process (src/scheduler.ts): refuse to start without the
    model settings or with a bad cron expression, then run the scrape on every
    trigger, one run at a time. The cron timer, signals and the logger are
    outside the model; `reports` stands for the summary each trigger logs. */
module Scheduler {
  import opened Common
  import opened Products
  import opened Scraper

  /** The settings read at start-up; `cronValid` is what `cron.validate`
      says of the configured expression. */
  datatype Config = Config(apiKey: Option<string>, model: Option<string>, cronValid: bool)

  /** Whether the process schedules the task or exits, and why. */
  datatype Startup = Scheduled | Exit(status: int, reason: string)

  /** The start-up checks, in their order: API key, model name, cron expression. */
  function Start(c: Config): (s: Startup)
    ensures s.Scheduled? <==> Truthy(c.apiKey) && Truthy(c.model) && c.cronValid
    ensures s.Exit? ==> s.status == 1
    ensures !Truthy(c.apiKey) ==> s == Exit(1, "GEMINI_API_KEY not set, scraper not started")
    ensures Truthy(c.apiKey) && !Truthy(c.model) ==> s == Exit(1, "GEMINI_MODEL not set, scraper not started")
    ensures Truthy(c.apiKey) && Truthy(c.model) && !c.cronValid ==>
      s == Exit(1, "Invalid cron expression, scraper not started")
  {
    if !Truthy(c.apiKey) then Exit(1, "GEMINI_API_KEY not set, scraper not started")
    else if !Truthy(c.model) then Exit(1, "GEMINI_MODEL not set, scraper not started")
    else if !c.cronValid then Exit(1, "Invalid cron expression, scraper not started")
    else Scheduled
  }

  predicate Succeeded(r: ScrapeResult) {
    r.success
  }

  predicate NotSucceeded(r: ScrapeResult) {
    !r.success
  }

  /** The counts logged when a run completes. */
  datatype RunStats = RunStats(total: nat, successful: nat, failed: nat)

  /** `total`, `successful` and `failed` of a run's results: every result is
      counted exactly once, as a success or as a failure. */
  function Stats(results: seq<ScrapeResult>): (s: RunStats)
    ensures s.total == |results|
    ensures s.successful + s.failed == s.total
    ensures s.successful == |Filter(results, Succeeded)| && s.failed == |Filter(results, NotSucceeded)|
  {
    FilterPartition(results, Succeeded, NotSucceeded);
    RunStats(|results|, |Filter(results, Succeeded)|, |Filter(results, NotSucceeded)|)
  }

  /** A run with no successes counts all its results as failed. */
  lemma {:induction false} NoSuccessAllFailed(results: seq<ScrapeResult>)
    requires forall i :: 0 <= i < |results| ==> !results[i].success
    ensures Stats(results).successful == 0 && Stats(results).failed == |results|
  {
    FilterKeepsNone(results, Succeeded);
  }

  /** A run counts as many successes as it appends history rows. */
  lemma {:induction false} SuccessesAreRecordedRows(w: World, all: seq<Product>, n: nat)
    requires n <= |all|
    ensures Stats(RunResults(w, all, n)).successful == |RunRows(w, all, n)|
  {
    if n > 0 {
      SuccessesAreRecordedRows(w, all, n - 1);
      var last := ScrapeOutcome(w, n - 1, all[n - 1]);
      FilterAppend(RunResults(w, all, n - 1), [last], Succeeded);
      assert [last][1..] == [];
    }
  }

  /** What one trigger of the task logs. */
  datatype Report = Completed(stats: RunStats) | Failed(error: ErrorValue) | Skipped

  /** What a trigger that starts a run over `products` logs: the counts of its
      results, or the error that stopped it before the loop. */
  function RunReport(w: World, products: seq<Product>): (r: Report)
    ensures r.Completed? <==> w.launchFault.None? && w.listFault.None?
    ensures w.launchFault.Some? ==> r == Failed(w.launchFault.value)
    ensures w.launchFault.None? && w.listFault.Some? ==> r == Failed(w.listFault.value)
    ensures r.Completed? ==> r.stats.total == |products| && r.stats.successful == |RunRows(w, products, |products|)|
  {
    if w.launchFault.Some? then Failed(w.launchFault.value)
    else if w.listFault.Some? then Failed(w.listFault.value)
    else
      RunResultsAt(w, products, |products|);
      SuccessesAreRecordedRows(w, products, |products|);
      Completed(Stats(RunResults(w, products, |products|)))
  }

  /** The module-level `isRunning` flag and the task it guards. The ghost
      counters count the runs begun and ended. */
  class Scheduler {
    var isRunning: bool
    var reports: seq<Report>
    ghost var started: nat
    ghost var finished: nat

    /** At most one run is in flight, and exactly one while the flag is set. */
    ghost predicate Valid()
      reads this
    {
      started == finished + (if isRunning then 1 else 0)
    }

    constructor ()
      ensures Valid() && !isRunning && reports == [] && started == 0 && finished == 0
    {
      isRunning := false;
      reports := [];
      started := 0;
      finished := 0;
    }

    /** The start of `task`: a trigger while a run is in flight is skipped;
        otherwise the flag is set before the scrape starts. */
    method Begin() returns (go: bool)
      requires Valid()
      modifies this
      ensures Valid() && isRunning
      ensures go == !old(isRunning)
      ensures go ==> started == old(started) + 1 && finished == old(finished) && reports == old(reports)
      ensures !go ==> started == old(started) && finished == old(finished) && reports == old(reports) + [Skipped]
    {
      if isRunning {
        reports := reports + [Skipped];
        return false;
      }
      isRunning := true;
      started := started + 1;
      go := true;
    }

    /** The end of `task`: log the counts or the caught error, and clear the
        flag whatever the run did. */
    method Finish(run: Outcome<seq<ScrapeResult>>)
      requires Valid() && isRunning
      modifies this
      ensures Valid() && !isRunning
      ensures started == old(started) && finished == old(finished) + 1
      ensures reports == old(reports) + [if run.Returned? then Completed(Stats(run.value)) else Failed(run.thrown)]
    {
      reports := reports + [if run.Returned? then Completed(Stats(run.value)) else Failed(run.thrown)];
      isRunning := false;
      finished := finished + 1;
    }

    /** `task`: one trigger run to its end. A trigger that finds a run in
        flight leaves the catalog alone; any other runs the scrape and leaves
        the flag cleared. */
    method Task(db: Catalog, w: World)
      requires Valid() && db.Valid()
      modifies this, db
      ensures Valid() && db.Valid()
      ensures old(isRunning) ==>
        && isRunning && started == old(started) && reports == old(reports) + [Skipped]
        && db.products == old(db.products) && db.priceHistories == old(db.priceHistories)
      ensures !old(isRunning) ==>
        && !isRunning && started == old(started) + 1 && finished == old(finished) + 1
        && reports == old(reports) + [RunReport(w, old(db.products))]
        && if w.launchFault.None? && w.listFault.None? then
             && db.products == RunProducts(w, old(db.products), |old(db.products)|)
             && db.priceHistories == old(db.priceHistories) + RunRows(w, old(db.products), |old(db.products)|)
           else
             db.products == old(db.products) && db.priceHistories == old(db.priceHistories)
    {
      var go := Begin();
      if go {
        var run, browser := ScrapeProducts(db, w);
        Finish(run);
      }
    }
  }
}
