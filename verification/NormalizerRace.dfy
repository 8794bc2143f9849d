/**
 A run with an unsafe removal. The compensation checks for a reference and
 removes in two steps, so an attempt with the same output can commit in between.
 */
module NormalizerRace {
  import opened Options
  import opened Transitions
  import opened NormalizerDb
  import opened NormalizerSystem
  import opened NormalizerRuns
  import opened NormalizerFinals

  /******* The run *******/

  const EMPTY := State(0, Db([], map[], map[]), map[], map[], {}, map[])
  const SOURCE: Bytes := [1]
  const OUTPUT: Bytes := [2]

  const CLAIM1 := Claim(0, "a", Source(SourceKey("a"), Sha256(SOURCE), 1), 1)
  const CLAIM2 := Claim(1, "a", Source(SourceKey("a"), Sha256(SOURCE), 1), 2)
  const FINAL := FinalKey(Sha256(OUTPUT))

  lemma Extend(s: State, run: seq<Action>, a: Action) returns (longer: seq<Action>)
    requires ValidRun(s, run) && Enabled(After(s, run), a)
    ensures longer == run + [a] && ValidRun(s, longer)
    ensures After(s, longer) == Apply(After(s, run), a)
  {
    longer := run + [a];
    RunAppend(s, run, a);
  }

  const READY_REEL := Reel(Ready, Some(CLAIM1.source), Some(FINAL), true, None)
  const FAILED_JOB := Job("a", JobFailed, 1, Some(StaleLeaseRecovered), None, None, Some(1))

  /** The rows while worker 1 runs, after its job was recovered, while worker 2 runs, and after its commit. */
  function Rows(stage: nat): Db {
    var source := Some(CLAIM1.source);
    if stage == 0 then
      Db([Job("a", Running, 1, None, Some(1), Some(1800), Some(1))],
         map["a" := Reel(Normalizing, source, None, false, None)], map[])
    else if stage == 1 then
      Db([FAILED_JOB, NewJob("a", 1)], map["a" := Reel(SourceReady, source, None, false, None)], map[])
    else if stage == 2 then
      Db([FAILED_JOB, Job("a", Running, 2, None, Some(2), Some(3601), Some(2))],
         map["a" := Reel(Normalizing, source, None, false, None)], map[])
    else
      Db([FAILED_JOB, Job("a", Completed, 2, None, None, None, Some(2))],
         map["a" := READY_REEL], map[FINAL := Video(Some(Sha256(OUTPUT)), 1)])
  }

  const SOURCES := map[SourceKey("a") := SOURCE]
  const STAGED := SOURCES[StagingKey(0, 1) := OUTPUT]
  const PUBLISHED := STAGED[FINAL := OUTPUT]
  const RESTAGED := PUBLISHED[StagingKey(1, 2) := OUTPUT]

  lemma SourceArrives() returns (run: seq<Action>)
    ensures ValidRun(EMPTY, run)
    ensures After(EMPTY, run) ==
            State(0, Db([NewJob("a", 0)], map["a" := Reel(SourceReady, Some(CLAIM1.source), None, false, None)], map[]),
                  SOURCES, map[], {}, map[])
  {
    run := Extend(EMPTY, [], Publish("a", SOURCE));
    hide ValidRun;
    hide After;
    run := Extend(EMPTY, run, CommitSource("a"));
  }

  lemma WorkerOneClaims() returns (run: seq<Action>)
    ensures ValidRun(EMPTY, run)
    ensures After(EMPTY, run) == State(0, Rows(0), SOURCES, map[1 := NormalizeMedia(CLAIM1)], {}, map[])
  {
    run := SourceArrives();
    hide ValidRun;
    hide After;
    run := Extend(EMPTY, run, ClaimJob(1, 0, 1800));
    assert After(EMPTY, run) == State(0, Rows(0), SOURCES, map[1 := StatSource(CLAIM1)], {}, map[]);
    run := Extend(EMPTY, run, Proceed(1));
    assert After(EMPTY, run) == State(0, Rows(0), SOURCES, map[1 := DownloadSource(CLAIM1)], {}, map[]);
    run := Extend(EMPTY, run, Proceed(1));
  }

  lemma WorkerOneStages() returns (run: seq<Action>)
    ensures ValidRun(EMPTY, run)
    ensures After(EMPTY, run) == State(0, Rows(0), STAGED, map[1 := StatFinal(CLAIM1, OUTPUT)], {}, map[])
  {
    run := WorkerOneClaims();
    hide ValidRun;
    hide After;
    run := Extend(EMPTY, run, Produce(1, OUTPUT));
    run := Extend(EMPTY, run, Proceed(1));
  }

  lemma WorkerOnePublishes() returns (run: seq<Action>)
    ensures ValidRun(EMPTY, run)
    ensures After(EMPTY, run) == State(0, Rows(0), PUBLISHED, map[1 := CommitReady(CLAIM1, OUTPUT, true)], {}, map[])
  {
    run := WorkerOneStages();
    hide ValidRun;
    hide After;
    run := Extend(EMPTY, run, Proceed(1));
    assert After(EMPTY, run) == State(0, Rows(0), STAGED, map[1 := CopyFinal(CLAIM1, OUTPUT)], {}, map[]);
    run := Extend(EMPTY, run, Proceed(1));
    assert After(EMPTY, run) == State(0, Rows(0), PUBLISHED, map[1 := VerifyFinal(CLAIM1, OUTPUT, true)], {}, map[]);
    run := Extend(EMPTY, run, Proceed(1));
  }

  /** Worker 1's lease of half an hour runs out and its job is recovered. */
  lemma WorkerOneStalls() returns (run: seq<Action>)
    ensures ValidRun(EMPTY, run)
    ensures After(EMPTY, run) == State(1801, Rows(1), PUBLISHED, map[1 := CommitReady(CLAIM1, OUTPUT, true)], {}, map[])
  {
    run := WorkerOnePublishes();
    hide ValidRun;
    hide After;
    run := Extend(EMPTY, run, Tick(1801));
    run := Extend(EMPTY, run, Recover(0));
  }

  /** Worker 2 claims the requeued job and reads the same source. */
  lemma WorkerTwoTakesOver() returns (run: seq<Action>)
    ensures ValidRun(EMPTY, run)
    ensures After(EMPTY, run) == State(1801, Rows(2), PUBLISHED,
                                       map[1 := CommitReady(CLAIM1, OUTPUT, true), 2 := NormalizeMedia(CLAIM2)], {}, map[])
  {
    run := WorkerOneStalls();
    hide ValidRun;
    hide After;
    var one := CommitReady(CLAIM1, OUTPUT, true);
    run := Extend(EMPTY, run, ClaimJob(2, 1, 1800));
    assert After(EMPTY, run) == State(1801, Rows(2), PUBLISHED, map[1 := one, 2 := StatSource(CLAIM2)], {}, map[]);
    run := Extend(EMPTY, run, Proceed(2));
    assert After(EMPTY, run) == State(1801, Rows(2), PUBLISHED, map[1 := one, 2 := DownloadSource(CLAIM2)], {}, map[]);
    run := Extend(EMPTY, run, Proceed(2));
  }

  /** Worker 2 makes the same output, finds it published and verifies it. */
  lemma WorkerTwoReusesFinal() returns (run: seq<Action>)
    ensures ValidRun(EMPTY, run)
    ensures After(EMPTY, run) == State(1801, Rows(2), RESTAGED,
                                       map[1 := CommitReady(CLAIM1, OUTPUT, true),
                                           2 := CommitReady(CLAIM2, OUTPUT, false)], {}, map[])
  {
    run := WorkerTwoTakesOver();
    hide ValidRun;
    hide After;
    var one := CommitReady(CLAIM1, OUTPUT, true);
    run := Extend(EMPTY, run, Produce(2, OUTPUT));
    run := Extend(EMPTY, run, Proceed(2));
    assert After(EMPTY, run) == State(1801, Rows(2), RESTAGED, map[1 := one, 2 := StatFinal(CLAIM2, OUTPUT)], {}, map[]);
    run := Extend(EMPTY, run, Proceed(2));
    assert After(EMPTY, run) ==
           State(1801, Rows(2), RESTAGED, map[1 := one, 2 := VerifyFinal(CLAIM2, OUTPUT, false)], {}, map[]);
    run := Extend(EMPTY, run, Proceed(2));
  }

  /** Worker 1 loses its commit and finds no row naming its object. */
  lemma WorkerOneChecks() returns (run: seq<Action>)
    ensures ValidRun(EMPTY, run)
    ensures After(EMPTY, run) == State(1801, Rows(2), RESTAGED,
                                       map[1 := RemoveFinal(CLAIM1, OUTPUT, Cancelled),
                                           2 := CommitReady(CLAIM2, OUTPUT, false)], {}, map[])
  {
    run := WorkerTwoReusesFinal();
    hide ValidRun;
    hide After;
    run := Extend(EMPTY, run, Proceed(1));
    var two := CommitReady(CLAIM2, OUTPUT, false);
    assert After(EMPTY, run) ==
           State(1801, Rows(2), RESTAGED, map[1 := CheckReference(CLAIM1, OUTPUT, Cancelled), 2 := two], {}, map[]);
    run := Extend(EMPTY, run, Proceed(1));
  }

  lemma Unsafe(s: State, run: seq<Action>)
    requires Initial(s) && ValidRun(s, run)
    requires FINAL in After(s, run).db.videos && FINAL !in After(s, run).objects
    ensures !NeverUnsafe(s, run)
  {
    assert !VideoStored(After(s, run), FINAL);
    FinalsSafeExactly(s, run);
    if AlwaysSafe(s, run) {
      SafeAtEnd(s, run);
    }
  }

  /** Worker 2 commits and worker 1 removes: the reel is READY and its video's object is gone. */
  lemma SharedOutputLosesFinal() returns (run: seq<Action>)
    ensures Initial(EMPTY) && ValidRun(EMPTY, run)
    ensures !NeverUnsafe(EMPTY, run)
    ensures var s := After(EMPTY, run);
            && IsReady(s, "a") && s.db.reels["a"].video == Some(FINAL)
            && FINAL in s.db.videos && FINAL !in s.objects
  {
    run := WorkerOneChecks();
    hide ValidRun;
    hide After;
    run := Extend(EMPTY, run, Proceed(2));
    var one := RemoveFinal(CLAIM1, OUTPUT, Cancelled);
    assert After(EMPTY, run) == State(1801, Rows(3), RESTAGED, map[1 := one, 2 := RemoveSource(CLAIM2)], {}, map[]);
    run := Extend(EMPTY, run, Proceed(1));
    Unsafe(EMPTY, run);
  }
}
