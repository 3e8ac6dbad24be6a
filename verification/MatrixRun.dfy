/** The benchmark matrix's test loop: a queue for each group, a bounded list of active promises, counters.
    Every `await` is a point where the started tests may advance in any order. */
module MatrixRun {
  import opened Sequences
  import opened TestOrder

  /** Exit code zero, another exit code, or an exception while orchestrating the test. */
  datatype Outcome = Passed | Failed | Broke

  /** The group's files split into those queued, running and finished; the rest of `active` is finished but not
      settled. */
  ghost predicate Split(group: seq<string>, queue: seq<string>, active: seq<string>, running: set<string>,
                        started: seq<string>, finished: seq<string>) {
    && Distinct(group) && group == started + queue
    && Distinct(active) && (forall f :: f in active ==> f in started)
    && (forall f :: f in running ==> f in active)
    && Distinct(finished)
    && (forall f :: f in started <==> f in finished || f in running)
    && (forall f :: f in running ==> f !in finished)
  }

  /** With one promise at a time the tests finish in the order they start. */
  ghost predicate Serial(concurrency: nat, active: seq<string>, running: set<string>, started: seq<string>,
                         finished: seq<string>) {
    && |active| <= concurrency
    && (concurrency == 1 ==> started == finished + if running == {} then [] else active)
  }

  /** `globalRemainingFiles` after `launched` have been started. */
  function Unlaunched(counted: seq<string>, launched: seq<string>): seq<string> {
    Filter(file => file !in launched, counted)
  }

  function Without(file: string, files: seq<string>): seq<string> {
    Filter(f => f != file, files)
  }

  /** `splice(indexOf(file), 1)` */
  function Splice(files: seq<string>, file: string): (r: seq<string>)
    requires file in files
  {
    if files[0] == file then files[1..] else [files[0]] + Splice(files[1..], file)
  }

  class TestRun {
    const concurrency: nat
    const continueOnError: bool
    ghost const counted: seq<string>

    var queue: seq<string>
    var active: seq<string>
    var running: set<string>
    var passed: nat
    var failed: nat
    var completed: nat
    var remaining: seq<string>
    /** `process.exit(1)` was called. */
    var exited: bool

    ghost var group: seq<string>
    ghost var started: seq<string>
    ghost var finished: seq<string>
    /** The files started, and those finished, in earlier groups. */
    ghost var launched: seq<string>
    ghost var ended: seq<string>

    ghost predicate Valid()
      reads this
    {
      && concurrency >= 1
      && Split(group, queue, active, running, started, finished)
      && Serial(concurrency, active, running, started, finished)
      && completed == passed + failed == |ended| + |finished|
      && (!continueOnError ==> failed == if exited then 1 else 0)
      && (exited ==> !continueOnError)
      && remaining == Unlaunched(counted, launched + started)
    }

    ghost predicate Idle()
      reads this
    {
      group == [] && queue == [] && active == [] && running == {} && started == [] && finished == []
    }

    constructor (concurrency: nat, continueOnError: bool, counted: seq<string>)
      requires concurrency >= 1
      ensures Valid() && Idle() && launched == [] && ended == [] && !exited
      ensures this.concurrency == concurrency && this.continueOnError == continueOnError && this.counted == counted
      ensures passed == 0 && failed == 0 && completed == 0
    {
      this.concurrency, this.continueOnError, this.counted := concurrency, continueOnError, counted;
      queue, active, running := [], [], {};
      passed, failed, completed := 0, 0, 0;
      remaining := counted;
      exited := false;
      group, started, finished, launched, ended := [], [], [], [], [];
      new;
      EmptySplit(concurrency);
      NothingLaunched(counted);
    }

    /** The body of the inner loop up to the first `await` of the test it starts. */
    method StartNext()
      requires Valid() && !exited && queue != [] && |active| < concurrency
      modifies `queue, `active, `running, `remaining, `started
      ensures Valid()
      ensures queue == old(queue[1..]) && active == old(active + [queue[0]]) && running == old(running + {queue[0]})
      ensures started == old(started + [queue[0]]) && remaining == Without(old(queue[0]), old(remaining))
    {
      hide Split, Serial, Unlaunched, Without;
      var file := queue[0];
      StartKeepsSplit(group, queue, active, running, started, finished);
      StartKeepsSerial(concurrency, group, queue, active, running, started, finished);
      Relaunch(counted, launched, started, file);
      queue := queue[1..];
      remaining := Filter(f => f != file, remaining);
      running := running + {file};
      active := active + [file];
      started := started + [file];
      assert remaining == Without(file, old(remaining)) by { WithoutIs(file, old(remaining)); }
    }

    /** The test process of `file` ends, or orchestrating it throws. */
    method TestEnds(file: string, outcome: Outcome)
      requires Valid() && !exited && file in running
      modifies `running, `passed, `failed, `completed, `exited, `finished
      ensures Valid()
      ensures running == old(running) - {file} && |running| == old(|running|) - 1
      ensures finished == old(finished) + [file] && completed == old(completed) + 1
      ensures passed == old(passed) + (if outcome == Passed then 1 else 0)
      ensures failed == old(failed) + (if outcome == Passed then 0 else 1)
      ensures exited <==> outcome != Passed && !continueOnError
    {
      hide Split, Serial, Unlaunched;
      EndKeepsSplit(group, queue, active, running, started, finished, file);
      EndKeepsSerial(concurrency, group, queue, active, running, started, finished, file);
      running := running - {file};
      completed := completed + 1;
      finished := finished + [file];
      if outcome == Passed {
        passed := passed + 1;
      } else {
        failed := failed + 1;
        if !continueOnError { exited := true; }
      }
    }

    /** The promise of `file` resolves and its callback removes it from the active list. */
    method Settles(file: string)
      requires Valid() && file in active && file !in running
      modifies `active
      ensures Valid() && active == Splice(old(active), file) && |active| == old(|active|) - 1
    {
      hide Split, Serial, Unlaunched, Splice;
      SpliceLength(active, file);
      SettleKeepsSplit(group, queue, active, running, started, finished, file);
      SettleKeepsSerial(concurrency, group, queue, active, running, started, finished, file);
      active := Splice(active, file);
    }

    /** `await Promise.race(activePromises)`: any events, in any order, of which at least one settles a promise. */
    method AwaitRace()
      requires Valid() && !exited && active != []
      modifies `running, `passed, `failed, `completed, `exited, `finished, `active
      ensures Valid()
      ensures !exited ==> |active| + |running| < old(|active| + |running|)
    {
      hide Valid, Splice;
      var more := true;
      while more && !exited && active != []
        invariant Valid()
        invariant |active| <= old(|active|) && |running| <= old(|running|)
        invariant !more ==> |active| < old(|active|)
        decreases |active| + |running|
      {
        var i: nat :| i < |active|;
        var file := active[i];
        if file in running {
          var outcome: Outcome := *;
          TestEnds(file, outcome);
        } else {
          Settles(file);
          more := *;
        }
      }
    }

    method StartTests()
      requires Valid() && !exited
      modifies `queue, `active, `running, `remaining, `started
      ensures Valid() && (|active| == concurrency || queue == [])
      ensures 3 * |queue| + |active| + |running| <= old(3 * |queue| + |active| + |running|)
      ensures active == [] ==> old(active == [] && queue == [])
    {
      hide Split, Unlaunched, Without;
      while |active| < concurrency && queue != []
        invariant Valid() && |active| >= old(|active|)
        invariant 3 * |queue| + |active| + |running| <= old(3 * |queue| + |active| + |running|)
        invariant active == [] ==> queue == old(queue)
        decreases |queue|
      {
        StartNext();
      }
    }

    method BeginGroup(files: seq<string>)
      requires Valid() && Idle() && Distinct(files)
      modifies `queue, `group
      ensures Valid() && queue == group == files
    {
      hide Split, Serial, Unlaunched;
      queue, group := files, files;
      QueuedSplit(concurrency, files);
    }

    ghost method EndGroup() returns (order: seq<string>)
      requires Valid() && queue == [] && active == []
      modifies `launched, `ended, `group, `started, `finished
      ensures Valid() && Idle()
      ensures launched == old(launched) + old(group) && ended == old(ended) + order
      ensures multiset(order) == multiset(old(group)) && |order| == |old(group)|
      ensures concurrency == 1 ==> order == old(group)
    {
      hide Split, Serial, Unlaunched;
      FinishedGroup(concurrency, group, queue, active, running, started, finished);
      order := finished;
      launched, ended := launched + started, ended + finished;
      NothingStarted(launched);
      group, started, finished := [], [], [];
      EmptySplit(concurrency);
    }

    /** One group, for every interleaving: each file runs once and is counted once, or the process is gone. */
    method RunGroup(files: seq<string>) returns (ghost order: seq<string>)
      requires Valid() && Idle() && !exited && Distinct(files)
      modifies this
      ensures Valid()
      ensures !exited ==> Idle() && launched == old(launched) + files && ended == old(ended) + order
      ensures !exited ==> multiset(order) == multiset(files) && |order| == |files|
      ensures !exited && concurrency == 1 ==> order == files
    {
      order := [];
      BeginGroup(files);
      Drain();
      if !exited { order := EndGroup(); }
    }

    /** The `while (groupQueue.length > 0 || activePromises.length > 0)` loop. */
    method Drain()
      requires Valid() && !exited
      modifies `queue, `active, `running, `remaining, `started, `passed, `failed, `completed, `exited, `finished
      ensures Valid() && (exited || (queue == [] && active == []))
    {
      hide Valid;
      while !exited && (queue != [] || active != [])
        invariant Valid()
        decreases !exited, 3 * |queue| + |active| + |running|
      {
        StartTests();
        if active != [] { AwaitRace(); }
      }
    }

    /** What the counters say once the loop is over. */
    lemma Tally()
      requires Valid()
      ensures exited ==> !continueOnError && failed == 1
      ensures completed == passed + failed
      ensures Idle() ==> completed == |ended| && remaining == Unlaunched(counted, launched)
      ensures !continueOnError && !exited ==> failed == 0
    {
      hide Split, Serial, Unlaunched;
      NothingStarted(launched);
    }

    /** All groups. In continue-on-error mode the loop always completes, whatever the tests do. */
    method RunAll(ordered: seq<string>, skip: set<string>, groups: Groups)
      requires Valid() && Idle() && launched == [] && ended == [] && !exited
      requires Distinct(ordered) && counted == NotSkipped(ordered, skip)
      modifies this
      ensures continueOnError ==> !exited
      ensures exited ==> failed == 1
      ensures completed == passed + failed
      ensures !exited ==> launched == RunList(ordered, skip, groups) && multiset(ended) == multiset(launched)
      ensures !exited ==> completed == |RunList(ordered, skip, groups)| && active == []
      ensures !exited && !continueOnError ==> failed == 0
      ensures !exited && concurrency == 1 ==> ended == RunList(ordered, skip, groups)
      ensures !exited ==> remaining == Unlaunched(counted, RunList(ordered, skip, groups))
    {
      hide Valid, Unlaunched, Distinct, RunList, GroupFiles;
      var g := 0;
      NoGroups(ordered, skip, groups);
      while g < |groups| && !exited
        invariant g <= |groups| && Valid()
        invariant !exited ==> Idle()
        invariant !exited ==> launched == RunList(ordered, skip, groups[..g])
        invariant !exited ==> multiset(ended) == multiset(launched) && |ended| == |launched|
        invariant !exited && concurrency == 1 ==> ended == launched
      {
        var files := GroupFiles(ordered, skip, groups[g]);
        GroupFilesDistinct(ordered, skip, groups[g]);
        RunListStep(ordered, skip, groups, g);
        if files != [] {
          ghost var order := RunGroup(files);
        }
        g := g + 1;
      }
      Tally();
      assert !exited ==> groups[..g] == groups;
    }
  }

  // ------------------------------------------------------------------
  // Steps, on values
  // ------------------------------------------------------------------

  lemma EmptySplit(concurrency: nat)
    ensures Split([], [], [], {}, [], []) && Serial(concurrency, [], {}, [], [])
  {
  }

  lemma QueuedSplit(concurrency: nat, files: seq<string>)
    requires Distinct(files)
    ensures Split(files, files, [], {}, [], []) && Serial(concurrency, [], {}, [], [])
  {
  }

  lemma NextIsNew(group: seq<string>, started: seq<string>, queue: seq<string>)
    requires Distinct(group) && group == started + queue && queue != []
    ensures queue[0] !in started
  {
    assert group[|started|] == queue[0];
    forall i | 0 <= i < |started| ensures started[i] != queue[0] {
      assert group[i] == started[i];
    }
  }

  lemma StartKeepsSplit(group: seq<string>, queue: seq<string>, active: seq<string>, running: set<string>,
                        started: seq<string>, finished: seq<string>)
    requires Split(group, queue, active, running, started, finished) && queue != []
    ensures Split(group, queue[1..], active + [queue[0]], running + {queue[0]}, started + [queue[0]], finished)
  {
    hide Distinct;
    var file := queue[0];
    NextIsNew(group, started, queue);
    DistinctSnoc(active, file);
    assert started + [file] + queue[1..] == group;
  }

  lemma StartKeepsSerial(concurrency: nat, group: seq<string>, queue: seq<string>, active: seq<string>,
                         running: set<string>,
                         started: seq<string>, finished: seq<string>)
    requires Split(group, queue, active, running, started, finished) && queue != []
    requires Serial(concurrency, active, running, started, finished) && |active| < concurrency
    ensures Serial(concurrency, active + [queue[0]], running + {queue[0]}, started + [queue[0]], finished)
  {
  }

  lemma EndKeepsSplit(group: seq<string>, queue: seq<string>, active: seq<string>, running: set<string>,
                      started: seq<string>, finished: seq<string>, file: string)
    requires Split(group, queue, active, running, started, finished) && file in running
    ensures Split(group, queue, active, running - {file}, started, finished + [file])
  {
    DistinctSnoc(finished, file);
  }

  lemma EndKeepsSerial(concurrency: nat, group: seq<string>, queue: seq<string>, active: seq<string>,
                       running: set<string>,
                       started: seq<string>, finished: seq<string>, file: string)
    requires Split(group, queue, active, running, started, finished) && file in running
    requires Serial(concurrency, active, running, started, finished)
    ensures Serial(concurrency, active, running - {file}, started, finished + [file])
  {
  }

  lemma {:induction false} SpliceLength(files: seq<string>, file: string)
    requires file in files
    ensures |Splice(files, file)| == |files| - 1
  {
    if files[0] != file { SpliceLength(files[1..], file); }
  }

  lemma {:induction false} SpliceMember(files: seq<string>, file: string, x: string)
    requires file in files && Distinct(files)
    ensures Distinct(Splice(files, file))
    ensures x in Splice(files, file) <==> x in files && x != file
  {
    hide Distinct;
    assert files == [files[0]] + files[1..];
    DistinctCons(files[0], files[1..]);
    if files[0] != file {
      SpliceMember(files[1..], file, x);
      SpliceMember(files[1..], file, files[0]);
      DistinctCons(files[0], Splice(files[1..], file));
    }
  }

  lemma SettleKeepsSplit(group: seq<string>, queue: seq<string>, active: seq<string>, running: set<string>,
                         started: seq<string>, finished: seq<string>, file: string)
    requires Split(group, queue, active, running, started, finished) && file in active && file !in running
    ensures Split(group, queue, Splice(active, file), running, started, finished)
  {
    hide Distinct, Splice;
    forall f ensures f in Splice(active, file) <==> f in active && f != file {
      SpliceMember(active, file, f);
    }
    SpliceMember(active, file, file);
  }

  lemma SettleKeepsSerial(concurrency: nat, group: seq<string>, queue: seq<string>, active: seq<string>,
                          running: set<string>,
                          started: seq<string>, finished: seq<string>, file: string)
    requires Split(group, queue, active, running, started, finished) && file in active && file !in running
    requires Serial(concurrency, active, running, started, finished)
    ensures Serial(concurrency, Splice(active, file), running, started, finished)
  {
    hide Distinct, Splice;
    SpliceLength(active, file);
    if concurrency == 1 {
      assert file in active;
      assert active == [file];
      assert running == {};
    }
  }

  lemma FinishedGroup(concurrency: nat, group: seq<string>, queue: seq<string>, active: seq<string>,
                      running: set<string>,
                      started: seq<string>, finished: seq<string>)
    requires Split(group, queue, active, running, started, finished) && queue == [] && active == []
    requires Serial(concurrency, active, running, started, finished)
    ensures running == {} && started == group && multiset(finished) == multiset(group) && |finished| == |group|
    ensures concurrency == 1 ==> finished == group
  {
    hide Distinct;
    assert running == {};
    assert started == group;
    SameMembersSameMultiset(finished, group);
    assert |finished| == |multiset(finished)| == |multiset(group)| == |group|;
  }

  // ------------------------------------------------------------------
  // What is left to run
  // ------------------------------------------------------------------

  lemma NothingLaunched(counted: seq<string>)
    ensures Unlaunched(counted, [] + []) == counted
  {
    FilterAll(file => file !in [] + [], counted);
  }

  lemma NothingStarted(launched: seq<string>)
    ensures launched + [] == launched
  {
  }

  lemma WithoutIs(file: string, files: seq<string>)
    ensures Filter(f => f != file, files) == Without(file, files)
  {
    FilterSame(f => f != file, f => f != file, files);
  }

  lemma Relaunch(counted: seq<string>, launched: seq<string>, started: seq<string>, file: string)
    ensures Without(file, Unlaunched(counted, launched + started)) == Unlaunched(counted, launched + (started + [file]))
  {
    FilterTwice(f => f !in launched + started, f => f != file, f => f !in launched + (started + [file]), counted);
  }

  lemma GroupFilesDistinct(ordered: seq<string>, skip: set<string>, tests: seq<string>)
    requires Distinct(ordered)
    ensures Distinct(GroupFiles(ordered, skip, tests))
  {
    FilterDistinct(file => Runs(skip, tests, file), ordered);
  }

  lemma NoGroups(ordered: seq<string>, skip: set<string>, groups: Groups)
    ensures RunList(ordered, skip, groups[..0]) == []
  {
  }

  lemma RunListCons(ordered: seq<string>, skip: set<string>, tests: seq<string>, groups: Groups)
    ensures RunList(ordered, skip, [tests] + groups) ==
            GroupFiles(ordered, skip, tests) + RunList(ordered, skip, groups)
  {
    assert ([tests] + groups)[1..] == groups;
  }

  lemma {:induction false} RunListSnoc(ordered: seq<string>, skip: set<string>, groups: Groups, tests: seq<string>)
    ensures RunList(ordered, skip, groups + [tests]) ==
            RunList(ordered, skip, groups) + GroupFiles(ordered, skip, tests)
    decreases |groups|, 1
  {
    hide GroupFiles;
    if groups == [] {
      assert groups + [tests] == [tests];
      RunListCons(ordered, skip, tests, []);
    } else {
      assert groups == [groups[0]] + groups[1..];
      RunListTail(ordered, skip, groups[0], groups[1..], tests);
    }
  }

  lemma {:induction false} RunListTail(ordered: seq<string>, skip: set<string>, head: seq<string>, tail: Groups,
                                       tests: seq<string>)
    ensures RunList(ordered, skip, [head] + tail + [tests]) ==
            RunList(ordered, skip, [head] + tail) + GroupFiles(ordered, skip, tests)
    decreases |tail| + 1, 0
  {
    hide RunList, GroupFiles;
    RunListSnoc(ordered, skip, tail, tests);
    RunListCons(ordered, skip, head, tail);
    RunListCons(ordered, skip, head, tail + [tests]);
    Associative([head], tail, [tests]);
    Associative(GroupFiles(ordered, skip, head), RunList(ordered, skip, tail), GroupFiles(ordered, skip, tests));
  }

  lemma RunListStep(ordered: seq<string>, skip: set<string>, groups: Groups, g: nat)
    requires g < |groups|
    ensures RunList(ordered, skip, groups[..g + 1]) ==
            RunList(ordered, skip, groups[..g]) + GroupFiles(ordered, skip, groups[g])
  {
    assert groups[..g + 1] == groups[..g] + [groups[g]];
    RunListSnoc(ordered, skip, groups[..g], groups[g]);
  }

  /** When the groups are done, what still counts as remaining is exactly the unskipped tests that no group names. */
  lemma UngroupedRemain(ordered: seq<string>, skip: set<string>, groups: Groups, file: string)
    requires Distinct(ordered)
    ensures file in Unlaunched(NotSkipped(ordered, skip), RunList(ordered, skip, groups)) <==>
            file in ordered && TestName(file) !in skip && TestName(file) !in Names(groups)
  {
    hide TestName, Distinct, Names, RunList, Mentions;
    var launched := RunList(ordered, skip, groups);
    FilterMember(f => f !in launched, NotSkipped(ordered, skip), file);
    FilterMember(f => TestName(f) !in skip, ordered, file);
    RunCount(ordered, skip, groups, file);
    NoMention(groups, TestName(file));
    assert file in launched <==> file in multiset(launched);
  }
}
