/**
 The manager process (P3 src/manager.c): it owns the process table of the
 workers and the counter, creates the five queues and preloads the mutex
 token, spawns the children, sends one task per input line, adds up one
 partial result per line and tears everything down.

 fork outcomes, the input file and the arrival order of the results are
 inputs; what the manager does to its environment (queue creation, sends
 and receives, spawns, signals, unlinks, exit) is recorded as a log of
 actions.
 */
module Manager {
  import opened Definitions
  import opened CStrings
  import Processor

  const SIGINT: int := 2
  const EXIT_SUCCESS: int := 0
  const EXIT_FAILURE: int := 1

  /** One operation of the manager on its environment. */
  datatype Action =
    | CreateQueue(q: Queue, maxMsg: int, msgSize: nat)
    | QueueOp(e: Event)
    | Spawn(path: string, name: string, pid: int)
    | Kill(pid: int, signal: int)
    | CloseQueue(q: Queue)
    | UnlinkQueue(q: Queue)
    | Exit(status: int)

  // ---------------------------------------------------------------------
  // Process classes.

  /**
   get_str_process_info: the executable path and the class name of a process
   class. The name maps back to the class, and every program lives under ./exec/.
   */
  function ProcessInfo(c: ProcessClass): (r: (string, string))
    ensures ClassOfName(r.1) == Some(c)
    ensures |r.0| > 7 && r.0[..7] == "./exec/"
  {
    match c
    case PROCESSOR => (PROCESSOR_PATH, PROCESSOR_CLASS)
    case COUNTER => (COUNTER_PATH, COUNTER_CLASS)
  }

  /** The class a class name stands for. */
  function ClassOfName(name: string): Option<ProcessClass> {
    if name == PROCESSOR_CLASS then Some(PROCESSOR)
    else if name == COUNTER_CLASS then Some(COUNTER)
    else None
  }

  /** The class name stored in a table entry identifies its class, and the two classes run different programs. */
  lemma ProcessInfoIdentifiesClass(c: ProcessClass, d: ProcessClass)
    ensures ClassOfName(ProcessInfo(c).1) == Some(c)
    ensures c != d ==> ProcessInfo(c).0 != ProcessInfo(d).0 && ProcessInfo(c).1 != ProcessInfo(d).1
  {
    assert PROCESSOR_CLASS[0] != COUNTER_CLASS[0];
    assert PROCESSOR_PATH[7] != COUNTER_PATH[7];
  }

  // ---------------------------------------------------------------------
  // Fork outcomes.

  /** fork either fails (-1) or, in the parent, returns the child's pid. */
  predicate ForkOutcomes(forks: seq<int>) {
    forall k :: 0 <= k < |forks| ==> forks[k] == -1 || forks[k] > 0
  }

  /** The number of forks that succeed before the first failure. */
  function FirstFailure(forks: seq<int>): (f: nat)
    ensures f <= |forks|
    ensures -1 !in forks[..f]
    ensures f < |forks| ==> forks[f] == -1
  {
    if forks == [] || forks[0] == -1 then 0
    else
      var f := 1 + FirstFailure(forks[1..]);
      assert forks[..f] == [forks[0]] + forks[1..][..f - 1];
      f
  }

  /** The characterisation of FirstFailure: a failure-free prefix ending at a failure or at the end. */
  lemma FirstFailureIs(forks: seq<int>, i: nat)
    requires i <= |forks| && -1 !in forks[..i] && (i < |forks| ==> forks[i] == -1)
    ensures FirstFailure(forks) == i
  {
    var f := FirstFailure(forks);
    assert forall k :: 0 <= k < i ==> forks[k] == forks[..i][k];
    assert forall k :: 0 <= k < f ==> forks[k] == forks[..f][k];
  }

  // ---------------------------------------------------------------------
  // The log the manager writes.

  /** One spawn per successful fork, in order. */
  function Spawns(path: string, name: string, pids: seq<int>): (r: seq<Action>)
    ensures |r| == |pids|
    ensures forall i :: 0 <= i < |r| ==> r[i] == Spawn(path, name, pids[i])
  {
    if pids == [] then [] else Spawns(path, name, pids[..|pids| - 1]) + [Spawn(path, name, pids[|pids| - 1])]
  }

  /** terminate_processes over a table: SIGINT to each entry with a non-zero pid, in index order. */
  function Kills(t: seq<TProcess>): (r: seq<Action>)
    ensures |r| <= |t|
  {
    if t == [] then []
    else Kills(t[..|t| - 1]) + (if t[|t| - 1].pid != 0 then [Kill(t[|t| - 1].pid, SIGINT)] else [])
  }

  /** SIGINT to each of the given pids, in order. */
  function SigintAll(pids: seq<int>): (r: seq<Action>)
    ensures |r| == |pids|
    ensures forall i :: 0 <= i < |r| ==> r[i] == Kill(pids[i], SIGINT)
  {
    if pids == [] then [] else SigintAll(pids[..|pids| - 1]) + [Kill(pids[|pids| - 1], SIGINT)]
  }

  /** free_resources: the five queues are unlinked. */
  function Unlinks(): seq<Action> {
    [UnlinkQueue(MqLines), UnlinkQueue(MqResults), UnlinkQueue(MqWords), UnlinkQueue(MqNumberDigits), UnlinkQueue(MqMutex)]
  }

  /** close_message_queues */
  function Closes(): seq<Action> {
    [CloseQueue(MqLines), CloseQueue(MqResults), CloseQueue(MqWords), CloseQueue(MqNumberDigits), CloseQueue(MqMutex)]
  }

  /**
   The five queues with their capacities and message sizes, then the one
   mutex token: the lines and results queues hold n_processors messages,
   the words, digits and mutex queues one.
   */
  function SetupLog(nProcessors: nat): seq<Action> {
    [ CreateQueue(MqLines, nProcessors, MSG_LINE_SIZE),
      CreateQueue(MqResults, nProcessors, MSG_RESULT_SIZE),
      CreateQueue(MqWords, 1, MAX_LINE_SIZE * CHAR_SIZE),
      CreateQueue(MqNumberDigits, 1, INT_SIZE),
      CreateQueue(MqMutex, 1, CHAR_SIZE),
      QueueOp(Send(MqMutex, TokenMsg)) ]
  }

  /** The line tasks for the lines of the input file: each line with the same pattern. */
  function Tasks(lines: seq<string>, pattern: string): seq<MsgLine> {
    seq(|lines|, i requires 0 <= i < |lines| => MsgLine(CStr(lines[i]), CStr(pattern)))
  }

  /** One send on MQ_LINES per task, in order. */
  function Dispatches(tasks: seq<MsgLine>): seq<Action> {
    seq(|tasks|, i requires 0 <= i < |tasks| => QueueOp(Send(MqLines, LineMsg(tasks[i]))))
  }

  /** One receive on MQ_RESULTS per result, in order. */
  function Collects(results: seq<MsgResult>): seq<Action> {
    seq(|results|, i requires 0 <= i < |results| => QueueOp(Recv(MqResults, ResultMsg(results[i]))))
  }

  /** The field-wise sum of a sequence of results. */
  function SumResults(rs: seq<MsgResult>): MsgResult {
    if rs == [] then MsgResult(0, 0)
    else
      var s := SumResults(rs[..|rs| - 1]);
      MsgResult(s.nWords + rs[|rs| - 1].nWords, s.nDigits + rs[|rs| - 1].nDigits)
  }

  // ---------------------------------------------------------------------
  // Properties of the log pieces.

  /** Only live entries are signalled, each with SIGINT. */
  lemma {:induction false} KillsTargets(t: seq<TProcess>, pid: int, sig: int)
    ensures Kill(pid, sig) in Kills(t) <==> sig == SIGINT && pid != 0 && exists i :: 0 <= i < |t| && t[i].pid == pid
  {
    if t != [] {
      var init := t[..|t| - 1];
      KillsTargets(init, pid, sig);
      if exists i :: 0 <= i < |init| && init[i].pid == pid {
        var i :| 0 <= i < |init| && init[i].pid == pid;
        assert t[i] == init[i];
      }
      if exists i :: 0 <= i < |t| && t[i].pid == pid {
        var i :| 0 <= i < |t| && t[i].pid == pid;
        if i < |init| {
          assert init[i] == t[i];
        }
      }
    }
  }

  /** Signalling walks the table in index order: a table's front is signalled before its back. */
  lemma {:induction false} KillsAppend(a: seq<TProcess>, b: seq<TProcess>)
    ensures Kills(a + b) == Kills(a) + Kills(b)
    decreases |b|
  {
    if b == [] {
      assert a + b == a;
    } else {
      var b' := b[..|b| - 1];
      assert (a + b)[..|a + b| - 1] == a + b';
      KillsAppend(a, b');
      AppendAssoc(Kills(a), Kills(b'), if b[|b| - 1].pid != 0 then [Kill(b[|b| - 1].pid, SIGINT)] else []);
    }
  }

  /**
   A table whose first |pids| entries hold those (live) pids and whose other
   entries still hold the 0 written at initialisation is torn down by
   signalling exactly those pids, in order.
   */
  lemma {:induction false} KillsOfLaunched(t: seq<TProcess>, pids: seq<int>)
    requires |pids| <= |t|
    requires forall i :: 0 <= i < |pids| ==> t[i].pid == pids[i] && pids[i] != 0
    requires forall i :: |pids| <= i < |t| ==> t[i].pid == 0
    ensures Kills(t) == SigintAll(pids)
  {
    if t != [] {
      var init := t[..|t| - 1];
      if |pids| == |t| {
        KillsOfLaunched(init, pids[..|pids| - 1]);
      } else {
        KillsOfLaunched(init, pids);
      }
    }
  }

  /**
   A fork failure among the processors: the log so far is the launch log, and
   the teardown signals exactly the processors spawned before the failure.
   */
  lemma ProcessorFailure(t: seq<TProcess>, forks: seq<int>, nProcessors: nat)
    requires |t| == |forks| == nProcessors + NUM_COUNTERS && ForkOutcomes(forks)
    requires FirstFailure(forks[..nProcessors]) < nProcessors
    requires forall i :: 0 <= i < |t| ==> t[i].pid == (if i < FirstFailure(forks[..nProcessors]) then forks[i] else 0)
    ensures FirstFailure(forks) == FirstFailure(forks[..nProcessors])
    ensures Spawns(PROCESSOR_PATH, PROCESSOR_CLASS, forks[..nProcessors][..FirstFailure(forks)]) == LaunchLog(forks, nProcessors)
    ensures Kills(t) == SigintAll(forks[..FirstFailure(forks)])
  {
    var procForks := forks[..nProcessors];
    var k := FirstFailure(procForks);
    assert forks[..k] == procForks[..k];
    assert forks[k] == procForks[k];
    FirstFailureIs(forks, k);
    KillsOfLaunched(t, forks[..k]);
  }

  lemma {:induction false} SumResultsAppend(a: seq<MsgResult>, b: seq<MsgResult>)
    ensures SumResults(a + b)
         == MsgResult(SumResults(a).nWords + SumResults(b).nWords, SumResults(a).nDigits + SumResults(b).nDigits)
    decreases |b|
  {
    if b == [] {
      assert a + b == a;
    } else {
      assert (a + b)[..|a + b| - 1] == a + b[..|b| - 1];
      SumResultsAppend(a, b[..|b| - 1]);
    }
  }

  /** Taking the same element out of two equal multisets leaves equal multisets. */
  lemma MultisetRemove(rest: seq<MsgResult>, x: MsgResult, front: seq<MsgResult>, back: seq<MsgResult>)
    requires multiset(rest + [x]) == multiset(front + [x] + back)
    ensures multiset(rest) == multiset(front + back)
  {
    forall y
      ensures multiset(rest)[y] == multiset(front + back)[y]
    {
      assert multiset(rest + [x])[y] == multiset(rest)[y] + multiset{x}[y];
      assert multiset(front + [x] + back)[y] == multiset(front)[y] + multiset{x}[y] + multiset(back)[y];
    }
  }

  /** A result spliced into a sequence adds its fields to the sum. */
  lemma SumResultsSplice(front: seq<MsgResult>, x: MsgResult, back: seq<MsgResult>)
    ensures SumResults(front + [x] + back)
         == MsgResult(SumResults(front + back).nWords + x.nWords, SumResults(front + back).nDigits + x.nDigits)
  {
    SumResultsAppend(front + [x], back);
    assert (front + [x])[..|front|] == front;
    SumResultsAppend(front, back);
  }

  /** The global result does not depend on the order in which the partial results arrive. */
  lemma {:induction false} SumResultsPermutation(a: seq<MsgResult>, b: seq<MsgResult>)
    requires multiset(a) == multiset(b)
    ensures SumResults(a) == SumResults(b)
    decreases |a|
  {
    if a == [] {
      assert |b| == |multiset(b)|;
    } else {
      var x := a[|a| - 1];
      var rest := a[..|a| - 1];
      assert a == rest + [x];
      assert x in multiset(b);
      var j :| 0 <= j < |b| && b[j] == x;
      var front, back := b[..j], b[j + 1..];
      assert b == front + [x] + back;
      MultisetRemove(rest, x, front, back);
      SumResultsPermutation(rest, front + back);
      SumResultsSplice(front, x, back);
    }
  }

  // ---------------------------------------------------------------------
  // The manager's state: g_nProcesses, g_process_table and what it has done.

  class ManagerProcess {
    var nProcesses: nat
    var processTable: array<TProcess>
    var log: seq<Action>

    predicate Valid()
      reads this
    {
      processTable.Length == nProcesses
    }

    /**
     init_process_table: room for n_processors + n_counters entries, each pid
     set to 0 (the class and name fields keep whatever the fresh memory held).
     */
    constructor InitProcessTable(nProcessors: nat, nCounters: nat)
      ensures Valid() && nProcesses == nProcessors + nCounters
      ensures forall i :: 0 <= i < processTable.Length ==> processTable[i].pid == 0
      ensures log == [] && fresh(processTable)
    {
      var table := new TProcess[nProcessors + nCounters];
      var i := 0;
      while i < table.Length
        invariant 0 <= i <= table.Length
        invariant forall j :: 0 <= j < i ==> table[j].pid == 0
      {
        table[i] := table[i].(pid := 0);
        i := i + 1;
      }
      nProcesses := nProcessors + nCounters;
      processTable := table;
      log := [];
    }

    /** Every live process is signalled; the error of a failed kill is only reported. */
    method TerminateProcesses()
      requires Valid()
      modifies this`log
      ensures log == old(log) + Kills(processTable[..])
    {
      var i := 0;
      while i < processTable.Length
        invariant 0 <= i <= processTable.Length
        invariant log == old(log) + Kills(processTable[..i])
      {
        assert processTable[..i + 1][..i] == processTable[..i];
        if processTable[i].pid != 0 {
          log := log + [Kill(processTable[i].pid, SIGINT)];
        }
        i := i + 1;
      }
      assert processTable[..i] == processTable[..];
    }

    /** free_resources: the queues are unlinked (freeing the table's memory is not modelled). */
    method FreeResources()
      modifies this`log
      ensures log == old(log) + Unlinks()
    {
      log := log + [UnlinkQueue(MqLines), UnlinkQueue(MqResults), UnlinkQueue(MqWords)];
      log := log + [UnlinkQueue(MqNumberDigits), UnlinkQueue(MqMutex)];
    }

    method CloseMessageQueues()
      modifies this`log
      ensures log == old(log) + Closes()
    {
      log := log + [CloseQueue(MqLines), CloseQueue(MqResults), CloseQueue(MqWords)];
      log := log + [CloseQueue(MqNumberDigits), CloseQueue(MqMutex)];
    }

    /** The exit path after an error: terminate the children, free the resources, exit with failure. */
    method Abort()
      requires Valid()
      modifies this`log
      ensures log == old(log) + Kills(processTable[..]) + Unlinks() + [Exit(EXIT_FAILURE)]
    {
      TerminateProcesses();
      FreeResources();
      log := log + [Exit(EXIT_FAILURE)];
    }

    /**
     The queues of main, in order, none of their results checked, and the
     token put into the mutex queue.
     */
    method CreateMessageQueues(nProcessors: nat)
      modifies this`log
      ensures log == old(log) + SetupLog(nProcessors)
    {
      log := log + [CreateQueue(MqLines, nProcessors, MSG_LINE_SIZE)];
      log := log + [CreateQueue(MqResults, nProcessors, MSG_RESULT_SIZE)];
      log := log + [CreateQueue(MqWords, 1, MAX_LINE_SIZE * CHAR_SIZE)];
      log := log + [CreateQueue(MqNumberDigits, 1, INT_SIZE)];
      log := log + [CreateQueue(MqMutex, 1, CHAR_SIZE)];
      log := log + [QueueOp(Send(MqMutex, TokenMsg))];
    }

    /**
     create_single_process as the parent sees it: a failed fork tears
     everything down and exits (ok false); otherwise the child runs `path`
     under `name` and its pid is returned.
     */
    method CreateSingleProcess(path: string, name: string, fork: int) returns (pid: int, ok: bool)
      requires Valid() && (fork == -1 || fork > 0)
      modifies this`log
      ensures ok <==> fork != -1
      ensures ok ==> pid == fork && log == old(log) + [Spawn(path, name, pid)]
      ensures !ok ==> log == old(log) + Kills(processTable[..]) + Unlinks() + [Exit(EXIT_FAILURE)]
    {
      pid := fork;
      if pid == -1 {
        Abort();
        return pid, false;
      }
      log := log + [Spawn(path, name, pid)];
      ok := true;
    }

    /**
     create_processes_by_class: entries [index, index + n) receive the class,
     the child's pid and the class name, in order, and no other entry changes.
     When fork fails part-way, the entries from the failing one on are left as
     they were and the teardown signals the table as it is at that point.
     */
    method CreateProcessesByClass(c: ProcessClass, n: nat, index: nat, forks: seq<int>) returns (ok: bool)
      requires Valid() && index + n <= nProcesses && |forks| == n && ForkOutcomes(forks)
      modifies processTable, this`log
      ensures ok <==> FirstFailure(forks) == n
      ensures forall i :: 0 <= i < processTable.Length ==>
        processTable[i] == (if index <= i < index + FirstFailure(forks)
                            then TProcess(c, forks[i - index], ProcessInfo(c).1)
                            else old(processTable[i]))
      ensures ok ==> log == old(log) + Spawns(ProcessInfo(c).0, ProcessInfo(c).1, forks)
      ensures !ok ==> log == old(log) + Spawns(ProcessInfo(c).0, ProcessInfo(c).1, forks[..FirstFailure(forks)])
                             + Kills(processTable[..]) + Unlinks() + [Exit(EXIT_FAILURE)]
    {
      var (path, name) := ProcessInfo(c);
      var k := 0;
      while k < n
        invariant 0 <= k <= n && -1 !in forks[..k]
        invariant forall i :: 0 <= i < processTable.Length ==>
          processTable[i] == (if index <= i < index + k then TProcess(c, forks[i - index], name) else old(processTable[i]))
        invariant log == old(log) + Spawns(path, name, forks[..k])
      {
        ghost var before := log;
        var pid, forked := CreateSingleProcess(path, name, forks[k]);
        if !forked {
          FirstFailureIs(forks, k);
          AppendAssoc(before, Kills(processTable[..]) + Unlinks(), [Exit(EXIT_FAILURE)]);
          return false;
        }
        assert forks[..k + 1][..k] == forks[..k];
        processTable[index + k] := TProcess(c, pid, name);
        k := k + 1;
      }
      assert forks[..k] == forks;
      FirstFailureIs(forks, k);
      ok := true;
    }

    /**
     Lines 94-95 of main: the processors into entries [0, n_processors),
     then the counter into entry n_processors. A failed fork ends the run
     with the children spawned so far, and only those, signalled.
     */
    method SpawnAll(nProcessors: nat, forks: seq<int>) returns (ok: bool)
      requires Valid() && nProcesses == |forks| == nProcessors + NUM_COUNTERS && ForkOutcomes(forks)
      requires forall i :: 0 <= i < processTable.Length ==> processTable[i].pid == 0
      modifies processTable, this`log
      ensures ok <==> FirstFailure(forks) == |forks|
      ensures ok ==> log == old(log) + LaunchLog(forks, nProcessors)
      ensures !ok ==> log == old(log) + LaunchLog(forks, nProcessors) + SigintAll(forks[..FirstFailure(forks)]) + Unlinks() + [Exit(EXIT_FAILURE)]
      ensures ok ==> forall i :: 0 <= i < nProcessors ==> processTable[i] == TProcess(PROCESSOR, forks[i], PROCESSOR_CLASS)
      ensures ok ==> processTable[nProcessors] == TProcess(COUNTER, forks[nProcessors], COUNTER_CLASS)
      ensures ok ==> forall i :: 0 <= i < processTable.Length ==> processTable[i].pid == forks[i]
    {
      var f := FirstFailure(forks);
      ok := SpawnProcessors(nProcessors, forks);
      if ok {
        ghost var mid := log;
        ok := SpawnCounter(nProcessors, forks);
        if ok {
          assert forks[nProcessors..f] == forks[nProcessors..];
          AppendAssoc(old(log), Spawns(PROCESSOR_PATH, PROCESSOR_CLASS, forks[..nProcessors]), Spawns(COUNTER_PATH, COUNTER_CLASS, forks[nProcessors..]));
        } else {
          assert forks[..f] == forks[..nProcessors];
        }
      }
    }

    /** The processors' part of SpawnAll. */
    method SpawnProcessors(nProcessors: nat, forks: seq<int>) returns (ok: bool)
      requires Valid() && nProcesses == |forks| == nProcessors + NUM_COUNTERS && ForkOutcomes(forks)
      requires forall i :: 0 <= i < processTable.Length ==> processTable[i].pid == 0
      modifies processTable, this`log
      ensures ok <==> FirstFailure(forks) >= nProcessors
      ensures ok ==> log == old(log) + Spawns(PROCESSOR_PATH, PROCESSOR_CLASS, forks[..nProcessors])
      ensures !ok ==> log == old(log) + LaunchLog(forks, nProcessors) + SigintAll(forks[..FirstFailure(forks)]) + Unlinks() + [Exit(EXIT_FAILURE)]
      ensures ok ==> forall i :: 0 <= i < nProcessors ==> processTable[i] == TProcess(PROCESSOR, forks[i], PROCESSOR_CLASS)
      ensures forall i :: nProcessors <= i < processTable.Length ==> processTable[i] == old(processTable[i])
    {
      var procForks := forks[..nProcessors];
      ok := CreateProcessesByClass(PROCESSOR, nProcessors, 0, procForks);
      if ok {
        assert forks[..FirstFailure(procForks)] == procForks;
        assert -1 !in forks[..nProcessors];
        assert ProcessInfo(PROCESSOR).1 == PROCESSOR_CLASS && FirstFailure(procForks) == nProcessors;
        forall i | 0 <= i < nProcessors
          ensures processTable[i] == TProcess(PROCESSOR, forks[i], PROCESSOR_CLASS)
        {
          assert procForks[i - 0] == forks[i];
        }
      } else {
        ghost var k := FirstFailure(procForks);
        ghost var t := processTable[..];
        assert forall i :: 0 <= i < |t| ==> t[i].pid == (if i < k then forks[i] else 0) by {
          assert forall i :: 0 <= i < k ==> procForks[i] == forks[i];
        }
        ProcessorFailure(t, forks, nProcessors);
      }
    }

    /** The counter's part of SpawnAll, once every processor is running. */
    method SpawnCounter(nProcessors: nat, forks: seq<int>) returns (ok: bool)
      requires Valid() && nProcesses == |forks| == nProcessors + NUM_COUNTERS && ForkOutcomes(forks)
      requires FirstFailure(forks) >= nProcessors
      requires forall i :: 0 <= i < nProcessors ==> processTable[i] == TProcess(PROCESSOR, forks[i], PROCESSOR_CLASS)
      requires processTable[nProcessors].pid == 0
      modifies processTable, this`log
      ensures ok <==> FirstFailure(forks) == |forks|
      ensures ok ==> log == old(log) + Spawns(COUNTER_PATH, COUNTER_CLASS, forks[nProcessors..])
      ensures !ok ==> log == old(log) + SigintAll(forks[..nProcessors]) + Unlinks() + [Exit(EXIT_FAILURE)]
      ensures forall i :: 0 <= i < nProcessors ==> processTable[i] == old(processTable[i])
      ensures ok ==> processTable[nProcessors] == TProcess(COUNTER, forks[nProcessors], COUNTER_CLASS)
    {
      var counterForks := forks[nProcessors..];
      assert counterForks == [forks[nProcessors]] && counterForks[..0] == [] && counterForks[..1] == counterForks;
      assert FirstFailure(counterForks) == (if forks[nProcessors] == -1 then 0 else 1);
      ok := CreateProcessesByClass(COUNTER, NUM_COUNTERS, nProcessors, counterForks);
      if ok {
        assert forks[..|forks|] == forks[..nProcessors] + counterForks;
        FirstFailureIs(forks, |forks|);
      } else {
        FirstFailureIs(forks, nProcessors);
        ghost var t := processTable[..];
        assert forall i :: 0 <= i < nProcessors ==> t[i].pid == forks[..nProcessors][i] && forks[i] > 0;
        assert t[nProcessors].pid == 0;
        KillsOfLaunched(t, forks[..nProcessors]);
        assert Spawns(COUNTER_PATH, COUNTER_CLASS, counterForks[..0]) == [] && old(log) + [] == old(log);
      }
    }

    /**
     send_lines: a file that cannot be opened tears everything down and exits;
     otherwise one task per line, in order, each with the same pattern, and
     n_lines counts them.
     */
    method SendLines(file: Option<seq<string>>, pattern: string) returns (nLines: int, ok: bool)
      requires Valid()
      modifies this`log
      ensures ok <==> file.Some?
      ensures !ok ==> log == old(log) + Kills(processTable[..]) + Unlinks() + [Exit(EXIT_FAILURE)]
      ensures ok ==> nLines == |file.value| && log == old(log) + Dispatches(Tasks(file.value, pattern))
    {
      nLines := 0;
      if file.None? {
        Abort();
        return nLines, false;
      }
      var lines := file.value;
      var i := 0;
      while i < |lines|
        invariant 0 <= i <= |lines| && nLines == i
        invariant log == old(log) + Dispatches(Tasks(lines[..i], pattern))
      {
        assert Dispatches(Tasks(lines[..i + 1], pattern))
            == Dispatches(Tasks(lines[..i], pattern)) + [QueueOp(Send(MqLines, LineMsg(MsgLine(CStr(lines[i]), CStr(pattern)))))];
        var msgLine := MsgLine(CStr(lines[i]), CStr(pattern));
        log := log + [QueueOp(Send(MqLines, LineMsg(msgLine)))];
        nLines := nLines + 1;
        i := i + 1;
      }
      assert lines[..i] == lines;
      ok := true;
    }
  }

  // ---------------------------------------------------------------------
  // Aggregation.

  /**
   receive_partial_results: exactly n_lines receives on MQ_RESULTS, in
   arrival order, and the field-wise sums of what they delivered; no lines
   give (0, 0).
   */
  method ReceivePartialResults(nLines: int, arrivals: seq<MsgResult>) returns (globalResults: MsgResult, received: seq<Action>)
    requires nLines <= |arrivals|
    ensures nLines <= 0 ==> globalResults == MsgResult(0, 0) && received == []
    ensures nLines > 0 ==> globalResults == SumResults(arrivals[..nLines]) && received == Collects(arrivals[..nLines])
  {
    var nWords, nDigits := 0, 0;
    received := [];
    var i := 0;
    while i < nLines
      invariant 0 <= i <= |arrivals| && i <= (if nLines > 0 then nLines else 0)
      invariant MsgResult(nWords, nDigits) == SumResults(arrivals[..i])
      invariant received == Collects(arrivals[..i])
    {
      assert arrivals[..i + 1][..i] == arrivals[..i];
      var buffer := arrivals[i];
      received := received + [QueueOp(Recv(MqResults, ResultMsg(buffer)))];
      nWords := nWords + buffer.nWords;
      nDigits := nDigits + buffer.nDigits;
      i := i + 1;
    }
    globalResults := MsgResult(nWords, nDigits);
  }

  // ---------------------------------------------------------------------
  // main: setup, spawning, dispatch, aggregation and teardown.

  /** The spawns of main: the processors for table entries [0, n_processors), then the counter. */
  function LaunchLog(forks: seq<int>, nProcessors: nat): seq<Action>
    requires nProcessors <= |forks|
  {
    var f := FirstFailure(forks);
    if f <= nProcessors then Spawns(PROCESSOR_PATH, PROCESSOR_CLASS, forks[..f])
    else Spawns(PROCESSOR_PATH, PROCESSOR_CLASS, forks[..nProcessors]) + Spawns(COUNTER_PATH, COUNTER_CLASS, forks[nProcessors..f])
  }

  /**
   Everything one run of main does, in order. A fork failure or an input
   file that cannot be opened ends the run with the children spawned so far
   signalled, the queues unlinked and a failure exit.
   */
  function MainLog(nProcessors: nat, pattern: string, file: Option<seq<string>>, forks: seq<int>, arrivals: seq<MsgResult>): seq<Action>
    requires |forks| == nProcessors + NUM_COUNTERS
    requires file.Some? ==> |file.value| <= |arrivals|
  {
    var f := FirstFailure(forks);
    var start := SetupLog(nProcessors) + LaunchLog(forks, nProcessors);
    if f < |forks| then start + SigintAll(forks[..f]) + Unlinks() + [Exit(EXIT_FAILURE)]
    else if file.None? then start + SigintAll(forks) + Unlinks() + [Exit(EXIT_FAILURE)]
    else
      start + Dispatches(Tasks(file.value, pattern)) + Collects(arrivals[..|file.value|])
        + Closes() + SigintAll(forks) + Unlinks() + [Exit(EXIT_SUCCESS)]
  }

  /**
   main after argument parsing, with n_processors as parsed, the input file
   (None when it cannot be opened), the outcome of each fork in spawning
   order and the partial results in the order they arrive.
   */
  method ManagerMain(nProcessors: nat, pattern: string, file: Option<seq<string>>, forks: seq<int>, arrivals: seq<MsgResult>)
    returns (status: int, globalResults: MsgResult, m: ManagerProcess)
    requires |forks| == nProcessors + NUM_COUNTERS && ForkOutcomes(forks)
    requires file.Some? ==> |file.value| <= |arrivals|
    ensures m.log == MainLog(nProcessors, pattern, file, forks, arrivals)
    ensures status == (if FirstFailure(forks) == |forks| && file.Some? then EXIT_SUCCESS else EXIT_FAILURE)
    ensures status == EXIT_SUCCESS ==> globalResults == SumResults(arrivals[..|file.value|])
    ensures m.Valid() && m.nProcesses == |forks|
    ensures FirstFailure(forks) == |forks| ==>
      (forall i :: 0 <= i < nProcessors ==> m.processTable[i] == TProcess(PROCESSOR, forks[i], PROCESSOR_CLASS))
      && m.processTable[nProcessors] == TProcess(COUNTER, forks[nProcessors], COUNTER_CLASS)
  {
    globalResults := MsgResult(0, 0);
    m := new ManagerProcess.InitProcessTable(nProcessors, NUM_COUNTERS);
    m.CreateMessageQueues(nProcessors);
    assert m.log == SetupLog(nProcessors);
    var ok := m.SpawnAll(nProcessors, forks);
    if !ok {
      return EXIT_FAILURE, globalResults, m;
    }
    var nLines;
    nLines, ok := m.SendLines(file, pattern);
    KillsOfLaunched(m.processTable[..], forks);
    if !ok {
      return EXIT_FAILURE, globalResults, m;
    }
    var received;
    globalResults, received := ReceivePartialResults(nLines, arrivals);
    assert received == Collects(arrivals[..nLines]);
    m.log := m.log + received;
    m.CloseMessageQueues();
    m.TerminateProcesses();
    m.FreeResources();
    m.log := m.log + [Exit(EXIT_SUCCESS)];
    status := EXIT_SUCCESS;
  }

  // ---------------------------------------------------------------------
  // Properties of a whole run.

  /** Every task carries its line and the one pattern, and satisfies what a worker needs of it. */
  lemma TasksShape(lines: seq<string>, pattern: string)
    ensures |Tasks(lines, pattern)| == |lines|
    ensures forall i :: 0 <= i < |lines| ==> Tasks(lines, pattern)[i].pattern == CStr(pattern)
    ensures forall i :: 0 <= i < |lines| && '\0' !in lines[i] ==> Tasks(lines, pattern)[i].line == lines[i]
    ensures forall i :: 0 <= i < |lines| ==> '\0' !in Tasks(lines, pattern)[i].line && '\0' !in Tasks(lines, pattern)[i].pattern
    ensures (forall i :: 0 <= i < |lines| ==> FitsBuffer(lines[i])) && FitsBuffer(pattern) ==>
      forall i :: 0 <= i < |lines| ==> ValidMsgLine(Tasks(lines, pattern)[i])
  {
  }

  /** No action of s puts a token into the mutex queue. */
  predicate NoToken(s: seq<Action>) {
    forall i :: 0 <= i < |s| ==> s[i] != QueueOp(Send(MqMutex, TokenMsg))
  }

  /**
   s starts with the setup of n processors, the single token is sent as
   action 5 and never again, and nothing up to it is a spawn.
   */
  predicate TokenPreloaded(s: seq<Action>, nProcessors: nat) {
    && |s| > 5
    && s[..6] == SetupLog(nProcessors)
    && (forall i :: 0 <= i < |s| ==> (s[i] == QueueOp(Send(MqMutex, TokenMsg)) <==> i == 5))
    && (forall i :: 0 <= i <= 5 ==> !s[i].Spawn?)
  }

  lemma TokenPreloadedAppend(a: seq<Action>, b: seq<Action>, nProcessors: nat)
    requires TokenPreloaded(a, nProcessors) && NoToken(b)
    ensures TokenPreloaded(a + b, nProcessors)
  {
    assert (a + b)[..6] == a[..6];
    assert forall i :: |a| <= i < |a + b| ==> (a + b)[i] == b[i - |a|];
  }

  lemma FailurePreloaded(start: seq<Action>, pids: seq<int>, nProcessors: nat)
    requires TokenPreloaded(start, nProcessors)
    ensures TokenPreloaded(start + SigintAll(pids) + Unlinks() + [Exit(EXIT_FAILURE)], nProcessors)
  {
    TokenPreloadedAppend(start, SigintAll(pids), nProcessors);
    TokenPreloadedAppend(start + SigintAll(pids), Unlinks(), nProcessors);
    TokenPreloadedAppend(start + SigintAll(pids) + Unlinks(), [Exit(EXIT_FAILURE)], nProcessors);
  }

  lemma SuccessPreloaded(start: seq<Action>, tasks: seq<MsgLine>, results: seq<MsgResult>, pids: seq<int>, nProcessors: nat)
    requires TokenPreloaded(start, nProcessors)
    ensures TokenPreloaded(start + Dispatches(tasks) + Collects(results) + Closes() + SigintAll(pids)
                             + Unlinks() + [Exit(EXIT_SUCCESS)], nProcessors)
  {
    var a := start + Dispatches(tasks);
    TokenPreloadedAppend(start, Dispatches(tasks), nProcessors);
    TokenPreloadedAppend(a, Collects(results), nProcessors);
    var b := a + Collects(results);
    TokenPreloadedAppend(b, Closes(), nProcessors);
    TokenPreloadedAppend(b + Closes(), SigintAll(pids), nProcessors);
    var c := b + Closes() + SigintAll(pids);
    TokenPreloadedAppend(c, Unlinks(), nProcessors);
    TokenPreloadedAppend(c + Unlinks(), [Exit(EXIT_SUCCESS)], nProcessors);
  }

  /**
   The setup comes first: the five queues with their capacities, then the one
   mutex token, before any spawn; the manager never sends another token.
   */
  lemma SetupPrecedesSpawns(nProcessors: nat, pattern: string, file: Option<seq<string>>, forks: seq<int>, arrivals: seq<MsgResult>)
    requires |forks| == nProcessors + NUM_COUNTERS
    requires file.Some? ==> |file.value| <= |arrivals|
    ensures TokenPreloaded(MainLog(nProcessors, pattern, file, forks, arrivals), nProcessors)
  {
    var setup := SetupLog(nProcessors);
    var launch := LaunchLog(forks, nProcessors);
    assert TokenPreloaded(setup, nProcessors);
    assert NoToken(launch);
    TokenPreloadedAppend(setup, launch, nProcessors);
    var f := FirstFailure(forks);
    if f < |forks| {
      FailurePreloaded(setup + launch, forks[..f], nProcessors);
    } else if file.None? {
      FailurePreloaded(setup + launch, forks, nProcessors);
    } else {
      SuccessPreloaded(setup + launch, Tasks(file.value, pattern), arrivals[..|file.value|], forks, nProcessors);
    }
  }

  /** The partial result of each task, in task order. */
  function Results(tasks: seq<MsgLine>): seq<MsgResult> {
    seq(|tasks|, i requires 0 <= i < |tasks| => Processor.LineResult(tasks[i]))
  }

  /** The digits of all selected words of all tasks. */
  function DigitTotal(tasks: seq<MsgLine>): nat {
    if tasks == [] then 0
    else DigitTotal(tasks[..|tasks| - 1]) + Processor.TotalDigits(Processor.Selected(tasks[|tasks| - 1]))
  }

  lemma {:induction false} SumOfResults(tasks: seq<MsgLine>)
    ensures SumResults(Results(tasks)) == MsgResult(Processor.SelectedCount(tasks), DigitTotal(tasks))
  {
    if tasks != [] {
      var init := tasks[..|tasks| - 1];
      SumOfResults(init);
      assert Results(tasks)[..|tasks| - 1] == Results(init);
    }
  }

  /**
   End to end: whatever order the workers' partial results arrive in, the
   global result is the number of words of all lines that start with the
   pattern and the number of digits in those words.
   */
  lemma PipelineResult(lines: seq<string>, pattern: string, arrivals: seq<MsgResult>)
    requires multiset(arrivals) == multiset(Results(Tasks(lines, pattern)))
    ensures SumResults(arrivals)
         == MsgResult(Processor.SelectedCount(Tasks(lines, pattern)), DigitTotal(Tasks(lines, pattern)))
  {
    SumResultsPermutation(arrivals, Results(Tasks(lines, pattern)));
    SumOfResults(Tasks(lines, pattern));
  }

  /**
   Two tasks "cat9 dog" and "dog cat" with pattern "cat" give the global
   result (2, 1), whichever worker finishes first.
   */
  lemma ExampleTwoWorkers(arrivals: seq<MsgResult>)
    requires multiset(arrivals) == multiset(Results(Tasks(["cat9 dog", "dog cat"], "cat")))
    ensures SumResults(arrivals) == MsgResult(2, 1)
  {
    var rs := [MsgResult(1, 1), MsgResult(1, 0)];
    ExampleTwoResults();
    SumResultsPermutation(arrivals, rs);
    assert rs[..1][..0] == [] && rs[..1] == rs[..|rs| - 1];
  }

  lemma ResultsOfTwo(t1: MsgLine, t2: MsgLine)
    ensures Results([t1, t2]) == [Processor.LineResult(t1), Processor.LineResult(t2)]
  {
  }

  lemma ExampleTwoResults()
    ensures Results(Tasks(["cat9 dog", "dog cat"], "cat")) == [MsgResult(1, 1), MsgResult(1, 0)]
  {
    ExampleTwoTasks();
    ResultsOfTwo(MsgLine("cat9 dog", "cat"), MsgLine("dog cat", "cat"));
    Processor.ExampleFirstOfTwo();
    Processor.ExampleSecondOfTwo();
  }

  lemma ExampleTwoTasks()
    ensures Tasks(["cat9 dog", "dog cat"], "cat") == [MsgLine("cat9 dog", "cat"), MsgLine("dog cat", "cat")]
  {
    var lines: seq<string> := ["cat9 dog", "dog cat"];
    assert '\0' !in lines[0] && '\0' !in lines[1] && '\0' !in "cat";
  }
}
