/**
 A worker process (P3 src/processor.c). For every line task it splits the
 line at WORD_SEPARATOR with strtok, and for every word that starts with the
 pattern takes the mutex token, asks the counter for the word's digits and
 gives the token back; then it sends one partial result per task.
 */
module Processor {
  import opened Definitions
  import opened CStrings
  import Counter

  /** The words strtok yields for a task's line. */
  function WordsOf(task: MsgLine): seq<string> {
    Tokens(task.line, WORD_SEPARATOR)
  }

  /** The words of ws that have the pattern as a prefix, in order. */
  function Matching(ws: seq<string>, pattern: string): (r: seq<string>)
    ensures |r| <= |ws|
  {
    if ws == [] then []
    else Matching(ws[..|ws| - 1], pattern) + (if pattern <= ws[|ws| - 1] then [ws[|ws| - 1]] else [])
  }

  /** Extending the scanned words by w extends each of their summaries by w's share. */
  lemma MatchingStep(seen: seq<string>, w: string, pattern: string)
    ensures pattern <= w ==> Matching(seen + [w], pattern) == Matching(seen, pattern) + [w]
    ensures !(pattern <= w) ==> Matching(seen + [w], pattern) == Matching(seen, pattern)
    ensures TotalDigits(Matching(seen, pattern) + [w]) == TotalDigits(Matching(seen, pattern)) + Counter.DigitCount(w)
    ensures CriticalSections(Matching(seen, pattern) + [w]) == CriticalSections(Matching(seen, pattern)) + CriticalSection(w)
  {
    assert (seen + [w])[..|seen|] == seen;
    var m := Matching(seen, pattern);
    assert (m + [w])[..|m|] == m;
  }

  /** The digits of all words in ws together. */
  function TotalDigits(ws: seq<string>): nat {
    if ws == [] then 0 else TotalDigits(ws[..|ws| - 1]) + Counter.DigitCount(ws[|ws| - 1])
  }

  /** The words of a task that are sent to the counter. */
  function Selected(task: MsgLine): seq<string> {
    Matching(WordsOf(task), task.pattern)
  }

  /** The partial result a task must produce. */
  function LineResult(task: MsgLine): MsgResult {
    MsgResult(|Selected(task)|, TotalDigits(Selected(task)))
  }

  /** The rendezvous for one matched word, inside the token's critical section. */
  function CriticalSection(w: string): seq<Event> {
    [ Recv(MqMutex, TokenMsg),
      Send(MqWords, WordMsg(w)),
      Recv(MqNumberDigits, DigitsMsg(Counter.DigitCount(w))),
      Send(MqMutex, TokenMsg) ]
  }

  function CriticalSections(ws: seq<string>): seq<Event> {
    if ws == [] then [] else CriticalSections(ws[..|ws| - 1]) + CriticalSection(ws[|ws| - 1])
  }

  /** The queue operations of one call of process_line. */
  function TaskTrace(task: MsgLine): seq<Event> {
    [Recv(MqLines, LineMsg(task))] + CriticalSections(Selected(task))
  }

  /** The queue operations of the main loop over a sequence of tasks. */
  function WorkerTrace(tasks: seq<MsgLine>): seq<Event> {
    if tasks == [] then []
    else
      var t := tasks[|tasks| - 1];
      WorkerTrace(tasks[..|tasks| - 1]) + TaskTrace(t) + [Send(MqResults, ResultMsg(LineResult(t)))]
  }

  /** The last event of the main loop is the partial result of the last task. */
  lemma WorkerTraceLast(tasks: seq<MsgLine>)
    ensures tasks != [] ==> |WorkerTrace(tasks)| > 0
    ensures tasks != [] ==>
      WorkerTrace(tasks)[|WorkerTrace(tasks)| - 1] == Send(MqResults, ResultMsg(LineResult(tasks[|tasks| - 1])))
  {
  }

  /** One turn of the main loop: the task's own queue operations, then its partial result. */
  function Turn(task: MsgLine): seq<Event> {
    TaskTrace(task) + [Send(MqResults, ResultMsg(LineResult(task)))]
  }

  lemma WorkerTraceStep(tasks: seq<MsgLine>, k: nat)
    requires k < |tasks|
    ensures WorkerTrace(tasks[..k + 1]) == WorkerTrace(tasks[..k]) + Turn(tasks[k])
  {
    assert tasks[..k + 1][..k] == tasks[..k];
  }

  /** The words strtok has still to return, the current one first. */
  ghost function Pending(word: Option<(string, string)>): seq<string> {
    match word
    case None => []
    case Some((w, rest)) => [w] + Tokens(rest, WORD_SEPARATOR)
  }

  /** A worker's state: the partial_results record its main loop reuses for every task. */
  class ProcessorProcess {
    var partialResults: MsgResult
    /** Every queue operation this worker has performed, in order. */
    ghost var trace: seq<Event>

    /** A fresh worker; partial_results starts uninitialised. */
    constructor ()
      ensures trace == []
    {
      trace := [];
    }

    /**
     process_line: receive one task, then walk its words with strtok; each word
     that strncmp finds to start with the pattern is counted and sent to the
     counter inside one acquire/release of the mutex token. The result describes
     this task alone, whatever partial_results held before.
     */
    method ProcessLine(task: MsgLine)
      requires '\0' !in task.line && '\0' !in task.pattern
      modifies this
      ensures partialResults == LineResult(task)
      ensures trace == old(trace) + TaskTrace(task)
    {
      var nWords := 0;
      partialResults := partialResults.(nDigits := 0);
      trace := trace + [Recv(MqLines, LineMsg(task))];
      ghost var start := trace;
      var pattern := task.pattern;
      var word := Strtok(task.line, WORD_SEPARATOR);
      TokensStep(task.line, WORD_SEPARATOR);
      ghost var seen: seq<string> := [];
      ghost var selected: seq<string> := [];
      while word.Some?
        invariant WordsOf(task) == seen + Pending(word)
        invariant word.Some? ==> '\0' !in word.value.0 && '\0' !in word.value.1
        invariant selected == Matching(seen, pattern)
        invariant nWords == |selected|
        invariant partialResults.nDigits == TotalDigits(selected)
        invariant trace == start + CriticalSections(selected)
        decreases if word.None? then 0 else |word.value.1| + 1
      {
        var w := word.value.0;
        MatchingStep(seen, w, pattern);
        StrncmpPrefix(w, pattern);
        if Strncmp(w, pattern, |pattern|) == 0 {
          nWords := nWords + 1;
          Rendezvous(w);
          AppendAssoc(start, CriticalSections(selected), CriticalSection(w));
          selected := selected + [w];
        }
        AppendAssoc(seen, [w], Tokens(word.value.1, WORD_SEPARATOR));
        seen := seen + [w];
        TokensStep(word.value.1, WORD_SEPARATOR);
        word := Strtok(word.value.1, WORD_SEPARATOR);
      }
      assert seen + [] == seen;
      AppendAssoc(old(trace), [Recv(MqLines, LineMsg(task))], CriticalSections(selected));
      partialResults := partialResults.(nWords := nWords);
    }

    /**
     The critical section for one matched word: take the token, send a copy of
     the word to the counter, receive its digit count, give the token back, and
     add the count to partial_results.
     */
    method Rendezvous(w: string)
      requires '\0' !in w
      modifies this
      ensures trace == old(trace) + CriticalSection(w)
      ensures partialResults == old(partialResults).(nDigits := old(partialResults).nDigits + Counter.DigitCount(w))
    {
      var wordCopy := w;
      trace := trace + [Recv(MqMutex, TokenMsg)];
      trace := trace + [Send(MqWords, WordMsg(wordCopy))];
      var nDigits, counterSide := Counter.CountNumber(wordCopy);
      trace := trace + [Recv(MqNumberDigits, DigitsMsg(nDigits))];
      trace := trace + [Send(MqMutex, TokenMsg)];
      partialResults := partialResults.(nDigits := partialResults.nDigits + nDigits);
    }

    /** One turn of the main loop: process_line, then send_partial_results. */
    method ServeTask(task: MsgLine)
      requires '\0' !in task.line && '\0' !in task.pattern
      modifies this
      ensures partialResults == LineResult(task)
      ensures trace == old(trace) + Turn(task)
    {
      ProcessLine(task);
      trace := trace + [Send(MqResults, ResultMsg(partialResults))];
    }

    /** The turn for task k extends the trace of the first k turns to that of the first k + 1. */
    method ServeNext(tasks: seq<MsgLine>, k: nat, ghost t0: seq<Event>)
      requires k < |tasks| && '\0' !in tasks[k].line && '\0' !in tasks[k].pattern
      requires trace == t0 + WorkerTrace(tasks[..k])
      modifies this
      ensures trace == t0 + WorkerTrace(tasks[..k + 1])
      ensures trace[|trace| - 1] == Send(MqResults, ResultMsg(partialResults))
    {
      ghost var done := WorkerTrace(tasks[..k]);
      ServeTask(tasks[k]);
      WorkerTraceStep(tasks, k);
      AppendAssoc(t0, done, Turn(tasks[k]));
    }

    /**
     The main loop, run over the tasks that arrive before the worker is
     stopped: one partial result sent per task received.
     */
    method Run(tasks: seq<MsgLine>)
      requires forall k :: 0 <= k < |tasks| ==> '\0' !in tasks[k].line && '\0' !in tasks[k].pattern
      modifies this
      ensures trace == old(trace) + WorkerTrace(tasks)
      ensures tasks != [] ==> partialResults == LineResult(tasks[|tasks| - 1])
    {
      var k := 0;
      ghost var t0 := trace;
      assert tasks[..0] == [] && t0 + [] == t0;
      while k < |tasks|
        invariant 0 <= k <= |tasks|
        invariant trace == t0 + WorkerTrace(tasks[..k])
        invariant k > 0 ==> trace[|trace| - 1] == Send(MqResults, ResultMsg(partialResults))
      {
        ServeNext(tasks, k, t0);
        k := k + 1;
      }
      assert tasks[..k] == tasks;
      WorkerTraceLast(tasks);
    }
  }

  // ---------------------------------------------------------------------
  // What process_line promises about the words it selects.

  /** A word is selected exactly when it is one of the scanned words and starts with the pattern. */
  lemma {:induction false} MatchingMembers(ws: seq<string>, pattern: string, w: string)
    ensures w in Matching(ws, pattern) <==> w in ws && pattern <= w
  {
    if ws != [] {
      var init := ws[..|ws| - 1];
      MatchingMembers(init, pattern, w);
      assert ws == init + [ws[|ws| - 1]];
    }
  }

  /** The empty pattern selects every word. */
  lemma {:induction false} EmptyPatternSelectsAll(ws: seq<string>)
    ensures Matching(ws, []) == ws
  {
    if ws != [] {
      EmptyPatternSelectsAll(ws[..|ws| - 1]);
      assert ws == ws[..|ws| - 1] + [ws[|ws| - 1]];
    }
  }

  /** When no word starts with the pattern, nothing is selected. */
  lemma {:induction false} NoneMatching(ws: seq<string>, pattern: string)
    requires forall i :: 0 <= i < |ws| ==> !(pattern <= ws[i])
    ensures Matching(ws, pattern) == []
  {
    if ws != [] {
      NoneMatching(ws[..|ws| - 1], pattern);
    }
  }

  /** A task whose words all miss the pattern yields (0, 0) and touches neither the mutex nor the counter. */
  lemma NoMatchNoTraffic(task: MsgLine)
    requires forall i :: 0 <= i < |WordsOf(task)| ==> !(task.pattern <= WordsOf(task)[i])
    ensures LineResult(task) == MsgResult(0, 0)
    ensures TaskTrace(task) == [Recv(MqLines, LineMsg(task))]
  {
    NoneMatching(WordsOf(task), task.pattern);
    assert [Recv(MqLines, LineMsg(task))] + [] == [Recv(MqLines, LineMsg(task))];
  }

  /** The digit count the counter computes from the whole 255-byte word buffer is that of the word. */
  lemma RendezvousReply(w: string, padding: seq<char>)
    requires '\0' !in w
    ensures Counter.DigitCount(CStr(w + ['\0'] + padding)) == Counter.DigitCount(w)
  {
    IgnoresAfterNul(w, padding);
  }

  // ---------------------------------------------------------------------
  // The mutex queue, seen from one worker: 1 while the token is in the
  // queue, 0 while this worker holds it.

  /**
   One event against the token count: taking the token needs it in the queue,
   giving it back needs the queue empty (capacity 1), and the counter may only
   be used while the token is held. None marks a broken protocol.
   */
  function MutexStep(e: Event, tokens: nat): (r: Option<nat>)
    ensures r.Some? ==> r.value <= 1 || r.value == tokens
  {
    match e
    case Recv(MqMutex, _) => if tokens == 1 then Some(0) else None
    case Send(MqMutex, _) => if tokens == 0 then Some(1) else None
    case Send(MqWords, _) => if tokens == 0 then Some(0) else None
    case Recv(MqNumberDigits, _) => if tokens == 0 then Some(0) else None
    case _ => Some(tokens)
  }

  /** The token count after a whole trace, or None when some event breaks the protocol. */
  function MutexAfter(trace: seq<Event>, tokens: nat): Option<nat> {
    if trace == [] then Some(tokens)
    else
      match MutexAfter(trace[..|trace| - 1], tokens)
      case None => None
      case Some(m) => MutexStep(trace[|trace| - 1], m)
  }

  lemma {:induction false} MutexAfterAppend(a: seq<Event>, b: seq<Event>, tokens: nat)
    ensures MutexAfter(a + b, tokens)
         == (match MutexAfter(a, tokens) case None => None case Some(m) => MutexAfter(b, m))
    decreases |b|
  {
    if b == [] {
      assert a + b == a;
    } else {
      assert (a + b)[..|a + b| - 1] == a + b[..|b| - 1];
      MutexAfterAppend(a, b[..|b| - 1], tokens);
    }
  }

  /** One rendezvous takes the token, uses the counter while holding it, and gives it back. */
  lemma CriticalSectionKeepsToken(w: string)
    ensures MutexAfter(CriticalSection(w), 1) == Some(1)
    ensures MutexAfter(CriticalSection(w), 0) == None
  {
    var cs := CriticalSection(w);
    var first: seq<Event> := [Recv(MqMutex, TokenMsg)];
    assert first[..0] == [];
    assert MutexAfter(first, 1) == Some(0);
    assert MutexAfter(first, 0) == None;
    MutexAfterAppend(first, cs[1..], 0);
    assert cs == first + cs[1..];
    assert MutexAfter(cs[..2], 1) == Some(0) by { assert cs[..2][..1] == first; }
    assert MutexAfter(cs[..3], 1) == Some(0) by { assert cs[..3][..2] == cs[..2]; }
    assert cs[..|cs| - 1] == cs[..3];
  }

  lemma {:induction false} CriticalSectionsKeepToken(ws: seq<string>)
    ensures MutexAfter(CriticalSections(ws), 1) == Some(1)
  {
    if ws != [] {
      var init := ws[..|ws| - 1];
      CriticalSectionsKeepToken(init);
      CriticalSectionKeepsToken(ws[|ws| - 1]);
      MutexAfterAppend(CriticalSections(init), CriticalSection(ws[|ws| - 1]), 1);
    }
  }

  /**
   Starting with the token in the queue, as the manager preloads it, a worker
   never blocks itself on the mutex, uses the counter only while holding the
   token, and leaves the token in the queue after every task.
   */
  lemma {:induction false} WorkerTraceKeepsToken(tasks: seq<MsgLine>)
    ensures MutexAfter(WorkerTrace(tasks), 1) == Some(1)
  {
    if tasks != [] {
      var init := tasks[..|tasks| - 1];
      var t := tasks[|tasks| - 1];
      var res: seq<Event> := [Send(MqResults, ResultMsg(LineResult(t)))];
      var head: seq<Event> := [Recv(MqLines, LineMsg(t))];
      WorkerTraceKeepsToken(init);
      assert head[..0] == [] && MutexAfter(head, 1) == Some(1);
      CriticalSectionsKeepToken(Selected(t));
      MutexAfterAppend(head, CriticalSections(Selected(t)), 1);
      MutexAfterAppend(WorkerTrace(init), TaskTrace(t), 1);
      assert res[..0] == [] && MutexAfter(res, 1) == Some(1);
      MutexAfterAppend(WorkerTrace(init) + TaskTrace(t), res, 1);
    }
  }

  // ---------------------------------------------------------------------
  // How many operations each queue sees.

  /** The queue operations of one rendezvous, queue by queue. */
  lemma CriticalSectionCounts(w: string, q: Queue)
    ensures SendsOn(CriticalSection(w), q) == (if q == MqWords || q == MqMutex then 1 else 0)
    ensures RecvsOn(CriticalSection(w), q) == (if q == MqMutex || q == MqNumberDigits then 1 else 0)
  {
    var cs := CriticalSection(w);
    assert SendsOn(cs[..1], q) == 0 && RecvsOn(cs[..1], q) == (if q == MqMutex then 1 else 0) by {
      assert cs[..1][..0] == [];
    }
    assert SendsOn(cs[..2], q) == (if q == MqWords then 1 else 0) && RecvsOn(cs[..2], q) == (if q == MqMutex then 1 else 0) by {
      assert cs[..2][..1] == cs[..1];
    }
    assert SendsOn(cs[..3], q) == (if q == MqWords then 1 else 0)
        && RecvsOn(cs[..3], q) == (if q == MqMutex || q == MqNumberDigits then 1 else 0) by {
      assert cs[..3][..2] == cs[..2];
    }
    assert cs[..|cs| - 1] == cs[..3];
  }

  /**
   The matched words of a task cost one acquire, one release, one word sent
   and one reply received each; nothing else touches the mutex or the counter.
   */
  lemma {:induction false} CriticalSectionsCounts(ws: seq<string>, q: Queue)
    ensures SendsOn(CriticalSections(ws), q) == (if q == MqWords || q == MqMutex then |ws| else 0)
    ensures RecvsOn(CriticalSections(ws), q) == (if q == MqMutex || q == MqNumberDigits then |ws| else 0)
  {
    if ws != [] {
      var init := ws[..|ws| - 1];
      CriticalSectionsCounts(init, q);
      CriticalSectionCounts(ws[|ws| - 1], q);
      CountsAppend(CriticalSections(init), CriticalSection(ws[|ws| - 1]), q);
    }
  }

  /** The number of words all tasks send to the counter. */
  function SelectedCount(tasks: seq<MsgLine>): nat {
    if tasks == [] then 0 else SelectedCount(tasks[..|tasks| - 1]) + |Selected(tasks[|tasks| - 1])|
  }

  /**
   One task received and one partial result sent per task; the token is taken
   and given back once per matched word, and so are the counter's request and reply.
   */
  lemma {:induction false} WorkerTraceCounts(tasks: seq<MsgLine>)
    ensures RecvsOn(WorkerTrace(tasks), MqLines) == |tasks|
    ensures SendsOn(WorkerTrace(tasks), MqResults) == |tasks|
    ensures RecvsOn(WorkerTrace(tasks), MqMutex) == SelectedCount(tasks)
    ensures SendsOn(WorkerTrace(tasks), MqMutex) == SelectedCount(tasks)
    ensures SendsOn(WorkerTrace(tasks), MqWords) == SelectedCount(tasks)
    ensures RecvsOn(WorkerTrace(tasks), MqNumberDigits) == SelectedCount(tasks)
  {
    if tasks != [] {
      var init := tasks[..|tasks| - 1];
      var t := tasks[|tasks| - 1];
      WorkerTraceCounts(init);
      forall q: Queue
        ensures SendsOn(WorkerTrace(tasks), q) == SendsOn(WorkerTrace(init), q)
          + (if q == MqResults then 1 else 0) + (if q == MqWords || q == MqMutex then |Selected(t)| else 0)
        ensures RecvsOn(WorkerTrace(tasks), q) == RecvsOn(WorkerTrace(init), q)
          + (if q == MqLines then 1 else 0) + (if q == MqMutex || q == MqNumberDigits then |Selected(t)| else 0)
      {
        TaskStepCounts(WorkerTrace(init), t, q);
      }
    }
  }

  /** The counts a single task adds to a trace, queue by queue. */
  lemma TaskStepCounts(before: seq<Event>, t: MsgLine, q: Queue)
    ensures SendsOn(before + TaskTrace(t) + [Send(MqResults, ResultMsg(LineResult(t)))], q)
         == SendsOn(before, q) + (if q == MqResults then 1 else 0) + (if q == MqWords || q == MqMutex then |Selected(t)| else 0)
    ensures RecvsOn(before + TaskTrace(t) + [Send(MqResults, ResultMsg(LineResult(t)))], q)
         == RecvsOn(before, q) + (if q == MqLines then 1 else 0) + (if q == MqMutex || q == MqNumberDigits then |Selected(t)| else 0)
  {
    var head: seq<Event> := [Recv(MqLines, LineMsg(t))];
    var res: seq<Event> := [Send(MqResults, ResultMsg(LineResult(t)))];
    assert head[..0] == [] && res[..0] == [];
    CriticalSectionsCounts(Selected(t), q);
    CountsAppend(head, CriticalSections(Selected(t)), q);
    CountsAppend(before, TaskTrace(t), q);
    CountsAppend(before + TaskTrace(t), res, q);
  }

  // ---------------------------------------------------------------------
  // A worked task.

  /** Three words separated by single separators come back as exactly those three tokens. */
  lemma ThreeWords(a: string, b: string, c: string, d: char, delim: string)
    requires a != [] && b != [] && c != [] && d in delim
    requires NoDelim(a, delim) && NoDelim(b, delim) && NoDelim(c, delim)
    ensures Tokens(a + [d] + (b + [d] + c), delim) == [a, b, c]
  {
    StrtokLastWord(c, delim);
    TokensStep(c, delim);
    TokensStep([], delim);
    StrtokWord(b, d, c, delim);
    TokensStep(b + [d] + c, delim);
    StrtokWord(a, d, b + [d] + c, delim);
    TokensStep(a + [d] + (b + [d] + c), delim);
  }

  /** strtok on "cat1 dog cat22\n" returns cat1, dog and cat22\n, keeping the newline in the last word. */
  lemma ExampleWords()
    ensures Tokens("cat1 dog cat22\n", WORD_SEPARATOR) == ["cat1", "dog", "cat22\n"]
  {
    ThreeWords("cat1", "dog", "cat22\n", ' ', WORD_SEPARATOR);
    ExampleLine();
  }

  lemma ExampleLine()
    ensures "cat1 dog cat22\n" == "cat1" + [' '] + ("dog" + [' '] + "cat22\n")
  {
  }

  lemma ExampleDigits()
    ensures Counter.DigitCount("cat1") == 1 && Counter.DigitCount("cat22\n") == 2
  {
    Counter.DigitCountIsPositions("cat1");
    assert Counter.DigitPositions("cat1") == {3};
    Counter.DigitCountIsPositions("cat22\n");
    assert Counter.DigitPositions("cat22\n") == {3, 4};
  }

  /**
   With pattern "cat", the line "cat1 dog cat22\n" selects cat1 and cat22\n,
   and the partial result is (2, 3) when the replies come from the counter.
   */
  lemma ExampleTask()
    ensures LineResult(MsgLine("cat1 dog cat22\n", "cat")) == MsgResult(2, 3)
  {
    ExampleWords();
    ExampleSelection();
    ExampleTotal();
  }

  lemma ExampleSelection()
    ensures Matching(["cat1", "dog", "cat22\n"], "cat") == ["cat1", "cat22\n"]
  {
    var ws: seq<string> := ["cat1", "dog", "cat22\n"];
    assert "cat" <= "cat1" && "cat" <= "cat22\n" && !("cat" <= "dog") by {
      assert "cat1"[..3] == "cat" && "cat22\n"[..3] == "cat" && "dog"[0] != "cat"[0];
    }
    assert Matching(ws[..1], "cat") == ["cat1"] by { assert ws[..1][..0] == []; }
    assert Matching(ws[..2], "cat") == ["cat1"] by { assert ws[..2][..1] == ws[..1]; }
    assert ws[..2] == ws[..|ws| - 1];
  }

  lemma ExampleTotal()
    ensures TotalDigits(["cat1", "cat22\n"]) == 3
  {
    var sel: seq<string> := ["cat1", "cat22\n"];
    ExampleDigits();
    assert sel[..1][..0] == [] && sel[..1] == sel[..|sel| - 1];
  }

  /** Two words separated by one separator come back as exactly those two tokens. */
  lemma TwoWords(a: string, b: string, d: char, delim: string)
    requires a != [] && b != [] && d in delim
    requires NoDelim(a, delim) && NoDelim(b, delim)
    ensures Tokens(a + [d] + b, delim) == [a, b]
  {
    StrtokLastWord(b, delim);
    TokensStep(b, delim);
    TokensStep([], delim);
    StrtokWord(a, d, b, delim);
    TokensStep(a + [d] + b, delim);
  }

  /** The words of a two-word line that start with the pattern. */
  lemma MatchingTwo(a: string, b: string, pattern: string)
    ensures Matching([a, b], pattern) == (if pattern <= a then [a] else []) + (if pattern <= b then [b] else [])
  {
    var ws: seq<string> := [a, b];
    assert ws[..1][..0] == [] && ws[..1] == ws[..|ws| - 1];
  }

  /** A partial result of one selected word. */
  lemma TotalDigitsOne(w: string)
    ensures TotalDigits([w]) == Counter.DigitCount(w)
  {
    assert [w][..0] == [];
  }

  /** With pattern "cat", the line "cat9 dog" yields (1, 1): one word, one digit. */
  lemma ExampleFirstOfTwo()
    ensures LineResult(MsgLine("cat9 dog", "cat")) == MsgResult(1, 1)
  {
    ExampleFirstWords();
    ExampleFirstSelection();
    TotalDigitsOne("cat9");
    ExampleFirstDigits();
  }

  lemma ExampleFirstWords()
    ensures Tokens("cat9 dog", WORD_SEPARATOR) == ["cat9", "dog"]
  {
    TwoWords("cat9", "dog", ' ', WORD_SEPARATOR);
    ExampleFirstLine();
  }

  lemma ExampleFirstLine()
    ensures "cat9 dog" == "cat9" + [' '] + "dog"
  {
  }

  lemma ExampleFirstSelection()
    ensures Matching(["cat9", "dog"], "cat") == ["cat9"]
  {
    MatchingTwo("cat9", "dog", "cat");
    assert "cat" <= "cat9" && !("cat" <= "dog") by {
      assert "cat9"[..3] == "cat" && "dog"[0] != "cat"[0];
    }
  }

  lemma ExampleFirstDigits()
    ensures Counter.DigitCount("cat9") == 1
  {
    Counter.DigitCountIsPositions("cat9");
    assert Counter.DigitPositions("cat9") == {3};
  }

  /** With pattern "cat", the line "dog cat" yields (1, 0): the word cat holds no digit. */
  lemma ExampleSecondOfTwo()
    ensures LineResult(MsgLine("dog cat", "cat")) == MsgResult(1, 0)
  {
    ExampleSecondWords();
    ExampleSecondSelection();
    TotalDigitsOne("cat");
    ExampleSecondDigits();
  }

  lemma ExampleSecondWords()
    ensures Tokens("dog cat", WORD_SEPARATOR) == ["dog", "cat"]
  {
    TwoWords("dog", "cat", ' ', WORD_SEPARATOR);
    ExampleSecondLine();
  }

  lemma ExampleSecondLine()
    ensures "dog cat" == "dog" + [' '] + "cat"
  {
  }

  lemma ExampleSecondSelection()
    ensures Matching(["dog", "cat"], "cat") == ["cat"]
  {
    MatchingTwo("dog", "cat", "cat");
    assert !("cat" <= "dog") && "cat" <= "cat" by {
      assert "dog"[0] != "cat"[0];
    }
  }

  lemma ExampleSecondDigits()
    ensures Counter.DigitCount("cat") == 0
  {
    Counter.DigitCountIsPositions("cat");
    assert Counter.DigitPositions("cat") == {};
  }
}
