/**
 Shared constants and message records of the manager / processor / counter
 pipeline (include/definitions.h), plus the vocabulary used to record the
 traffic on its five POSIX message queues.
 */
module Definitions {

  datatype Option<T> = None | Some(value: T)

  // Message-queue names.
  const MQ_LINES: string := "/mq_lines"
  const MQ_RESULTS: string := "/mq_results"
  const MQ_WORDS: string := "/mq_words"
  const MQ_NUMBER_DIGITS: string := "/mq_number_digits"
  const MQ_MUTEX: string := "/mq_mutex"

  // Class names and executable paths of the two kinds of child process.
  const PROCESSOR_CLASS: string := "PROCESSOR"
  const PROCESSOR_PATH: string := "./exec/processor"
  const COUNTER_CLASS: string := "COUNTER"
  const COUNTER_PATH: string := "./exec/counter"

  /** Size of every character buffer: at most MAX_LINE_SIZE - 1 characters and the NUL. */
  const MAX_LINE_SIZE: nat := 255
  /** The pool of counting services has exactly one member. */
  const NUM_COUNTERS: nat := 1
  /** The delimiter set handed to strtok. */
  const WORD_SEPARATOR: string := " "

  // Byte sizes of the queue messages (a C int is 4 bytes, a char 1).
  const INT_SIZE: nat := 4
  const CHAR_SIZE: nat := 1
  const MSG_LINE_SIZE: nat := 2 * MAX_LINE_SIZE
  const MSG_RESULT_SIZE: nat := 2 * INT_SIZE

  /** A C string fits a MAX_LINE_SIZE buffer when it leaves room for its NUL. */
  predicate FitsBuffer(s: string) {
    |s| < MAX_LINE_SIZE && '\0' !in s
  }

  /** A line task (struct MsgLine_t): the text of one input line and the pattern. */
  datatype MsgLine = MsgLine(line: string, pattern: string)

  /** A partial or global result (struct MsgResult_t). */
  datatype MsgResult = MsgResult(nWords: int, nDigits: int)

  /** enum ProcessClass_t */
  datatype ProcessClass = PROCESSOR | COUNTER

  /** One entry of the manager's process table (struct TProcess_t). */
  datatype TProcess = TProcess(processClass: ProcessClass, pid: int, strProcessClass: string)

  /** A well-formed line task: both fields fit their buffers. */
  predicate ValidMsgLine(m: MsgLine) {
    FitsBuffer(m.line) && FitsBuffer(m.pattern)
  }

  /** The five message queues. */
  datatype Queue = MqLines | MqResults | MqWords | MqNumberDigits | MqMutex

  /** What travels on a queue. The mutex token's value is never looked at, so it carries none. */
  datatype Message =
    | LineMsg(task: MsgLine)
    | ResultMsg(result: MsgResult)
    | WordMsg(word: string)
    | DigitsMsg(nDigits: int)
    | TokenMsg

  /** One operation of a process on a queue: mq_receive or mq_send. */
  datatype Event = Recv(q: Queue, m: Message) | Send(q: Queue, m: Message)

  /** The number of events in `trace` that are sends on `q`. */
  function SendsOn(trace: seq<Event>, q: Queue): (n: nat)
    ensures n <= |trace|
  {
    if trace == [] then 0
    else SendsOn(trace[..|trace| - 1], q) + (if trace[|trace| - 1] == Send(q, trace[|trace| - 1].m) then 1 else 0)
  }

  /** The number of events in `trace` that are receives on `q`. */
  function RecvsOn(trace: seq<Event>, q: Queue): (n: nat)
    ensures n <= |trace|
  {
    if trace == [] then 0
    else RecvsOn(trace[..|trace| - 1], q) + (if trace[|trace| - 1] == Recv(q, trace[|trace| - 1].m) then 1 else 0)
  }

  lemma {:induction false} CountsAppend(a: seq<Event>, b: seq<Event>, q: Queue)
    ensures SendsOn(a + b, q) == SendsOn(a, q) + SendsOn(b, q)
    ensures RecvsOn(a + b, q) == RecvsOn(a, q) + RecvsOn(b, q)
    decreases |b|
  {
    if b == [] {
      assert a + b == a;
    } else {
      assert (a + b)[..|a + b| - 1] == a + b[..|b| - 1];
      CountsAppend(a, b[..|b| - 1], q);
    }
  }

  lemma AppendAssoc<T>(a: seq<T>, b: seq<T>, c: seq<T>)
    ensures (a + b) + c == a + (b + c)
  {
  }
}
