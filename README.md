# Word-prefix counting pipeline, modelled in Dafny

This project models five C files of the PCTR concurrency exercises. The main one is a pipeline of processes talking over five POSIX message queues:

- The **manager** (`manager.c`) does the following:
  - creates the queues and puts one token into the capacity-1 mutex queue;
  - forks `n_processors` workers and one counter, recording them in a process table;
  - sends every line of the input file, with the pattern, as a line task;
  - adds up one partial result per line;
  - finally closes the queues, signals every live child with SIGINT and unlinks the queues.
- A **worker** (`processor.c`) handles one line task at a time. It splits the line at `' '` with `strtok` and uses `strncmp` to select the words that start with the pattern. For each selected word it takes the mutex token, sends the word to the counter, receives the counter's digit count and gives the token back. It then sends one partial result `(n_words, n_digits)` for the task.
- The **counter** (P3 `counter.c`) answers each word with the number of decimal digits before the word's NUL.
- The shared records and constants come from `definitions.h`.
- A separate exercise (P1 `counter.c`) counts the whitespace-separated words of one command-line argument with a two-state machine.

The Dafny modules follow these files:

| module | file | models |
|---|---|---|
| `Definitions` | `definitions.dfy` | `definitions.h`: constants, `MsgLine`, `MsgResult`, `ProcessClass`, `TProcess`. It also defines the queue events process traces are made of. |
| `CStrings` | `cstrings.dfy` | `strlen`, the string `strcpy` copies, `strncmp` and `strtok`, over `seq<char>`. |
| `Counter` | `counter.dfy` | P3 `counter.c`: `count_number` as a loop against `DigitCount`, and the service loop. |
| `Processor` | `processor.dfy` | `processor.c`: class `ProcessorProcess`. The field `partialResults` is updated in place, and a ghost `trace` records the worker's queue operations. |
| `Manager` | `manager.dfy` | `manager.c`: class `ManagerProcess` with the process table as an `array<TProcess>`. Queue creation, spawning, signalling, unlinking and exit are appended to `log`. |
| `WordCounter` | `wordcounter.dfy` | P1 `counter.c`: `run` as a do-while loop, and `parse_argv`. |

Operating-system effects take these forms:
- Each `fork` outcome is an input: -1 for failure, a positive pid otherwise.
- The input file is `Option<seq<string>>`, with `None` when `fopen` fails.
- The manager's partial results are an input sequence, in arrival order.
- `kill`, `mq_open`, `mq_send`, `mq_close`, `mq_unlink` and `exit` become entries of a log or trace.

`manager.c` never checks what `mq_open` returns (line 207), so the model has no queue-creation failure path.

## Model

| member | source | states |
|---|---|---|
| CStrings.StrLen | PCTR_P3_C02_Code_Solution/src/counter.c:68 | strlen is the index of the first NUL, or the buffer length when there is none; no NUL lies before it |
| CStrings.CStr | PCTR_P3_C02_Code_Solution/src/processor.c:98 | the string strcpy copies is a NUL-free prefix of the buffer, and is the whole buffer when the buffer has no NUL |
| CStrings.IgnoresAfterNul | PCTR_P3_C02_Code_Solution/src/counter.c:62-68 | whatever follows the first NUL of a buffer changes neither its strlen nor its string |
| CStrings.Strncmp | PCTR_P3_C02_Code_Solution/src/processor.c:94 | strncmp compares at most n characters and stops after a shared NUL: n == 0 compares equal, a string equals itself, and strings agreeing on their first n characters compare equal whatever follows |
| CStrings.StrncmpPrefix | PCTR_P3_C02_Code_Solution/src/processor.c:94 | strncmp(w, p, strlen(p)) == 0 exactly when p is a prefix of w, in both directions |
| CStrings.Span | PCTR_P3_C02_Code_Solution/src/processor.c:89 | the token strtok cuts is the longest delimiter-free prefix, ended by a delimiter or the end of the string |
| CStrings.Strtok | PCTR_P3_C02_Code_Solution/src/processor.c:89-114 | a returned token is non-empty and delimiter-free, and the rest is strictly shorter; no NUL appears in either when the input has none |
| CStrings.Tokens | PCTR_P3_C02_Code_Solution/src/processor.c:89-115 | every token of the strtok loop is non-empty, holds no delimiter and no NUL |
| CStrings.TokensStep | PCTR_P3_C02_Code_Solution/src/processor.c:114 | a NULL from strtok ends the token list; otherwise the list is the returned token followed by the tokens of the rest |
| CStrings.StrtokWord | PCTR_P3_C02_Code_Solution/src/processor.c:114 | on a word followed by a delimiter, strtok returns that word and resumes just after the delimiter |
| CStrings.StrtokLastWord | PCTR_P3_C02_Code_Solution/src/processor.c:114 | a last word with no delimiter after it is returned whole |
| CStrings.TokensAreNonEmptyFields | PCTR_P3_C02_Code_Solution/src/processor.c:89-115 | the tokens are exactly the non-empty fields between delimiters: leading, trailing and repeated spaces give no empty token |
| CStrings.TokensKeepText | PCTR_P3_C02_Code_Solution/src/processor.c:89-115 | concatenating the tokens gives the line with its delimiters removed, so tabs and the trailing newline stay inside tokens |
| Counter.DigitCount | PCTR_P3_C02_Code_Solution/src/counter.c:68-72 | a word holds at most as many digits as characters |
| Counter.DigitCountIsPositions | PCTR_P3_C02_Code_Solution/src/counter.c:68-72 | the digit count is the number of positions holding '0'..'9' |
| Counter.DigitCountAppend | PCTR_P3_C02_Code_Solution/src/counter.c:68-72 | the digit count of a concatenation is the sum of the counts |
| Counter.CountNumber | PCTR_P3_C02_Code_Solution/src/counter.c:60-75 | the reply is the digit count of the word before its NUL, between 0 and strlen; the call is exactly one receive on MQ_WORDS, then one send on MQ_NUMBER_DIGITS |
| Counter.Serve | PCTR_P3_C02_Code_Solution/src/counter.c:50-52 | one reply per request, in order, each depending only on its own word; receives and sends both equal the number of requests, and the traffic is exactly the per-request receive/send pairs in request order |
| Counter.ExchangesCount | PCTR_P3_C02_Code_Solution/src/counter.c:50-52 | serving n requests is exactly n receives on MQ_WORDS and n sends on MQ_NUMBER_DIGITS |
| Counter.ExchangesAlternate | PCTR_P3_C02_Code_Solution/src/counter.c:50-52 | the service strictly alternates: event 2k receives the k-th word on MQ_WORDS and event 2k+1 sends its digit count on MQ_NUMBER_DIGITS |
| Processor.Matching | PCTR_P3_C02_Code_Solution/src/processor.c:94 | no more words are selected than scanned |
| Processor.MatchingStep | PCTR_P3_C02_Code_Solution/src/processor.c:94-109 | a matching word extends the selection, digit total and critical sections by its own share; a non-matching word changes nothing |
| Processor.MatchingMembers | PCTR_P3_C02_Code_Solution/src/processor.c:94 | a word is selected if and only if it is scanned and starts with the pattern |
| Processor.EmptyPatternSelectsAll | PCTR_P3_C02_Code_Solution/src/processor.c:94 | the empty pattern selects every word |
| Processor.NoneMatching | PCTR_P3_C02_Code_Solution/src/processor.c:94 | when no word starts with the pattern, nothing is selected |
| Processor.NoMatchNoTraffic | PCTR_P3_C02_Code_Solution/src/processor.c:82-121 | a task with no matching word yields (0, 0), and its only queue operation is the task's receive |
| Processor.ProcessorProcess.constructor | PCTR_P3_C02_Code_Solution/src/processor.c:49 | a fresh worker has performed no queue operation |
| Processor.ProcessorProcess.ProcessLine | PCTR_P3_C02_Code_Solution/src/processor.c:75-122 | partial_results becomes (number of matching tokens, sum of their digit counts) for this task alone, whatever it held before; the trace gains the task's receive and then one critical section per matching word, in order |
| Processor.ProcessorProcess.Rendezvous | PCTR_P3_C02_Code_Solution/src/processor.c:98-109 | take the token, send the word, receive its digit count, give the token back; n_digits grows by the counter's reply |
| Processor.ProcessorProcess.ServeTask | PCTR_P3_C02_Code_Solution/src/processor.c:60-61 | one process_line and one send_partial_results: the trace gains the task's operations and then the send of its result |
| Processor.ProcessorProcess.ServeNext | PCTR_P3_C02_Code_Solution/src/processor.c:59-62 | one turn of the main loop extends the trace of k tasks to that of k + 1; the last event sends the current partial_results |
| Processor.ProcessorProcess.Run | PCTR_P3_C02_Code_Solution/src/processor.c:59-62 | over any sequence of tasks, the trace is the concatenation of the per-task turns, and partial_results is the last task's result |
| Processor.WorkerTraceLast | PCTR_P3_C02_Code_Solution/src/processor.c:61 | the last event of the main loop sends the last task's partial result |
| Processor.RendezvousReply | PCTR_P3_C02_Code_Solution/src/processor.c:98-104 | the counter's count over the whole 255-byte word buffer equals the count of the word itself |
| Processor.MutexStep | PCTR_P3_C02_Code_Solution/src/processor.c:101-106 | the token count stays 0 or 1, or is unchanged |
| Processor.CriticalSectionKeepsToken | PCTR_P3_C02_Code_Solution/src/processor.c:101-106 | with the token in the queue, one rendezvous never breaks the protocol and leaves the token back; with the queue empty it cannot start |
| Processor.CriticalSectionsKeepToken | PCTR_P3_C02_Code_Solution/src/processor.c:91-115 | any number of rendezvous in a row leave the token in the queue |
| Processor.WorkerTraceKeepsToken | PCTR_P3_C02_Code_Solution/src/processor.c:59-62 | starting from the one preloaded token, a worker uses the counter only while holding it, and after every task the token is back in the queue |
| Processor.CriticalSectionCounts | PCTR_P3_C02_Code_Solution/src/processor.c:101-106 | a rendezvous is one send each on MQ_WORDS and MQ_MUTEX and one receive each on MQ_MUTEX and MQ_NUMBER_DIGITS, and nothing else |
| Processor.CriticalSectionsCounts | PCTR_P3_C02_Code_Solution/src/processor.c:91-115 | per queue, k rendezvous perform k times those operations |
| Processor.WorkerTraceCounts | PCTR_P3_C02_Code_Solution/src/processor.c:59-62 | exactly one task received and one partial result sent per task; the token is taken and returned once per matching word, once each |
| Processor.TaskStepCounts | PCTR_P3_C02_Code_Solution/src/processor.c:85-125 | the operations one task adds to a trace, counted queue by queue |
| Processor.TwoWords | PCTR_P3_C02_Code_Solution/src/processor.c:89-114 | two words with one separator between them become exactly those two tokens |
| Processor.ThreeWords | PCTR_P3_C02_Code_Solution/src/processor.c:89-114 | three words with single separators become exactly those three tokens |
| Processor.ExampleWords | PCTR_P3_C02_Code_Solution/src/processor.c:89-114 | "cat1 dog cat22\n" tokenises as cat1, dog and cat22\n, with the newline kept in the last token |
| Processor.ExampleSelection | PCTR_P3_C02_Code_Solution/src/processor.c:94 | pattern "cat" selects cat1 and cat22\n, not dog |
| Processor.ExampleDigits | PCTR_P3_C02_Code_Solution/src/counter.c:68-72 | the counter answers 1 for cat1 and 2 for cat22\n |
| Processor.ExampleTotal | PCTR_P3_C02_Code_Solution/src/processor.c:109 | the digit replies for the selected words add up to 3 |
| Processor.ExampleTask | PCTR_P3_C02_Code_Solution/src/processor.c:75-122 | the task ("cat1 dog cat22\n", "cat") yields the partial result (2, 3) |
| Processor.ExampleFirstOfTwo | PCTR_P3_C02_Code_Solution/src/processor.c:75-122 | the task ("cat9 dog", "cat") yields (1, 1) |
| Processor.ExampleSecondOfTwo | PCTR_P3_C02_Code_Solution/src/processor.c:75-122 | the task ("dog cat", "cat") yields (1, 0) |
| Manager.ProcessInfo | PCTR_P3_C02_Code_Solution/src/manager.c:156-167 | get_str_process_info maps PROCESSOR to ("./exec/processor", "PROCESSOR") and COUNTER to ("./exec/counter", "COUNTER"): the class name maps back to its class and the path lies under ./exec/ |
| Manager.ProcessInfoIdentifiesClass | PCTR_P3_C02_Code_Solution/src/manager.c:156-167 | get_str_process_info gives PROCESSOR and COUNTER different paths and class names; the class name stored in a table entry names its class |
| Manager.FirstFailure | PCTR_P3_C02_Code_Solution/src/manager.c:136-142 | the index of the first failed fork, or the number of forks; no fork before it failed |
| Manager.Spawns | PCTR_P3_C02_Code_Solution/src/manager.c:121-127 | one spawn of the class's program per pid, in order |
| Manager.Kills | PCTR_P3_C02_Code_Solution/src/manager.c:187-197 | at most one signal per table entry |
| Manager.KillsTargets | PCTR_P3_C02_Code_Solution/src/manager.c:187-197 | a process is signalled if and only if the signal is SIGINT, its pid is non-zero and it is in the table |
| Manager.KillsAppend | PCTR_P3_C02_Code_Solution/src/manager.c:187-197 | the table is signalled in index order |
| Manager.KillsOfLaunched | PCTR_P3_C02_Code_Solution/src/manager.c:178-197 | when the first entries hold the spawned pids and the rest still hold 0, exactly the spawned children are signalled, in spawning order |
| Manager.ProcessorFailure | PCTR_P3_C02_Code_Solution/src/manager.c:94 | when a processor's fork fails, only the processors spawned before it are signalled |
| Manager.SumResultsAppend | PCTR_P3_C02_Code_Solution/src/manager.c:250-254 | summing field-wise over two runs of results adds their sums |
| Manager.SumResultsPermutation | PCTR_P3_C02_Code_Solution/src/manager.c:250-256 | the global result does not depend on the order in which partial results arrive |
| Manager.ManagerProcess.InitProcessTable | PCTR_P3_C02_Code_Solution/src/manager.c:169-181 | the table has n_processors + n_counters entries, each with pid 0 |
| Manager.ManagerProcess.TerminateProcesses | PCTR_P3_C02_Code_Solution/src/manager.c:183-198 | every entry with a non-zero pid gets SIGINT, in table order |
| Manager.ManagerProcess.FreeResources | PCTR_P3_C02_Code_Solution/src/manager.c:262-274 | the five queues are unlinked, in order |
| Manager.ManagerProcess.CloseMessageQueues | PCTR_P3_C02_Code_Solution/src/manager.c:211-217 | the five queues are closed, in order |
| Manager.ManagerProcess.Abort | PCTR_P3_C02_Code_Solution/src/manager.c:140-142 | the error exit: signal the live children, unlink the queues, exit with failure |
| Manager.ManagerProcess.CreateMessageQueues | PCTR_P3_C02_Code_Solution/src/manager.c:85-91 | lines and results queues sized n_processors; words, digits and mutex queues sized 1 with their message sizes; then exactly one token sent |
| Manager.ManagerProcess.CreateSingleProcess | PCTR_P3_C02_Code_Solution/src/manager.c:133-154 | a failed fork tears everything down and exits with failure; otherwise the child is spawned and its pid returned |
| Manager.ManagerProcess.CreateProcessesByClass | PCTR_P3_C02_Code_Solution/src/manager.c:114-131 | entries [index, index + n) get class, pid and class name; every other entry is unchanged; a failed fork stops at that entry and tears down |
| Manager.ManagerProcess.SpawnProcessors | PCTR_P3_C02_Code_Solution/src/manager.c:94 | processors occupy entries [0, n_processors); the counter's entry is untouched |
| Manager.ManagerProcess.SpawnCounter | PCTR_P3_C02_Code_Solution/src/manager.c:95 | the counter occupies entry n_processors; the processors' entries are unchanged; a failure signals only the processors |
| Manager.ManagerProcess.SpawnAll | PCTR_P3_C02_Code_Solution/src/manager.c:94-95 | succeeds if and only if no fork failed; then every entry's pid is its fork's pid; otherwise the children spawned so far, and only those, are signalled |
| Manager.ManagerProcess.SendLines | PCTR_P3_C02_Code_Solution/src/manager.c:221-243 | an unopenable file tears down and exits with failure; otherwise one task per line, in order, each with the pattern, and n_lines is the number of lines |
| Manager.ReceivePartialResults | PCTR_P3_C02_Code_Solution/src/manager.c:245-258 | exactly n_lines results are received, and the global result is their field-wise sum (0, 0 when there are none) |
| Manager.ManagerMain | PCTR_P3_C02_Code_Solution/src/manager.c:65-110 | the whole run in order, including both failure exits; success if and only if every fork succeeded and the file opened; then the global result sums the first n_lines arrivals, and the table holds the processors then the counter |
| Manager.TasksShape | PCTR_P3_C02_Code_Solution/src/manager.c:236-238 | one task per line, each carrying the line and the one pattern as C strings, fitting their buffers when the inputs do |
| Manager.SetupPrecedesSpawns | PCTR_P3_C02_Code_Solution/src/manager.c:85-95 | every run starts with the five queue creations and the one token, before any spawn; the manager never sends another token |
| Manager.SumOfResults | PCTR_P3_C02_Code_Solution/src/manager.c:250-256 | the sum of the tasks' partial results is (number of matching words, digits in them) over all tasks |
| Manager.PipelineResult | PCTR_P3_C02_Code_Solution/src/manager.c:98-99 | whatever order the results arrive in, the global result counts the words of all lines that start with the pattern, and the digits in those words |
| Manager.ExampleTwoWorkers | PCTR_P3_C02_Code_Solution/src/manager.c:98-99 | the tasks "cat9 dog" and "dog cat" with pattern "cat" give (2, 1) in either arrival order |
| WordCounter.Run | PCTR_P1_A02_Code_Solution/src/counter.c:52-68 | n_words is the number of maximal runs of non-separators in the string before its NUL, the terminating NUL included as a separator; inside_word ends false |
| WordCounter.SeparatorSplits | PCTR_P1_A02_Code_Solution/src/counter.c:57-64 | no word spans a separator: the count around one is the sum of the counts on either side |
| WordCounter.RepeatedSeparators | PCTR_P1_A02_Code_Solution/src/counter.c:60-63 | consecutive separators never add to the count |
| WordCounter.SeparatorsOnly | PCTR_P1_A02_Code_Solution/src/counter.c:57-64 | the empty string and any all-separator string hold no word |
| WordCounter.SingleWord | PCTR_P1_A02_Code_Solution/src/counter.c:56-68 | a single word is counted once even without a trailing separator |
| WordCounter.WordCountBound | PCTR_P1_A02_Code_Solution/src/counter.c:56-68 | twice the count is at most the length, plus one when the string ends inside a word |
| WordCounter.AtMostHalf | PCTR_P1_A02_Code_Solution/src/counter.c:56-68 | n_words <= (len + 1) / 2 |
| WordCounter.ParseArgv | PCTR_P1_A02_Code_Solution/src/counter.c:83-91 | a command line is accepted if and only if it has exactly three arguments; the line and its number are then argv[1] and argv[2] |
| WordCounter.CounterMain | PCTR_P1_A02_Code_Solution/src/counter.c:38-48 | a wrong argument count exits with failure; otherwise the line's words are counted and the program exits with success |

## Left out

- A Dafny `char` stands for one C byte: Definitions.FitsBuffer and the 254-character limit count characters where the C buffers count bytes; the two agree for ASCII text, which is what the programs handle.
- Manager.PipelineResult: assumes, as its `requires`, that each task is taken by exactly one worker and its result arrives exactly once (the arrivals are a permutation of the tasks' results); the queue semantics that guarantee this are not modelled.
- Process control is not modelled:
  - the child side of `fork` and `execl`, and its error exit (manager.c:144-149);
  - the delivery of signals;
  - the SIGINT handlers and their installation (manager.c:276-281 and 299-304; P1 counter.c:75-81 and 93-96).
  Each fork outcome is an input.
- The manager's `parse_argv` (argc != 4, `atoi` of `n_processors`) and `print_result` are not modelled. `n_processors` arrives as a `nat`, so a negative `atoi` value is not modelled either.
- POSIX queue semantics are not modelled: blocking, capacities at run time, open modes and attributes, and the workers' and counter's `open_message_queue`. Queue operations are trace or log entries.
- Processor.MutexStep: the mutual exclusion argument across several concurrent workers is not modelled. The token is a 0/1 count seen by one worker, and the one-token discipline is proved on that worker's own trace.
- Manager.ReceivePartialResults: it requires at least n_lines arrivals. The source blocks forever when a worker's result never comes, and that stall is not modelled.
- Manager.ManagerProcess.SendLines: `fgets` splitting of lines longer than 254 characters into several reads is not modelled. Each element of the file sequence is one line as `fgets` returns it.
- `strcpy` of a pattern of 255 or more characters overflows `msg_line.pattern` (manager.c:237), which is undefined behaviour. The model copies the pattern's C string whatever its length.
- Integer overflow of the `int` sums in `receive_partial_results` and `process_line` is not modelled: sums are unbounded.
- A failed `kill` is only reported on stderr (manager.c:192-195). The model does not distinguish it.
- `malloc`/`free` of the process table, `printf` and `sleep` are not modelled. So is the value of the uninitialised mutex token (`TokenMsg` carries none).
- Manager.ManagerProcess.InitProcessTable: the class and name fields of the allocated entries are indeterminate in the source. The contract says nothing about them.
- Processor.ProcessorProcess.constructor: `partial_results` starts uninitialised in the source, and the constructor leaves `partialResults` unspecified.
- Counter.CountNumber: the word message carries the word's C string, not the bytes of `word_copy` after its NUL. Processor.RendezvousReply shows those bytes cannot change the reply.
- `isdigit` is taken in the C locale ('0'..'9').
- The P1 word counter's `atoi` of the line number and its `printf` are not modelled. WordCounter.CounterMain returns the count instead of printing it.
