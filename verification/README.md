# POSIX process programs, modelled and proved

A Dafny model of six small POSIX programs and proofs of what they promise: `33_bogatirya` (leader
election and relayed printing over one System V message queue), `pizza` (a bounded ring with three
semaphores), `zachet` (a cook and its hunters), `myshell` (an in-place pipeline parser and its
pipes), `stadium` (baton passing) and `wc` (a pass-through word counter). Check everything with
`dafny verify dfyconfig.toml`.

Two kinds of model are used.

* **Protocols are state machines.** A process is a program counter with its local variables, the
  queue or the table is shared state, an action is one step of one process, and a run is any
  sequence of enabled actions, so a theorem about all runs is a theorem about every interleaving.
  What the scheduler may choose is itself proved: the `Schedules` lemmas say that exactly the
  blocking calls hold a process up, and the lemmas beside them that no process takes an action of
  another away.
  The constants of the sources (95 bogatirs, 5 slots, 10 pizzas, 5 hunters) are parameters. History
  fields (what was drawn, placed, taken, hunted, served) are named as such where they are declared;
  no step depends on them.
* **Sequential code is imperative.** Loops over buffers, arrays, counters and descriptor tables are
  methods over arrays and classes, each proved against a function that the protocol proofs use too:
  `BogatiryaObject`, `PizzaObject`, `ZachetCook`, `ShellParser`, `ShellPipes` and `WordCount`.

The queue is the one of `msgsnd` and `msgrcv` (IEEE Std 1003.1-2017, System Interfaces, chapter 3):
first in, first out within a message type. Values drawn at random, the results of hunts and the
sizes of reads and writes are arbitrary inputs.

Where the model differs from a line of the sources, or shows that line to misbehave:

* The uniqueness loop of `33_bogatirya/33_bogatirya.c:66-68` compares one pair too many, the last
  one with whatever lies behind the array. The model uses the intended bound `i + 1 < N`.
* `get_redirection` (`myshell/myshell.c:149-153`, `170-174`) steps over a NUL that ends a path, so a
  path against a bar makes the walk run on into the next command, and its redirections are credited
  to the command the walk began with. `sort <in|uniq >out` is refused, and `a <x|b <y` is accepted
  with y as the input of the first command. `ShellRoundTrip.Placement` says for every line which
  happens, and `ShellCoverage.EveryLine` that no line falls outside its grammar. At the end of a line read with its newline the step is harmless, because a second NUL
  follows. On a last line without a newline the walk goes on in the bytes that are in the buffer:
  after `cat <a<b`, the line `a  <x` reads from b. `ShellTail.TailIff` says exactly when the bytes
  behind the line do harm.
* `parse_argv` stops at the first NUL, so words behind a redirection are lost: `cat <in -n` runs
  `cat` without its option. Only lines without such words come back whole. With exactly 64 words
  the closing NULL is written past the end of `argv` (`myshell/myshell.c:300`); the model calls that
  `NoRoom`.
* `run_commands` relies on the shell's standard output being open: otherwise a new descriptor takes
  its number and is closed again, and the first command runs without one.
* The couriers of `pizza` test two counters without the lock (`pizza/pizza.c:208`). The model takes
  the reads as two steps. The test is sound once every chief has registered; before that a courier
  may leave at once, and `PizzaExit` says exactly when leaving is right.
* A symbol of the string that no bogatir owns stops the printing of `33_bogatirya` for good; with
  every symbol owned the program can be run to its end from every reachable state, and only then.

## Files

| files | contents |
|---|---|
| `MessageQueue`, `Sequences`, `Sums`, `Ctype` | the queue, concatenation, weighted sums over processes, `isspace` |
| `BogatiryaProcess`, `BogatiryaObject` | one bogatir as a function and as an object, the relay loop |
| `BogatiryaCircle`, `BogatiryaCircleProofs` | the bogatirs over an atomic broadcast, and its invariant |
| `BogatiryaRelay`, `BogatiryaInterleaving`, `BogatiryaTheorems`, `BogatiryaRanking`, `BogatiryaLiveness`, `BogatiryaBound`, `BogatiryaElection` | the program refines that broadcast; what the scheduler may choose; what the program promises; what a rank is; that it ends, and how soon; that an election can always be won |
| `PizzaTable`, `PizzaSystem`, `PizzaProofs`, `PizzaTheorems`, `PizzaProgress`, `PizzaEnd`, `PizzaExit`, `PizzaObject`, `PizzaTurns` | the ring, the processes, the invariant, safety and leaving, progress, when the program can end, the exit test, the object, what the scheduler may choose and one turn of each loop |
| `ZachetDay`, `ZachetCook`, `ZachetSystem`, `ZachetProofs`, `ZachetTheorems`, `ZachetReplies`, `ZachetInterleaving`, `ZachetProgress` | one day and a life as functions, the cook as an object, the asynchronous system, its refinement of days and of the replies, what the scheduler may choose, progress |
| `ShellParser`, `ShellGrammar`, `ShellCoverage`, `ShellItems`, `ShellLine`, `ShellRedirect`, `ShellRoundTrip`, `ShellTail`, `ShellExamples`, `ShellPipes` | the parser in place, command lines and their meaning, that the grammar leaves no line out, each pass over an item, a command, a line, what becomes of every line, of the bytes behind it, of single lines, the pipes |
| `Stadium`, `StadiumInterleaving`, `WordCount` | the baton, what the scheduler may choose, the counter |

## Model

| member | source | states |
|---|---|---|
| `BogatiryaTheorems.RoundIsolation` | 33_bogatirya/33_bogatirya.c:33-59 | in every interleaving, what a bogatir has received in round r is the start of what the others drew in round r, in the order drawn; with n - 1 messages it is one value from each other bogatir, never a later value or a print command |
| `BogatiryaRelay.RunLinked` | 33_bogatirya/33_bogatirya.c:185-209 | every run over the queue and the relay loop is a run over an atomic broadcast: each bogatir's mailbox and the letters under way are together exactly its stream |
| `BogatiryaRelay.ForwardStream` | 33_bogatirya/33_bogatirya.c:193-204 | a step of the relay loop changes no bogatir's stream |
| `BogatiryaInterleaving.Schedules` | 33_bogatirya/33_bogatirya.c:33-209 | in every reachable state a bogatir can draw any value but 0, receive the oldest message of its mailbox, or take its next step, whatever the relay loop is doing; the loop is held up only by an empty mailbox or its end |
| `BogatiryaInterleaving.NeverHeldUp` | 33_bogatirya/33_bogatirya.c:33-156 | nothing but an empty mailbox at a receive holds up a bogatir that has not ended |
| `BogatiryaInterleaving.StaysEnabled` | 33_bogatirya/33_bogatirya.c:33-209 | what one process can do it can still do after an action of another |
| `BogatiryaInterleaving.RelayCommutes` | 33_bogatirya/33_bogatirya.c:33-209 | a bogatir and the relay loop may act in either order: the same processes, relay, output and messages of every type |
| `BogatiryaInterleaving.BogatirsCommute` | 33_bogatirya/33_bogatirya.c:33-156 | so may two bogatirs, but for the order in which main finds their messages |
| `BogatiryaInterleaving.Overlap` | 33_bogatirya/33_bogatirya.c:193-204 | a bogatir draws while main is between two sends of another's value |
| `BogatiryaCircleProofs.DoKeeps` | 33_bogatirya/33_bogatirya.c:33-156 | every move of every bogatir keeps the invariant that ties its values, round, rank, unread messages and the stage of the printing together |
| `BogatiryaTheorems.Agreement` | 33_bogatirya/33_bogatirya.c:61-78 | whoever completes a round sorts the same sequence, however far apart in the run: all draw again or all stop |
| `BogatiryaTheorems.Ranking` | 33_bogatirya/33_bogatirya.c:80-92 | ranks given never collide, and once all are given they are exactly 0 to n - 1 |
| `BogatiryaRanking.RankByValue` | 33_bogatirya/33_bogatirya.c:80-91 | a bogatir's rank is the number of bogatirs that drew less |
| `BogatiryaTheorems.OutputIsPrefix` | 33_bogatirya/33_bogatirya.c:94-117 | in every reachable state the output is a prefix of the string and its newline |
| `BogatiryaTheorems.PrintsInTurn` | 33_bogatirya/33_bogatirya.c:91-156 | what is printed next is the next symbol of the string, by its owner, and the newline by the leader |
| `BogatiryaTheorems.CleanShutdown` | 33_bogatirya/33_bogatirya.c:205-216 | when all have ended the whole string and newline are out and the queue that is removed is empty |
| `BogatiryaTheorems.RelayClosesLast` | 33_bogatirya/33_bogatirya.c:205-209 | the relay loop ends only with the output complete and nothing left to relay |
| `BogatiryaTheorems.ZeroFromLeader` | 33_bogatirya/33_bogatirya.c:116-123 | in every run the value 0 is sent by the leader only, after the whole string and the newline |
| `BogatiryaTheorems.ZeroIsLast` | 33_bogatirya/33_bogatirya.c:118-124 | and in no continuation is anything sent after it |
| `BogatiryaTheorems.ForeignSymbolStops` | 33_bogatirya/33_bogatirya.c:103-109 | the output never gets past a symbol that no bogatir owns |
| `BogatiryaLiveness.NoDeadlock` | 33_bogatirya/33_bogatirya.c:91-156 | with every symbol owned some action is enabled until everything has ended |
| `BogatiryaLiveness.Terminates` | 33_bogatirya/33_bogatirya.c:80-156 | once a round is decided no schedule goes on for more actions than the work that is left there |
| `BogatiryaBound.TerminatesWithin` | 33_bogatirya/33_bogatirya.c:80-156 | and that is bounded by the number of bogatirs and the length of the string alone, whatever led to the decided round |
| `BogatiryaElection.Elect` | 33_bogatirya/33_bogatirya.c:33-78 | from every reachable state some schedule, with draws that do not repeat, comes to a run whose current round all have drawn in, without a repeated value |
| `BogatiryaElection.CanFinishIffOwned` | 33_bogatirya/33_bogatirya.c:33-216 | from every reachable state the program can be run to its end if and only if every symbol has an owner |
| `BogatiryaElection.PrintableText` | 33_bogatirya/33_bogatirya.c:19-21 | with 95 bogatirs that is the case exactly for the texts over ' ' to '~', and at the end the text and a newline have been printed |
| `BogatiryaProcess.SameSort` | 33_bogatirya/33_bogatirya.c:61-62 | sequences with the same elements sort to the same sequence, whatever order the values arrived in |
| `BogatiryaObject.Bogatir.Draw` | 33_bogatirya/33_bogatirya.c:37-50 | drawing, sending and storing the own value is the process's first move |
| `BogatiryaObject.Bogatir.Receive` | 33_bogatirya/33_bogatirya.c:53-58 | a received message is stored, advances the leader, or is ignored, obeyed or the end for a follower |
| `BogatiryaObject.Bogatir.IsUnique` | 33_bogatirya/33_bogatirya.c:64-73 | comparing neighbours of the sorted array finds a repeated value if there is one |
| `BogatiryaObject.Bogatir.FindRank` | 33_bogatirya/33_bogatirya.c:81-89 | the rank is the first place of the own value |
| `BogatiryaObject.Bogatir.Conclude` | 33_bogatirya/33_bogatirya.c:61-92 | sort, test and rank in place are the process's concluding move |
| `BogatiryaObject.Bogatir.Print` | 33_bogatirya/33_bogatirya.c:94-155 | what leader and follower send and print on their own |
| `BogatiryaObject.SortIsUnique` | 33_bogatirya/33_bogatirya.c:62 | any in-place sort leaves exactly the specified sequence |
| `BogatiryaObject.Main.RelayOne` | 33_bogatirya/33_bogatirya.c:188-204 | one turn of the relay appends the value to every mailbox but the sender's, and to nothing else |
| `PizzaProofs.RunKeeps` | pizza/pizza.c:154-247 | the credits of the three semaphores, the ring, the queue and the absence of failures hold after every run of any number of processes |
| `PizzaTheorems.SettledTable` | pizza/pizza.c:166-183 | with the table free the full slots are exactly the pizza_count places from the tail, byte for byte, the others are zero, and the head is behind them |
| `PizzaTheorems.MutualExclusion` | pizza/pizza.c:170-180 | never two processes in the critical section |
| `PizzaTheorems.NoOverwrite` | pizza/pizza.c:169-172 | a chief about to copy has a blank slot at the head |
| `PizzaTheorems.NoBadPizza` | pizza/pizza.c:223-232 | the "Bad pizza" branch is unreachable |
| `PizzaTheorems.FifoQueue` | pizza/pizza.c:169-243 | what was placed is what was taken followed by what is on the table, in order; each chief's pizzas once each and in order; work per chief times chiefs in the end |
| `PizzaTheorems.SoundExit` | pizza/pizza.c:208 | after all chiefs registered, chiefs_count 0 and later pizza_count 0 mean every pizza is taken and the buffer is zero for good |
| `PizzaTheorems.LeavesDrained` | pizza/pizza.c:208 | a courier that was not between its two reads when the last chief registered leaves only when every pizza there will ever be is taken and the buffer is zero |
| `PizzaExit.ExitIffWorkDone` | pizza/pizza.c:208 | leaving at pizza_count 0 misses nothing if and only if every chief has counted its last pizza |
| `PizzaExit.EarlyExit` | pizza/pizza.c:161-163 | a courier scheduled before any chief registers leaves at once, and if it was the only one nothing is ever delivered |
| `PizzaProgress.DeliverOne` | pizza/pizza.c:161-244 | from every reachable state with a courier in play and a pizza undelivered some schedule delivers one more and leaves a courier in play |
| `PizzaProgress.DeliverAll` | pizza/pizza.c:161-244 | and some schedule delivers every pizza |
| `PizzaProgress.CanDeliverIff` | pizza/pizza.c:161-244 | from a reachable state some schedule delivers every pizza if and only if all are delivered or some courier has not left, wherever it is |
| `PizzaEnd.CanEndIff` | pizza/pizza.c:154-247 | from a reachable state some schedule brings every chief and every courier to its end if and only if some courier has not left or the pizzas not yet taken fit on the table |
| `PizzaTurns.Schedules` | pizza/pizza.c:154-247 | in every reachable state a chief is held up by the semaphore it waits for and by nothing else, a courier by nothing until it has left |
| `PizzaTurns.StaysEnabled` | pizza/pizza.c:154-247 | an action of another process takes an action away only by taking the semaphore it waits for |
| `PizzaTurns.ChiefTurn` | pizza/pizza.c:166-183 | one turn of a chief's loop, run alone, puts its next pizza behind the others, turns an empty place into a ready pizza and frees the table again |
| `PizzaTurns.ChiefComesAndGoes` | pizza/pizza.c:161-186 | arriving and leaving count the chief in and out and change nothing else |
| `PizzaTurns.CourierTurn` | pizza/pizza.c:208-243 | one turn of a courier's loop, run alone, ends it if both counts are 0, changes nothing if no pizza is ready or the table is in use, and otherwise takes the first pizza of the ring, turns a ready pizza into an empty place and frees the table again |
| `PizzaTable.FillOne` | pizza/pizza.c:172-174 | filling the place behind the window, which is blank, makes the window one longer |
| `PizzaTable.ClearOne` | pizza/pizza.c:233-235 | clearing the first place of the window, which is full, makes it one shorter |
| `PizzaObject.SharedTable.Fill` | pizza/pizza.c:172 | the byte copy changes one slot and no other |
| `PizzaObject.SharedTable.Holds` | pizza/pizza.c:223 | the byte comparison tells whether the slot holds the word |
| `PizzaObject.SharedTable.Place` | pizza/pizza.c:172-174 | a chief's critical section on the array |
| `PizzaObject.SharedTable.Fetch` | pizza/pizza.c:221-235 | a courier's critical section on the array, and its failing branch |
| `PizzaObject.ChiefSection` | pizza/pizza.c:170-180 | the chief's critical section is its three steps in the interleaved model |
| `PizzaObject.CourierSection` | pizza/pizza.c:233-235 | the same for the courier |
| `PizzaObject.BadSection` | pizza/pizza.c:223-231 | a courier that meets anything but a pizza gives both semaphores back, fails, and changes nothing else |
| `PizzaObject.PlaceKeepsQueue` | pizza/pizza.c:172-174 | placing on a ring with room hits a blank slot and leaves a ring with one more |
| `PizzaObject.FetchKeepsQueue` | pizza/pizza.c:223-235 | fetching from a ring that is not empty hits a pizza and leaves a ring with one less |
| `ZachetTheorems.Refinement` | zachet/zachet.c:128-273 | in every interleaving the cook begins each day with what running the days one after another gives, and each day's catch is one result from each living hunter |
| `ZachetTheorems.OrderIrrelevant` | zachet/zachet.c:134-155 | runs with the same hunting results have the same mornings, in whatever order messages arrived |
| `ZachetReplies.RepliesRefine` | zachet/zachet.c:217-249 | in every interleaving each hunter has been sent exactly the replies that the days run one after another have for it |
| `ZachetReplies.KilledIsChosen` | zachet/zachet.c:171-233 | the hunter that is sent MSG_KILLED is the first living one whose hunt of the day failed, or, if none failed, the first living one |
| `ZachetReplies.HunterMood` | zachet/zachet.c:83-110 | the message a hunter finds is the cook's last reply to it, and it goes out as a successful hunter exactly if that was food or there was none yet |
| `ZachetReplies.FlagsHeeded` | zachet/zachet.c:93-110 | whatever message a hunter finds, it leaves exactly if MSG_KILLED or MSG_COOK_DEAD is set |
| `ZachetInterleaving.Schedules` | zachet/zachet.c:66-155 | in every reachable state a hunter can hunt with either result, and hunter and cook are held up only by an empty mailbox at a receive |
| `ZachetInterleaving.StaysEnabled` | zachet/zachet.c:66-249 | what one process can do it can still do after an action of another, with the same oldest message |
| `ZachetInterleaving.Swapped` | zachet/zachet.c:66-249 | two processes may act in either order: the same state, and the same messages of every type unless both send to the cook |
| `ZachetTheorems.OwnsOne` | zachet/zachet.c:66-111 | each living hunter owns exactly one of: a message to send, one queued to the cook, one the cook has and has not answered, a queued reply; a dead one at most its last reply |
| `ZachetProofs.ApplyKeeps` | zachet/zachet.c:128-273 | every action of the cook and of every hunter keeps the invariant |
| `ZachetTheorems.DeathDay` | zachet/zachet.c:251-271 | the asynchronous cook dies on the day the sequence of days says, between day n + 2 and day 3n + 1 |
| `ZachetTheorems.KilledReplies` | zachet/zachet.c:228-233 | each hunter is sent MSG_KILLED once if dead and never while alive, and MSG_COOK_DEAD never |
| `ZachetTheorems.DiesLast` | zachet/zachet.c:251-272 | the cook dies only without hunters and food; every hunter has left or has its last reply waiting |
| `ZachetTheorems.QueueEmpty` | zachet/zachet.c:52-58 | when all have returned the queue that is removed is empty |
| `ZachetTheorems.FoodConserved` | zachet/zachet.c:145-249 | pieces brought and two per kill equal pieces the cook ate, MSG_FOOD replies and food_count; hunters_count is the number of living; at most two pieces overnight |
| `ZachetDay.DayCounts` | zachet/zachet.c:157-252 | the arithmetic of one day, when somebody is killed, when the cook survives, and that 3 * hunters + food strictly falls |
| `ZachetDay.VictimLives` | zachet/zachet.c:171-202 | the victim is the first living hunter that brought nothing, else the first living one; there is none only if nobody lives |
| `ZachetDay.DayVictim` | zachet/zachet.c:171-227 | whoever a day kills is the first living hunter that brought nothing, or, if all the living brought something, the first living one, and is the only one not alive in the evening |
| `ZachetDay.DayReplies` | zachet/zachet.c:157-249 | everybody's reply of a day: the dead nothing, the victim its death, and of the others as many from the first on as there are pieces left are fed |
| `ZachetDay.ServeAt` | zachet/zachet.c:218-249 | the dead hear nothing, the victim its death, and of the others the first ones get a piece, as many as there are pieces |
| `ZachetDay.CookLife` | zachet/zachet.c:128-273 | n + 2 to 3n + 1 days whatever the hunts bring, both bounds attained |
| `ZachetDay.LongestLife` | zachet/zachet.c:128-273 | from every morning, if all hunts succeed, exactly 3 * hunters + food + 1 days |
| `ZachetProgress.NoDeadlock` | zachet/zachet.c:66-155 | until everything has ended somebody can act |
| `ZachetProgress.RunsEnd` | zachet/zachet.c:128-273 | no run is longer than (4n + 2)(3n + 1) + 2n actions |
| `ZachetProgress.StuckIsFinished` | zachet/zachet.c:52-58 | a run that cannot go on ended with the cook dead, each hunter killed once and gone, and the queue empty |
| `ZachetCook.Cook.Receive` | zachet/zachet.c:134-155 | the receive loop yields the day's catch and its count in any order of arrival |
| `ZachetCook.Cook.ChooseVictim` | zachet/zachet.c:174-202 | the two search loops find the victim of the day function |
| `ZachetCook.Cook.Share` | zachet/zachet.c:157-215 | eating and killing are the day function's plan |
| `ZachetCook.Cook.Reply` | zachet/zachet.c:217-249 | the reply loop serves, counts down and buries as the day function says |
| `ZachetCook.Cook.LiveDay` | zachet/zachet.c:134-252 | one turn of the loop is one day |
| `ZachetCook.Cook.Live` | zachet/zachet.c:118-273 | the loop ends after exactly the days the sequence of days says |
| `ShellRoundTrip.RoundTrip` | myshell/myshell.c:71-116 | a spelled legal pipeline is parsed back into all its words and paths, as NUL-terminated strings inside the one buffer, if and only if it fits the limits, does not clash, and no word stands behind a redirection |
| `ShellCoverage.EveryLine` | myshell/myshell.c:60-66 | every line without a NUL or a newline in it is spelled from a pipeline of the grammar |
| `ShellRoundTrip.Placement` | myshell/myshell.c:93-116 | every line of at most 16 commands is refused for a misplaced redirection if and only if one is stray, with the message of the first stretch that holds one, the input looked at first, and otherwise, with room in argv, parsed with each command's leading words, the last input path of the line and the last command's output path |
| `ShellRoundTrip.ClosedPlacement` | myshell/myshell.c:98-113 | as long as no path touches a bar, refused for that reason are exactly the lines with a redirection where none is allowed |
| `ShellRoundTrip.Refusals` | myshell/myshell.c:77-114 | a legal line with too many commands, a clash, or too many words gets which error: 64 words go past argv, more are refused |
| `ShellRoundTrip.Limits` | myshell/myshell.c:80-84 | a legal line without the clash is refused for its commands exactly from 17 on and accepted exactly up to 16 commands of 63 words; 64 words go past argv, more are refused |
| `ShellRoundTrip.SpecialLines` | myshell/myshell.c:60-69 | exactly the empty line is passed over and exactly `exit` ends the shell |
| `ShellRoundTrip.Clash` | myshell/myshell.c:135-155 | an input path against the bar before a command with an output redirection is refused |
| `ShellExamples.ClashExample` | myshell/myshell.c:107-113 | the smallest clashing line is refused |
| `ShellExamples.RefusedExample` | myshell/myshell.c:107-113 | an output redirection of a first command, against the bar, is refused |
| `ShellExamples.AcceptedExample` | myshell/myshell.c:98-106 | an input redirection of a second command is accepted and replaces the first command's |
| `ShellExamples.LostExample` | myshell/myshell.c:285 | a word behind a path is lost |
| `ShellExamples.LeftoverExample` | myshell/myshell.c:54-66 | after one line, a last line without newline takes its input from what the first left in the buffer |
| `ShellTail.TailIff` | myshell/myshell.c:149-153 | a line that would be accepted is read as it stands if and only if it does not end in a path or the bytes behind its NUL hold a NUL with no redirection before it; without a NUL there the walk leaves the buffer |
| `ShellTail.CalmIff` | myshell/myshell.c:133-178 | when the bytes behind a line are harmless, in terms of their first NUL |
| `ShellLine.SplitAll` | myshell/myshell.c:71-88 | the splitting loop lays the commands out one behind the other, or refuses the seventeenth |
| `ShellRedirect.LoopFrom` | myshell/myshell.c:90-116 | main's loop refuses a line or leaves every redirection in its pointer, stretch by stretch |
| `ShellRedirect.WalkStretch` | myshell/myshell.c:128-179 | one walk passes over a whole stretch: a command and those behind it that paths against bars join to it |
| `ShellItems.RedirectItems` | myshell/myshell.c:128-179 | get_redirection cuts exactly the redirections out and finds the last path of each kind |
| `ShellItems.TokenItems` | myshell/myshell.c:279-302 | parse_argv zeroes the blanks and finds the words before the first redirection, below, at and above 64 |
| `ShellLine.WordsStand` | myshell/myshell.c:292 | each argument points at its own word, NUL-terminated |
| `ShellLine.PathStands` | myshell/myshell.c:144-165 | each path pointer points at its own path, NUL-terminated, after all passes |
| `ShellParser.SplitLine` | myshell/myshell.c:71-88 | the loop on the buffer is the function the proofs use, and leaves its memory |
| `ShellParser.GetRedirection` | myshell/myshell.c:128-179 | the same for get_redirection |
| `ShellParser.ParseArgv` | myshell/myshell.c:279-302 | the same for parse_argv |
| `ShellParser.ReadLine` | myshell/myshell.c:60-116 | the same for a whole line |
| `ShellPipes.RunCommands` | myshell/myshell.c:181-277 | the shell keeps the descriptors it had, also when a command does not parse; every process runs with those, its two standard streams wired to its neighbours or files and nothing else, if the shell's standard output is open or not needed, and otherwise the first process has no standard output |
| `ShellPipes.Process.Wire` | myshell/myshell.c:213-250 | what the child does between fork and exec |
| `ShellPipes.PipeHolders` | myshell/myshell.c:239-269 | a pipe's write end is held only as standard output of one process, its read end only as standard input of the next, neither by the shell |
| `ShellPipes.FileHolders` | myshell/myshell.c:215-237 | the output file is the standard output of the last process and the input file the standard input of the first, if named, and neither is anything else anywhere |
| `ShellPipes.OthersInherited` | myshell/myshell.c:213-250 | every other descriptor of a process, and those two where no file is named, are the shell's |
| `Stadium.BatonSafety` | stadium/stadium.c:82-182 | at most one baton, no unexpected status, runners once each and in order, the judge last |
| `Stadium.WildcardTakesHellos` | stadium/stadium.c:82-91 | every message a wildcard receive takes is a hello |
| `Stadium.GreetsEveryone` | stadium/stadium.c:82-92 | the n wildcard receives take the hello of every runner, each once, and leave none |
| `Stadium.NoDeadlock` | stadium/stadium.c:111-180 | somebody can act until all have ended, and then only ALL_CREATED is on the queue |
| `StadiumInterleaving.Schedules` | stadium/stadium.c:75-183 | in every reachable state a runner that is not home is held up only while its start message is missing, the judge only at a receive without a message |
| `StadiumInterleaving.StaysEnabled` | stadium/stadium.c:75-183 | in a reachable state what one process can do it can still do after an action of another |
| `StadiumInterleaving.Swapped` | stadium/stadium.c:75-183 | and the order of the two makes no difference to the state or to the messages of any type |
| `StadiumInterleaving.StatusHeeded` | stadium/stadium.c:156-166 | whatever message a runner finds, it runs exactly if that is the baton and otherwise fails for good |
| `Stadium.RunsEnd` | stadium/stadium.c:75-183 | at most 5n + 3 actions |
| `WordCount.WordsAreRuns` | wc/wc.c:46-56 | words are the maximal runs of non-space characters |
| `WordCount.LinesAreNewlines` | wc/wc.c:42-45 | lines are the newline characters |
| `WordCount.ChunkIndependence` | wc/wc.c:40-57 | one bit carried between chunks is enough: counts of chunks add up however the stream is cut |
| `WordCount.CountChunk` | wc/wc.c:40-57 | the loop over a chunk adds its newline characters and the words it begins |
| `WordCount.WriteAll` | wc/wc.c:61-71 | partial writes put the chunk out in order, up to a write that fails |
| `WordCount.CopyFile` | wc/wc.c:25-73 | for any sizes of reads and writes: the bytes, newline characters and maximal runs of what was read, all of it written on; it fails exactly at a call that fails, and everything before that is counted and written |

## Left out

- Errors of the kernel calls (`msgget`, `fork`, `pipe`, `open`, `shm_open` and the like): assumed not to happen; reads and writes of `wc` may fail in the model.
- Finite queue capacity: `msgsnd` never blocks and never fails here, as the programs assume. Message sizes passed to `msgsnd` and `msgrcv` are not modelled.
- Random generation: draws and hunts are arbitrary. The election is not claimed to end, only what follows once a round has no repeated value.
- Counters and values are mathematical integers: no width of `int` or `size_t`. Characters are plain values: `isspace` on negative bytes is not part of this model.
- Display, colours, logging, timing and the waits of the parents, except for what is left when everyone has exited.
- The double count of children in `myshell/myshell.c:211,257`: it only adds waits that return at once.
- Shared accesses in `pizza` are atomic statement by statement; only `EAGAIN` makes `sem_trywait` fail.
- `tg`, `wc_err`, `cp`, `cp_mmap`, `ln`, `pcat` and `ls`: they would add file-system plumbing or a second copy of a loop proved here.
- Lines longer than the shell's buffer, which `fgets` hands over in pieces: each piece is a line here.
- ShellPipes.RunCommands: takes the results of parse_argv as given; the parser's own effect on the buffer is in ShellParser. Standard input is open, since a line was read from it.
- BogatiryaObject.SortInPlace: `std::sort` is a library function; the method writes back the only sequence a sort can leave.
- BogatiryaObject.Bogatir.IsUnique: stops at the last pair of the array, as intended, not one behind it.
- WordCount.CopyFile: a write that moves no bytes is the loop trying again and is left out, because it may repeat for ever.
- Stadium, and the loops of `run_chief`, `run_courier` and `hunter`, are state machines only: their single statements are the actions.
