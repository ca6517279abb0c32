# ioxx, verified

A Dafny model of ioxx, the single-threaded event loop for sockets, timers and DNS. `dafny verify dfyconfig.toml` checks all of it.

The library is built from small mutable structures whose agreement its source only asserts. The model keeps those structures, in place, as classes; beside the larger ones stands a state machine on values, to which the methods are proved equal and about which the whole-run theorems are proved. What a step of such a machine does is stated a second time, as a relation between the state before and after that does not mention its functions (`TimerSteps.Takes`, `Sockets.Effect`, `Sockets.Addressed`, `ClientCode.Acts`, `Turns.Tells`, `Turns.Reaches`, `Select.Reports`), and the functions are proved to be such steps.

| file | subject |
|---|---|
| `Multimap.dfy` | the ordered multimap under the timer queue, the MX list and the sorting of descriptors |
| `Timers.dfy`, `TimerTheorems.dfy`, `TimerSteps.dfy`, `Schedule.dfy` | the timer queue: state machine, whole-run theorems, what single actions do to queue and handles, the class `schedule` with the operations of its `timeout` objects |
| `Sockets.dfy` | sockets as clients see them: a table from descriptors to handler and interest, and the operations on it |
| `Select.dfy`, `SelectDispatch.dfy` | the demultiplexer over select(2), and the dispatcher on top of it |
| `PollModel.dfy`, `PollDispatch.dfy` | the same for poll(2) |
| `AdnsLibrary.dfy` | what the resolver relies on from GNU ADNS |
| `ClientCode.dfy`, `Turns.dfy`, `Deadlines.dfy` | what client code does to timers, sockets and queries; the history of a turn of the event loop; how long it may sleep |
| `Queries.dfy`, `Merge.dfy`, `Resolver.dfy` | the asynchronous resolver: query ledger, the walk that reconciles sockets, and the class that joins them |
| `Mx.dfy` | mail exchangers by preference |
| `Core.dfy` | the class that runs the turns, and the main loop |
| `EchoModel.dfy`, `Echo.dfy` | the echo service of the test suite |

How the surroundings appear:

- Client code, be it a job in the timer queue, the callback of a query or a socket handler, is a finite tree of actions (`Timers.Task`): it may insert and cancel jobs, submit queries and operate on sockets, and may go on differently depending on what a cancel call returned. Each action takes effect at once, wherever the code is called from. The size of all trees in the queue and the query table is the termination measure of `schedule::run`, `deliver_responses` and the turn.
- In a turn, a socket handler is anything: `Turns.Reactions` is an arbitrary function of the number of the call, the delivery and the handler that says which tree is executed. Where only the dispatcher is concerned (`SelectDispatch`, `PollDispatch`), `Sockets.Handlers` says which socket operations take place.
- A turn is described by its history (`Turns.History`): rounds from one snapshot of everything to the next, each of them a visit to a socket, a job that fires, or a run of the resolver, with exactly the effects of the client code that was called. The methods of `Resolver` and `Core` are proved to make such histories; the deadline theorems are about histories.
- An exception ends the execution of a tree at some action; everything is consistent afterwards.
- select(2), poll(2), read(2) and write(2) are parameters, bounded by what the system promises. ADNS is a class of which only the contracts are used.
- A timer queue entry is identified by the number of its insertion, in place of the iterator. A handle that is kept in a variable of client code is a slot (`Handle` for a bare `task_id`, `Timeout` for a `timeout` object), so no two variables hold copies of one handle.

Where the code needs something that its callers can break, the model follows the code, and the exact condition is proved:

- `cancel` tells stale handles from pending ones by time stamps. That is sound for programs that never insert before a time stamp already executed, nor at 0, which is the mark of an unset handle (`lawful` in `Timers.State`, checked at every insertion). Programs that only use relative times on a clock that is not set back are lawful (`RelativeIsLawful`). `CancelFaults` says, for every program, which calls go wrong; the loop at include/ioxx/schedule.hpp:142 has no test for the end of the queue, so even a lawful program can make one (`StaleCancelFaults`), and the resolver itself can, when it arms its timeout in the second in which it fired (`RearmFaults`, `FaultsLater`, `ResolverCancels`). The model stops such a scan, reports `PastEnd`, and marks the schedule as broken; a turn with such a call ends as `Undefined`.
- `schedule::run` returns the distance to the next job in 32 bits; `RunResult` says when that is exact, and `SleepAccepted` when `core::run` asks for no more than `core::wait` asserts. It does not always (`SleepRefused`).
- Destroying sockets while poll(2) results are drained can lose events and run off the array (`SuicideBreaksDrain`). The resolver can do so too: the last answer, delivered while another of its sockets is still to be visited, makes it destroy all of them (`LastAnswerBreaksDrain`). `RemovalBalance` says which destructions are harmless, `OverrunExact` that the drain overruns exactly if one was not. A turn that overruns the array ends as `Undefined`.
- poll(2) results with nothing but error bits, or POLLWRBAND, yield an empty event set (`MappedEmpty`), against an assertion in `dispatch::run`. `EventsNonempty` says that the assertion holds exactly without such results.
- The assertion at include/ioxx/detail/select.hpp:103 does not hold when a descriptor above the current maximum asks for nothing, as a new socket does by default (`Select.Select.Request`, `IdleSocket`). The maximum is right all the same.
- The assertion at include/ioxx/detail/select.hpp:133 does not hold when handlers destroy the highest descriptor that is still to be visited (`Select.Select.PopEvent`, `HighestDestroyed`); `SelectDispatch.SelectDispatch.Run` says exactly when it does. Deliveries are right all the same.
- A query submitted by a job of the second schedule::run in `core::run` has no socket before the next turn, and the sleep is bounded only by the timeout armed before it. There always is one: without queries to resolve, the second schedule::run executes nothing (`NothingFires`, `ResolvedInTime`).

## Model

| member | source | states |
|---|---|---|
| Multimap.InsertKeepsOrder | include/ioxx/schedule.hpp:115-118 | inserting keeps a multimap in ascending key order |
| Multimap.InsertSelect | include/ioxx/schedule.hpp:115-118 | a new entry goes behind all entries of its key and disturbs the order of none |
| Multimap.StableSortCharacterized | include/ioxx/detail/adns.hpp:378-388 | a filled multimap yields the one arrangement of its pairs that is ascending and keeps the input order within every key (both directions), and a permutation of them |
| Multimap.SortDistinct | include/ioxx/detail/adns.hpp:188 | sorting descriptors, which are distinct, gives the same ones in strictly ascending order |
| Timers.ExecShrinks | include/ioxx/schedule.hpp:162-173 | whatever a job does, inserting jobs included, it leaves less work in the queue than there was with itself, so run ends |
| TimerTheorems.ProgramKeeps | include/ioxx/schedule.hpp:115-175 | the whole invariant of queue, handles and history holds throughout every program |
| TimerTheorems.VerdictExact | include/ioxx/schedule.hpp:133-153 | in every state within the invariant, cancel hits exactly the pending entries, and time stamps never make it erase a stale iterator if the program is lawful |
| TimerTheorems.CancelSound | include/ioxx/schedule.hpp:133-153 | after any lawful program, cancel hits exactly if the entry is pending, then removes it alone and keeps the order of the rest; otherwise the queue is unchanged |
| TimerTheorems.CallsSound | include/ioxx/schedule.hpp:133-153 | so did every cancel call made on the way, by jobs that ran inside run as well |
| TimerTheorems.CancelFaults | include/ioxx/schedule.hpp:137-151 | after any program at all, cancel leaves defined behaviour exactly for a handle of an executed job while something is pending whose first key is smaller, or whose keys all are equal to the handle's |
| TimerTheorems.StaleCancelFaults | include/ioxx/schedule.hpp:133-153 | the concrete programs that do: an insertion before an executed time stamp, and a lawful one at the same time stamp |
| TimerTheorems.NoFaultAfterRun | include/ioxx/schedule.hpp:133-175 | right after run, on a clock that was not set back, no cancel call on any handle can go wrong |
| TimerTheorems.FaultsLater | include/ioxx/schedule.hpp:133-153 | later in the same second one does exactly for a handle of a job executed for that second, when everything pending is due in it |
| TimerTheorems.RearmFaults | include/ioxx/schedule.hpp:86-96 | the concrete program, all of it relative to a clock that runs forwards: a timeout fires, is cancelled, something is inserted for the same second, and arming the timeout again scans off the queue |
| TimerTheorems.ExecutionOrder | include/ioxx/schedule.hpp:160-175 | over any number of runs jobs execute at most once, never early, and, in a lawful program, strictly by time stamp and insertion |
| TimerTheorems.ExactlyOneFate | include/ioxx/schedule.hpp:115-175 | every inserted job is exactly one of pending, executed and cancelled |
| TimerTheorems.RunDueExhausts | include/ioxx/schedule.hpp:160-175 | run leaves nothing due and does not move the clock |
| TimerTheorems.RunResult | include/ioxx/schedule.hpp:160-175 | after run every pending key lies in the future, and the result is the distance to the least one exactly if that is below 2^32; it is 0 for an empty queue |
| TimerTheorems.TimeoutOwnership | include/ioxx/schedule.hpp:55-104 | a timeout object owns at most one pending entry; destroying it removes that one, if any, and nothing else |
| TimerTheorems.RelativeIsLawful | include/ioxx/schedule.hpp:120-123 | programs that only insert relative to a clock that never runs backwards are lawful |
| TimerTheorems.FutureSurvives | include/ioxx/schedule.hpp:160-175 | an entry that is not yet due survives run, if no job touches the timeout object that armed it |
| TimerSteps.ActTakes | include/ioxx/schedule.hpp:55-153 | every action of client code does to queue and handles what it is there for: inserting queues that job at that time, absolute or ahead of the clock; cancelling takes out the entry referred to, if it is queued, and leaves all other variables alone; and the code goes on according to whether it was |
| TimerSteps.ExecLeads | include/ioxx/schedule.hpp:169 | executing a job means to take all its actions, one after the other |
| TimerSteps.RunLeads | include/ioxx/schedule.hpp:160-175 | run means to take due entries off the queue, first one first, and each time to take all actions of its job, until nothing is due |
| TimerSteps.FiresAsInserted | include/ioxx/schedule.hpp:115-169 | whatever happens before and after: an entry that fires does so with the job and the time it was inserted with, and not early |
| TimerSteps.NestedJob | include/ioxx/schedule.hpp:115-175 | a concrete program: a job fires and inserts two more, one that stays and one that fires at once |
| Schedule.Schedule.constructor | include/ioxx/schedule.hpp:106-108 | a new schedule is the initial state |
| Schedule.Schedule.At | include/ioxx/schedule.hpp:115-118 | queues the very job it is given under the time it is given, behind everything that is not later, and nothing else; hands out a fresh handle to it, and keeps the invariant |
| Schedule.Schedule.UnsafeCancel | include/ioxx/schedule.hpp:125-131 | removes the entry of the handle, and unsets the handle |
| Schedule.Schedule.Perform | include/ioxx/schedule.hpp:86-153 | one action of client code, dispatched to the method for it, with the effect it is there for |
| Schedule.Schedule.Cancel | include/ioxx/schedule.hpp:133-153 | the comparison of time stamps and the scan come to the verdict that membership in the queue determines, for every handle, stale ones included; the schedule is broken by exactly the calls whose guard says so |
| Schedule.Schedule.TimeoutAt | include/ioxx/schedule.hpp:86-91 | cancels what the timeout object had pending, then queues the job for that time, refers to it, and reports whether something was cancelled |
| Schedule.Schedule.TimeoutIn | include/ioxx/schedule.hpp:93-96 | the same for a time so far ahead of the clock |
| Schedule.Schedule.DestroyTimeout | include/ioxx/schedule.hpp:70-73 | the destructor cancels and forgets the handle |
| Schedule.Schedule.Execute | include/ioxx/schedule.hpp:167-169 | the body of a job, interpreted call by call on the object: all of its actions take place, one after the other |
| Schedule.Schedule.Empty | include/ioxx/schedule.hpp:155-158 | whether nothing is queued |
| Schedule.Schedule.TakeDue | include/ioxx/schedule.hpp:162-168 | takes the first entry off exactly if its key is not after the clock, and changes nothing else |
| Schedule.Schedule.Run | include/ioxx/schedule.hpp:160-175 | the loop takes due entries off and executes their jobs, action by action, while they change the queue; on return all keys are in the future and the result is the first distance in 32 bits |
| Select.ReadyExact | include/ioxx/detail/select.hpp:128-147 | scanning a snapshot reports descriptors in strictly ascending order, each as readable, writable or exceptional exactly if it is in the set for that |
| Select.ReadyComplete | include/ioxx/detail/select.hpp:128-147 | and leaves no ready descriptor out |
| Select.BitsCount | include/ioxx/detail/select.hpp:190 | the count select(2) returns is the number of bits the scan will meet |
| Select.Select.Request | include/ioxx/detail/select.hpp:78-104 | sets exactly the bits asked for, keeps the maximum exact, and leaves the pending deliveries alone; what it asserts holds exactly for a nonempty interest or a descriptor up to the maximum |
| Select.Select.LowerMax | include/ioxx/detail/select.hpp:90-99 | the downward scan finds the maximum of the union of the three sets, or -1 |
| Select.Select.PopEvent | include/ioxx/detail/select.hpp:128-147 | takes the first delivery off what remains of the snapshot, with an event exactly for each set the descriptor is in, and stops exactly if there is none; what it asserts about the cursor holds in every round exactly if the first ready descriptor is not above the maximum |
| Select.Select.Wait | include/ioxx/detail/select.hpp:149-192 | afterwards exactly what the system reported is pending, or nothing after an interruption or without any interest |
| Sockets.ApplyEffect | include/ioxx/dispatch.hpp:91-114 | each of the five socket operations changes handler or interest of its own socket as it should, and no other socket |
| Sockets.CurrentAccounts | include/ioxx/dispatch.hpp:127-143 | a log of visits accounts for the way from one table of sockets to another: each visit is addressed to the handler registered at that moment, and all it does takes effect |
| SelectDispatch.VisitsAreFaithful | include/ioxx/dispatch.hpp:127-143 | a run over a snapshot visits each ready descriptor once, in ascending order, with its exact events; a live one by the handler registered at that moment, one that is gone by nobody |
| SelectDispatch.SelectDispatch.Perform | include/ioxx/dispatch.hpp:91-114 | every socket operation gives its socket the handler and interest it should have and leaves the others alone, keeps handler map and demultiplexer in agreement with the table, and does not change what is pending |
| SelectDispatch.SelectDispatch.Run | include/ioxx/dispatch.hpp:127-143 | for all handlers: delivers everything pending, in order, to the handler registered then, or to nobody exactly if there is none; what that handler does takes effect before the next visit; it ends with nothing pending; the assertion of pop_event holds throughout exactly if at every visit some socket at that descriptor or above waits for something |
| SelectDispatch.SelectDispatch.WaitAndRun | include/ioxx/dispatch.hpp:127-149 | wait and run together account faithfully for what the system reported |
| SelectDispatch.SelectDispatch.Empty | include/ioxx/dispatch.hpp:125 | whether no sockets live |
| SelectDispatch.IdleSocket | include/ioxx/detail/select.hpp:66-103 | an input on which the assertion about the maximum fails: a new socket without interest above all others |
| SelectDispatch.HighestDestroyed | include/ioxx/detail/select.hpp:128-133 | an input on which the assertion about the cursor fails: 3 and 5 are ready, and the handler of 3 destroys 5; both are delivered |
| PollModel.MappedEmpty | include/ioxx/detail/poll.hpp:161-165 | the delivered event set is empty exactly if the report carries error bits or POLLWRBAND only |
| PollModel.MappedExact | include/ioxx/detail/poll.hpp:161-165 | readable stands for POLLIN or POLLRDNORM, writable for POLLOUT or POLLWRNORM, priority data for POLLPRI or POLLRDBAND, in any report |
| PollModel.MappedWithinInterest | include/ioxx/detail/poll.hpp:115-167 | if the system reports only bits asked for, and errors, the delivered events are exactly those asked for and reported |
| PollModel.AddRefines | include/ioxx/detail/poll.hpp:77-94 | construction adds one descriptor to the interest map, and keeps array and index inverse |
| PollModel.SetEventsRefines | include/ioxx/detail/poll.hpp:115-120 | request changes one value of the interest map |
| PollModel.RemoveRefines | include/ioxx/detail/poll.hpp:96-113 | destruction by moving the last entry removes one descriptor from the interest map, and keeps array and index inverse |
| PollModel.RefinesMap | include/ioxx/detail/poll.hpp:77-137 | over every run of construct, request, destroy and pop, array and index behave like a plain map |
| PollModel.RemovalBalance | include/ioxx/detail/poll.hpp:96-113 | destruction keeps the number of events equal to the number of ready entries ahead exactly if the entry removed, and one moved in front of the cursor, have nothing left to report |
| PollModel.DrainRun | include/ioxx/detail/poll.hpp:77-170 | over every mix of pops and socket operations: there are never fewer events than ready entries, and as many exactly while all removals were harmless; then delivered and outstanding reports together are what the system reported, none twice |
| PollModel.DrainComplete | include/ioxx/detail/poll.hpp:151-198 | from wait to the end of such a drain every report is delivered exactly once, and the array is not overrun |
| PollModel.DrainFaults | include/ioxx/detail/poll.hpp:151-170 | a drain left alone runs off the array exactly if it starts out of balance |
| PollModel.OverrunExact | include/ioxx/detail/poll.hpp:96-170 | over every run since a wait: drained to the end, the array is overrun if and only if some removal was harmful |
| PollModel.EventsNonempty | include/ioxx/dispatch.hpp:131-134 | the event sets delivered by a complete drain are nonempty, as dispatch::run asserts, exactly if no report consists of error bits and POLLWRBAND only |
| PollModel.SuicideBreaksDrain | include/ioxx/detail/poll.hpp:96-113 | a handler that destroys its own socket can lose the event of another one and overrun the array |
| PollModel.LastAnswerBreaksDrain | include/ioxx/detail/adns.hpp:271 | so can an answer: the resolver has two ready sockets, and the event on the first makes it destroy both |
| PollDispatch.Poll.Construct | include/ioxx/detail/poll.hpp:77-94 | adds the socket, or, if push_back throws, restores the old state |
| PollDispatch.Poll.Destruct | include/ioxx/detail/poll.hpp:96-113 | swap with the last entry, in place |
| PollDispatch.Poll.Request | include/ioxx/detail/poll.hpp:115-120 | changes the events of one entry |
| PollDispatch.Poll.PopEvent | include/ioxx/detail/poll.hpp:151-170 | skips idle entries and delivers the next ready one; off the array only if some removal was harmful |
| PollDispatch.Poll.Wait | include/ioxx/detail/poll.hpp:172-198 | starts a balanced drain of what the system reported, whatever bits that are |
| PollDispatch.LongestWait | include/ioxx/detail/poll.hpp:139-142 | max_timeout is the largest number of seconds whose milliseconds fit an int |
| PollDispatch.PollDispatch.Create | include/ioxx/dispatch.hpp:91-98 | construction in both layers, which still agree |
| PollDispatch.PollDispatch.Destroy | include/ioxx/dispatch.hpp:100-103 | destruction in both layers, which still agree |
| PollDispatch.PollDispatch.Modify | include/ioxx/dispatch.hpp:105-108 | replaces the handler, nothing else |
| PollDispatch.PollDispatch.ModifyBoth | include/ioxx/dispatch.hpp:110-114 | replaces handler and interest, nothing else |
| PollDispatch.PollDispatch.Perform | include/ioxx/dispatch.hpp:91-114 | every socket operation gives its socket the handler and interest it should have and leaves the others alone, and keeps handler map, registrations and live sockets in agreement |
| PollDispatch.PollDispatch.NextEvent | include/ioxx/detail/poll.hpp:151-170 | the drain goes on while sockets stay what they are; it comes to an end exactly with every report delivered once |
| PollDispatch.PollDispatch.Run | include/ioxx/dispatch.hpp:127-143 | for all handlers: every visit reaches whoever is registered then, or nobody exactly if nobody is, and what the handler does takes effect before the next one; the drain runs off the array exactly if a socket was destroyed at the wrong moment, and otherwise all reports of the last wait are delivered once; no event set is empty if none was reported empty |
| Queries.RunKeeps | include/ioxx/detail/adns.hpp:260-309 | the ledger stays consistent over every run of submissions and answers |
| Queries.ExactlyOnce | include/ioxx/detail/adns.hpp:260-309 | every submission is pending under its id or has been delivered, not both, once, to its own callback with its own answer, and the numbers add up |
| ClientCode.RanCompose | include/ioxx/detail/adns.hpp:262-283 | callbacks called in two stretches have the effect of all of them in order |
| ClientCode.RanPerforms | include/ioxx/detail/adns.hpp:282 | client code that ran did its actions on timers, sockets and queries, one after the other, and all of them unless an exception ended it |
| ClientCode.RanAllLeaves | include/ioxx/detail/adns.hpp:282 | client code that keeps out of the resolver's affairs, and is stopped by an exception anywhere, leaves the timers consistent, moves no clock, executes no job, and keeps the resolver's timeout armed |
| Merge.StepCreate | include/ioxx/detail/adns.hpp:201-212 | a request below the next registered socket is new, belongs right here, and registering it makes progress |
| Merge.StepRemask | include/ioxx/detail/adns.hpp:213-221 | a request for the next registered socket makes progress by changing its interest |
| Merge.StepDestroy | include/ioxx/detail/adns.hpp:195-227 | a registered socket below the next request is in no request, and destroying it makes progress |
| Merge.SameRequests | include/ioxx/detail/adns.hpp:188-228 | the order of the requests does not matter to what is called for |
| Merge.WalkDone | include/ioxx/detail/adns.hpp:189-228 | at the end the sockets match the requests, and the operations performed were: creation of what is new, request on what is common, destruction of what is no longer required, each descriptor once and in ascending order |
| Resolver.Resolver.Submit | include/ioxx/detail/adns.hpp:303-309 | enters the callback under the id ADNS gave, or, if ADNS refuses, changes nothing |
| Resolver.Resolver.InvokeStep | include/ioxx/detail/adns.hpp:282 | one action of client code takes its effect on timers, sockets or queries, or, if ADNS refuses a query, throws and changes nothing |
| Resolver.Resolver.Invoke | include/ioxx/detail/adns.hpp:282 | client code performs its actions, one after the other, all of them or those before an exception; ledger, registrations and timers are consistent in any case, and there is less work left |
| Resolver.Resolver.RegisterFd | include/ioxx/detail/adns.hpp:311-326 | adds one socket with the resolver as its handler, in its place, and touches no other |
| Resolver.Resolver.ClearRegistered | include/ioxx/detail/adns.hpp:146 | destroys all sockets of the resolver, and no other |
| Resolver.Resolver.Walk | include/ioxx/detail/adns.hpp:189-228 | the loop with two cursors, inserting and erasing in the set it walks, comes to the end of both sequences |
| Resolver.Resolver.Reconcile | include/ioxx/detail/adns.hpp:186-228 | afterwards the resolver's sockets are exactly those ADNS wants, with that interest; of the operations performed on the dispatcher, only new descriptors were created, only unwanted ones destroyed, common ones were asked for their interest, each once; nobody else's were touched |
| Resolver.Resolver.Deliver | include/ioxx/detail/adns.hpp:278-282 | exactly the callback submitted with the query is called, once, after its entry is gone, and has its effect, up to an exception |
| Resolver.Resolver.DeliverResponses | include/ioxx/detail/adns.hpp:260-286 | ends with no answer left, though callbacks submit further queries; clients see exactly the effects of the callbacks of the queries answered, in order, the last one up to an exception; the sockets of the resolver go exactly if no query is left |
| Resolver.Resolver.ProcessEvents | include/ioxx/detail/adns.hpp:328-335 | calls adns_processreadable exactly for readable, adns_processwriteable exactly for writable and adns_processexceptional exactly for priority data, once and in this order, until one call fails, and delivers if none does; clients see the callbacks called and nothing else |
| Resolver.Resolver.ProcessTimeout | include/ioxx/detail/adns.hpp:337-342 | the same for timeouts, with less overdue work than before |
| Resolver.Resolver.Probe | include/ioxx/detail/adns.hpp:150-188 | the loop over adns_beforepoll ends, never offers more room than the buffer has, processes timeouts until ADNS asks for a positive one, and returns that one; clients see the callbacks called on the way and nothing else |
| Resolver.Resolver.Run | include/ioxx/detail/adns.hpp:140-229 | with queries outstanding: sockets match what ADNS wants, the timeout is armed for what ADNS asked for, rounded up, and clients see the callbacks called on the way and nothing else; without: no sockets, the timeout cancelled, nothing else changed |
| Resolver.Resolver.Arm | include/ioxx/detail/adns.hpp:177-179 | arms the timeout at now plus the seconds rounded up, in a lawful program as its only entry; its cancel call goes wrong exactly if its guard says so |
| Resolver.Resolver.Disarm | include/ioxx/detail/adns.hpp:145 | cancels the timeout and changes nothing else; the call goes wrong exactly if its guard says so |
| Resolver.Resolver.Accounts | include/ioxx/detail/adns.hpp:260-309 | what every method of the resolver keeps: each submission is outstanding with ADNS and has its callback in the table, or has been called back, never both or twice; submitted is delivered plus outstanding |
| Turns.VisitsTell | include/ioxx/detail/adns.hpp:322-335 | over a history of visits ADNS is told of exactly the events delivered to its sockets, in order, by the call that belongs to each event |
| Turns.VisitsReach | include/ioxx/dispatch.hpp:135-141 | in every history each visit calls the handler registered for a live socket, with its effects, and does nothing only if there is no socket |
| Turns.FiringsKeep | include/ioxx/schedule.hpp:160-175 | over a history of firings jobs are executed in order, each once, at the same clock, ADNS processes timeouts exactly when the resolver's timeout fires, and a future timeout of the resolver stays armed |
| Deadlines.ArmKeeps | include/ioxx/detail/adns.hpp:175-181 | arming through the timeout object leaves exactly one entry of its own in a lawful program |
| Deadlines.ArmedSurvives | include/ioxx/core.hpp:115-116 | the timeout armed by the resolver survives the second schedule::run |
| Deadlines.NothingFires | include/ioxx/core.hpp:114-116 | where nothing is due, schedule::run executes no job and changes nothing |
| Deadlines.ResolvedInTime | include/ioxx/core.hpp:111-123 | if queries are outstanding at the end of a turn, some were when the resolver ran |
| Deadlines.StillArmed | include/ioxx/core.hpp:111-123 | if some were, the timeout that ADNS asked for is armed at the end of the turn, whatever client code did in between |
| Deadlines.ResolverCancels | include/ioxx/detail/adns.hpp:145-179 | which of the two cancel calls the resolver makes in a run leave defined behaviour; right after schedule::run the first never does |
| Core.Core.Run | include/ioxx/core.hpp:111-123 | visits, jobs, resolver and jobs again make up one history of the turn; all events of the last wait are delivered once; the sleep ends no later than the first pending job, is the longest possible if only sockets are left and none if nothing is; queries outstanding at the end mean that some were when the resolver ran, and then the timeout ADNS asked for is armed and the sleep ends no later than that, rounded up; the outcome is undefined exactly if the array was overrun or a cancel call went wrong |
| Core.Core.RunDispatch | include/ioxx/dispatch.hpp:127-143 | for all handlers and answers, while both change the sockets in the middle of the drain: every visit calls the handler registered at that moment, be it of a client or of the resolver, and is ignored only if there is none; without an exception, either the array is overrun, after a harmful destruction, or every report is delivered once and ADNS is told of exactly those on its sockets |
| Core.Core.Visit | include/ioxx/dispatch.hpp:135-141 | one visit: if a socket lives, the handler registered for it is called, which for a client has the effects of its code and for the resolver means to tell ADNS and deliver; if none does, nothing happens |
| Core.Core.FireNext | include/ioxx/schedule.hpp:162-169 | one job, taken off the queue before it is executed, with exactly the effects of the code that was queued, or of process_timeout if the resolver armed it |
| Core.Core.RunSchedule | include/ioxx/core.hpp:114-116 | schedule::run ends although jobs insert jobs and submit queries and answers call back: with nothing due, the distance to the first job in 32 bits, and a history of firings that is empty if nothing was due |
| Core.Core.RunResolver | include/ioxx/core.hpp:115 | one round of the history: with queries outstanding, sockets and timeout are as ADNS wants them; without, there are none |
| Core.Core.Loop | test/inetd.cpp:65-69 | over any number of turns, whatever clients, system and clock do, run and wait keep everything consistent, and wait is called within what it asserts, but for sleeps longer than poll(2) can take; the loop ends as lost exactly if the array was overrun or a cancel call went wrong |
| Core.Sleep | include/ioxx/core.hpp:116-121 | why: what the history of a complete turn says about the sleep after it |
| Core.SleepAccepted | include/ioxx/core.hpp:125-129 | the sleep is exact if and only if the distance to the first job fits 32 bits, never longer than that distance, and within what wait accepts exactly if the distance modulo 2^32 is |
| Core.SleepRefused | include/ioxx/core.hpp:125-127 | inputs: a job 2147484 seconds ahead makes run ask for more than wait accepts, one at 2^32 + 1 seconds makes it ask for a second |
| Core.Core.Empty | include/ioxx/core.hpp:106-109 | whether no jobs, no sockets and no queries are left |
| Core.Core.Wait | include/ioxx/core.hpp:125-129 | starts a drain of what the system reported and keeps everything consistent, wherever the clock goes |
| Mx.HandleMx | include/ioxx/detail/adns.hpp:374-411 | a successful answer gives the exchangers by ascending preference (section 5.1 of RFC 5321), equal ones in the order of the answer, each with its own host name and the addresses that are known for it; no data gives an empty list, failure gives none |
| Mx.ListExchangers | include/ioxx/detail/adns.hpp:383-396 | the two loops of the successful case, for answers of any size |
| Mx.ByPreferenceUnique | include/ioxx/detail/adns.hpp:388-396 | there is only one such list |
| EchoModel.ServeKeeps | test/echo.hpp:53-100 | the invariant of a connection holds over every sequence of inputs |
| EchoModel.Started | test/echo.hpp:53-58 | a started connection waits for input, for ten seconds |
| EchoModel.ReadServed | test/echo.hpp:60-86 | for every result of read(2): bytes are buffered, up to 1024 of them, and the connection waits to write, for five seconds; the end of the input or an error closes it; otherwise it stays as it was |
| EchoModel.WriteServed | test/echo.hpp:60-86 | for every result of write(2): the bytes written leave the buffer, in order, and with the last of them the connection waits to read; a peer that is gone or an error closes it; otherwise it stays as it was |
| EchoModel.ServeTransfers | test/echo.hpp:60-93 | over a whole life, what was received is the concatenation of what the accepted reads returned, and as much was sent as the accepted writes took |
| EchoModel.EchoStream | test/echo.hpp:60-93 | what was received is what the reads returned, what was sent is as much as the writes took, and a prefix of it, and with the buffer all of it while the connection lives; at most 1024 bytes are buffered; it waits to read exactly if the buffer is empty; nothing is lost at the end of the input |
| EchoModel.QuietConnection | test/echo.hpp:53-86 | the timeout shuts a connection down exactly ten quiet seconds after the start or five after the last events |
| Echo.Echo.Start | test/echo.hpp:53-58 | waits for input from now on, for ten seconds |
| Echo.Echo.ReadInput | test/echo.hpp:64-73 | the readable half, for every result of read(2): what was read is in the buffer, all of it up to 1024 bytes, and the socket waits to write; or the connection is closed; or nothing changes |
| Echo.Echo.WriteOutput | test/echo.hpp:74-85 | the writable half, for every result of write(2): exactly what was written leaves the buffer; or the connection is closed; or nothing changes |
| Echo.Echo.Run | test/echo.hpp:60-93 | handles an event set within the requested interest as the state machine does |
| Echo.Echo.Shutdown | test/echo.hpp:95-100 | no socket and no timeout remain |
| Echo.Echo.Live | test/echo.hpp:60-93 | the life of a connection is a run of the state machine |

## Left out

- Schedule.Schedule.Cancel: where the code would dereference the end iterator or erase an iterator that is no longer valid, the model returns `PastEnd` or `Dangling` and changes nothing; what a C++ program does then is undefined.
- Core.Core.Run: the deadline says nothing if the armed time stamp would be 0, the mark of an unset handle, which takes a clock before the epoch.
- Core.Core.Loop: after an overrun or a cancel call that went wrong the model carries on to the end of the turn before it says so; what a C++ program does then is undefined.
- Select.Select.Request: descriptors of FD_SETSIZE and above, whose bits lie outside the sets, are not distinguished.
- The descriptors of ADNS are fixed: one that ADNS has closed is never handed to a client while the resolver's socket for it is still registered.
- A job that updates the clock while run is looping, and one that calls run again.
- Copies of one task_id in several variables, `timeout::swap`, and the lifetime of function objects that destroy themselves.
- Overflow of time_t and of milliseconds in an int.
- GNU ADNS beyond the contracts in `AdnsLibrary.dfy`: it reports a non-negative timeout, distinct descriptors of its own with something to wait for, and zero timeouts and interrupted calls only finitely often; a submission does not create overdue work.
- System calls, addresses, signals and errno handling; epoll; the other DNS record types; logging; exceptions of the allocator except the one in the constructor of poll::socket.
