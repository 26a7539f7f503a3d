# Verification of the MonaBase engines

A Dafny model of the parts of MonaBase (`Mona/`) that are hardest to get right by reading: the protocols that several
threads run over shared counters, the parsers that can stop and resume, the calendar, and the fast forms of simple
functions. `dafny verify dfyconfig.toml` checks everything; nothing here executes the original program.

Each protocol is a transition system whose steps are the atomic pieces of the C++ code. The theorems are about every run,
that is every interleaving of the threads and every behaviour of the kernel. A class beside it holds the fields of the C++
object and its methods do what the C++ functions do; their contracts say that a whole call is a run of the protocol, what it
counts and what it hands over. Sequential code that moves through a buffer is a method with its loop, proved against a
function that defines the result without it.

| file | models |
|---|---|
| `Reception.dfy` | flow control of socket reception and of accept: `IOSocket::read`, its runners and its handles |
| `Sending.dfy` | the outgoing queue of a stream socket: `Socket::write`, `Socket::flush`, the test in `IOSocket::write` |
| `ThreadQueue.dfy` | `ThreadQueue` over `Thread` and `Signal`, with restarts; the tracks of `ThreadPool` |
| `Timer.dfy` | `Timer`, deadlines mapped to buckets |
| `XmlSyntax.dfy`, `XmlEvents.dfy`, `XmlParser.dfy` | the pausable `XMLParser`: scanning, event machine, code |
| `XmlTrees.dfy` | what the parser reports of a document that is written out |
| `Calendar.dfy`, `Date.dfy` | the proleptic Gregorian calendar and `Date` at a fixed offset |
| `DateText.dfy` | `Date::format` and the format-driven `Date::update` |
| `DatePrinting.dfy` | the letters of the formats in literal texts |
| `Crc32.dfy` | `Crypto::ComputeCRC32` |
| `UrlPath.dfy`, `UrlLaws.dfy` | `URL::ParseRequest`, and its normal form in texts alone |
| `BufferPool.dfy` | `Buffer::Allocator` and `BufferPool` |
| `Base64.dfy`, `Base64Laws.dfy` | `Util::ToBase64`, `Util::FromBase64`, the alphabet and test vectors |

## What is proved, and what turned out false

- Reception: on every run and for every limit (`recvBufferSize`) the gate `_reading` counts exactly the queued runners and the
  armed handles, is at most 2 and is never decremented at 0. Readable data is never forgotten, on any run, if and only if
  the limit is not 0: with 0 every handle is armed and none re-arms (`ZeroLimitLosesWakeUp` is the run). On every run what was
  received is what was handled followed by what is on its way, each once and in order; left alone the threads stop only when
  everything was handled.
- Sending: on every run wire followed by queue is what was accepted, and `_queueing` is exact if and only if no flush call
  has written 4 GiB, because `written` has 32 bits (`FourGigabytesStay` is a run in which four packets of 1 GiB leave it
  4 GiB too high). A flush is lost exactly after one answer: would-block, in a flush call that has written all that `_queueing`
  counts, while the queue is not empty. What is left in the queue is then empty packets, so the answer is given to a send of
  no bytes; a TCP socket does not normally give it. Without that answer no flush is lost, with empty packets or without, and
  without empty packets it cannot be given (`LosesFlushIff`, `NonEmptyIsCalm`; `EmptyPacketLosesFlush` is the run).
- `ParseRequest` with a size returns the query of the request if and only if a `?` lies inside the size or the buffer ends
  there: the path `/a` of the buffer `/a?x` is given the query `?x` behind it. A request of a single slash in a buffer that
  goes on with a second one loses its path (`SlashBehindTheRequest`).
- A date that comes from a time keeps this time, whatever its year. Computed again from the fields after a setter, the time is that
  of the calendar if and only if `(_year - 1970) * 365` fits in 32 bits, in which it is computed (`YearSixMillion` is a year
  for which it does not).
- Setting year to millisecond leaves a valid date if and only if the hour is below 24 and the day, when it is the one already
  shown, is in the month: hours are cut at 59, and an equal day is not clamped (`NoDateStays`). A valid date is always set as is.
- The year search stops at a fixed point, the least one from 1970 on; there may be a second one, a year too high.
- A text printed by `Date::format` is read back for every format string in which no variable is read twice and every
  letter knows where its text ends; the three formats of interest are instances. An offset is read back if and only if
  it is whole minutes and less than 100 hours; a time printed in some unit if and only if it does not print as a negative number.
- A pause anywhere in the XML parser changes neither the events nor the result. The events are well nested. A document that is
  written out, with any blanks between its items and around its names, attributes and texts, is reported as what was written.
- A collection of the buffer pool frees exactly as many buffers as the list always had to spare since the last one; it never
  truncates what it keeps; no buffer is given twice, none is lost.
- A text is decoded from Base64 into itself without a byte being written before it was read, unless it has one, two or five
  characters, for which the buffer is resized first.

## Model

| member | source | states |
|---|---|---|
| Reception.StepKeepsInv | Mona/Net/IOSocket.cpp:269-397 | Every atomic step of the IO, receive and handler threads keeps the invariant: the gate equals its owners, bytes handed over equal the sizes in flight, above the limit the youngest handle is armed |
| Reception.StepKeepsWakeUp | Mona/Net/IOSocket.cpp:339-349 | Every step keeps "readable data has someone to look at it", the branch that drops the gate without re-arming included |
| Reception.ReceivingBound | Mona/Net/IOSocket.cpp:332-336 | What is handed over stays below the limit plus two chunks, plus one while a drain runs |
| Reception.PushKeeps | Mona/Net/IOSocket.cpp:330-337 | A handle that joins the pending ones keeps the bound on every suffix of them |
| Reception.OldestLeaves | Mona/Net/IOSocket.cpp:339-349 | The oldest handle leaves: bound and armed-last property hold for the rest |
| Reception.RunKeepsInv | Mona/Net/IOSocket.cpp:269-397 | Invariant and wake-up hold after every run |
| Reception.GateConserved | Mona/Net/IOSocket.cpp:271-273 | On every run, whatever the limit, `_reading` counts the queued runners and armed handles, is at most 2, and is positive wherever it is decremented |
| Reception.BytesConserved | Mona/Net/IOSocket.cpp:332-348 | On every run `_receiving` is the size of the handles in flight, and stays below the limit plus two chunks |
| Reception.ReachKeepsInv | Mona/Net/IOSocket.cpp:269-397 | Whatever is reached from a state of the invariant, by a call of the class too, keeps it |
| Reception.AcceptBacklog | Mona/Net/IOSocket.cpp:282-299 | The accept instance keeps at most BACKLOG_MAX + 1 connections pending |
| Reception.ZeroLimitLosesWakeUp | Mona/Net/IOSocket.cpp:342-348 | With a zero limit there is a run that forgets readable data |
| Reception.NoLostWakeUpIff | Mona/Net/IOSocket.cpp:269-397 | No run forgets readable data exactly when the limit is not zero |
| Reception.StepDoesWork | Mona/Net/IOSocket.cpp:269-397 | Every step but the arrival of data reduces a measure of the remaining work |
| Reception.StuckMeansDelivered | Mona/Net/IOSocket.cpp:355-394 | A state where no thread can move has delivered everything and its counters are 0 |
| Reception.EverythingIsDelivered | Mona/Net/IOSocket.cpp:269-397 | Without new data every interleaving stops after a bounded number of steps, everything delivered |
| Reception.DeliveredInOrder | Mona/Net/IOSocket.cpp:359-391 | On every run what was received is what was handled followed by what is on its way, each once, in order; what arrived has left the kernel or is in it |
| Reception.StuckMeansHandled | Mona/Net/IOSocket.cpp:339-349 | When no thread can move everything received was handled, and everything that arrived was received |
| Reception.Socket.Read | Mona/Net/IOSocket.cpp:269-397 | A reported edge queues one runner when nobody owns the gate, else nothing; the call is a run of the protocol |
| Reception.Socket.HandOver | Mona/Net/IOSocket.cpp:330-337 | A new handle counts its bytes and takes the gate, and stops the drain, exactly when the limit is reached |
| Reception.Socket.ReceiveOne | Mona/Net/IOSocket.cpp:359-391 | One turn takes the units of the answer, as far as there are any, and hands over one handle of the received size, or none exactly when the decoder keeps the buffer |
| Reception.Socket.Drain | Mona/Net/IOSocket.cpp:358-392 | The loop hands over the sizes of the answers that are not kept, in order, takes their units from the kernel, and ends when it is empty or at the handle that reaches the limit, the only one armed |
| Reception.Socket.Process | Mona/Net/IOSocket.cpp:355-394 | The same for a queued runner, which gives its unit of the gate back or leaves it to the handle that stopped it; the whole call is a run of the protocol |
| Reception.Socket.Consume | Mona/Net/IOSocket.cpp:339-349 | The oldest handle is consumed and uncounted; an armed one re-arms a runner below the limit and else releases the gate |
| Sending.StepKeepsBase | Mona/Net/Socket.cpp:481-547 | Every step of writers, flushes, IO thread and kernel keeps: wire followed by queue is what was accepted, `_queueing` counts at least what is queued, and what it counts too much changes only when a flush call passes 4 GiB, by 4 GiB |
| Sending.StepKeepsAlert | Mona/Net/Socket.cpp:488-509 | Every step but the forgetful answer keeps `_sending` set while something waits, and someone to flush it |
| Sending.StepKeepsTight | Mona/Net/Socket.cpp:544-545 | Without empty packets nothing but queued bytes keeps `_sending` set |
| Sending.RunKeepsBase | Mona/Net/Socket.cpp:481-547 | Bytes and counter hold after every run |
| Sending.RunKeepsAlert | Mona/Net/Socket.cpp:488-509 | Flag and wake-up hold after every run without the forgetful answer |
| Sending.NonEmptyIsCalm | Mona/Net/Socket.cpp:544-545 | Without empty packets no answer is forgetful |
| Sending.BytesConserved | Mona/Net/Socket.cpp:488-509 | On every run wire followed by queue is the accepted packets in order; on a run without the forgetful answer `_sending` is set while bytes wait |
| Sending.ExcessOfRun | Mona/Net/Socket.cpp:513-547 | On every run `_queueing` is too high by 4 GiB for each 4 GiB that one flush call has written |
| Sending.QueueingIsExact | Mona/Net/Socket.cpp:544-545 | On every run, between calls, `_queueing` is the queued byte count exactly when no flush call has written 4 GiB; then, without empty packets, `_sending` tells whether something is queued |
| Sending.FourGigabytesStay | Mona/Net/Socket.cpp:519-545 | There is a run with one flush call of 4 GiB, every answer of which an `int` holds, after which `_queueing` is 4 GiB and the queue empty |
| Sending.NothingLeftBehind | Mona/Net/IOSocket.cpp:402-428 | When no thread can move and the kernel has room, everything accepted is on the wire, unless the forgetful answer was given |
| Sending.EmptyPacketLosesFlush | Mona/Net/Socket.cpp:544-545 | There is a run with an empty packet after which data waits and nobody will flush it |
| Sending.ForgettingLosesFlush | Mona/Net/Socket.cpp:544-545 | After the forgetful answer the socket can always end with a queue that nobody will flush |
| Sending.LosesFlushIff | Mona/Net/Socket.cpp:513-547 | The next step of a run opens the way to a lost flush exactly when it is would-block to a queue whose counted bytes this flush call has all written |
| Sending.NoLostFlushWhenCalm | Mona/Net/Socket.cpp:488-509 | A run without that answer loses no flush, empty packets or not |
| Sending.Socket.OnWritable | Mona/Net/IOSocket.cpp:400-428 | A reported edge queues one flush exactly on the first edge or when `_sending` is set, and opens the socket |
| Sending.Socket.TryFirst | Mona/Net/Socket.cpp:488-509 | The first send puts what the kernel takes on the wire; the rest, if any, is queued and counted, else `_sending` is cleared |
| Sending.Socket.Write | Mona/Net/Socket.cpp:481-511 | The packet is queued behind others, or sent as far as the kernel takes it and its rest queued; wire, queue, counter and flag are stated for every answer |
| Sending.Socket.SendFront | Mona/Net/Socket.cpp:513-547 | One turn puts what the kernel takes of the front packet on the wire, and goes on exactly when this is all of it |
| Sending.Socket.SettleWritten | Mona/Net/Socket.cpp:544-545 | The end of `flush` subtracts what was written, and clears `_sending` when something was and nothing is counted any more |
| Sending.Socket.Flush | Mona/Net/Socket.cpp:513-547 | One runner is taken; the packets that the answers take whole go to the wire, and of the next one what its answer takes; the rest is queued, the counter falls by what was written and the flag follows; the call is a run of the protocol |
| ThreadQueues.StepKeepsInv | Mona/Threading/ThreadQueue.cpp:27-50 | Every step of producers, worker and stop requests keeps order, single thread and service |
| ThreadQueues.RunKeepsInv | Mona/Threading/Thread.cpp:116-195 | The invariant holds after every run, over any number of thread incarnations |
| ThreadQueues.ExactlyOnceInOrder | Mona/Threading/ThreadQueue.h:33-39 | Executed, batch and queue make the enqueue history; a waiting runner has a live thread that drains or is signalled |
| ThreadQueues.RestartAfterEnd | Mona/Threading/Thread.cpp:116-195 | A thread starts only after the previous one ended |
| ThreadQueues.EveryRunnerIsExecuted | Mona/Threading/Signal.cpp:25-61 | Left alone the threads stop after a bounded number of steps, and only when every runner was executed |
| ThreadQueues.StuckMeansExecuted | Mona/Threading/ThreadQueue.cpp:27-50 | When nothing can move everything queued was executed |
| ThreadQueues.ThreadQueue.Start | Mona/Threading/Thread.cpp:116-195 | `start` joins, resets the signal and both flags and spawns, or does nothing on a live thread |
| ThreadQueues.ThreadQueue.Queue | Mona/Threading/ThreadQueue.h:33-39 | `queue` appends the runner, leaves a live thread and a set signal |
| ThreadQueues.ThreadQueue.RunBatch | Mona/Threading/ThreadQueue.cpp:27-50 | A batch is executed in order |
| ThreadQueues.ThreadQueue.Drain | Mona/Threading/ThreadQueue.cpp:27-50 | The inner loop executes everything queued, then waits or stops itself under the lock |
| ThreadQueues.ThreadQueue.Turn | Mona/Threading/ThreadQueue.cpp:27-50 | One turn of `run` from a wait to the next wait or to the end |
| ThreadPools.Queued | Mona/Threading/ThreadPool.h:33-39 | A track keeps its queue once it has one |
| ThreadPools.CallKeepsInv | Mona/Threading/ThreadPool.h:33-39 | A call keeps: all the runners of a track are in one queue, in order |
| ThreadPools.TracksStayInOrder | Mona/Threading/ThreadPool.h:33-39 | After any calls the runners of a track have been given to its queue in call order, and to no other |
| ThreadPools.NewTracksTakeTurns | Mona/Threading/ThreadPool.h:37 | New tracks get the queues in turn, in the order of their first calls |
| ThreadPools.MoveKeepsInv | Mona/Threading/ThreadPool.h:33-39 | Pool and queues together, calls waiting for a lock included: each queue has been given, of each track, what the pool chose it for, in call order |
| ThreadPools.TracksAreExecutedInOrder | Mona/Threading/ThreadPool.h:33-39 | On every run of clients, pool, queues and threads the runners of a track are executed in call order, by its queue only |
| ThreadPools.EveryCallIsExecuted | Mona/Threading/ThreadQueue.h:33-39 | Left alone the threads of all queues stop after a bounded number of steps, and only when every call of every track was executed, in order |
| ThreadPools.ThreadPool.Queue | Mona/Threading/ThreadPool.h:33-39 | The method is the function Queued |
| Timers.LogIsOrdered | Mona/Timing/Timer.cpp:80-97 | In the calls of one `raise` no timer occurs twice and deadlines do not decrease |
| Timers.EachCall | Mona/Timing/Timer.cpp:80-97 | Each call is of a timer that was due, which is told how late it is, and gets the answer of its turn |
| Timers.AfterLog | Mona/Timing/Timer.cpp:80-97 | A fired timer is re-armed by its answer or stopped, the others keep their deadline |
| Timers.DueTimersFired | Mona/Timing/Timer.cpp:80-97 | After `raise` exactly the timers that were due have fired |
| Timers.Timer.Add | Mona/Timing/Timer.cpp:50-58 | Scheduling puts the timer in the bucket of its deadline |
| Timers.Timer.Remove | Mona/Timing/Timer.cpp:60-78 | Removing empties no bucket but erases it; the fatal branch is never reached; the bucket of a lone timer is handed back |
| Timers.Timer.Set | Mona/Timing/Timer.cpp:32-48 | Setting schedules, moves or stops the timer, reusing its bucket, and changes no other |
| Timers.Timer.Raise | Mona/Timing/Timer.cpp:80-97 | `raise` ends, calls the due timers once each in deadline order, and returns the time to the earliest deadline left, 0 if none |
| XmlEvents.NextMove | Mona/Format/XMLParser.cpp:66-413 | From a well-formed point the next move leads to a well-formed point of lower rank: the parser always advances |
| XmlEvents.MoveKeepsOpen | Mona/Format/XMLParser.cpp:126-162 | An event changes the stack of tags as it changes the stack of open elements |
| XmlEvents.TraceIsNested | Mona/Format/XMLParser.cpp:66-413 | From any point the events are well nested, and success means that everything is closed |
| XmlEvents.DocumentEvents | Mona/Format/XMLParser.cpp:49-64 | The document ends once, last, and starts at most once, first |
| XmlTrees.AttributeIs | Mona/Format/XMLParser.cpp:273-342 | A key, an equal sign and a quoted value, with blanks around the equal sign, are this key with this value, whatever follows |
| XmlTrees.DocumentIsReported | Mona/Format/XMLParser.cpp:66-413 | For every tree of elements, informations, attributes and texts, written out with any blanks, the events are those of the tree: starts with their attributes, texts without the blanks around them, ends |
| XmlTrees.CdataInText | Mona/Format/XMLParser.cpp:171-197 | A CDATA section joins the texts around it, which lose only their outer blanks; what it keeps is untouched |
| XmlTrees.CommentIs | Mona/Format/XMLParser.cpp:198-226 | A comment is passed over |
| XmlTrees.TextWithoutParent | Mona/Format/XMLParser.cpp:388-392 | A text before any tag is refused |
| XmlTrees.EndAlone | Mona/Format/XMLParser.cpp:126-132 | An end tag without a start is refused |
| XmlTrees.ElementLeftOpen | Mona/Format/XMLParser.cpp:407-409 | A document that ends inside an element is refused, by the name of the element |
| XmlTrees.OtherEnd | Mona/Format/XMLParser.cpp:134-141 | An end tag of another name is refused |
| XmlSyntax.ScanStart | Mona/Format/XMLParser.cpp:229-358 | Scanning a start element or an info ends past where it began, its name inside the text |
| XmlSyntax.ScanEnd | Mona/Format/XMLParser.cpp:126-159 | Scanning an end element ends past where it began |
| XmlParsing.XmlParser.ParseXmlName | Mona/Format/XMLParser.cpp:416-431 | The method reads what the scanning function defines, error or name |
| XmlParsing.XmlParser.ParseAttribute | Mona/Format/XMLParser.cpp:273-342 | One attribute is read as the scanning function defines |
| XmlParsing.XmlParser.ParseAttributes | Mona/Format/XMLParser.cpp:246-343 | The loop over the attributes reads what the scanning function defines |
| XmlParsing.XmlParser.ParseStartTag | Mona/Format/XMLParser.cpp:229-358 | A start element is read as defined, the self-closing mark included |
| XmlParsing.XmlParser.ParseEndTag | Mona/Format/XMLParser.cpp:134-159 | An end element is read as defined |
| XmlParsing.XmlParser.ParseTag | Mona/Format/XMLParser.cpp:117-377 | What follows `<` makes the move of the event machine |
| XmlParsing.XmlParser.Run | Mona/Format/XMLParser.cpp:66-413 | The private `parse` logs the events of the machine up to a pause, an error or the end |
| XmlParsing.XmlParser.Parse | Mona/Format/XMLParser.cpp:49-64 | Paused: the events so far followed by those still to come are those of a run without pause; else all of them, ended by the document event |
| XmlParsing.XmlParser.ParseToEnd | Mona/Format/XMLParser.cpp:66-84 | Pause transparency: resumed until its end, whatever the callbacks answer, the parser gives the events and the result of a run that never pauses |
| Calendar.DaysBeforeFromLeapYears | Mona/Timing/Date.cpp:70-78 | The closed form of the leap years counts the days of the years, negative years included |
| Calendar.MonthDaysCount | Mona/Timing/Date.cpp:65-68 | The month table counts the days of the months |
| Calendar.InstantMonotone | Mona/Timing/Date.cpp:160-188 | A later date and clock is a greater instant |
| Calendar.FieldsMonotone | Mona/Timing/Date.cpp:80-158 | Instants are ordered exactly as dates and clocks |
| Calendar.FieldsUnique | Mona/Timing/Date.cpp:80-158 | Only one valid date and clock has an instant |
| Calendar.FixedPointsFrom1970 | Mona/Timing/Date.cpp:106-115 | From 1970 on a fixed point of the year search is the year, or the next one; the year is the least |
| Calendar.SecondFixedPoint | Mona/Timing/Date.cpp:106-115 | A second fixed point, one year too high, exists |
| Calendar.FixedPointsBefore1970 | Mona/Timing/Date.cpp:106-115 | Before 1970 a fixed point is the year or the next one |
| Calendar.ClosedTimeIffFits | Mona/Timing/Date.cpp:164-174 | The closed form of `time()` is the instant exactly when the days of the years fit in 32 bits |
| Calendar.YearSixMillion | Mona/Timing/Date.cpp:170 | Every date of the year 6000000 has an instant of 64 bits, and the closed form is another one |
| Calendar.WeekDayCycles | Mona/Timing/Date.cpp:432-440 | Both branches of the week day are a cycle of seven days from a Thursday |
| Dates.Date.SearchYear | Mona/Timing/Date.cpp:106-115 | The loop ends, at the year from 1970 on, at the year or the next one before |
| Dates.Date.ComputeYear | Mona/Timing/Date.cpp:106-133 | After the corrections year and day of the year are those of the instant, at all times |
| Dates.Date.ComputeMonth | Mona/Timing/Date.cpp:135-143 | Month and day count the day of the year |
| Dates.Date.ComputeClock | Mona/Timing/Date.cpp:145-156 | The clock is the time of the day, of negative times too |
| Dates.Date.Update | Mona/Timing/Date.cpp:80-158 | The fields are those of the instant at the offset, and so is the day of the week |
| Dates.Date.Time | Mona/Timing/Date.cpp:160-188 | The time of the fields at the offset, computed only if they have been set; it is that of the calendar when the year fits |
| Dates.Date.Init | Mona/Timing/Date.h:211 | The lazy computation keeps time and offset |
| Dates.Date.Offset | Mona/Timing/Date.cpp:190-213 | The offset is given; fields, once shown, and time stay |
| Dates.Date.GetWeekDay | Mona/Timing/Date.cpp:417-430 | The day of the week, cached or not, is that of the time at the offset, and that of the date when its year fits |
| Dates.Date.SetYear | Mona/Timing/Date.cpp:291-298 | The year is set and the other fields stay as shown |
| Dates.Date.SetMonth | Mona/Timing/Date.cpp:300-311 | The month is set, clamped to 1-12, and the other fields stay as shown |
| Dates.Date.SetHour | Mona/Timing/Date.cpp:372-381 | The hour is set, cut at 59, and the other fields stay as shown |
| Dates.Date.SetMillisecond | Mona/Timing/Date.cpp:405-415 | The milliseconds are set and the time moved with them, within its day, so that the cached day of the week stays right |
| Dates.Date.SetDay | Mona/Timing/Date.cpp:341-370 | A day other than the one shown is set, clamped to the length of the month |
| Dates.Date.UpdateFields | Mona/Timing/Date.cpp:257-264 | A valid date and clock is set exactly, whatever was there before; other numbers are clamped field by field, and leave a valid date exactly under the condition of ClampedIsDateIff |
| Dates.ClampedIsDateIff | Mona/Timing/Date.cpp:341-381 | What is set is a valid date exactly when the hour is below 24 and the day, if it is the one shown, is in the month |
| Dates.ClampedFieldByField | Mona/Timing/Date.cpp:291-415 | Each field comes out clamped by itself: month to 1-12, day to the month, clock to 59 and 999 |
| Dates.NoDateStays | Mona/Timing/Date.cpp:341-381 | Hour 24 stays, and so does 31 February on a date that shows a 31st |
| Dates.Date.SetOffset | Mona/Timing/Date.cpp:215-239 | The offset is set and the time moved so that the fields stay |
| Dates.Date.UpdateFieldsAt | Mona/Timing/Date.h:87 | The same with a fixed offset; a valid date is set exactly |
| Dates.TimeInvertsUpdate | Mona/Timing/Date.cpp:80-188 | Recomputed from the fields of a time, the time is the same exactly when the year fits |
| Dates.UpdateInvertsTime | Mona/Timing/Date.cpp:80-188 | The fields of the time of valid fields are those fields |
| DateText.ReadZeros | Mona/Timing/Date.cpp:457-461 | A number printed on a fixed width is read back whatever follows |
| DateText.ReadDecimal | Mona/Timing/Date.cpp:457-458 | A number printed as it is is read back when no digit follows |
| DateText.MonthFound | Mona/Timing/Date.cpp:536-555 | The first letters of a month, three at least, find this month and no other |
| DateText.ReadOffset | Mona/Timing/Timezone.h:49-60 | A printed offset is read back, the null one as GMT |
| DateText.OffsetReadBackIff | Mona/Timing/Date.cpp:666-695 | An offset is read back exactly when it is whole minutes and less than 100 hours |
| DateText.CaseOfZones | Mona/Timing/Timezone.cpp:611-621 | The case of a zone name makes no difference |
| DateText.ReadBack | Mona/Timing/Date.cpp:515-696 | Each letter reads what it printed, sets its own variables, leaves the others and stops where its text ends |
| DateText.PrintText | Mona/Timing/Date.h:139-208 | The printer writes piece by piece |
| DateText.ParsePrint | Mona/Timing/Date.cpp:467-697 | For every unambiguous format the parser, from any state that has not yet read its variables, reads back what was printed and leaves nothing of the text |
| DateText.RoundTrip | Mona/Timing/Date.cpp:467-697 | From the start, a text printed with an unambiguous format gives each variable that the format names its value |
| DateText.IsoRoundTrip | Mona/Timing/Date.cpp:27 | FORMAT_ISO8601_FRAC: all fields and the offset are read back |
| DateText.Rfc1123RoundTrip | Mona/Timing/Date.cpp:31 | FORMAT_RFC1123: all but the milliseconds |
| DateText.HttpRoundTrip | Mona/Timing/Date.cpp:32 | FORMAT_HTTP: all but the milliseconds |
| DateText.TimeReadBackIff | Mona/Timing/Date.h:185-203 | A time printed in a unit is read back, up to the unit, exactly when it does not print as a negative number |
| DateText.FormatLetter | Mona/Timing/Date.h:159-184 | A letter prints what the date answers; asking for the week day or the offset changes no answer |
| DateText.Format | Mona/Timing/Date.h:139-208 | The loop over the format, all letters included, prints what is defined of any date, valid or not, and changes none of its answers |
| DateText.TakeNumber | Mona/Timing/Date.cpp:454-458 | The loop reads at most so many digits, as the function defines |
| DateText.TakeFraction | Mona/Timing/Date.cpp:460-461 | The two loops read a fraction, digits that are missing as 0 |
| DateText.FindMonth | Mona/Timing/Date.cpp:536-555 | The loop finds the first month with these letters |
| DateText.TakeZone | Mona/Timing/Date.cpp:666-695 | Zone name and offset are read as defined |
| DateText.TakeLetter | Mona/Timing/Date.cpp:518-696 | The switch reads each letter but the time as defined, or fails with it |
| DateText.ParseText | Mona/Timing/Date.cpp:467-697 | The loop over any format reads what is defined, or fails with it |
| DateText.UpdateFromText | Mona/Timing/Date.cpp:467-708 | A text that gives a zone sets the fields as `update` clamps them, then adds the times read; a valid date is set exactly; a text that does not fit the format changes nothing |
| DateText.FormatAndUpdate | Mona/Timing/Date.cpp:467-708 | From date to date: what one date prints with an unambiguous format gives another one the same fields, offset and time, whatever it was before |
| DatePrinting.PrintWeekDay | Mona/Timing/Date.h:160-161 | Short and long names of the seven days, by the number of the day |
| DatePrinting.PrintMonth | Mona/Timing/Date.h:162-163 | Short and long names of the twelve months |
| DatePrinting.PrintDay | Mona/Timing/Date.h:164-169 | Day and month with a zero, as they are, with a space |
| DatePrinting.PrintYear | Mona/Timing/Date.h:170-171 | The year on four digits and its last two |
| DatePrinting.PrintClock | Mona/Timing/Date.h:172-176 | Hours of 24 and of 12, minutes, morning and afternoon |
| DatePrinting.PrintSecond | Mona/Timing/Date.h:177-182 | Seconds, milliseconds, both, tenths |
| DatePrinting.PrintOffset | Mona/Timing/Timezone.h:49-60 | The offset by its sign, hours and minutes, `Z` and `GMT` for none |
| DatePrinting.PrintTime | Mona/Timing/Date.h:185-203 | The time in its unit |
| DatePrinting.PrintItself | Mona/Timing/Date.h:148-204 | Other characters stand for themselves, brackets for nothing |
| DatePrinting.ReadCentury | Mona/Timing/Date.cpp:568-574 | Two digits of a year are of 1970 to 2069 |
| DatePrinting.ReadAnyYear | Mona/Timing/Date.cpp:578-586 | A year of any length |
| DatePrinting.ReadTwo | Mona/Timing/Date.cpp:563-590 | Hours and months as two digits |
| DatePrinting.ReadTenth | Mona/Timing/Date.cpp:657-660 | A digit of tenths is a hundred milliseconds |
| DatePrinting.ReadHalfDay | Mona/Timing/Date.cpp:619-638 | Morning and afternoon change the hour, in any case of their letters |
| DatePrinting.ReadTimes | Mona/Timing/Date.cpp:591-618 | The digits of a time count in its unit and add up |
| DatePrinting.ReadNamedZone | Mona/Timing/Date.cpp:666-681 | The offset of a named zone, and GMT for an unknown one |
| DatePrinting.ReadZoneAndOffset | Mona/Timing/Date.cpp:682-695 | An offset behind the name of a zone adds to that of the zone |
| DatePrinting.ReadItself | Mona/Timing/Date.cpp:497-511 | A character of the format matches itself or is an error, a question mark matches any |
| DatePrinting.MonthMayBeMissing | Mona/Timing/Date.cpp:483-512 | A part in brackets may be missing |
| Crc32.TableDivides | Mona/Math/Crypto.cpp:113-157 | Every entry of the table is eight steps of the division by 0x04C11DB7 |
| Crc32.Linear | Mona/Math/Crypto.cpp:159-164 | Eight steps of division are linear |
| Crc32.LookUp | Mona/Math/Crypto.cpp:159-164 | One look-up is the division by the eight bits of a byte |
| Crc32.RotateByte | Mona/Math/Crypto.cpp:37-41 | `Rotate8` reverses the bits of a byte |
| Crc32.RotateStep | Mona/Math/Crypto.cpp:54-60 | `Rotate32` turns a step to the left into a step to the right with 0xEDB88320 |
| Crc32.RotateDivision | Mona/Math/Crypto.cpp:54-60 | The same for a whole message |
| Crc32.ComputeCRC32 | Mona/Math/Crypto.cpp:112-166 | The result is the bit-serial division of the message from 0xFFFFFFFF; with both options it is the least-significant-bit-first algorithm without final complement |
| Crc32.KnownAnswers | Mona/Math/Crypto.cpp:112-166 | The sums of the digits 1 to 9 are the published ones |
| UrlPath.OnSlash | Mona/Format/URL.cpp:135-146 | A slash ends a segment: `path` and `slashs` render the stack it leaves |
| UrlPath.OnOther | Mona/Format/URL.cpp:146-168 | Any other character: dots are held back, a name is written behind its slash |
| UrlPath.Scan | Mona/Format/URL.cpp:125-171 | The loop stops at the query with `path` and `slashs` rendering the segments read |
| UrlPath.Conclude | Mona/Format/URL.cpp:176-181 | The end of the path: a last `..` pops, a folder gets its slash |
| UrlPath.FindEnd | Mona/Format/URL.cpp:174 | `strlen` from a position on |
| UrlPath.ReadPath | Mona/Format/URL.cpp:111-185 | The path of a request in its buffer is its normal form, unless the code looks behind the only slash of the request |
| UrlPath.ParseRequest | Mona/Format/URL.cpp:111-185 | For a request that is null-terminated or has a size, in a buffer that may go on: the path as above, and place and size of the query as returned |
| UrlPath.ParseString | Mona/Format/URL.h:54 | For a whole string the path is the normal form of the request and the query its untouched remainder |
| UrlPath.QueryIsOwnIff | Mona/Format/URL.cpp:174 | What is returned is the query of the request exactly when the request is null-terminated, or holds its query, or its buffer ends where it does |
| UrlPath.QueryBehindTheRequest | Mona/Format/URL.cpp:174 | The path of size 2 in the buffer `/a?x` is given the query that follows it |
| UrlPath.PathIsOwnIff | Mona/Format/URL.cpp:119-120 | The path is that of the request exactly when the code does not look behind it, or makes a folder of it anyway |
| UrlPath.SlashBehindTheRequest | Mona/Format/URL.cpp:119-120 | The request `/` of size 1 in the buffer `//` is given no path |
| UrlPath.MakeRelative | Mona/Disk/FileSystem.cpp:584-589 | The slashes at the start are removed |
| UrlPath.SplitJoin | Mona/Format/URL.cpp:135-146 | Splitting a text at a slash splits it in the segments of both sides |
| UrlPath.ArrivalIsNormal | Mona/Format/URL.cpp:137-144 | The stack never holds an empty segment, a dot segment or a climb |
| UrlPath.SplitText | Mona/Format/URL.cpp:153-155 | Splitting undoes rendering |
| UrlPath.AbsolutePath | Mona/Format/URL.cpp:111-185 | An absolute path is a slash before each of its names, and a last slash for a folder |
| UrlPath.Idempotent | Mona/Format/URL.cpp:111-185 | Normalising twice changes nothing, absolute or relative, with any options |
| UrlPath.Detour | Mona/Format/URL.cpp:137-144 | Going down into a folder and back, or staying, leaves no trace |
| UrlLaws.NamesStay | Mona/Format/URL.cpp:111-185 | Names behind slashes stay as they are; the folder option gives them a last slash |
| UrlLaws.QueryIsCut | Mona/Format/URL.cpp:131-132 | What follows a question mark is no part of the path |
| UrlLaws.EitherSlash | Mona/Format/URL.cpp:135 | A backslash is a slash |
| UrlLaws.SlashesMerge | Mona/Format/URL.cpp:135-146 | Several slashes are one |
| UrlLaws.RootHasNoParent | Mona/Format/URL.cpp:137-144 | Climbing above the root leaves no trace |
| UrlLaws.ForcedRelative | Mona/Format/URL.cpp:115-116 | Forced to be relative, a request loses the slashes at its start, and so does its path |
| UrlLaws.MadeFolder | Mona/Format/URL.cpp:176-181 | The folder option adds the last slash that is missing, and nothing to an empty path |
| BufferSizes.SmearIsLeast | Mona/Memory/Buffer.cpp:35-40 | The smeared value is the least mask above |
| BufferSizes.CapacityIsLeast | Mona/Memory/Buffer.cpp:26-45 | The capacity is the least power of two that holds the size and 16 bytes; beyond 2^31 it is the size, which is no power |
| BufferSizes.IndexOfClass | Mona/Memory/BufferPool.cpp:71-83 | The hash gives 0 to 27 for 16 to 2^31 |
| BufferSizes.IndexOfPower | Mona/Memory/BufferPool.cpp:71-83 | Every power of two from 16 on has a list, whose size it is |
| BufferLists.LowWater | Mona/Memory/BufferPool.cpp:39-50 | Over any run of a list a collection takes as many buffers as the least number it held since the last one, from the top, and keeps the rest |
| BufferLists.LowestUntouched | Mona/Memory/BufferPool.cpp:25-38 | As many buffers at the bottom did not move since the last collection |
| BufferLists.IdleIsEmptied | Mona/Memory/BufferPool.cpp:39-50 | Two collections of an idle list empty it |
| BufferLists.After | Mona/Memory/BufferPool.cpp:25-50 | Every run keeps the condition under which a collection truncates nothing |
| BufferLists.Buffers.Pop | Mona/Memory/BufferPool.cpp:25-33 | The last buffer leaves, the low mark follows |
| BufferLists.Buffers.Push | Mona/Memory/BufferPool.cpp:34-38 | A buffer joins, the high mark follows |
| BufferLists.Buffers.Manage | Mona/Memory/BufferPool.cpp:39-50 | The two resizes keep every buffer that is not collected and add no null one |
| BufferPools.StepKeepsInv | Mona/Memory/Buffer.cpp:26-62 | Alloc, Free, collection and deletion keep: lists, users and collector share the buffers out, each in its size |
| BufferPools.RunKeepsInv | Mona/Memory/BufferPool.h:31-35 | The invariant holds after every run |
| BufferPools.CollectIsSafe | Mona/Memory/BufferPool.cpp:41-43 | A collection copies no more buffers than there are |
| BufferPools.NeverHandedOutTwice | Mona/Memory/Buffer.cpp:47-51 | What `Alloc` gives is used by nobody, in no list, not about to be deleted, and large enough |
| BufferPools.NothingLeaks | Mona/Memory/Buffer.cpp:52-62 | A buffer that exists is used, or in a list, or about to be deleted, and one of these only |
| BufferPools.CollectTakesLowWater | Mona/Memory/BufferPool.cpp:52-69 | Over whole runs of the allocator a collection takes the low-water mark of its list |
| BufferPools.Allocator.PoolAlloc | Mona/Memory/BufferPool.h:31-34 | A buffer of the list, or a new one when it is empty |
| BufferPools.AllocGives | Mona/Memory/Buffer.cpp:26-51 | Without the lock, or beyond 2^31, the buffer is new and no list changes; else the list of this size loses its last buffer, which is given, or is empty and the buffer is new |
| BufferPools.FreeTakes | Mona/Memory/Buffer.cpp:52-62 | With the lock a buffer of the size of a list joins this list as the last one; any other is deleted |
| BufferPools.Allocator.Alloc | Mona/Memory/Buffer.cpp:26-51 | The method gives what AllocGives says, and is a step of the allocator |
| BufferPools.Allocator.PoolFree | Mona/Memory/BufferPool.h:35 | The buffer joins its list |
| BufferPools.Allocator.Free | Mona/Memory/Buffer.cpp:52-62 | The method takes as FreeTakes says, and is a step of the allocator |
| BufferPools.Allocator.Collect | Mona/Memory/BufferPool.cpp:58-62 | Under the lock, the step Collect |
| BufferPools.Allocator.Delete | Mona/Memory/BufferPool.cpp:63-64 | Out of the lock, what was collected is deleted and nothing else |
| Base64.SymbolReverse | Mona/Util/Util.cpp:29-40 | The second table inverts the first |
| Base64.BytesOfSextets | Mona/Util/Util.h:134-169 | Groups of four symbols give back their bytes |
| Base64.RoundTrip | Mona/Util/Util.h:95-169 | Decoding what is encoded gives it back, for all bytes |
| Base64.EncodeSize | Mona/Util/Util.h:101 | The encoding has exactly the size computed for it |
| Base64.EncodeByte | Mona/Util/Util.h:112-119 | A byte through the wrapping accumulator writes the symbols that it completes |
| Base64.DecodeSymbol | Mona/Util/Util.h:159-165 | A symbol through the wrapping accumulator writes the byte that it completes |
| Base64.RefusedIff | Mona/Util/Util.h:150-157 | A text is refused exactly when it holds a character that is no symbol, white space or padding |
| Base64.WriteSymbols | Mona/Util/Util.h:115-118 | The inner loop writes the pending symbols |
| Base64.WriteBytes | Mona/Util/Util.h:112-119 | The outer loop writes the complete symbols, inside the buffer |
| Base64.ToBase64 | Mona/Util/Util.h:95-127 | The result is the encoding by groups of section 4 of RFC 4648, behind what is appended to, and no write leaves the buffer |
| Base64.DecodeOne | Mona/Util/Util.h:159-165 | One turn writes at most one byte, inside the room |
| Base64.FromBase64 | Mona/Util/Util.h:134-169 | The result is the decoding of the text, or a refusal that leaves what was appended to |
| Base64.FromBase64InPlace | Mona/Util/Util.h:131 | A text decoded into itself gives the same: no byte is written before it was read |
| Base64.BehindTheReader | Mona/Util/Util.h:147-166 | What a text says takes no more bytes than the text has characters |
| Base64.RoomInPlaceIff | Mona/Util/Util.h:139-143 | The buffer is not resized before it is read exactly when the text has not one, two or five characters |
| Base64Laws.SymbolIs | Mona/Util/Util.cpp:29 | The symbols are the alphabet of RFC 4648, in its order |
| Base64Laws.RefusesForeign | Mona/Util/Util.h:150-157 | A text is refused exactly when it holds a character that is not of the alphabet, no white space and no padding |
| Base64Laws.PassedOver | Mona/Util/Util.h:150-151 | White space and padding make no difference, wherever they are |
| Base64Laws.Vectors | Mona/Util/Util.h:95-127 | The test vectors of section 10 of RFC 4648 |

## Left out

- Reception with an error, a shutdown or a closed stream, the value 0xFF of `_reading`, `recvBufferSize` changed on the way: they end the run.
- System calls, epoll and Windows loops, TLS, DNS and logs: the kernel is an oracle.
- Sending.Socket.Write and Sending.Socket.Flush: after a fatal error, with datagrams and in a deleting flush the counters are not adjusted; such an error ends the run.
- `_onFlush` and the callbacks of reception: they do not touch the counters.
- ThreadQueues.ThreadQueue.Queue and ThreadQueues.ThreadQueue.Turn: run without interruption as methods; the interleavings are in the transition system.
- Thread priorities, and `ThreadPool::queue` without a track.
- Timers.Timer.Raise: the clock stands still during the call and a callback answers a timeout; callbacks that call the timer back, the destructor and the wrap of `_count` at 2^32 are not modelled.
- Xml comments and CDATA sections: where they end is a function of the text given with the document; `reset` from a callback and recursive calls are not modelled.
- Attribute values: kept as a list of raw regions, not as `Parameters`.
- Local time and the zone database, `setWeekDay`, `setYearDay`, `yearDay`, `parseAuto`; `floor` of a double is the integer floor; time plus offset does not overflow 64 bits.
- DateText.UpdateFromText: a text that gives no zone sets a local time, which is not modelled.
- DateText.TimeReadBackIff: the number reader works in `long double` and is taken as exact, which it is up to 2^64 with a mantissa of 64 bits, as on x86-64, and up to 2^53 only where `long double` is a `double`.
- DateText.FormatLetter and DateText.TakeLetter: what the C library prints for a number is a function, and so is the single branch for a character outside `%`.
- DateText.ParsePrint: the letters `o`, `y`, `h`, `a`, `A`, `c`, `t`, `T`, `_` and `%%` lose or shift what they print and are not among the readable ones.
- `_isDST`, the warning about microseconds, and the overflow of a year read with more than nine digits.
- Years outside 0 to 9999 in the round trips of text: `%04d` prints a sign or a fifth digit.
- UrlPath.ParseRequest: percent decoding and Windows drives (`/c:/`) are excluded; requests are shorter than 2^31.
- Buffers that were clipped before they are freed, whose capacity is no longer that of their allocation; `shrink_to_fit`; the timing of the collector.
- Base64.FromBase64InPlace: texts of one, two or five characters, for which the buffer is resized and may move while it is read.
- Base64.ToBase64 and Base64.FromBase64: the null writer, and sizes that do not fit in 32 bits.
- `Options`, `Congestion`, `StreamData`, hexadecimal and string helpers: no state or arithmetic beyond what is modelled here.
