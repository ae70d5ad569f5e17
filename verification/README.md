# Verified model of the alarm scheduler and the UTF-8 codec

The program keeps a list of alarms and runs their callbacks from a signal handler (`src/timer.c`), and it converts
text between UTF-8 and 16-bit units (`src/nls_base.c`). This project models both and proves what they do over whole
runs and over all strings. `dafny verify dfyconfig.toml` checks everything.

## The scheduler

`Alarms.dfy` is a state machine over values, one function per C function: registering, unlinking, choosing the next
alarm, re-arming it, arming the OS timer, and the callbacks of the two built-in timers, the broadcast burst and the
query back-off. `Scheduler.dfy` carries the same steps out on linked nodes, in the loops and pointer updates of the
source. Each method equates its new state with the matching function of its old state, and `Play` does so for whole
histories, so every statement about the state machine is one about the list in memory. Ghost sets account for the
memory: every node ever allocated is listed or freed, never both, and the set of freed nodes only grows, so none is
lost and none is freed twice.

Two oracles stand for what the scheduler does not choose, and every theorem holds for all of them:

- the clock, indexed by the number of times it has been read. It is assumed to be normal, past the epoch and never
  to step back.
- the client code, a list of scheduler calls for every firing. Callbacks may therefore register alarms, remove others
  and remove themselves, in the middle of a run. Because everything else is determined, a fixed list per firing
  covers client code that reacts to what it sees. Requested intervals are assumed to be non-negative.

A history is any list of events: a client call, arming the OS timer, one turn of the loop in `run_alarms`. A call of
`run_alarms` is a history of single turns (`RunAfterHistory`), so what holds of all histories holds of it.

The scheduler logs every registration and firing. The invariant (`AlarmHistory.Good`) says that the log alone
determines what each listed alarm looks like, that every listed alarm comes after everything fired so far, and that
the handle of a built-in timer names an alarm of that timer or none. The main results:

- Each public call does what its name says, in fields and numbers (`Operations.dfy`): a registration appends one alarm
  that is due its interval after the reading, a removal takes out exactly that id, and an alarm removed from outside or
  inside a callback never fires again (`UnregisteredNeverFires`, `RemovedInsideNeverFires`). After its firing an alarm
  without the repeat bit or with a zero interval is gone, and any other one that nobody removes is due one interval
  after the sample (`FiredOnce`, `FiredAgain`).
- Firings strictly increase in (deadline, id), over any history. Between any two entries of one alarm, each firing
  counts for more than one whole interval: there are no catch-up bursts, however late the runs are.
- Every call of `run_alarms` ends, after any history and whatever the callbacks register, if and only if the clock stays
  below some limit (`RunEndsIff`). With a clock that gains two microseconds per reading a one-microsecond repeater is
  enough to keep a call busy for ever (`RunNeedNotEnd`).
- With a standing clock and callbacks that leave the list alone, one call is a sort: it fires exactly the due alarms,
  each once, in the order of (deadline, id). A burst callback before its closing firing and a query callback at the
  last period are such callbacks, and so are client functions that call nothing.
- A burst is five firings with four client calls, in any history in which bursts are started only while none is
  listed and no client removes one. It gets done after as many late enough runs as firings are missing.
- The query timer, started only while none is listed and removed by no client, is exactly one alarm, under its handle,
  with the period that belongs to the number of its firings. Each firing comes more than this period after the one
  before it, although the two have different ids (`QueryTiming`).

Four things the code does not do, with the exact condition:

- A started burst need not end. Whatever else is listed, and given enough late enough runs, it ends if and only if no
  further burst is started while it is listed (`BurstEnds`). All bursts share one counter, so firings of older ones
  shorten it: it is listed exactly until five firings of any bursts are counted, and each of them but the last makes a
  client call (`LifeOfBurst`). A start takes the handle away from every burst that is listed (`OverlapOrphans`,
  `TwoStarts`). Such an orphan is never unlinked by the timer, and every run after its deadline fires it again
  (`OrphanFiresForEver`).
- So broadcasting need not stop. After a start with no other one behind it, it stops altogether if and only if no burst
  was listed at the start, and then with four client calls if and only if no earlier burst left the counter half way
  (`BroadcastingStops`, `CounterLeft`). For the query timer: after a start it is one alarm, under its handle, if and
  only if none was listed at the start (`QueryOverlap`).
- If the next deadline is exactly the instant that is read, the computed delay is zero, and `setitimer` with zero
  disarms the timer: an alarm is listed and no signal will come for it (`Arms`, `SilentAlarm`).
- The counters of the query timer survive a stop. In any history after a start the timer has reached the last period
  if and only if table entries were left at the start and the firings since then have used them up
  (`ReachesLastPeriod`). Started, fired six times, stopped and started again, it is still at ten seconds after
  any number of firings (`RestartStaysShort`).

## The codec

`Utf8.dfy` states the scheme of section 2 of RFC 2279 as a reference encoder in base-64 digits. `Utf8Text.dfy` and
`Utf8Slices.dfy` say what the two string loops compute and prove the string theorems. `Utf8Codec.dfy` holds the four
C functions on arrays, with the table, masks and shifts of the source, proved against the former. `Bits.dfy` defines
C's bit operators bit by bit. The decoder accepts surrogates and the 5- and 6-byte forms, as the code does, and a
unit keeps the low 16 bits of a code.

- The decoder accepts k bytes for a code if and only if they are the reference encoding of that code. Where a text
  begins with the encoding of a code the string decoder delivers the code modulo 65536 and goes on behind it; elsewhere
  it skips one byte (`DecodeMeaning`). So the encodings of any codes decode to these codes modulo 65536 (`DecodeCodes`).
- Decoding distributes over concatenation at a character boundary, whatever malformed bytes come before it. Any slice
  of encoded text decodes to exactly the characters that lie wholly inside it.
- Encoding and decoding a string gives it back. Decoding and encoding gives the bytes back if and only if they are
  accepted sequences of at most three bytes. Decode, encode, decode equals decode if and only if no accepted sequence
  in the text has 0 in its low 16 bits.
- Under any budget the encoder writes the encoding of a subsequence. The ASCII branch does not charge the budget, so
  the output stays within every budget if and only if ASCII units come only last (`FitsEveryBudget`), and within a
  given one if and only if a condition on the prefix of the string holds that reaches the budget (`FitsByPrefix`).

## Model

| member | source | states |
|---|---|---|
| TimeVals.BeforeIsEarlier | src/timer.c:126-133 | on normal values the field-by-field comparison is the order of the instants |
| TimeVals.Carry | src/timer.c:48-51 | the carry loop keeps the instant and ends in normal form |
| TimeVals.Borrow | src/timer.c:232-235 | the borrow loop keeps the interval and ends in normal form |
| Alarms.IndexOf | src/timer.c:138-148 | the first node with the id, or the end of the list if there is none |
| Alarms.EarliestOf | src/timer.c:118-136 | no deadline seen is earlier, and every earlier node has a later one: ties go to the first registered |
| Alarms.NextPeriod | src/timer.c:392-396 | the guard on the interval keeps the table index in range; only the query fields change |
| AlarmHistory.AppendForm | src/timer.c:282-320 | a registration appends one alarm with a fresh id and the deadline now + t, logs it, and arms the timer if started |
| AlarmHistory.RenewForm | src/timer.c:177-183 | after its callback an alarm moves to now + t if its repeat bit is set and its interval is not zero, and leaves the list otherwise |
| AlarmHistory.StepGood | src/timer.h:48-57 | every client call keeps the invariant, also in the middle of a callback |
| AlarmHistory.PrepareGood | src/timer.c:360-401 | the list operations of the built-in callbacks keep it; among other things a handle never names an alarm of another kind |
| AlarmHistory.EnteredGood | src/timer.c:169-174 | the alarm picked is due, and entering its callback keeps the invariant |
| AlarmHistory.RenewGood | src/timer.c:177-186 | looking the alarm up again and re-arming it restores the invariant at rest, also if it has removed itself |
| AlarmHistory.FireGood | src/timer.c:169-187 | a whole firing with any client code keeps it |
| AlarmHistory.ExecGood | src/timer.c:150-192 | every history keeps it |
| AlarmHistory.SpacedUpToLast | src/timer.c:57-71 | along the log an id keeps its interval, flags and callback, and each firing costs more than one interval |
| AlarmHistory.SpacingTheorem | src/timer.c:167-182 | between any entry of an id and a later firing, every firing counts for more than one interval |
| AlarmHistory.OneShotFiresOnce | src/timer.c:57-77 | whoever fires twice has the repeat bit set and a positive interval |
| AlarmHistory.FiringOrder | src/timer.c:118-192 | successive firings strictly increase in (deadline, id), over any history |
| AlarmHistory.RateBound | src/timer.c:34-71 | the k-th firing of an id uses a sample later than its registration plus k intervals, over any history |
| AlarmHistory.AtRest | src/timer.c:32-79 | in any reachable state each deadline is one interval after the last run, the log determines the alarm, ids increase along the list, and sa_find_next picks the earliest deadline of the lowest id |
| AlarmHistory.RemoveIsWithout | src/timer.c:82-103 | unlinking the first match removes exactly that id and keeps the order of the rest |
| AlarmRuns.FireExtends | src/timer.c:162-187 | a firing only lets alarms join whose deadline is not before the sample, and logs itself first |
| AlarmRuns.FireShrinks | src/timer.c:162-191 | each turn moves the sample forward or leaves fewer alarms due at it |
| AlarmRuns.RunUnfolds | src/timer.c:162-191 | one turn of a call, with the measure by which it ends |
| AlarmRuns.RunIsTurns | src/timer.c:150-192 | a call is finitely many single turns |
| AlarmRuns.RunAfterHistory | src/timer.c:150-192 | a call after any history is a longer history, so all statements about histories apply |
| AlarmRuns.RunLeavesNothingDue | src/timer.c:188-190 | when the call returns nothing listed was due at its last sample, which is not before its first |
| AlarmRuns.RunEndsIff | src/timer.c:150-192 | every call ends, after every history and under all callbacks, if and only if the clock is bounded |
| AlarmRuns.FireBusy | src/timer.c:162-187 | with callbacks that outrun the clock, a firing leaves an alarm that is due at the next reading |
| AlarmRuns.RunNeedNotEnd | src/timer.c:162-182 | with a clock that gains two microseconds per reading, a call never ends after one registration |
| AlarmRuns.SettledOne | src/timer.c:177-183 | settling one due alarm first makes no difference to the settled list |
| AlarmRuns.QuietFire | src/timer.c:167-183 | a turn whose callback leaves the list alone moves only the alarm it fires, and counts one call if that is a built-in timer |
| AlarmRuns.RunIsSort | src/timer.c:150-192 | with a standing clock a call fires exactly the due alarms, once each, in (deadline, id) order, leaves the settled list, and makes one client call per due alarm of a built-in timer |
| OsTimer.DelayIsRemaining | src/timer.c:214-240 | the delay is normal and non-negative, is the remaining time or one microsecond, and is zero only at equality |
| OsTimer.Arms | src/timer.c:250-279 | arming names the earliest alarm and expires at its deadline; it leaves a timer running if and only if the deadline is not the instant read |
| OsTimer.SilentAlarm | src/timer.c:225-270 | a history in which an alarm is listed and the timer set for it is disarmed |
| Kinds.PrepareOther | src/timer.c:371-396 | a built-in callback never unlinks an alarm of another kind |
| Kinds.StepSpares | src/timer.c:282-416 | what a client call can change about a built-in timer it does not remove |
| Kinds.StepsSpareRunning | src/timer.c:174-174 | client code that spares a running timer changes nothing about it |
| Kinds.RenewOwn | src/timer.c:177-186 | after a built-in callback its alarm is renewed, or its replacement is left as it is |
| Kinds.FireOtherRunning | src/timer.c:169-187 | a firing of another kind leaves a running timer exactly as it was |
| BurstClient.FireCalling | src/timer.c:364-368 | one of the first four firings: one client call, and the timer stays |
| BurstClient.FireClosing | src/timer.c:369-373 | the fifth firing: no client call, the timer is gone and the counter back at 0 |
| BurstClient.BurstTheorem | src/timer.c:360-385 | in any sparing history the calls and the counter follow the number of firings, a burst is listed exactly while its five firings are not complete, and n complete bursts made 4n calls |
| BurstClient.BurstSpacing | src/timer.c:300-303 | the firings of one burst are more than half a second apart, in any history |
| BurstClient.RunFiresOverdue | src/timer.c:162-187 | a call of run_alarms fires an overdue burst at least once |
| BurstClient.BurstsComplete | src/timer.c:360-385 | every burst started gets its five firings and four calls after one late enough run per missing firing; if no more were started, none is listed and these are all |
| Operations.RegisterLists | src/timer.c:282-320 | one alarm more, with the next id, the flags given, an interval of that many seconds or of 500,000 microseconds for 0, due that long after the reading |
| Operations.RegisterHrLists | src/timer.c:324-356 | the same with the interval given |
| Operations.StartBurstLists | src/timer.c:379-385 | a repeating alarm of 500,000 microseconds, whose id goes into the handle |
| Operations.StartQueryLists | src/timer.c:404-411 | a repeating alarm of 10 seconds, whose id goes into the handle |
| Operations.UnregisterRemoves | src/timer.c:82-116 | the three removals: the list without that id, without the id in the query handle, the empty list; nothing else changes |
| Operations.UnregisterDelists | src/timer.c:82-103 | exactly the alarms with other ids stay listed |
| Operations.FireRemoves | src/timer.c:174-186 | a removal by client code inside a callback, of its own alarm or another one, holds after the firing |
| Operations.UnregisteredNeverFires | src/timer.c:82-103 | an alarm removed by a client is not listed and never fires again, in any history |
| Operations.RemovedInsideNeverFires | src/timer.c:162-187 | so for a removal inside a callback |
| Operations.StepsInOrder | src/timer.c:174-174 | client code makes its calls in order |
| Operations.FireLogs | src/timer.c:172-187 | a firing is logged once, then the next period of the query timer, then every registration of its client function, which a closing burst firing does not call |
| Operations.FiredOnce | src/timer.c:57-77 | an alarm without the repeat bit or with a zero interval is not listed after its firing |
| Operations.FiredAgain | src/timer.c:57-71 | one with the bit and an interval that nobody removes is listed again, due one interval after the sample |
| Operations.FiresTwice | src/timer.c:57-77 | whoever fires twice in any history has the repeat bit and a positive interval |
| Operations.InitArms | src/timer.c:25-30 | init_alarm_post_config and set_an_alarm set the timer for the earliest alarm, or leave it if none is listed |
| Operations.RegistrationArms | src/timer.c:282-356 | in a started scheduler each registration sets the timer for the earliest alarm |
| Orphans.StepKeeps | src/timer.c:282-416 | a client call takes an alarm out of the list only by its id or through the query handle |
| Orphans.StepStray | src/timer.c:282-416 | no client call but a removal by id changes an alarm whose handle a later start has taken |
| Orphans.FireStray | src/timer.c:169-187 | a firing leaves it as it is, or is its own and renews it |
| Orphans.OrphanStays | src/timer.c:369-396 | in no history does a timer remove an orphan |
| Orphans.RunFiresOrphan | src/timer.c:162-187 | a call of run_alarms that comes after the deadline of an orphan fires it, and it is an orphan afterwards |
| Orphans.OrphanFiresForEver | src/timer.c:150-192 | an orphan fires in every such call, however many there are |
| Orphans.OverlapOrphans | src/timer.c:379-411 | after a start of either timer exactly its alarms that were listed before are orphans |
| Orphans.TwoStarts | src/timer.c:379-411 | after two starts in a row the first alarm is an orphan |
| Orphans.QueryOverlap | src/timer.c:388-411 | after a start of the query timer and a sparing history it is one alarm under its handle if and only if none was listed at the start |
| BurstLife.FireCountsOne | src/timer.c:360-376 | a firing of a burst, whichever it is, counts one client call, or closes and resets the counter |
| BurstLife.FireCloses | src/timer.c:369-373 | the closing firing unlinks the alarm under the handle, whichever burst has fired |
| BurstLife.LifeOfBurst | src/timer.c:360-385 | a burst that no later start overtakes is listed exactly until five firings of any bursts are counted, with the client calls made by then |
| BurstLife.RunFiresCurrent | src/timer.c:162-187 | a call of run_alarms after its deadline fires it, or an older burst before it |
| BurstLife.BurstEnds | src/timer.c:360-385 | with enough calls after its deadline a started burst is gone if and only if no burst was started while it was listed, whatever else was listed |
| BurstLife.CounterLeft | src/timer.c:360-376 | a burst removed after its first firing leaves the counter at 1 |
| BurstLife.BurstGetsDone | src/timer.c:360-385 | a burst started while none is listed ends, with the firings and calls that an earlier one has left it |
| BurstLife.BroadcastingStops | src/timer.c:360-385 | after a start with no other one behind it, broadcasting stops if and only if no burst was listed at the start; with four calls if and only if the counter was 0 as well |
| QueryClient.StartBackoff | src/timer.c:404-411 | a start while none is listed begins a back-off at the first period |
| QueryClient.PrepareBackoff | src/timer.c:392-397 | the callback replaces its own alarm by one with the next period and stores the new id |
| QueryClient.FireOwn | src/timer.c:388-401 | each firing of the query timer moves to the next period, or stays at the last one, and calls the client once |
| QueryClient.QueryTheorem | src/timer.c:388-411 | from a start on, in any sparing history, exactly one query alarm is listed, under the handle, with the period of the number of firings, and the client ran once per firing |
| QueryTimes.QueryTiming | src/timer.c:388-411 | in any sparing history after a start, the n-th firing has the n-th period, and its sample is later than that of every earlier query firing plus this period |
| QueryClient.StopEnds | src/timer.c:413-416 | stopping removes it |
| QueryClient.ReachesLastPeriod | src/timer.c:390-396 | in any sparing history the timer has the last period if and only if table entries were left at the start and the firings have used them up; if none were left it has the first |
| QueryClient.RestartStaysShort | src/timer.c:388-416 | start, six firings, stop, start: from then on it fires at every turn and stays at the first period |
| Scheduling.Scheduler.constructor | src/timer.c:16-21 | the initial state: an empty list, the first id 1, nothing allocated |
| Scheduling.Scheduler.FindNext | src/timer.c:118-136 | the scan returns the node of the earliest alarm, or null |
| Scheduling.Scheduler.FindSpecific | src/timer.c:138-148 | the scan returns the node with the id, or null; never a freed one |
| Scheduling.Scheduler.FindLink | src/timer.c:84-90 | the walk finds the node and the link that leads to it |
| Scheduling.Scheduler.Unlink | src/timer.c:92-93 | rewriting that link takes exactly this node out of the chain |
| Scheduling.Scheduler.Unregister | src/timer.c:82-103 | the list without that id; the node is freed once |
| Scheduling.Scheduler.UnregisterAll | src/timer.c:106-116 | the empty list, with every node freed once |
| Scheduling.Scheduler.UpdateEntry | src/timer.c:32-79 | all five outcomes of sa_update_entry, as the state machine has them |
| Scheduling.Scheduler.GetNextAlarmDelayTime | src/timer.c:204-247 | the id and the delay of the earliest alarm, or 0 without reading the clock |
| Scheduling.Scheduler.SetAnAlarm | src/timer.c:250-279 | the OS timer is set for that alarm; an empty list leaves it as it was |
| Scheduling.Scheduler.Link | src/timer.c:286-294 | the walk to the last link hangs the new node at the end of the chain |
| Scheduling.Scheduler.Attach | src/timer.c:296-312 | a fresh zeroed node with a fresh id at the end of the list |
| Scheduling.Scheduler.Append | src/timer.c:324-356 | a registration as the state machine has it; the id is returned |
| Scheduling.Scheduler.Register | src/timer.c:282-320 | the same for a number of seconds, where 0 stands for half a second |
| Scheduling.Scheduler.BroadcastTimerStart | src/timer.c:379-385 | a burst is registered and its id stored |
| Scheduling.Scheduler.QueryServerTimer | src/timer.c:404-411 | the query timer is registered and its id stored |
| Scheduling.Scheduler.InitAlarmPostConfig | src/timer.c:25-30 | the scheduler is started and the OS timer set |
| Scheduling.Scheduler.BroadcastTimerProc | src/timer.c:360-376 | the burst callback around any client code |
| Scheduling.Scheduler.Reschedule | src/timer.c:394-396 | the back-off step of the query callback |
| Scheduling.Scheduler.MdyQueryServerTimer | src/timer.c:388-401 | the query callback around any client code |
| Scheduling.Scheduler.CallBack | src/timer.c:174-174 | the call through the function pointer |
| Scheduling.Scheduler.Call | src/timer.c:172-187 | a whole firing, with the node looked up again by its id |
| Scheduling.Scheduler.OneTurn | src/timer.c:162-191 | one turn of the loop, and whether it was the last |
| Scheduling.Scheduler.RunAlarms | src/timer.c:150-192 | the call ends, and its effect is Run |
| Scheduling.Scheduler.AlarmHandler | src/timer.c:196-200 | a run followed by arming the OS timer |
| Scheduling.Scheduler.Play | src/timer.c:25-416 | any history played on the linked nodes has the effect of the state machine |
| Bits.AndOnes | src/nls_base.c:67-67 | masking with k ones keeps the k low bits |
| Bits.HighMask | src/nls_base.c:66-66 | masking with ones above k zeroes clears the k low bits |
| Bits.OrLow | src/nls_base.c:79-79 | filling the low bits of a shifted value is addition |
| Bits.XorBit | src/nls_base.c:76-76 | flipping a bit adds or subtracts its weight |
| Utf8.LeadFits | src/nls_base.c:45-50 | the payload of a first byte fits below its marker bits, and the byte announces the length |
| Utf8.OneMeaning | src/nls_base.c:64-81 | the scan accepts exactly: announced length, continuation bytes, shortest form |
| Utf8.DecodesEncoding | src/nls_base.c:113-139 | what the encoder writes the decoder reads, whatever follows |
| Utf8.EncodesDecoding | src/nls_base.c:54-82 | what the decoder accepts is what the encoder would have written |
| Utf8.ExactMeaning | src/nls_base.c:54-82 | k bytes are accepted for a code if and only if they are its reference encoding |
| Utf8.FirstByteTable | src/nls_base.c:43-52 | the first byte of each length, with its marker and the high digit |
| Utf8.TailTable | src/nls_base.c:127-135 | the bytes after it are the base-64 digits of the code, from the last one back |
| Utf8.PrefixFree | src/nls_base.c:43-52 | no encoding is a prefix of another |
| Utf8Text.AtMostOneUnitPerByte | src/nls_base.c:93-109 | each unit costs at least one byte |
| Utf8Text.DecodeOneStable | src/nls_base.c:73-78 | a string that does not begin with a continuation byte cannot complete a sequence |
| Utf8Text.DecodeConcat | src/nls_base.c:93-109 | decoding distributes over concatenation at a character boundary |
| Utf8Text.DecodeOfEncode | src/nls_base.c:84-166 | decoding encoded units gives them back, for all sequences of 16-bit units |
| Utf8Text.DecodeMeaning | src/nls_base.c:93-109 | an encoding at the front gives its code modulo 65536 and decoding goes on behind it; without one a single byte is skipped |
| Utf8Text.DecodeCodes | src/nls_base.c:54-109 | the encodings of any codes below 2 to the 31 decode to these codes modulo 65536 |
| Utf8Text.DecodesCodes | src/nls_base.c:84-111 | the same for the loop, up to a NUL or the limit |
| Utf8Text.BudgetTheorem | src/nls_base.c:150-164 | the output encodes a subsequence; multi-byte output and skipped units share the budget, which is used up if units were not read |
| Utf8Text.KeepsAll | src/nls_base.c:150-164 | nothing is left out if and only if the multi-byte units fit, with room to spare before a last ASCII unit |
| Utf8Text.EncodesWhole | src/nls_base.c:141-166 | with room for its encoding a zero-terminated string is encoded as a whole |
| Utf8Text.DecodesWhole | src/nls_base.c:84-111 | the encoding, cut off by the limit or a NUL, decodes to the string |
| Utf8Text.RoundTrip | src/nls_base.c:84-166 | both string functions in turn give a zero-terminated string back, with room for its encoding |
| Utf8Text.EncodeOfDecode | src/nls_base.c:84-166 | re-encoding gives the same bytes if and only if they are accepted sequences of at most three bytes |
| Utf8Text.BytesRoundTrip | src/nls_base.c:84-166 | both string functions in turn give NUL-free bytes back, with room for them, under the same condition |
| Utf8Text.ZeroUnit | src/nls_base.c:54-82 | a unit 0 comes out of NUL-free bytes if and only if an accepted sequence of four or more bytes has 0 in its low 16 bits |
| Utf8Text.DecodeEncodeDecode | src/nls_base.c:70-166 | decode, encode, decode gives the units up to the first 0: all of them if and only if the text has no such sequence |
| Utf8Slices.TailsDecodeToNothing | src/nls_base.c:96-99 | continuation bytes on their own are skipped one by one |
| Utf8Slices.CutCharacter | src/nls_base.c:73-78 | so is a character that is cut off |
| Utf8Slices.SliceTheorem | src/nls_base.c:84-139 | any slice of encoded text decodes to the units whose encodings lie wholly inside it |
| Utf8Slices.SliceBoundsExist | src/nls_base.c:84-139 | every slice has such bounds |
| Utf8Slices.KeptNext | src/nls_base.c:150-164 | the greedy choice: with budget left the next unit is written if it is ASCII or fits, and costs one otherwise |
| Utf8Slices.FitsEveryBudget | src/nls_base.c:150-164 | the output stays within every budget if and only if no ASCII unit is followed by another unit |
| Utf8Slices.FitsThisBudget | src/nls_base.c:150-164 | the exact size of the output for one string and one budget, and when it fits |
| Utf8Slices.FitsByPrefix | src/nls_base.c:150-164 | the same condition on the string itself: its multi-byte length, or the ASCII units before the unit that reaches the budget |
| Utf8Slices.UnitsBounded | src/nls_base.c:93-110 | at most min(n, z) units come out, for a first NUL at z |
| Utf8Codec.RowMatches | src/nls_base.c:43-66 | the mask test of a row says that the first byte announces its length |
| Utf8Codec.Continuation | src/nls_base.c:76-78 | the two masks accept exactly the continuation bytes and leave their digit |
| Utf8Codec.PushDigit | src/nls_base.c:79-79 | shift and or append one base-64 digit |
| Utf8Codec.MaskedValue | src/nls_base.c:67-67 | the row's mask removes the marker bits from the accumulator |
| Utf8Codec.MbToWc | src/nls_base.c:54-82 | the length and the unit of the character at the position, or -1 with the buffer untouched |
| Utf8Codec.DecodeOrSkip | src/nls_base.c:94-108 | one turn of the decoding loop: copy, decode or skip one byte |
| Utf8Codec.MbsToWcs | src/nls_base.c:84-111 | exactly the units of the text are written and nothing else; no byte after the first NUL or after index n is read |
| Utf8Codec.WriteCharacter | src/nls_base.c:127-135 | the shift loop writes the reference encoding |
| Utf8Codec.WcToMb | src/nls_base.c:113-139 | the encoding of one unit, or -1 with the buffer untouched if the budget is too small; a negative budget never runs out |
| Utf8Codec.EncodeOrSkip | src/nls_base.c:151-162 | one turn of the encoding loop, with what it charges |
| Utf8Codec.WcsToMbs | src/nls_base.c:141-166 | exactly the encodings of the units kept under the budget are written and nothing else |

## Left out

- Signals and the interleaving of the handler with the rest of the program (`src/timer.c:196-200`, `src/timer.c:269-270`): a handler run is one step, and the OS timer is only the record of the last `setitimer` call.
- Log output, allocation failure, and the wrap-around of ids and of time fields.
- A clock that steps back, and negative requested intervals: the theorems about histories exclude them; the state machine and the methods of the scheduler do not.
- The text arguments of the client functions (`src/timer.c:382`, `src/timer.c:407`) and what client functions do besides calling the scheduler.
- AlarmRuns.Run: assumes a limit on the clock, because without one a call need not end (`RunEndsIff`); the theorems about histories are stated over single turns and need no limit.
- Scheduling.Scheduler: the entries of `handle_t`, the static variables and the counters of each built-in timer are two record fields; the third handle is never used.
- Utf8Codec.MbToWc: C's `long` is an unbounded integer. The accumulator stays below 2 to the 44, so a 64-bit `long` never overflows; a 32-bit one would, and that is not modelled.
- Utf8Codec.WcsToMbs: the null output pointer is modelled for single characters only; a string needs a buffer.
- The code page tables and everything disabled in `src/nls_base.c:167-501`: not compiled, or finite tables.
- The message handling, the HTTP, UDP and configuration code and the MD5 code: library calls and table look-ups without an algorithm of their own here.
