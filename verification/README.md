# PJLIB-UTIL: a model and its proofs

PJLIB-UTIL is the utility library below the SIP stack: an asynchronous caching DNS resolver, the DNS
wire format, SRV resolution, argument parsing, JSON and XML over one text scanner, and checksums,
hashes and Base64. This project models these parts in Dafny, in the form the C code has (classes
with fields for contexts and objects, arrays for buffers changed in place, recursive methods for the
parsers), and proves what they promise. `dafny verify dfyconfig.toml` checks the whole project.

A C function that changes state is a method. Its contract ties the new state to a function of the
old one, and lemmas state what that function is for: an independent definition it agrees with, an
invariant it keeps, or the operation that it undoes.

## The parts

**Resolver** (`ResolverState`, `ResolverPlaces`, `ResolverSteps`, `ResolverTokens`, `ResolverRuns`,
`ResolverTheorems`, `ResolverAnswers`, `ResolverLifetimes`, `ResolverLate`, `Resolver`, with
`ServerTimes`, `ResponseCache`, `CacheLog`, `Nameservers`, `PacketDup`). Every region that holds the
mutex is one step; every callback made without it is a step of its own, so runs interleave them with
everything else. Pointers are numbers, hash tables are maps, lists are sequences, the timer heap is
the set of armed entries and the set of entries popped but not yet handled. History variables record
accepted queries, callbacks and cache updates. The application cancels a query at most once and
before its callback; a new query meets an id that is not pending and a node whose timer was not
popped. This guard stands in the possible steps themselves, so all theorems about runs and reachable
states are about runs that meet it. The part about ids is the assumption that an id is not reused
while its query is pending. The part about timers can fail: on_timeout is called by the timer heap
before it takes the mutex, so an entry popped just before the answer arrives can find its node
reused. `NewQueryNeedsIdle` shows that the guard is exactly what a new query needs for places,
tables and timers to stay in agreement; `LateTimeoutHappens` gives a run to a state that breaks it,
for all settings, and shows the new query ended by the late on_timeout. What holds after that is not
claimed.

`AnsweredAreTold` and `ToldForACause` say what every callback is told and why, `LifetimesDecide`
when a lookup is answered from the cache, `StepLogs` and `AnswerIsFiled` what is cached, and
`AskedAfterAnswer` and `ProbedUntilBad` when a nameserver is asked: over runs, in terms of packets,
lifetimes and times.

**DNS messages** (`DnsTypes`, `DnsName`, `DnsPrint`, `DnsSize`, `DnsParse`, `DnsTable`,
`DnsRoundTrip`, `DnsMessage`, `DnsPrinter`, `DnsQuery`). Memory past the end of a message is
arbitrary, since a name's first byte is read before it is compared with the end. The compression
table compares stored wire bytes with dotted text, so a name can match the entry of another one.
`PrintedPacketReads` says what a reader gets from any printed packet, and `PrintedPacketParses` that
it is the packet itself if and only if no printed name matches the entry of another. Host names
whose entry only they match are safe together (`SafePacketParses`); a single label, or one later
label whose length is no name character, is enough for that. Each other host name is misread in the
packet that `TextComesBackAsName` gives. `MessageReads` covers what other servers write: records of
any type and names cut short by pointers, read exactly as laid out or refused; `CutMessageRefused`
the same messages with their end missing. The printer does not count the type and class of a
question against the size, so the buffer has to be 4 bytes a question, and 2 more, longer than the
size it is told; `WritesPastSize` says for every message exactly how far it goes past it.
pj_dns_make_query asks for less than it writes (`RequiredSizeIsShort`).

**SRV resolution** (`SrvTargets`, `SrvAddresses`, `SrvRun`, `SrvTheorems`, `SrvAnswers`,
`SrvRefused`, `SrvReport`, `SrvQuery`). Random numbers, literal addresses and parsed address
responses are parameters. A lookup may answer inside the call that starts it. The header documents
that one server is selected for each priority; the code keeps all of them, and so does the model.
The header also says that A records of the domain are looked up only with a fallback option; the
code does so for every empty SRV answer. A lookup that fails to start counts its host at once and
without looking whether all are counted. That is right exactly for what `SoundStarts` says about the
ways the lookups start: all turns fail, or no host fails with its A lookup pending and the last turn
does not complete the count by failing. `SrvCounted` proves both directions for the state after the
SRV answer, `CalledBackOnce` what follows in every sound run, and `UnsoundNeverRight` that every
other run ends without its callback or had it too early. `HostsHold` gives the addresses, aliases
and remembered error of every state from the answers that came in, and `FilledHeld` the addresses
known from the additional section.

**Argument parsing** (`GetoptScan`, `Getopt`, `GetoptWritten`). The scanner is an object with the
globals as fields, called again and again on an argv that it permutes in place. One pass over the
original arguments (`Scan`) is the specification. `RunWritten` says what it means without it: a
command line is a list of options of their declared kinds with their arguments, mistakes and other
words, and exactly these are reported and left over; `EveryLine` shows that every argument list is
such a command line.

**Scanner, JSON and XML** (`ScanText`, `Scanner`; `JsonText`, `JsonIndent`, `JsonRoundTrip`,
`JsonWritten`, `Json`, `JsonWriter`; `XmlText`, `XmlRoundTrip`, `XmlWritten`, `Xml`, `XmlSections`,
`XmlPrinter`). The text functions say what each scanner call leaves to be read; parsers and printers
are proved against grammars built on them, and those are proved inverse to each other. `JsonWritten`
and `XmlWritten` cover the layouts that the printers never produce: free white space, escapes,
fractions, comments, either quotes, sections. Objects may hold any byte string as a value; among
array items exactly the plain strings come back (`ListStringExactly`). Values nested on up to 33
levels of lines keep the writer within its indentation buffer (`IndentationFits`). The XML search
for the end of a CDATA section does not move past a `]` that does not begin it; the model reports
this as stuck. `SectionDocument` says for whole documents exactly when a section comes back and when
the parser never returns, and `NodeNotStuck` and `NoBracketNotStuck` give conditions on the text
alone under which it always does. pj_xml_print adds the prolog's length to the result of a tree that
does not fit, and so returns 39 and not -1.

**Checksums and codes** (`Crc32`, `Crc32Context`; `HashBlocks`, `Sha1Block`, `Sha1`, `Md5Block`,
`Md5`; `HmacPads`, `HmacSha1`, `HmacMd5`; `Base64`). The fast forms are proved equal to the
bit-serial CRC of section 8.1.1.6.2 of ITU-T V.42, the plain methods of RFC 3174 and RFC 1321 and
the formula of RFC 2104, for every alignment, every split and every key. pj_crc32_update on a
big-endian machine returns the value with its octets swapped; pj_crc32_final returns the same as
everywhere. pj_sha1_update with 2^29 octets or more at once miscounts, except below 2^32 octets when
the low word carries; `CountRightIff` says this for every length.

## Model

| member | source | states |
|---|---|---|
| ResolverTheorems.CalledBackExactlyOnce | QtSipPhone/PJSIP/pjlib-util/src/pjlib-util/resolver.c:847-1028 | In every reachable state, for every accepted start_query: while its callback is owed it has not been called (and it was not silenced); once nothing is owed it has been called exactly once, or never if it was cancelled silently; it is never called twice. Covers cache hits, merged children, answers, timeouts and both kinds of cancel. |
| ResolverTheorems.OwnersOwe | QtSipPhone/PJSIP/pjlib-util/src/pjlib-util/resolver.c:1747-1786 | The callback of an accepted query is owed by exactly one holder: one node (parent or child) that still has to be visited, or one start_query still handling a cache hit. |
| ResolverTheorems.OnlyAcceptedAreCalled | QtSipPhone/PJSIP/pjlib-util/src/pjlib-util/resolver.c:847-1005 | A query that start_query refused is never called back and nothing waits for it. |
| ResolverTheorems.OnePlaceEach | QtSipPhone/PJSIP/pjlib-util/src/pjlib-util/resolver.c:623-688 | Every node is in exactly one place: once in the free list, or the parent slot or one child slot of exactly one pending or detached query. |
| ResolverTheorems.TablesAndTimersAgree | QtSipPhone/PJSIP/pjlib-util/src/pjlib-util/resolver.c:974-997 | hquerybyid and hquerybyres hold the same pending queries, each under one id and one key; every pending query has a timer that is armed, or popped with on_timeout waiting for the mutex, no other query has an armed timer, and its timer id is set (the assertions on timer_entry.id hold). |
| ResolverTheorems.ReferencesCounted | QtSipPhone/PJSIP/pjlib-util/src/pjlib-util/resolver.c:803-841 | Every cached entry has ref_cnt equal to (1 if the table holds it) plus the number of callbacks using it, and at least 1, so it is freed exactly when it becomes unreachable; no callback and no table slot refers to a freed entry. |
| ResolverTheorems.CallbackKeepsItsPacket | QtSipPhone/PJSIP/pjlib-util/src/pjlib-util/resolver.c:904-926 | While the callback of a cache hit runs, no step of the resolver frees, resets or replaces the packet it is reading. |
| ResolverTheorems.LookupsFollowTheLog | QtSipPhone/PJSIP/pjlib-util/src/pjlib-util/resolver.c:884-951 | start_query hits exactly when the last update logged for the case-folded name and the type answers at that time, and then its callback gets the packet of that update and the status of its response code. |
| ResolverTheorems.TimeoutsTransmit | QtSipPhone/PJSIP/pjlib-util/src/pjlib-util/resolver.c:1543-1586 | As long as a query stays pending, its transmit count rises by exactly the number of its timeouts. |
| ResolverTheorems.StepTransmits | QtSipPhone/PJSIP/pjlib-util/src/pjlib-util/resolver.c:655-780 | One step changes the transmit count of a query that stays pending only if it is a timeout of that query, and then by one. |
| ResolverTheorems.UnansweredTimesOut | QtSipPhone/PJSIP/pjlib-util/src/pjlib-util/resolver.c:1543-1593 | Over every run in which a query stays pending, its transmissions number at least 1 and at most max(1, qretr_count). |
| ResolverTheorems.NewQueryNeedsIdle | QtSipPhone/PJSIP/pjlib-util/src/pjlib-util/resolver.c:974-997 | Starting a new query keeps the places, tables and timers in agreement if and only if the next id is not pending, nor that of a popped timer, and the node taken from the free list has no popped timer. |
| ResolverTheorems.LateTimeoutHitsNewQuery | QtSipPhone/PJSIP/pjlib-util/src/pjlib-util/resolver.c:1543-1626 | If the node still has a popped timer, the late on_timeout ends the new query with a timeout while its own timer is still armed. |
| ResolverLate.AnswerLeavesTimer | QtSipPhone/PJSIP/pjlib-util/src/pjlib-util/resolver.c:1543-1786 | From every reachable state with a pending query without children: its timer expires, its answer comes first, its callback runs and it is recycled, all of them possible steps; its node is then free with its on_timeout yet to come. |
| ResolverLate.LateTimeoutHappens | QtSipPhone/PJSIP/pjlib-util/src/pjlib-util/resolver.c:847-1786 | For all settings there is such a run from the start, and the next query for another key takes that node and is ended by the late on_timeout. |
| ResolverTheorems.IdTakenTwice | QtSipPhone/PJSIP/pjlib-util/src/pjlib-util/resolver.c:977-995 | Using an id that is still pending makes the two tables disagree. |
| ResolverRuns.StepKeepsInvariant | QtSipPhone/PJSIP/pjlib-util/src/pjlib-util/resolver.c:847-1809 | Every enabled step (start, retransmit, time out, answer, callback, cancel, recycle, cache insert) keeps the whole invariant: places, owed callbacks, cache references and cache log. |
| ResolverRuns.RunKeepsInvariant | QtSipPhone/PJSIP/pjlib-util/src/pjlib-util/resolver.c:847-1809 | Every run from a state that satisfies the invariant ends in one. |
| ResolverRuns.InitInvariant | QtSipPhone/PJSIP/pjlib-util/src/pjlib-util/resolver.c:377-575 | The resolver starts in a state that satisfies the invariant. |
| ResolverRuns.StepKeepsOwed | QtSipPhone/PJSIP/pjlib-util/src/pjlib-util/resolver.c:847-1809 | Every step keeps the record of who owes which callback. |
| ResolverRuns.StepKeepsCache | QtSipPhone/PJSIP/pjlib-util/src/pjlib-util/resolver.c:803-951 | Every step keeps the reference counts and the refinement of the update log. |
| ResolverSteps.StepKeepsPlaces | QtSipPhone/PJSIP/pjlib-util/src/pjlib-util/resolver.c:623-1786 | Every enabled step keeps the one-place-per-node discipline, the agreement of the two tables and the timer discipline. |
| ResolverSteps.TimeoutKeepsPlaces | QtSipPhone/PJSIP/pjlib-util/src/pjlib-util/resolver.c:1543-1626 | on_timeout keeps them, whether it retransmits, fails to, gives up, or finds the query already done. |
| ResolverSteps.ReceiveKeepsPlaces | QtSipPhone/PJSIP/pjlib-util/src/pjlib-util/resolver.c:1706-1745 | on_read_complete keeps them, also for an answer nobody waits for. |
| ResolverSteps.CancelKeepsPlaces | QtSipPhone/PJSIP/pjlib-util/src/pjlib-util/resolver.c:1011-1028 | cancel_query keeps them: it moves no node. |
| ResolverPlaces.RecycleKeepsPlaces | QtSipPhone/PJSIP/pjlib-util/src/pjlib-util/resolver.c:1774-1786 | Putting the children and the query on the free list keeps every node in one place. |
| ResolverObject.Resolver.constructor | QtSipPhone/PJSIP/pjlib-util/src/pjlib-util/resolver.c:377-575 | A new resolver has empty tables, an empty cache and the given nameservers. |
| ResolverObject.Resolver.AllocQnode | QtSipPhone/PJSIP/pjlib-util/src/pjlib-util/resolver.c:623-652 | The node is the head of the free list, or a new one when the list is empty; it comes back cleared, with the given callback. |
| ResolverObject.Resolver.TransmitQuery | QtSipPhone/PJSIP/pjlib-util/src/pjlib-util/resolver.c:655-780 | The whole state after a transmission and its status, including the timer, the nameservers marked as asked, the busy socket, and the failures. |
| ResolverObject.Resolver.SendQueryPacket | QtSipPhone/PJSIP/pjlib-util/src/pjlib-util/resolver.c:677-780 | The transmission after nameservers are chosen: the timer is armed before sending and cancelled again when nothing could be sent. |
| ResolverObject.Resolver.SendToAll | QtSipPhone/PJSIP/pjlib-util/src/pjlib-util/resolver.c:723-773 | Exactly the servers written to that were not measuring start measuring; the count is zero exactly when no server took the packet. |
| ResolverObject.Resolver.StartQuery | QtSipPhone/PJSIP/pjlib-util/src/pjlib-util/resolver.c:847-1005 | The state and status of start_query up to releasing the mutex: argument errors, cache hit, merge, new query. |
| ResolverObject.Resolver.StartUncached | QtSipPhone/PJSIP/pjlib-util/src/pjlib-util/resolver.c:953-1004 | A request for a pending key joins it; any other becomes a new query, or is refused and its node returned. |
| ResolverObject.Resolver.JoinQuery | QtSipPhone/PJSIP/pjlib-util/src/pjlib-util/resolver.c:953-972 | The node becomes the last child of the pending query. |
| ResolverObject.Resolver.BeginQuery | QtSipPhone/PJSIP/pjlib-util/src/pjlib-util/resolver.c:974-997 | A new query gets the next id, is transmitted, and is entered in both tables only if that succeeded. |
| ResolverObject.Resolver.RunCacheCallback | QtSipPhone/PJSIP/pjlib-util/src/pjlib-util/resolver.c:901-916 | The callback of a cache hit gets the cached packet and its status, once. |
| ResolverObject.Resolver.EndCacheCallback | QtSipPhone/PJSIP/pjlib-util/src/pjlib-util/resolver.c:918-937 | The reference taken for the callback is dropped, and the entry freed when it was the last. |
| ResolverObject.Resolver.OnTimeout | QtSipPhone/PJSIP/pjlib-util/src/pjlib-util/resolver.c:1543-1593 | on_timeout up to the callbacks: retransmission, or removal from both tables with the timeout outcome. |
| ResolverObject.Resolver.OnReadComplete | QtSipPhone/PJSIP/pjlib-util/src/pjlib-util/resolver.c:1630-1745 | on_read_complete up to the callbacks: nameserver status, then the pending query with that id leaves both tables, its timer cancelled. |
| ResolverObject.Resolver.ForgetQuery | QtSipPhone/PJSIP/pjlib-util/src/pjlib-util/resolver.c:1588-1593 | A query leaves both tables and its notification phase opens. |
| ResolverObject.Resolver.ReportNameserverStatus | QtSipPhone/PJSIP/pjlib-util/src/pjlib-util/resolver.c:1371-1427 | Exactly the first nameserver with the address changes: measured delay for a matching id, then bad or active. |
| ResolverObject.Resolver.RunNextCallback | QtSipPhone/PJSIP/pjlib-util/src/pjlib-util/resolver.c:1750-1766 | One turn of the notification loops: the query first, then its children in order. |
| ResolverObject.Resolver.RecycleQuery | QtSipPhone/PJSIP/pjlib-util/src/pjlib-util/resolver.c:1764-1786 | The answer is cached, or after a timeout the timer id cleared; then children and query go to the end of the free list. |
| ResolverObject.Resolver.UpdateResCache | QtSipPhone/PJSIP/pjlib-util/src/pjlib-util/resolver.c:1431-1539 | The cache afterwards, and one update more in the log. |
| ResolverObject.Resolver.RemoveEntry | QtSipPhone/PJSIP/pjlib-util/src/pjlib-util/resolver.c:1440-1450 | The entry for the key leaves the table and loses one reference. |
| ResolverObject.Resolver.CappedTtl | QtSipPhone/PJSIP/pjlib-util/src/pjlib-util/resolver.c:1453-1477 | The lifetime is the configured one for errors, the least TTL of the answers otherwise, and never above the maximum. |
| ResolverObject.Resolver.LeastTtl | QtSipPhone/PJSIP/pjlib-util/src/pjlib-util/resolver.c:1463-1469 | The least TTL of the records. |
| ResolverObject.Resolver.AddCacheEntry | QtSipPhone/PJSIP/pjlib-util/src/pjlib-util/resolver.c:1817-1859 | A response is filed under its first answer, or else its first question; other packets change nothing. |
| ResolverObject.Resolver.CancelQuery | QtSipPhone/PJSIP/pjlib-util/src/pjlib-util/resolver.c:1011-1028 | The callback is taken away; it is called with the cancelled status exactly when asked. |
| ResponseCache.KeyIsCaseFoldedName | QtSipPhone/PJSIP/pjlib-util/src/pjlib-util/resolver.c:783-800 | Two names of at most the maximal length have the same key if and only if types agree and names are equal up to case. |
| ResponseCache.RetainKeepsCount | QtSipPhone/PJSIP/pjlib-util/src/pjlib-util/resolver.c:904-909 | Taking a reference for a callback keeps every count equal to table slot plus users. |
| ResponseCache.ReleaseKeepsCount | QtSipPhone/PJSIP/pjlib-util/src/pjlib-util/resolver.c:918-926 | Dropping it keeps the counts; the entry survives exactly when the table or another callback still holds it. |
| ResponseCache.RemoveKeepsCount | QtSipPhone/PJSIP/pjlib-util/src/pjlib-util/resolver.c:1440-1450 | Removing a key keeps the counts and every packet a callback is reading. |
| ResponseCache.InsertKeepsCount | QtSipPhone/PJSIP/pjlib-util/src/pjlib-util/resolver.c:1494-1538 | A fresh entry in an empty slot keeps the counts and those packets. |
| ResponseCache.ResetKeepsCount | QtSipPhone/PJSIP/pjlib-util/src/pjlib-util/resolver.c:1496-1538 | Reusing the memory of an entry keeps them when no callback holds it. |
| ResponseCache.UpdateKeepsCount | QtSipPhone/PJSIP/pjlib-util/src/pjlib-util/resolver.c:1431-1539 | A whole cache update keeps the counts and every packet being read. |
| CacheLog.FindAnswersFromLog | QtSipPhone/PJSIP/pjlib-util/src/pjlib-util/resolver.c:884-951 | A lookup hits exactly when the last logged update for the key had a non-zero capped lifetime that has not run out, and gives that update's stored packet. |
| CacheLog.FindKeepsRefinement | QtSipPhone/PJSIP/pjlib-util/src/pjlib-util/resolver.c:940-951 | Dropping an expired entry on lookup leaves the cache a refinement of the log. |
| CacheLog.ReleaseKeepsRefinement | QtSipPhone/PJSIP/pjlib-util/src/pjlib-util/resolver.c:918-926 | The end of a callback does not change what any lookup answers. |
| CacheLog.UpdateKeepsRefinement | QtSipPhone/PJSIP/pjlib-util/src/pjlib-util/resolver.c:1431-1539 | After a cache update the cache refines the log with that update added. |
| CacheLog.TimeKeepsRefinement | QtSipPhone/PJSIP/pjlib-util/src/pjlib-util/resolver.c:884-951 | The passing of time keeps the refinement. |
| Nameservers.SetNameserverState | QtSipPhone/PJSIP/pjlib-util/src/pjlib-util/resolver.c:1271-1307 | Exactly the given nameserver changes, to the state with the expiry of that state. |
| Nameservers.FindQuickest | QtSipPhone/PJSIP/pjlib-util/src/pjlib-util/resolver.c:1329-1340 | The first of the quickest active nameservers, or -1 when none is active. |
| Nameservers.SelectNameservers | QtSipPhone/PJSIP/pjlib-util/src/pjlib-util/resolver.c:1310-1367 | Fails exactly without nameservers, otherwise leaves the states and selects the indices that SelectionIsRight characterises. |
| Nameservers.ScanOne | QtSipPhone/PJSIP/pjlib-util/src/pjlib-util/resolver.c:1347-1364 | One turn of the scan: an expired probing nameserver becomes bad, another expired one probing; it is probed exactly when it is probing then. |
| Nameservers.ScanIsComplete | QtSipPhone/PJSIP/pjlib-util/src/pjlib-util/resolver.c:1346-1364 | Stopping early at the maximal count loses nothing: the states and the selection are those of a scan over all nameservers. |
| Nameservers.SelectionIsRight | QtSipPhone/PJSIP/pjlib-util/src/pjlib-util/resolver.c:1271-1367 | The selected indices are distinct; the quickest one active on entry, if any, comes first; the set is exactly that one and every nameserver in the probing state after the expiry changes; all others changed only by expiry. |
| Nameservers.SelectedInRange | QtSipPhone/PJSIP/pjlib-util/src/pjlib-util/resolver.c:1310-1367 | Every selected index is a nameserver. |
| ResolverAnswers.AnsweredAreTold | QtSipPhone/PJSIP/pjlib-util/src/pjlib-util/resolver.c:1722-1767 | From the answer to a pending query on, in every later state, each of its callers that does not cancel is told success or the response code as a status (320050 and the code), with the response, exactly once, or still waits. |
| ResolverAnswers.ToldForACause | QtSipPhone/PJSIP/pjlib-util/src/pjlib-util/resolver.c:847-1773 | Over whole runs: an outcome is told only for its cause, an answer to the query asked on, a time-out that gives it up, a notified cancel or a live cache entry, and every cause not followed by a cancel leads to that outcome or a callback still owed. |
| ResolverAnswers.TimedOutByTimeout | QtSipPhone/PJSIP/pjlib-util/src/pjlib-util/resolver.c:1556-1607 | PJ_ETIMEDOUT comes only from an on_timeout that gives up the query of that caller. |
| ResolverAnswers.GivesUpIff | QtSipPhone/PJSIP/pjlib-util/src/pjlib-util/resolver.c:1556-1587 | A time-out gives a pending query up if and only if it has been sent qretr_count times or cannot be sent now. |
| ResolverAnswers.StepPromises | QtSipPhone/PJSIP/pjlib-util/src/pjlib-util/resolver.c:847-1809 | Step by step: the outcomes promised after a step are those before it, but for a cancelled caller, and those that the step gives cause for. |
| ResolverLifetimes.LeastOfAll | QtSipPhone/PJSIP/pjlib-util/src/pjlib-util/resolver.c:1463-1469 | The time to live used is at least t exactly if every answer's is (and t fits 32 bits): it is their minimum. |
| ResolverLifetimes.LifetimesDecide | QtSipPhone/PJSIP/pjlib-util/src/pjlib-util/resolver.c:1452-1525 | Over all runs a lookup hits if and only if the last update of its key is live: less than the time to live of every answer and cache_max_ttl have passed since, or 60 seconds for an error or a response without answers. |
| ResolverLifetimes.StepLogs | QtSipPhone/PJSIP/pjlib-util/src/pjlib-util/resolver.c:1771-1854 | The cache is updated by the recycling of an answered query, under its key and with the status told, and by pj_dns_resolver_add_entry with a response, under its first answer or else its first question; by nothing else. |
| ResolverLifetimes.AnswerIsFiled | QtSipPhone/PJSIP/pjlib-util/src/pjlib-util/resolver.c:1722-1791 | An answered query that is recycled has told all its callers that did not cancel and files its answer under its key with that status. |
| ResolverLifetimes.IdsTakeTurns | QtSipPhone/PJSIP/pjlib-util/src/pjlib-util/resolver.c:979-981 | Each new query has the id after that of the last one; 65535 is followed by 1. |
| ServerTimes.ReportsOne | QtSipPhone/PJSIP/pjlib-util/src/pjlib-util/resolver.c:1384-1426 | Only the first nameserver of the sender's address changes: bad for an unreadable response, REFUSED or NOTAUTH, else active, until the time of its kind has passed; the delay is measured if the id is the one it waits for. |
| ServerTimes.DelayMeasured | QtSipPhone/PJSIP/pjlib-util/src/pjlib-util/resolver.c:1380-1422 | The measured delay is the time from the first query not yet answered to its answer. |
| ServerTimes.AskedAfterAnswer | QtSipPhone/PJSIP/pjlib-util/src/pjlib-util/resolver.c:1310-1427 | After a refusal a nameserver is asked again exactly from bad_ns_ttl on; after an answer, within good_ns_ttl exactly when it is the quickest, and always afterwards; and the first one asked is active and no slower. |
| ServerTimes.ProbedUntilBad | QtSipPhone/PJSIP/pjlib-util/src/pjlib-util/resolver.c:1271-1361 | A nameserver rechecked without an answer is asked for (qretr_count + 2) * qretr_delay, is then bad, and asked again exactly after bad_ns_ttl. |
| ServerTimes.ServerSteps | QtSipPhone/PJSIP/pjlib-util/src/pjlib-util/resolver.c:847-1732 | In every step of the resolver a nameserver changes health only by its own answer, or by a selection once its time is up. |
| PacketDup.PacketDup | QtSipPhone/PJSIP/pjlib-util/src/pjlib-util/dns.c:622-699 | The loops of the copy produce Dup of the packet, with names shared through the table. |
| PacketDup.DupKeepsQueriesAndAnswers | QtSipPhone/PJSIP/pjlib-util/src/pjlib-util/dns.c:547-699 | The copy has the same id, flags, queries and answers with names equal up to case, and no NS or additional records. |
| PacketDup.SharedKeepsTable | QtSipPhone/PJSIP/pjlib-util/src/pjlib-util/dns.c:547-576 | Looking a name up adds no second copy that differs only by case, never overflows the table, and gives a name equal up to case. |
| PacketDup.ApplyNameTable | QtSipPhone/PJSIP/pjlib-util/src/pjlib-util/dns.c:547-576 | The name stored and the table afterwards: the first entry equal up to case, else the name itself, entered while there is room. |
| DnsName.GetNameLen | QtSipPhone/PJSIP/pjlib-util/src/pjlib-util/dns.c:118-185 | Status, space and length by the recursive decoding of any memory image; terminates by (levels left, max - p), also on cyclic pointers. |
| DnsName.GetName | QtSipPhone/PJSIP/pjlib-util/src/pjlib-util/dns.c:188-245 | Appends exactly the decoded text, with the same termination. |
| DnsName.LengthPassFitsCopyPass | QtSipPhone/PJSIP/pjlib-util/src/pjlib-util/dns.c:118-245 | For every image and offset both passes end with the same status, and on success the copy is exactly as long as the length pass said. |
| DnsName.ParsedLenIsSpaceInPlace | QtSipPhone/PJSIP/pjlib-util/src/pjlib-util/dns.c:118-185 | parsed_len is the number of bytes the name takes where it stands, up to and with its zero or pointer. |
| DnsName.SpaceIsUnique | QtSipPhone/PJSIP/pjlib-util/src/pjlib-util/dns.c:118-185 | That space is determined by the bytes. |
| DnsName.WireDecodes | QtSipPhone/PJSIP/pjlib-util/src/pjlib-util/dns.c:118-245 | A name written in full (non-empty labels shorter than 64) is read back whole, at any recursion level. |
| DnsName.WireLength | QtSipPhone/PJSIP/pjlib-util/src/pjlib-util/dns.c:85-98 | The labels of a well-formed name take one byte more than its text. |
| DnsName.LabelEndIsFirstDot | QtSipPhone/PJSIP/pjlib-util/src/pjlib-util/dns.c:88-97 | A label ends at the first dot. |
| DnsParse.ReadName | QtSipPhone/PJSIP/pjlib-util/src/pjlib-util/dns.c:256-270 | Length pass, then copy pass, as one result with the space taken. |
| DnsParse.ReadQuestion | QtSipPhone/PJSIP/pjlib-util/src/pjlib-util/dns.c:248-285 | A question or the error of its name; the type and class after the name are read without a look at the end of the message. |
| DnsParse.ReadRecord | QtSipPhone/PJSIP/pjlib-util/src/pjlib-util/dns.c:289-427 | A record with its data by type, or the error branch that the code takes. |
| DnsParse.ReadRdata | QtSipPhone/PJSIP/pjlib-util/src/pjlib-util/dns.c:354-421 | The data of a record by its type, with the error of its name. |
| DnsParse.ReadQuestions | QtSipPhone/PJSIP/pjlib-util/src/pjlib-util/dns.c:464-480 | The loop reads exactly the questions that parsing them one by one gives, or its first error. |
| DnsParse.ReadRecords | QtSipPhone/PJSIP/pjlib-util/src/pjlib-util/dns.c:482-534 | The same for a section of records. |
| DnsParse.ReadPacket | QtSipPhone/PJSIP/pjlib-util/src/pjlib-util/dns.c:431-540 | The packet parser as a whole: header, questions and the three sections. |
| DnsQuery.LabelsLength | QtSipPhone/PJSIP/pjlib-util/src/pjlib-util/dns.c:56-112 | The labels take one byte more than the name unless it is empty or ends in a dot. |
| DnsQuery.RequiredSizeIsShort | QtSipPhone/PJSIP/pjlib-util/src/pjlib-util/dns.c:56-112 | The size the function asks for is one byte too small for an empty name or a trailing dot and two bytes too small otherwise. |
| DnsQuery.MakeQuery | QtSipPhone/PJSIP/pjlib-util/src/pjlib-util/dns.c:56-112 | Status by type and size; on success exactly the query message is written and its size returned, on failure nothing changes. |
| DnsQuery.VisibleIsAll | QtSipPhone/PJSIP/pjlib-util/src/pjlib-util/dns.c:56-112 | A reader sees the whole name exactly when no label is empty. |
| DnsQuery.WireReadsAs | QtSipPhone/PJSIP/pjlib-util/src/pjlib-util/dns.c:56-245 | What was written for any name with labels shorter than 192 reads as the labels before the first empty one. |
| DnsQuery.QueryParsesBack | QtSipPhone/PJSIP/pjlib-util/src/pjlib-util/dns.c:56-540 | For every id, type and name with labels shorter than 192, the query parses back to itself if and only if no label is empty; in every case it parses, to the visible name and the same id. |
| DnsMessage.SpellingReads | QtSipPhone/PJSIP/pjlib-util/src/pjlib-util/dns.c:118-245 | A name written in full or cut short by any number of pointers is read as it is spelled if and only if there are at most 10 pointers in the chain; both passes agree. |
| DnsMessage.RecordReads | QtSipPhone/PJSIP/pjlib-util/src/pjlib-util/dns.c:289-427 | A record of any type is read with the very data written, unless a chain of pointers is too long or one of the six known types is not of class IN. |
| DnsMessage.MessageReads | QtSipPhone/PJSIP/pjlib-util/src/pjlib-util/dns.c:431-540 | Every message laid out by RFC 1035, with records of known and unknown types mixed and names cut short anywhere, is read as what it says, to its end, if and only if all its records are readable; otherwise it is an error. |
| DnsMessage.CutMessageRefused | QtSipPhone/PJSIP/pjlib-util/src/pjlib-util/dns.c:431-540 | A readable message with records that is cut short before its end, at any byte, is an error. |
| DnsTable.TextAt | QtSipPhone/PJSIP/pjlib-util/src/pjlib-util/dns_server.c:219-268 | The text of a table entry is the name with every dot replaced by the length of the label after it. |
| DnsTable.OneLengthSafe | QtSipPhone/PJSIP/pjlib-util/src/pjlib-util/dns_server.c:219-235 | A host name of one label, or with some label after the first of 1 to 44, 47 or 58 to 64 bytes (a length that is no dot, letter, digit, "-" or "_"), matches no other host name's entry. |
| DnsTable.SafeNamesClear | QtSipPhone/PJSIP/pjlib-util/src/pjlib-util/dns_server.c:219-235 | Among safe host names no name matches the entry of another, in any order. |
| DnsTable.UnsafeMatches | QtSipPhone/PJSIP/pjlib-util/src/pjlib-util/dns_server.c:219-235 | An entry of a host name that is not safe is matched by another host name, its text. |
| DnsTable.UnsafeNames | QtSipPhone/PJSIP/pjlib-util/src/pjlib-util/dns_server.c:219-235 | Two-label host names that are not safe: those whose last length is itself a letter, digit, '-' or '_'. |
| DnsRoundTrip.TableStillHolds | QtSipPhone/PJSIP/pjlib-util/src/pjlib-util/dns_server.c:225-268 | Later writes do not disturb the names that table entries point at. |
| DnsRoundTrip.PointerDecodes | QtSipPhone/PJSIP/pjlib-util/src/pjlib-util/dns_server.c:225-227 | A pointer to a name written in full reads as that name in two bytes. |
| DnsRoundTrip.NameRoundTrip | QtSipPhone/PJSIP/pjlib-util/src/pjlib-util/dns_server.c:210-269 | A printed name is read back as the name of the entry it matches, or as itself if it matches none, and every table entry still points at its name in full. |
| DnsRoundTrip.QuestionRoundTrip | QtSipPhone/PJSIP/pjlib-util/src/pjlib-util/dns_server.c:392-413 | A printed question is read back, its name as NameRoundTrip says. |
| DnsRoundTrip.RdataRoundTrip | QtSipPhone/PJSIP/pjlib-util/src/pjlib-util/dns_server.c:296-363 | Printed data of A, AAAA, CNAME, NS, PTR and SRV records is read back, and RDLENGTH is its printed length. |
| DnsRoundTrip.RecordRoundTrip | QtSipPhone/PJSIP/pjlib-util/src/pjlib-util/dns_server.c:271-366 | A printed record is read back with the data length as printed. |
| DnsRoundTrip.QuestionsRoundTrip | QtSipPhone/PJSIP/pjlib-util/src/pjlib-util/dns_server.c:392-413 | All questions of a message are read back. |
| DnsRoundTrip.RecordsRoundTrip | QtSipPhone/PJSIP/pjlib-util/src/pjlib-util/dns_server.c:415-443 | All records of the sections are read back. |
| DnsRoundTrip.PrintedPacketReads | QtSipPhone/PJSIP/pjlib-util/src/pjlib-util/dns_server.c:368-446 | What a reader gets from a printed message, up to 0x4000 bytes, is for every packet of class IN the same packet with each name that matches an earlier entry replaced by that entry's name (apart from rdlength), whatever bytes follow in memory. |
| DnsRoundTrip.PrintedPacketParses | QtSipPhone/PJSIP/pjlib-util/src/pjlib-util/dns_server.c:368-446 | The packet comes back unchanged if and only if no name printed in it matches the table entry of another name. |
| DnsRoundTrip.SafePacketParses | QtSipPhone/PJSIP/pjlib-util/src/pjlib-util/dns_server.c:368-446 | A packet of safe host names always comes back. |
| DnsRoundTrip.TextComesBackAsName | QtSipPhone/PJSIP/pjlib-util/src/pjlib-util/dns_server.c:219-235 | For every name whose text is another name, the message that asks for the two is read as asking twice for the first, in every size in which it is printed. |
| DnsSize.QuestionsInSize | QtSipPhone/PJSIP/pjlib-util/src/pjlib-util/dns_server.c:392-413 | The questions are printed exactly when the size reaches four bytes past the last name, with the types and classes of the others not counted. |
| DnsSize.RecordsInSize | QtSipPhone/PJSIP/pjlib-util/src/pjlib-util/dns_server.c:415-443 | Records are printed exactly when the size reaches their length, or one byte more when the last one ends in a target name of one byte. |
| DnsSize.WritesPastSize | QtSipPhone/PJSIP/pjlib-util/src/pjlib-util/dns_server.c:368-446 | Every message that is printed at all is printed, and always alike, exactly in the sizes from its length on less four bytes for every question (one byte more when it ends in a one-byte target name; with no record the last question counts in full): with a question and a record, or with two questions, the printer writes past the size it is told. |
| DnsPrinter.FindMark | QtSipPhone/PJSIP/pjlib-util/src/pjlib-util/dns_server.c:219-223 | The first table entry whose stored bytes equal the name. |
| DnsPrinter.PrintLabels | QtSipPhone/PJSIP/pjlib-util/src/pjlib-util/dns_server.c:237-268 | Fails exactly when the labels and the final zero do not fit, otherwise writes exactly the wire form. |
| DnsPrinter.PrintNameTo | QtSipPhone/PJSIP/pjlib-util/src/pjlib-util/dns_server.c:210-269 | Writes a pointer for a name in the table, else the name in full, entering it while there is room; fails exactly where the specification does and touches nothing before its position. |
| DnsPrinter.NameEntered | QtSipPhone/PJSIP/pjlib-util/src/pjlib-util/dns_server.c:229-268 | A name just written becomes an entry whose bytes are its wire form, and the older entries keep theirs. |
| DnsPrinter.PrintRdataTo | QtSipPhone/PJSIP/pjlib-util/src/pjlib-util/dns_server.c:296-363 | Writes RDLENGTH and data, patching the length after the name is known. |
| DnsPrinter.PrintServiceTo | QtSipPhone/PJSIP/pjlib-util/src/pjlib-util/dns_server.c:340-358 | The data of an SRV record. |
| DnsPrinter.PrintRecordTo | QtSipPhone/PJSIP/pjlib-util/src/pjlib-util/dns_server.c:271-366 | Writes one record. |
| DnsPrinter.PrintQuestionTo | QtSipPhone/PJSIP/pjlib-util/src/pjlib-util/dns_server.c:395-412 | Writes one question; its type and class are not counted against the size. |
| DnsPrinter.PrintRecordsTo | QtSipPhone/PJSIP/pjlib-util/src/pjlib-util/dns_server.c:415-443 | Writes a section, never past the size. |
| DnsPrinter.PrintQuestionsTo | QtSipPhone/PJSIP/pjlib-util/src/pjlib-util/dns_server.c:392-413 | Writes the questions, at most 4 bytes a question past the size. |
| DnsPrinter.PrintPacketTo | QtSipPhone/PJSIP/pjlib-util/src/pjlib-util/dns_server.c:368-446 | The array holds exactly the specified message, or the result is negative exactly when that does not fit. |
| GetoptObject.SwapBlocks | QtSipPhone/PJSIP/pjlib-util/src/pjlib-util/getopt.c:222-246 | Swapping two blocks of equal length exchanges them and leaves the rest. |
| GetoptObject.Exchange | QtSipPhone/PJSIP/pjlib-util/src/pjlib-util/getopt.c:201-256 | The two adjacent blocks change places in argv, order kept inside each, everything outside untouched. |
| GetoptObject.SwappedAt | QtSipPhone/PJSIP/pjlib-util/src/pjlib-util/getopt.c:222-246 | Which element stands at each index after a block swap. |
| GetoptObject.LowBlockShort | QtSipPhone/PJSIP/pjlib-util/src/pjlib-util/getopt.c:216-232 | Swapping the short low block with the end of the high one leaves a smaller rotation to do. |
| GetoptObject.HighBlockShort | QtSipPhone/PJSIP/pjlib-util/src/pjlib-util/getopt.c:233-249 | The same for a short high block. |
| GetoptObject.NothingToRotate | QtSipPhone/PJSIP/pjlib-util/src/pjlib-util/getopt.c:201-256 | With an empty block there is nothing to do. |
| GetoptObject.LookUp | QtSipPhone/PJSIP/pjlib-util/src/pjlib-util/getopt.c:478-504 | The loop finds the exact name, the unique abbreviation, or that there is none or more than one. |
| GetoptObject.MyIndex | QtSipPhone/PJSIP/pjlib-util/src/pjlib-util/getopt.c:168-178 | The first index of the character, or the end. |
| GetoptObject.StepTotal | QtSipPhone/PJSIP/pjlib-util/src/pjlib-util/getopt.c:353-729 | One call reports the first of the events still to come and leaves exactly the rest to come, wherever the blocks stand. |
| GetoptObject.CallUntilEnd | QtSipPhone/PJSIP/pjlib-util/src/pjlib-util/getopt.c:353-729 | Repeated calls end with -1; the events and the final layout are those of the one-pass scan of the original arguments. |
| GetoptObject.Run | QtSipPhone/PJSIP/pjlib-util/src/pjlib-util/getopt.c:353-729 | After the calls argv is a permutation: argv[0], then the options with their arguments in original order, then from pj_optind on the non-options in original order. |
| GetoptObject.Getopt.Initialize | QtSipPhone/PJSIP/pjlib-util/src/pjlib-util/getopt.c:260-292 | The scan starts at index 1 when pj_optind was 0, with empty blocks. |
| GetoptObject.Getopt.TakeTerminator | QtSipPhone/PJSIP/pjlib-util/src/pjlib-util/getopt.c:408-419 | "--" moves before the skipped non-options, and all that follows it joins them. |
| GetoptObject.Getopt.SkipNonOptions | QtSipPhone/PJSIP/pjlib-util/src/pjlib-util/getopt.c:385-401 | The non-options skipped so far stay one block, directly before pj_optind; what is still to come does not change. |
| GetoptObject.Getopt.Advance | QtSipPhone/PJSIP/pjlib-util/src/pjlib-util/getopt.c:374-449 | Either the scan is over and argv is laid out, or pj_optind is at an option and what is still to come is unchanged. |
| GetoptObject.Getopt.DecodeLong | QtSipPhone/PJSIP/pjlib-util/src/pjlib-util/getopt.c:466-566 | Exact and abbreviated names, ambiguity, arguments after '=' or in the next element, missing and superfluous arguments. |
| GetoptObject.Getopt.DecodeShort | QtSipPhone/PJSIP/pjlib-util/src/pjlib-util/getopt.c:570-729 | A character of a cluster: unknown, without, with optional and with required argument. |
| GetoptObject.Getopt.Next | QtSipPhone/PJSIP/pjlib-util/src/pjlib-util/getopt.c:353-729 | One call in permuting order returns the next event and the state from which the rest follows, or -1 with argv laid out. |
| GetoptScan.LongMatch | QtSipPhone/PJSIP/pjlib-util/src/pjlib-util/getopt.c:478-504 | An exact name wins; otherwise a name is ambiguous exactly when it abbreviates two options, and a miss exactly when it abbreviates none. |
| GetoptScan.FirstExact | QtSipPhone/PJSIP/pjlib-util/src/pjlib-util/getopt.c:478-504 | The first option with exactly that name. |
| GetoptScan.FirstPrefixed | QtSipPhone/PJSIP/pjlib-util/src/pjlib-util/getopt.c:478-504 | The first option that the name abbreviates. |
| GetoptScan.IndexOf | QtSipPhone/PJSIP/pjlib-util/src/pjlib-util/getopt.c:168-178 | The first index of a character. |
| GetoptScan.ShortStep | QtSipPhone/PJSIP/pjlib-util/src/pjlib-util/getopt.c:570-729 | A cluster goes on exactly while characters are left, and never takes more elements than there are. |
| GetoptScan.ScanMerges | QtSipPhone/PJSIP/pjlib-util/src/pjlib-util/getopt.c:353-729 | The original arguments are the options and the non-options merged, each in its order: nothing is lost, added or reordered. |
| GetoptScan.MergesIsPermutation | QtSipPhone/PJSIP/pjlib-util/src/pjlib-util/getopt.c:201-256 | A merge is a permutation. |
| GetoptScan.LeftOverAreNonOptions | QtSipPhone/PJSIP/pjlib-util/src/pjlib-util/getopt.c:385-431 | Without "--" all elements left over are non-options. |
| GetoptWritten.LookedUp | QtSipPhone/PJSIP/pjlib-util/src/pjlib-util/getopt.c:478-513 | What is typed for a long option is the first option of that name or the only one abbreviated; else nothing or several. |
| GetoptWritten.WrittenScans | QtSipPhone/PJSIP/pjlib-util/src/pjlib-util/getopt.c:354-735 | A command line built from options of their declared kinds (by the colons in the option string, by has_arg), with arguments attached or in the next element, mistakes and other words, is read as just these options with these arguments and these mistakes with their codes. |
| GetoptWritten.EveryLine | QtSipPhone/PJSIP/pjlib-util/src/pjlib-util/getopt.c:354-735 | Every list of arguments is such a command line. |
| GetoptWritten.RunWritten | QtSipPhone/PJSIP/pjlib-util/src/pjlib-util/getopt.c:354-735 | Calling until -1 reports exactly that and leaves argv with the options and their arguments first, then exactly the other words, in order. |
| SrvTargets.CollectTargets | QtSipPhone/PJSIP/pjlib-util/src/pjlib-util/srv_resolver.c:223-262 | The first usable SRV answers, at most 8, in answer order. |
| SrvTargets.SortByPriority | QtSipPhone/PJSIP/pjlib-util/src/pjlib-util/srv_resolver.c:263-270 | A permutation in non-decreasing priority; the rest of the array is untouched. |
| SrvTargets.LeastPriority | QtSipPhone/PJSIP/pjlib-util/src/pjlib-util/srv_resolver.c:264-268 | The index of a least priority from i on. |
| SrvTargets.SwapKeeps | QtSipPhone/PJSIP/pjlib-util/src/pjlib-util/srv_resolver.c:269 | A swap permutes. |
| SrvTargets.DrawnIs | QtSipPhone/PJSIP/pjlib-util/src/pjlib-util/srv_resolver.c:299-308 | A draw r selects server j exactly when r is above the sum before j (or j is the first) and at most the sum with j. |
| SrvTargets.DrawsByWeight | QtSipPhone/PJSIP/pjlib-util/src/pjlib-util/srv_resolver.c:294-308 | Of the values 0..sum exactly weight(j) select server j, and one more the first: some server is always selected. |
| SrvTargets.ChosenKeeps | QtSipPhone/PJSIP/pjlib-util/src/pjlib-util/srv_resolver.c:291-323 | Moving the drawn server to its place permutes and keeps the priority at every place. |
| SrvTargets.ArrangedKeeps | QtSipPhone/PJSIP/pjlib-util/src/pjlib-util/srv_resolver.c:278-324 | The weighted order is a permutation with the same priority at every place. |
| SrvTargets.RunningSums | QtSipPhone/PJSIP/pjlib-util/src/pjlib-util/srv_resolver.c:281-289 | Exactly the servers that share the priority of the first get their running sums; nothing else changes. |
| SrvTargets.DrawServer | QtSipPhone/PJSIP/pjlib-util/src/pjlib-util/srv_resolver.c:299-308 | The loop finds the server the draw selects. |
| SrvTargets.DrawPlace | QtSipPhone/PJSIP/pjlib-util/src/pjlib-util/srv_resolver.c:279-323 | One place is given to the drawn server by a swap inside its priority. |
| SrvTargets.ArrangeByWeight | QtSipPhone/PJSIP/pjlib-util/src/pjlib-util/srv_resolver.c:278-324 | All places in turn, with one random number each. |
| SrvAddresses.AddAddress | QtSipPhone/PJSIP/pjlib-util/src/pjlib-util/srv_resolver.c:337-391 | The address goes to the first server of that name with room; the resolved count counts every server once. |
| SrvAddresses.FillAddresses | QtSipPhone/PJSIP/pjlib-util/src/pjlib-util/srv_resolver.c:337-391 | All additional A and AAAA records that the options want. |
| SrvAddresses.FillLiterals | QtSipPhone/PJSIP/pjlib-util/src/pjlib-util/srv_resolver.c:393-427 | Servers without address whose name is an address get it. |
| SrvAddresses.FilledFromAdditional | QtSipPhone/PJSIP/pjlib-util/src/pjlib-util/srv_resolver.c:337-391 | Every address added to a server comes from an additional record of a wanted type with the server's name up to case; nothing else about the server changes, and at most 8 are kept. |
| SrvAddresses.BuildServerEntries | QtSipPhone/PJSIP/pjlib-util/src/pjlib-util/srv_resolver.c:218-466 | The server table of a response, through some order that is a permutation of the usable answers sorted by priority, and the number of servers with an address. |
| SrvAddresses.ServersAreRight | QtSipPhone/PJSIP/pjlib-util/src/pjlib-util/srv_resolver.c:218-466 | That table is sorted by priority, apart from addresses it is a permutation of the first usable answers, and every address comes from an additional record or is the name itself. |
| SrvRun.StepKeepsInv | QtSipPhone/PJSIP/pjlib-util/src/pjlib-util/srv_resolver.c:472-860 | Every step (SRV answer with sound lookups, A or AAAA answer in any order, cancel) keeps: host_resolved counts exactly the finished targets, and the callback has run exactly if all are finished. |
| SrvTheorems.RunKeepsInv | QtSipPhone/PJSIP/pjlib-util/src/pjlib-util/srv_resolver.c:472-860 | Every state of every run in which the lookups start soundly satisfies it. |
| SrvRun.HostCountedExactly | QtSipPhone/PJSIP/pjlib-util/src/pjlib-util/srv_resolver.c:479-543 | For every option setting and every way the two lookups of a host start: its turn keeps the count and the one callback if and only if it does not fail, or it fails without leaving the A lookup pending and is not the one that completes the count. |
| SrvRun.StartHostCounted | QtSipPhone/PJSIP/pjlib-util/src/pjlib-util/srv_resolver.c:472-546 | A turn that does not fail, also when its lookups answer at once inside it, keeps the count and the one callback. |
| SrvRun.StartHostsErrors | QtSipPhone/PJSIP/pjlib-util/src/pjlib-util/srv_resolver.c:538-545 | resolve_hostnames counts one error for each turn that fails, and all targets exactly when every turn fails. |
| SrvRun.StartHostsExactly | QtSipPhone/PJSIP/pjlib-util/src/pjlib-util/srv_resolver.c:472-546 | When no host is going to be counted twice, resolve_hostnames keeps the count if and only if the callback is not lost; if it is lost, the counter is full and the callback has not run. |
| SrvRun.StartHostsCounted | QtSipPhone/PJSIP/pjlib-util/src/pjlib-util/srv_resolver.c:472-546 | resolve_hostnames and the error path after it: right when all turns fail, and otherwise if and only if the lookups start soundly. |
| SrvRun.AnswerCounted | QtSipPhone/PJSIP/pjlib-util/src/pjlib-util/srv_resolver.c:661-835 | An answer to a pending lookup keeps the count. |
| SrvRun.SrvCounted | QtSipPhone/PJSIP/pjlib-util/src/pjlib-util/srv_resolver.c:552-659 | After the answer to the SRV query the count and the callback are right if and only if the lookups that it starts are sound: all turns fail, or no turn fails with its A lookup pending and it is not so that all is over at once and the last turn fails. |
| SrvTheorems.CalledBackOnce | QtSipPhone/PJSIP/pjlib-util/src/pjlib-util/srv_resolver.c:552-860 | In every run in which the lookups start soundly, also when some fail to start, the callback runs at most once, and, unless cancelled, exactly once as soon as no answer is outstanding and not before. |
| SrvTheorems.ResolvedCountsTargets | QtSipPhone/PJSIP/pjlib-util/src/pjlib-util/srv_resolver.c:669-775 | host_resolved is at every moment the number of targets whose lookups are over: it rises once per target. |
| SrvTheorems.ReportsAllServers | QtSipPhone/PJSIP/pjlib-util/src/pjlib-util/srv_resolver.c:783-835 | Unless the callback is told an error, it is told all targets with an address, in order. |
| SrvTheorems.ServersAre | QtSipPhone/PJSIP/pjlib-util/src/pjlib-util/srv_resolver.c:788-818 | Every target with an address is among the reported servers. |
| SrvTheorems.ServersSorted | QtSipPhone/PJSIP/pjlib-util/src/pjlib-util/srv_resolver.c:788-818 | Servers with an address come in the priority order of the targets. |
| SrvTheorems.ReportedInOrder | QtSipPhone/PJSIP/pjlib-util/src/pjlib-util/srv_resolver.c:552-860 | The one callback of a run reports servers in non-decreasing priority, if the targets were built so; it reports an error instead exactly when all lookups failed to start. |
| SrvTheorems.ErrorWithoutFallback | QtSipPhone/PJSIP/pjlib-util/src/pjlib-util/srv_resolver.c:589-659 | The answer to the SRV query ends in an error exactly when the query failed and neither fallback is set, or all lookups fail to start; in the first case with the error of the SRV query. |
| SrvTheorems.CancelledForGood | QtSipPhone/PJSIP/pjlib-util/src/pjlib-util/srv_resolver.c:170-205 | A cancelled query is told so once if it asked, and no step is possible afterwards. |
| SrvRefused.UnsoundNeverRight | QtSipPhone/PJSIP/pjlib-util/src/pjlib-util/srv_resolver.c:472-860 | If the lookups do not start soundly, every run left to its answers goes wrong: when nothing is outstanding, the callback has not run, or it ran while an answer was outstanding. |
| SrvRefused.AfterUnsound | QtSipPhone/PJSIP/pjlib-util/src/pjlib-util/srv_resolver.c:472-546 | The state after such a start: some hosts are counted too early while their answers are outstanding, or nothing is outstanding and the callback has not run. |
| SrvRefused.RefusedLookupCountsTwice | QtSipPhone/PJSIP/pjlib-util/src/pjlib-util/srv_resolver.c:504-543 | If the AAAA lookup fails to start after the A lookup is pending, the host is counted twice and the callback runs too early. |
| SrvRefused.RefusedLookupLosesCallback | QtSipPhone/PJSIP/pjlib-util/src/pjlib-util/srv_resolver.c:538-545 | If the last target's lookup fails to start after the others were answered at once, the counter is full, nothing is outstanding, and the callback never runs. |
| SrvReport.ReportedFromResponse | QtSipPhone/PJSIP/pjlib-util/src/pjlib-util/srv_resolver.c:218-860 | From the SRV response to the report: one callback, with servers in order of priority, each with an address and standing for a usable answer, none missing that has an address, and with the known addresses and then those that the answers to its lookups brought; an error exactly when all lookups failed to start. |
| SrvObject.SrvQuery.constructor | QtSipPhone/PJSIP/pjlib-util/src/pjlib-util/srv_resolver.c:99-164 | The state in which the SRV query has been started. |
| SrvObject.SrvQuery.AddAddresses | QtSipPhone/PJSIP/pjlib-util/src/pjlib-util/srv_resolver.c:716-755 | Addresses of the wanted family are appended while there is room. |
| SrvObject.SrvQuery.BuildRecords | QtSipPhone/PJSIP/pjlib-util/src/pjlib-util/srv_resolver.c:788-818 | The record given to the callback: all servers with an address. |
| SrvObject.SrvQuery.CallIfAllResolved | QtSipPhone/PJSIP/pjlib-util/src/pjlib-util/srv_resolver.c:783-835 | The callback runs exactly when host_resolved has reached srv_cnt. |
| SrvObject.SrvQuery.OnAddressAnswer | QtSipPhone/PJSIP/pjlib-util/src/pjlib-util/srv_resolver.c:661-835 | The whole effect of an answer to an address lookup. |
| SrvObject.SrvQuery.BeginLookup | QtSipPhone/PJSIP/pjlib-util/src/pjlib-util/srv_resolver.c:504-531 | A lookup starts, answers at once, or is refused. |
| SrvObject.SrvQuery.ResolveHost | QtSipPhone/PJSIP/pjlib-util/src/pjlib-util/srv_resolver.c:479-543 | The turn of one host, with the dummy handle that keeps an immediate A answer from finishing it. |
| SrvObject.SrvQuery.ResolveHostnames | QtSipPhone/PJSIP/pjlib-util/src/pjlib-util/srv_resolver.c:472-546 | All hosts in order. |
| SrvObject.SrvQuery.ClearHandles | QtSipPhone/PJSIP/pjlib-util/src/pjlib-util/srv_resolver.c:170-205 | Every pending handle is cleared, and whether there was one. |
| SrvObject.SrvQuery.CancelQuery | QtSipPhone/PJSIP/pjlib-util/src/pjlib-util/srv_resolver.c:170-205 | The whole effect of cancelling. |
| SrvObject.SrvQuery.ReportError | QtSipPhone/PJSIP/pjlib-util/src/pjlib-util/srv_resolver.c:840-860 | The callback gets the error. |
| SrvObject.SrvQuery.OnSrvAnswer | QtSipPhone/PJSIP/pjlib-util/src/pjlib-util/srv_resolver.c:576-659 | The whole effect of the SRV answer, with the fallback to the domain. |
| SrvTargets.CollectedIs | QtSipPhone/PJSIP/pjlib-util/src/pjlib-util/srv_resolver.c:223-251 | The usable answers are the targets in their order while there is room for eight, each with its name, port, priority and weight. |
| SrvTargets.PlacedByDraw | QtSipPhone/PJSIP/pjlib-util/src/pjlib-util/srv_resolver.c:275-325 | A place goes to the server in whose interval of weights the draw lies; the server that stood there takes its place. |
| SrvAddresses.FilledHeld | QtSipPhone/PJSIP/pjlib-util/src/pjlib-util/srv_resolver.c:337-392 | The servers of a name hold exactly the wanted addresses that the additional section has for it, in its order, as far as there is room for eight each. |
| SrvAddresses.LiteralsLast | QtSipPhone/PJSIP/pjlib-util/src/pjlib-util/srv_resolver.c:411-435 | Only a server without address gets the address that its name is, of a wanted family, IPv4 first; one that stays without has no such name. |
| SrvAnswers.HostsHold | QtSipPhone/PJSIP/pjlib-util/src/pjlib-util/srv_resolver.c:690-775 | At every point of every run a host holds the addresses known from the response, then those of its lookups' answers of the family asked for, in order of arrival, up to eight; its alias is the first one given; the error remembered is that of the last lookup that failed. |
| SrvAnswers.AddressesComeFrom | QtSipPhone/PJSIP/pjlib-util/src/pjlib-util/srv_resolver.c:716-755 | An address of a host was known, or is an IPv4 address of an answer to its A lookup or an IPv6 one of an answer to its AAAA lookup; and none of these is missing unless it holds eight. |
| SrvAnswers.StatusTold | QtSipPhone/PJSIP/pjlib-util/src/pjlib-util/srv_resolver.c:824-833 | With the servers the callback is told success if there is one, else the last error, else that there was no answer record. |
| SrvAnswers.RefusalTold | QtSipPhone/PJSIP/pjlib-util/src/pjlib-util/srv_resolver.c:487-548 | When no lookup can be started the callback is told the error of the last one tried. |
| Crc32.SerialConcat | QtSipPhone/PJSIP/pjlib-util/src/pjlib-util/crc32.c:199-223 | The bit-serial register after a then b is the register after a+b. |
| Crc32.OctetIsShift8 | QtSipPhone/PJSIP/pjlib-util/src/pjlib-util/crc32.c:206-219 | Eight shifts of the low octet, with the rest moved down, are the eight serial steps of that octet. |
| Crc32.LittleTabIsShift8 | QtSipPhone/PJSIP/pjlib-util/src/pjlib-util/crc32.c:27-78 | Every one of the 256 little-endian table entries is the eight shifts of its index. |
| Crc32.BigTabIsSwapped | QtSipPhone/PJSIP/pjlib-util/src/pjlib-util/crc32.c:91-146 | Every big-endian table entry is the little-endian one with its octets swapped. |
| Crc32.LittleStepIsOctet | QtSipPhone/PJSIP/pjlib-util/src/pjlib-util/crc32.c:166-178 | A table step on a little-endian register is the serial processing of one octet. |
| Crc32.BigStepIsSwapped | QtSipPhone/PJSIP/pjlib-util/src/pjlib-util/crc32.c:166-178 | A big-endian table step is the little-endian one with octets swapped. |
| Crc32.WordIsFourOctets | QtSipPhone/PJSIP/pjlib-util/src/pjlib-util/crc32.c:166-174 | Four table steps on a loaded word are the serial steps of its four octets in order. |
| Crc32Context.WordSwapped | QtSipPhone/PJSIP/pjlib-util/src/pjlib-util/crc32.c:166-174 | The same for the big-endian word loop on the swapped register. |
| Crc32Context.LittleEndian.Update | QtSipPhone/PJSIP/pjlib-util/src/pjlib-util/crc32.c:156-183 | Alignment prologue, word loop and byte tail leave the bit-serial register, for every data and address. |
| Crc32Context.LittleEndian.Final | QtSipPhone/PJSIP/pjlib-util/src/pjlib-util/crc32.c:185-188 | The complement of the register. |
| Crc32Context.BigEndian.Update | QtSipPhone/PJSIP/pjlib-util/src/pjlib-util/crc32.c:156-183 | The same register on a big-endian machine; the value returned is the swapped one. |
| Crc32Context.BigEndian.Final | QtSipPhone/PJSIP/pjlib-util/src/pjlib-util/crc32.c:185-188 | The unswapped value, the same as on a little-endian machine. |
| Crc32Context.Bitwise.Update | QtSipPhone/PJSIP/pjlib-util/src/pjlib-util/crc32.c:199-223 | The loop without tables leaves the same register. |
| Crc32Context.Bitwise.Final | QtSipPhone/PJSIP/pjlib-util/src/pjlib-util/crc32.c:225-229 | The complement of the register. |
| Crc32Context.Calc | QtSipPhone/PJSIP/pjlib-util/src/pjlib-util/crc32.c:234-242 | Either table version returns the frame check sequence of the data, however it is aligned. |
| Crc32Context.CalcBitwise | QtSipPhone/PJSIP/pjlib-util/src/pjlib-util/crc32.c:193-242 | So does the version without tables. |
| Crc32Context.UpdateTwice | QtSipPhone/PJSIP/pjlib-util/src/pjlib-util/crc32.c:156-183 | Updating with a and then b, at any two addresses, is updating with a+b. |
| Crc32Context.UpdateTwiceBig | QtSipPhone/PJSIP/pjlib-util/src/pjlib-util/crc32.c:156-183 | The same on a big-endian machine. |
| Crc32Context.UpdateTwiceBitwise | QtSipPhone/PJSIP/pjlib-util/src/pjlib-util/crc32.c:199-223 | The same without tables. |
| Sha1Block.ChoiceRewritten | QtSipPhone/PJSIP/pjlib-util/src/pjlib-util/sha1.c:126-127 | The rewritten choice function of R0 and R1 is that of RFC 3174. |
| Sha1Block.MajorityRewritten | QtSipPhone/PJSIP/pjlib-util/src/pjlib-util/sha1.c:129 | The rewritten majority function of R3 is that of RFC 3174. |
| Sha1Block.LoadedTurned | QtSipPhone/PJSIP/pjlib-util/src/pjlib-util/sha1.c:115-121 | blk0 turns a little-endian load into the big-endian word. |
| Sha1Block.NextWordIsW | QtSipPhone/PJSIP/pjlib-util/src/pjlib-util/sha1.c:112-123 | The in-place circular schedule of 16 words yields word t of the plain 80-word schedule. |
| Sha1Block.R | QtSipPhone/PJSIP/pjlib-util/src/pjlib-util/sha1.c:125-130 | A round macro is one round of the plain method with the registers renamed. |
| Sha1Block.FiveRounds | QtSipPhone/PJSIP/pjlib-util/src/pjlib-util/sha1.c:158-178 | Five macros bring the names back: five rounds of the plain method. |
| Sha1Block.Transform | QtSipPhone/PJSIP/pjlib-util/src/pjlib-util/sha1.c:110-189 | For every state and block the unrolled transform equals the plain 80-word method (section 6.1 of RFC 3174). |
| Sha1.Context.Init | QtSipPhone/PJSIP/pjlib-util/src/pjlib-util/sha1.c:193-202 | The context stands for the empty message. |
| Sha1.Context.AddCount | QtSipPhone/PJSIP/pjlib-util/src/pjlib-util/sha1.c:211-214 | The bit count of any message and any update shorter than 2^29 octets. |
| Sha1.Context.TransformBlocks | QtSipPhone/PJSIP/pjlib-util/src/pjlib-util/sha1.c:218-222 | The chaining value after the whole blocks of the data. |
| Sha1.Context.Update | QtSipPhone/PJSIP/pjlib-util/src/pjlib-util/sha1.c:206-228 | The context stands for the message with the data appended, however it was split before. |
| Sha1.Context.PadZeros | QtSipPhone/PJSIP/pjlib-util/src/pjlib-util/sha1.c:243-245 | The padding loop ends at 56 octets of a block with the right number of zeros. |
| Sha1.Context.Final | QtSipPhone/PJSIP/pjlib-util/src/pjlib-util/sha1.c:232-262 | The digest is the block function folded over the padded message (section 4 of RFC 3174), and the context is wiped. |
| Sha1.DigestOfPieces | QtSipPhone/PJSIP/pjlib-util/src/pjlib-util/sha1.c:193-262 | Any split of a message gives its digest. |
| Sha1.CountRightIff | QtSipPhone/PJSIP/pjlib-util/src/pjlib-util/sha1.c:211-214 | With a 64-bit size_t and a length of m octets modulo 2^61, the count after an update is right if and only if m is below 2^29, or below 2^32 and the low word carries. |
| HashBlocks.FoldMore | QtSipPhone/PJSIP/pjlib-util/src/pjlib-util/sha1.c:215-222 | Folding blocks over a then b is folding over a+b when a is whole blocks. |
| HashBlocks.CountMore | QtSipPhone/PJSIP/pjlib-util/src/pjlib-util/sha1.c:211-214 | Adding a length with the right carry keeps the two words the bit count modulo 2^64. |
| HashBlocks.CountOctets | QtSipPhone/PJSIP/pjlib-util/src/pjlib-util/sha1.c:238-241 | The octets of the two count words are those of the 64-bit count, in either byte order. |
| Md5Block.FastFIsF | QtSipPhone/PJSIP/pjlib-util/src/pjlib-util/md5.c:167-170 | The rewritten F1 is F of RFC 1321. |
| Md5Block.FastFIsG | QtSipPhone/PJSIP/pjlib-util/src/pjlib-util/md5.c:171 | F1 with its arguments moved round is G of RFC 1321. |
| Md5Block.Md5Step | QtSipPhone/PJSIP/pjlib-util/src/pjlib-util/md5.c:175-177 | The step macro is one operation of section 3.4 of RFC 1321. |
| Md5Block.Quad | QtSipPhone/PJSIP/pjlib-util/src/pjlib-util/md5.c:193-200 | Four macros are the four operations in order. |
| Md5Block.Transform | QtSipPhone/PJSIP/pjlib-util/src/pjlib-util/md5.c:165-265 | The 64 unrolled steps equal the operations of RFC 1321 for every state and block. |
| Md5.Context.Init | QtSipPhone/PJSIP/pjlib-util/src/pjlib-util/md5.c:58-67 | The context stands for the empty message. |
| Md5.Context.AddBits | QtSipPhone/PJSIP/pjlib-util/src/pjlib-util/md5.c:78-83 | The bit count is right for every 32-bit length. |
| Md5.Context.TransformChunks | QtSipPhone/PJSIP/pjlib-util/src/pjlib-util/md5.c:103-111 | The chaining value after the 64-octet chunks. |
| Md5.Context.Absorb | QtSipPhone/PJSIP/pjlib-util/src/pjlib-util/md5.c:103-115 | From a message of whole blocks, the rest of an update. |
| Md5.Context.Update | QtSipPhone/PJSIP/pjlib-util/src/pjlib-util/md5.c:73-115 | The context stands for the message with the data appended. |
| Md5.Context.PadIn | QtSipPhone/PJSIP/pjlib-util/src/pjlib-util/md5.c:127-151 | In-place padding, over one or two blocks, is the padding of RFC 1321. |
| Md5.Context.Final | QtSipPhone/PJSIP/pjlib-util/src/pjlib-util/md5.c:122-163 | The digest is the block function folded over the padded message, and the context is wiped. |
| Md5.DigestOfPieces | QtSipPhone/PJSIP/pjlib-util/src/pjlib-util/md5.c:58-163 | Any split of a message gives its digest. |
| HmacPads.XorPads | QtSipPhone/PJSIP/pjlib-util/src/pjlib-util/hmac_sha1.c:47-57 | Both pads are the zero-extended key XORed with 0x36 and with 0x5c. |
| HmacSha1.Context.Init | QtSipPhone/PJSIP/pjlib-util/src/pjlib-util/hmac_sha1.c:24-62 | Keys longer than 64 octets are hashed first; the text is empty. |
| HmacSha1.Context.Update | QtSipPhone/PJSIP/pjlib-util/src/pjlib-util/hmac_sha1.c:65-68 | The text grows by the input; the key stays. |
| HmacSha1.Context.Final | QtSipPhone/PJSIP/pjlib-util/src/pjlib-util/hmac_sha1.c:71-83 | The digest is the formula of section 2 of RFC 2104. |
| HmacSha1.Calculate | QtSipPhone/PJSIP/pjlib-util/src/pjlib-util/hmac_sha1.c:85-94 | The one-call form gives the same. |
| HmacMd5.Context.Init | QtSipPhone/PJSIP/pjlib-util/src/pjlib-util/hmac_md5.c:24-63 | Keys longer than 64 octets are hashed first; the text is empty. |
| HmacMd5.Context.Update | QtSipPhone/PJSIP/pjlib-util/src/pjlib-util/hmac_md5.c:66-70 | The text grows by the input; the key stays. |
| HmacMd5.Context.Final | QtSipPhone/PJSIP/pjlib-util/src/pjlib-util/hmac_md5.c:73-84 | The digest is the formula of section 2 of RFC 2104. |
| HmacMd5.Calculate | QtSipPhone/PJSIP/pjlib-util/src/pjlib-util/hmac_md5.c:87-96 | The one-call form gives the same. |
| ScannerObject.Scanner.constructor | QtSipPhone/PJSIP/pjlib-util/src/pjlib-util/scanner.c:114-129 | Scanning starts after leading white space, with the line counted. |
| ScannerObject.Scanner.SkipNewlines | QtSipPhone/PJSIP/pjlib-util/src/pjlib-util/scanner.c:146-165 | Stops at the first byte that is no white space and counts every line end once, CR LF as one. |
| ScannerObject.Scanner.SkipWhitespace | QtSipPhone/PJSIP/pjlib-util/src/pjlib-util/scanner.c:138-191 | Only white space is skipped, all of it, and lines are counted. |
| ScannerObject.Scanner.TakeChar | QtSipPhone/PJSIP/pjlib-util/src/pjlib-util/scanner.c:442-457 | One byte and the white space after it; an error at the end. |
| ScannerObject.Scanner.TakeUntil | QtSipPhone/PJSIP/pjlib-util/src/pjlib-util/scanner.c:521-567 | The token up to the first delimiter, and the white space after it. |
| ScannerObject.Scanner.TakeSpec | QtSipPhone/PJSIP/pjlib-util/src/pjlib-util/scanner.c:257-285 | The longest token of bytes in the set. |
| ScannerObject.Scanner.Backslashes | QtSipPhone/PJSIP/pjlib-util/src/pjlib-util/scanner.c:383-395 | The number of backslashes right before a position. |
| ScannerObject.Scanner.TakeQuotes | QtSipPhone/PJSIP/pjlib-util/src/pjlib-util/scanner.c:352-421 | The token to the first quote after an even number of backslashes; an error at a newline or the end. |
| ScannerObject.Scanner.Advance | QtSipPhone/PJSIP/pjlib-util/src/pjlib-util/scanner.c:570-583 | Moves n bytes, or an error past the end. |
| ScannerObject.Scanner.Compare | QtSipPhone/PJSIP/pjlib-util/src/pjlib-util/scanner.c:586-593 | Compares ahead without moving; an error past the end. |
| ScanText.UntilToken | QtSipPhone/PJSIP/pjlib-util/src/pjlib-util/scanner.c:521-567 | A token free of delimiters is taken whole. |
| ScanText.LineEndsIs | QtSipPhone/PJSIP/pjlib-util/src/pjlib-util/scanner.c:138-165 | Lines are counted at carriage returns and at line feeds that do not follow one. |
| JsonRoundTrip.EscapeBack | QtSipPhone/PJSIP/pjlib-util/src/pjlib-util/json.c:129-199 | Unescaping undoes escaping, for all byte strings. |
| JsonRoundTrip.QuoteScanEnds | QtSipPhone/PJSIP/pjlib-util/src/pjlib-util/json.c:407-479 | The quote scan ends at the closing quote of a written string and not inside it. |
| JsonRoundTrip.StringBack | QtSipPhone/PJSIP/pjlib-util/src/pjlib-util/json.c:129-199 | A written string value is read back whatever bytes it holds. |
| JsonRoundTrip.NumberBack | QtSipPhone/PJSIP/pjlib-util/src/pjlib-util/json.c:231-246 | A written whole number is read back. |
| JsonRoundTrip.NameBack | QtSipPhone/PJSIP/pjlib-util/src/pjlib-util/json.c:210-222 | A written plain name is read back as a name. |
| JsonRoundTrip.MemberBack | QtSipPhone/PJSIP/pjlib-util/src/pjlib-util/json.c:201-290 | A written member of an object is read back. |
| JsonRoundTrip.ItemBack | QtSipPhone/PJSIP/pjlib-util/src/pjlib-util/json.c:201-290 | A written item of an array is read back. |
| JsonRoundTrip.ChildrenBack | QtSipPhone/PJSIP/pjlib-util/src/pjlib-util/json.c:101-127 | All children are read back, up to the closing bracket. |
| JsonRoundTrip.ListBack | QtSipPhone/PJSIP/pjlib-util/src/pjlib-util/json.c:481-533 | A written object or array is read back. |
| JsonRoundTrip.ValueBack | QtSipPhone/PJSIP/pjlib-util/src/pjlib-util/json.c:201-290 | Every writable value with named members and unnamed items is read back. |
| JsonRoundTrip.RootBack | QtSipPhone/PJSIP/pjlib-util/src/pjlib-util/json.c:298-342 | Parsing what was written for such a root object, at most 33 levels deep, rebuilds the tree and leaves no byte. |
| JsonRoundTrip.ListStringExactly | QtSipPhone/PJSIP/pjlib-util/src/pjlib-util/json.c:210-228 | Among array items exactly the strings that are non-empty, need no escape and do not start with a space come back as they were. |
| Json.RemoveEscapes | QtSipPhone/PJSIP/pjlib-util/src/pjlib-util/json.c:129-199 | The copying loop undoes the escapes, or fails at an invalid one. |
| Json.ReadString | QtSipPhone/PJSIP/pjlib-util/src/pjlib-util/json.c:129-199 | A quoted string value. |
| Json.ReadNumber | QtSipPhone/PJSIP/pjlib-util/src/pjlib-util/json.c:231-246 | A number with its sign. |
| Json.ReadWord | QtSipPhone/PJSIP/pjlib-util/src/pjlib-util/json.c:260-273 | true, false or null; a comparison past the end is an error. |
| Json.ReadStart | QtSipPhone/PJSIP/pjlib-util/src/pjlib-util/json.c:210-228 | The name of an element, or the quoted string that turns out to be the element. |
| Json.ReadValue | QtSipPhone/PJSIP/pjlib-util/src/pjlib-util/json.c:230-287 | The value by its first byte. |
| Json.ReadElem | QtSipPhone/PJSIP/pjlib-util/src/pjlib-util/json.c:201-290 | One element. |
| Json.ReadChildren | QtSipPhone/PJSIP/pjlib-util/src/pjlib-util/json.c:101-127 | The children up to the closing bracket, commas optional; recursion ends on every text. |
| Json.ReadDocument | QtSipPhone/PJSIP/pjlib-util/src/pjlib-util/json.c:298-342 | The whole parser: the root, and the number of bytes left over. |
| JsonWriter.Writer.Write | QtSipPhone/PJSIP/pjlib-util/src/pjlib-util/json.c:350-363 | The text is appended exactly when one byte more than it is left. |
| JsonWriter.Writer.FillBuffer | QtSipPhone/PJSIP/pjlib-util/src/pjlib-util/json.c:417-474 | The 64-byte chunk is the escape of the part it covers, and every chunk moves on. |
| JsonWriter.Writer.WriteStringEscaped | QtSipPhone/PJSIP/pjlib-util/src/pjlib-util/json.c:407-479 | Chunking never changes the text: it is the escape of the whole string. |
| JsonIndent.IndentationFits | QtSipPhone/PJSIP/pjlib-util/src/pjlib-util/json.c:507-528 | From indentation level k on, the writer stays within its 100-byte indentation buffer if and only if k and the number of levels on lines of their own come to at most 33. |
| JsonWriter.Writer.AddName | QtSipPhone/PJSIP/pjlib-util/src/pjlib-util/json.c:541-557 | The name with indentation and padding. |
| JsonWriter.Writer.AddElem | QtSipPhone/PJSIP/pjlib-util/src/pjlib-util/json.c:535-602 | The element's text, or failure exactly when it does not fit. |
| JsonWriter.Writer.AddValue | QtSipPhone/PJSIP/pjlib-util/src/pjlib-util/json.c:559-599 | The value's text, likewise. |
| JsonWriter.Writer.AddString | QtSipPhone/PJSIP/pjlib-util/src/pjlib-util/json.c:586-590 | A quoted, escaped string, likewise. |
| JsonWriter.Writer.AddChildren | QtSipPhone/PJSIP/pjlib-util/src/pjlib-util/json.c:481-533 | The children between brackets, likewise. |
| JsonWriter.Writer.AddSeparated | QtSipPhone/PJSIP/pjlib-util/src/pjlib-util/json.c:497-523 | The loop over the children with its separators, likewise. |
| JsonWriter.WriteDocument | QtSipPhone/PJSIP/pjlib-util/src/pjlib-util/json.c:365-383 | The whole writer: the text that RootBack reads, or failure exactly when it and one more byte do not fit. |
| JsonWritten.StringReads | QtSipPhone/PJSIP/pjlib-util/src/pjlib-util/json.c:129-199 | A string of raw bytes, short escapes and four-digit escapes in either case is read as its bytes. |
| JsonWritten.NumberReads | QtSipPhone/PJSIP/pjlib-util/src/pjlib-util/json.c:218-236 | Digits, and a point with more digits, are the decimal number. |
| JsonWritten.ValueReads | QtSipPhone/PJSIP/pjlib-util/src/pjlib-util/json.c:201-283 | A value in any layout (white space between all tokens, commas left out or repeated, fractions, every escape, nested to any depth) is read as what it means, and what follows is left. |
| JsonWritten.DocumentReads | QtSipPhone/PJSIP/pjlib-util/src/pjlib-util/json.c:298-345 | A whole document with white space around it is read as what it means with nothing left. |
| XmlRoundTrip.AttrsBack | QtSipPhone/PJSIP/pjlib-util/src/pjlib-util/xml.c:105-119 | Printed attributes are read back. |
| XmlRoundTrip.EndTagBack | QtSipPhone/PJSIP/pjlib-util/src/pjlib-util/xml.c:159-171 | A printed end tag closes its node and is taken neither for a sub node nor for content. |
| XmlRoundTrip.ContentBack | QtSipPhone/PJSIP/pjlib-util/src/pjlib-util/xml.c:140-143 | Printed content is read back. |
| XmlRoundTrip.NodeBack | QtSipPhone/PJSIP/pjlib-util/src/pjlib-util/xml.c:54-174 | A printed node is read back, at any depth. |
| XmlRoundTrip.BodyBack | QtSipPhone/PJSIP/pjlib-util/src/pjlib-util/xml.c:121-173 | What follows the attributes is read back. |
| XmlRoundTrip.NodesBack | QtSipPhone/PJSIP/pjlib-util/src/pjlib-util/xml.c:132-138 | Printed sub nodes are read back in order. |
| XmlRoundTrip.DocumentBack | QtSipPhone/PJSIP/pjlib-util/src/pjlib-util/xml.c:176-198 | A printed document is read back to its end. |
| XmlRoundTrip.PrologSkipped | QtSipPhone/PJSIP/pjlib-util/src/pjlib-util/xml.c:64-78 | The prolog is passed over. |
| XmlRoundTrip.PrintedBack | QtSipPhone/PJSIP/pjlib-util/src/pjlib-util/xml.c:54-332 | What pj_xml_print writes, with or without prolog and last newline, parses back to the same tree, for nodes with children or content but not both and names, values and content as described above. |
| Xml.TakeInstruction | QtSipPhone/PJSIP/pjlib-util/src/pjlib-util/xml.c:64-78 | A processing instruction is passed over. |
| Xml.TakeComment | QtSipPhone/PJSIP/pjlib-util/src/pjlib-util/xml.c:80-94 | A comment or declaration is passed over. |
| Xml.TakeAttr | QtSipPhone/PJSIP/pjlib-util/src/pjlib-util/xml.c:109-116 | One attribute, with or without value. |
| Xml.TakeAttrs | QtSipPhone/PJSIP/pjlib-util/src/pjlib-util/xml.c:105-119 | The loop over the attributes. |
| Xml.TakeEnd | QtSipPhone/PJSIP/pjlib-util/src/pjlib-util/xml.c:159-171 | The end tag, compared up to case. |
| Xml.TakeContent | QtSipPhone/PJSIP/pjlib-util/src/pjlib-util/xml.c:140-157 | Text and CDATA, or a search that never moves on. |
| Xml.ReadNode | QtSipPhone/PJSIP/pjlib-util/src/pjlib-util/xml.c:54-174 | One node; recursion ends on every text. |
| Xml.ReadBody | QtSipPhone/PJSIP/pjlib-util/src/pjlib-util/xml.c:121-173 | The part after the attributes. |
| Xml.ReadNodes | QtSipPhone/PJSIP/pjlib-util/src/pjlib-util/xml.c:132-138 | The loop over the sub nodes. |
| Xml.ReadDocument | QtSipPhone/PJSIP/pjlib-util/src/pjlib-util/xml.c:176-198 | The whole parser. |
| XmlSections.SectionExactly | QtSipPhone/PJSIP/pjlib-util/src/pjlib-util/xml.c:145-157 | A CDATA section is read as its text if and only if no ']' stands in it; the parser is stuck if and only if one does and the first does not begin "]]>". |
| XmlSections.SectionDocument | QtSipPhone/PJSIP/pjlib-util/src/pjlib-util/xml.c:54-174 | The same for whole documents: a root with attributes and a section as content comes back if and only if the section holds no ']', and the parser never returns if and only if the first ']' does not begin "]]>". |
| XmlSections.BracketInSection | QtSipPhone/PJSIP/pjlib-util/src/pjlib-util/xml.c:145-157 | A ']' in a CDATA section that does not begin its end stops the parser for good, whatever follows. |
| XmlSections.SectionOpened | QtSipPhone/PJSIP/pjlib-util/src/pjlib-util/xml.c:145-157 | What becomes of any text that opens a section: read, an error, or stuck. |
| XmlSections.ContentNotStuck | QtSipPhone/PJSIP/pjlib-util/src/pjlib-util/xml.c:140-157 | Content is not stuck when every section in the text is clear. |
| XmlSections.NodeNotStuck | QtSipPhone/PJSIP/pjlib-util/src/pjlib-util/xml.c:54-174 | The parser returns on every text in which every place that opens a section is followed by a first ']' that begins "]]>", or by none. |
| XmlSections.NoBracketNotStuck | QtSipPhone/PJSIP/pjlib-util/src/pjlib-util/xml.c:54-198 | In particular it returns on every text without ']'. |
| XmlPrinter.PrintAttrs | QtSipPhone/PJSIP/pjlib-util/src/pjlib-util/xml.c:222-245 | The attributes, or failure only when the text so far, they and what must follow leave no byte over. |
| XmlPrinter.PrintNode | QtSipPhone/PJSIP/pjlib-util/src/pjlib-util/xml.c:201-308 | A non-negative result is exactly the number of bytes written, they are the node's text and lie within len, and nothing else changes; a negative one means the text leaves no byte over. |
| XmlPrinter.PrintBody | QtSipPhone/PJSIP/pjlib-util/src/pjlib-util/xml.c:247-307 | The same from the end of the attributes on. |
| XmlPrinter.PrintContent | QtSipPhone/PJSIP/pjlib-util/src/pjlib-util/xml.c:281-303 | The same from the content on. |
| XmlPrinter.PrintEndTag | QtSipPhone/PJSIP/pjlib-util/src/pjlib-util/xml.c:287-303 | The same for the end tag. |
| XmlPrinter.PrintNodes | QtSipPhone/PJSIP/pjlib-util/src/pjlib-util/xml.c:262-278 | The same for the sub nodes. |
| XmlPrinter.PrintDocument | QtSipPhone/PJSIP/pjlib-util/src/pjlib-util/xml.c:310-332 | A positive result other than the bare prolog's 39 is the length of exactly the document text; -1 or the bare prolog means that it leaves no byte over; when the prolog fits and the tree does not, the result is 39. |
| XmlWritten.MiscsSkipped | QtSipPhone/PJSIP/pjlib-util/src/pjlib-util/xml.c:57-89 | Comments and instructions before a node change nothing. |
| XmlWritten.GivensRead | QtSipPhone/PJSIP/pjlib-util/src/pjlib-util/xml.c:100-114 | Attributes with either kind of quotes, with no value, and with white space anywhere between, are read as given. |
| XmlWritten.ElementReads | QtSipPhone/PJSIP/pjlib-util/src/pjlib-util/xml.c:49-178 | A node in any layout (instructions, white space, sections, end tags equal up to case) is read as the tree that it means, and what follows is left. |
| XmlWritten.OtherEndRefused | QtSipPhone/PJSIP/pjlib-util/src/pjlib-util/xml.c:167-172 | A node that is closed by another name is an error. |
| XmlWritten.DocumentReads | QtSipPhone/PJSIP/pjlib-util/src/pjlib-util/xml.c:180-203 | The same for a document with anything before its root. |
| Base64.CharBack | QtSipPhone/PJSIP/pjlib-util/src/pjlib-util/base64.c:27-55 | The two tables are inverse, and no digit is the padding character. |
| Base64.ValueOf | QtSipPhone/PJSIP/pjlib-util/src/pjlib-util/base64.c:37-55 | Exactly the characters of the alphabet have a value. |
| Base64.SextetsAreDigits | QtSipPhone/PJSIP/pjlib-util/src/pjlib-util/base64.c:58-78 | The four sextets are the base-64 digits of the number whose base-256 digits are the three octets. |
| Base64.EncodeTo | QtSipPhone/PJSIP/pjlib-util/src/pjlib-util/base64.c:81-121 | Fails exactly below the macro's length, otherwise writes exactly the encoding and nothing past it. |
| Base64.DecodeBack | QtSipPhone/PJSIP/pjlib-util/src/pjlib-util/base64.c:81-170 | Decoding undoes encoding, for every byte string. |
| Base64.TakenIs | QtSipPhone/PJSIP/pjlib-util/src/pjlib-util/base64.c:142-159 | The decoder takes the alphabet's characters, and 63 for a stray byte at the end. |
| Base64.StrayBytesIff | QtSipPhone/PJSIP/pjlib-util/src/pjlib-util/base64.c:124-170 | Stray bytes are without effect if and only if the text without trailing '=' does not end in one, or the number of its alphabet characters is a multiple of four. |
| Base64.DecodedLength | QtSipPhone/PJSIP/pjlib-util/src/pjlib-util/base64.c:124-170 | The output is within the length the decoder asks for. |
| Base64.NextSextet | QtSipPhone/PJSIP/pjlib-util/src/pjlib-util/base64.c:145-147 | The next character of the alphabet, or the stray last byte. |
| Base64.FillFour | QtSipPhone/PJSIP/pjlib-util/src/pjlib-util/base64.c:143-148 | Up to four sextets; fewer only at the end. |
| Base64.StripPadding | QtSipPhone/PJSIP/pjlib-util/src/pjlib-util/base64.c:134-137 | The text without its trailing '='. |
| Base64.DecodeTo | QtSipPhone/PJSIP/pjlib-util/src/pjlib-util/base64.c:124-170 | Fails exactly below the macro's length, otherwise writes exactly the decoding and nothing past it. |
| Base64.AlphabetIs | QtSipPhone/PJSIP/pjlib-util/src/pjlib-util/base64.c:27-35 | The characters are those of RFC 4648 in their order. |
| Base64.EncodedLength | QtSipPhone/PJSIP/pjlib-util/include/pjlib-util/base64.h:43-49 | The encoding is four characters for every three octets begun, within the macro. |
| Base64.OctetCount | QtSipPhone/PJSIP/pjlib-util/include/pjlib-util/base64.h:43-49 | A sequence of n sextets decodes to the macro's n*3/4 octets. |

## Left out

- ResolverObject.Resolver.CancelQuery: a second cancel with notification, which calls a null callback.
- ResolverObject.Resolver.AddCacheEntry: pj_dns_resolver_add_entry returns without releasing the mutex when the name is too long; the model has no lock to leave held.
- ResolverObject.Resolver.SendToAll: addresses, sockets and the IPv6 variant are folded into what sending to a server results in (no socket, failed, sent).
- ResolverTheorems.CalledBackExactlyOnce: runs in which a new query takes a node with a popped timer, which LateTimeoutHappens shows to exist; the same goes for ReferencesCounted, LookupsFollowTheLog and the other theorems on reachable states.
- ResolverTheorems.LateTimeoutHitsNewQuery: on_timeout has read the node before it waits for the mutex. If it reads user_data only after alloc_qnode has cleared the node it gets a null pointer, and a timer entry cleared while it is in the heap is no longer recognised as scheduled; the model keeps the node and answers with PJ_EINVALIDOP for an entry that is armed.
- ResolverObject.Resolver.RecycleQuery: user_data, which on_timeout clears as well, is one with the callback in the model and stays with it until the node is reused.
- ResolverTheorems.UnansweredTimesOut: stated with fixed settings; pj_dns_resolver_set_settings between transmissions is not modelled.
- ResolverLifetimes.LifetimesDecide: cache_max_ttl is the unsigned 32-bit number of the settings.
- CacheLog.FindAnswersFromLog: time is a whole number of unbounded size; the overflow of the seconds of an expiry time is not modelled, and neither is a packet that a callback changes before it is cached.
- ResponseCache.KeyIsCaseFoldedName: names with zero bytes inside are outside, since the key is a zero-terminated buffer.
- DnsRoundTrip.PrintedPacketParses: messages up to 0x4000 bytes, the reach of a compression pointer, and names of non-empty labels shorter than 192 bytes, since a longer length byte reads as a pointer; other classes than IN and other record types fail an assertion of the printer.
- DnsPrinter.PrintPacketTo: the buffer is longer than the size passed in by 4 bytes a question and 2 more, which the code needs but does not ask for.
- DnsMessage.CutMessageRefused: messages of questions alone, whose type and class are read without a check of the end, are not refused when cut short there.
- DnsQuery.QueryParsesBack: labels of 192 bytes and more, whose length byte reads as a pointer.
- DnsQuery.MakeQuery: the buffer really holds the message; writing past a buffer of just the requested size is not modelled.
- GetoptObject.Getopt.Next: the orderings chosen by "+", "-" or POSIXLY_CORRECT, the "W;" option (whose ambiguous form moves pj_optind past argc), and the flag pointers of long options as addresses.
- SrvTheorems.CalledBackOnce: runs in which the lookups do not start soundly; UnsoundNeverRight says what becomes of them, and that the application may free the query in a callback that comes too early is not modelled.
- SrvObject.SrvQuery.OnSrvAnswer: pj_dns_parse_addr_response, pj_inet_pton and pj_rand are parameters.
- Sha1.Context.Update: updates of 2^29 octets and more; CountRightIff gives the exact condition on the count for all lengths.
- Sha1Block.Transform: the 80 unrolled lines are 16 turns of a method with five macros; big-endian machines load words as they are.
- Md5Block.Transform: the 64 unrolled lines are grouped by fours; byteReverse on big-endian machines is not modelled.
- JsonRoundTrip.RootBack: fractional numbers (printed with six decimals), rounding of numbers in a float and overflow of an int; nesting deeper than the 33 levels of IndentationFits, where the code reads past its 100-byte indentation buffer.
- JsonWritten.ValueReads: digits after a second point, which the code skips, and the exponents of RFC 4627, which it does not know; an empty string among array items, after which the code reads the next value.
- Json.ReadDocument: line, column and character of an error; numbers are reals.
- JsonWriter.WriteDocument: the writer callback is the buffer writer of pj_json_write.
- XmlWritten.ElementReads: a comment directly before a sub node, which the code takes for content; sections that hold a bracket, for which SectionDocument has the exact outcome.
- XmlSections.NodeNotStuck: a sufficient condition on the text, since a section may also stand where the parser does not look for one; SectionDocument has both directions for a section as content. The endless search is a result of the model, not a non-terminating method.
- XmlPrinter.PrintDocument: a text that would exactly fill the buffer may be refused, because the code asks for up to three spare bytes at some places; the contract allows both.
- Base64.EncodeTo: int overflow in the length macros is not modelled.
- Base64.DecodeTo: the -1 of a stray last byte is shifted as two's complement.
- Resolver destroy, the timer heap and ioqueue internals, pools, logging and threads.
- pj_scan_get_unescape, pj_scan_get_newline and the bit sets of scanner_cis_*: character specs are sets of bytes.
- xml clone, find and add helpers, JSON element constructors, error strings, pj_dns_dump_packet: would add only easy members.
- The DNS server's sockets and record list, http_client.c, pcap.c, stun_simple*.c, cli*.c, and the Qt window with csipaccount.cpp.
