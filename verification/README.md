# Hotspot controller: a model of its accounting, policy and DNS logic

This project models the parts of an Android hotspot controller that hold state or do
arithmetic, and proves what they keep over whole runs. The program's mutable objects are
classes whose methods are proved against functions on values; everything about runs is proved
about those functions. Times, token counts and rates are integers or reals; what scripts,
files, sockets and clocks answer is an input of the step that asks.

| subject | modules |
|---|---|
| connection byte accounting: snapshots merged with end-of-connection events | `ConnAccounting`, `ConnRuns`, `ConnExact`, `ConnBound`, `ConnWitness`, `CtEventBuffer` |
| quotas and schedules: rules, rate texts, the reconciler, the traffic ledger | `LimitRules`, `RateText`, `LimitController`, `LimitRuns`, `LimitLapses`, `UsageLedger` |
| DNS messages: names, queries, answers, replies | `DnsWire`, `DnsNames`, `DnsLabels`, `DnsMessages`, `DnsRecords` |
| DNS forwarder: answer cache, rate limiter, one query from parse to reply | `DnsCache`, `DnsCaching`, `DnsRecency`, `DnsLimiter`, `DnsHandle`, `DnsForwarder`, `DnsReplies`, `DnsRuns`, `DnsTwins`, `DnsHits`, `DnsWitness` |
| DNS takeover: redirect rules, fail-open, backoff | `DnsTakeover`, `DnsTakeoverRuns` |
| who owns an address: building, writing, reading, searching the table | `IpRanges`, `IpOwnerFile`, `IpOwnerRoundTrip` |
| domain lists and rules: includes, suffix owners, claims, parent rules | `ImportV2fly`, `DomainClaims`, `DomainImport`, `CatalogAttach` |
| foreground timeline, the choice of what it shows, and clock guard | `FgTimeline`, `FgRuns`, `FgRecord`, `FgClassic`, `FgScores`, `ClockGuard` |
| octets, bits, shared types | `Bytes`, `Common` |

Where the program does not do what one would expect, the code is modelled as it is and the exact
condition is proved, with a concrete case where the condition does not already give one:

- With its device always known, the byte count of a key is exact if and only if the baseline is:
  no connection ended, with bytes of its own, between the baseline's read and its drain, and no
  reading of such a connection is held against the next one on its key (`ExactIff`; a run that
  loses bytes is `StaleBaselineLoses`).
- With the device of a connection unknown in some ticks the error of each is added
  (`RecordedExactly`); one such tick is harmless exactly if its events bring nothing new or, without
  any, the last reading was zero or the connection was not there (`OneGapIff`; a run that counts
  twice is `GapDoubles`). Events lost or not, never more is recorded than is owed plus the readings
  forgotten in such ticks (`NeverTooMuch`).
- A schedule window with equal ends covers the calendar day from midnight, not 24 hours from
  its start (`EqualEndsFromStart`; `MondayFromMidnight` is such a window).
- A rule put in place in part, because an apply failed or the device was offline, is made good by the
  next tick whose apply finishes, exactly unless the rule wanted by then is the one that was brought
  about last (`LiveRuleIff`, `LeftHalfway`). A device that is offline when a blocking window begins stays blocked after the window,
  if the block would have changed its limits (`BlockStays`; under a used-up monthly quota that
  throttles for the rest of the month, `MonthBlocked`).
- A rule left by a failed apply becomes the manual base if the file could not be read after it,
  unless it is the rule seen before (`UnreadFailureBecomesBase`); after an apply that succeeded no
  such read is needed.
- Answers are shared by the text of a name, in which a dot within a label looks like a dot between
  labels. Two names share an answer exactly if cutting their labels at dots gives the same pieces
  (`KeysTellNames`); of the names that share one with a name without such dots the same name are
  exactly those without them. A client that asks for the single label "a.b" has its answer served to
  whoever asks for the labels "a" and "b", with the question replaced (`TwinIsServed`).
- The cache by itself keeps an older answer when it rejects a newer one (`OlderStays`). Queries
  handled one after another do not get there: while an answer is held, none of its key goes upstream
  (`FoundMeans`).
- A client let through while the limiter's table is full is not counted (`FullTableLetsThrough`;
  after 1024 clients any number of queries of one more passes for a minute, `NewcomerPasses`); the
  window bound and the equality with an unbounded table are for clients that are tracked. Forgetting
  idle clients is invisible exactly if the burst refills in the idle time (`ForgottenIsFull`).
- Redirect rules left over from an earlier process survive the first tick in exactly the cases of
  `LeftoversAtStart`, and then even switching the takeover off (`LeftoversSurviveOff`). With the
  self-test failed an active controller still puts new rules in place when addresses changed or
  the rules are gone (`SelfTestGuards`).
- A second pass over attached child rules changes nothing exactly if no parent chain of ten or
  more steps ends (`SecondPass`, `TwoPassesDiffer`).
- Two emitted rules can share an id (`RuleIdsDistinct`).
- Sessions of the timeline stay in order if and only if no roll-over at midnight finds an open
  session that ends and starts after it (`TickOrdered`, `AlwaysInOrder`); resets are harmless
  (`ResetOrdered`). Runs in which every application shown has been active meet the condition
  (`ActiveRunsInOrder`). Under the classic engine all are such runs, since it shows only what has
  been active (`ShownHasBeenActive`), so its timeline is always in order (`ClassicRunsInOrder`); the
  experimental engine can show an application on a start event alone, and then two clock jumps break
  the order (`JumpsCanBreakOrder`).
- A session that ended more than 30 seconds before midnight is not carried on (`OverMidnight`), and
  nothing is recorded for its application on the new day until something else is shown
  (`NotCarriedOn`: in use 45 seconds before midnight and 15 after it).
- Times before 2025 are accepted exactly when they heal the high-water mark, and then at most 14
  hours before it, where the local year is 2025 already (`BeforeTheMinimum`). A time that was only
  asked for, and not noted, binds later ones exactly if it is less than 15 minutes above the lowest
  time that can still be accepted (`AskedBinds`, `LowestExactly`; `AskedFallsBack` falls back a day).
- A block reply to a question of more than 126 labels cannot be parsed (`BlockReplyRoundTrip`;
  `LongNameBlocked` is such a question).

## Model

| member | source | states |
|---|---|---|
| ConnAccounting.AppUsage.AcctStep | daemon/hnc_httpd/app_usage.go:285-340 | merging a snapshot and the events drained after it gives the deltas and the new readings of the specification step; the first call only takes a baseline |
| ConnAccounting.StepOfKey | daemon/hnc_httpd/app_usage.go:271-284 | what a step records and remembers for a key depends on that key's last reading, events and entry alone |
| ConnAccounting.StepUnkept | daemon/hnc_httpd/app_usage.go:301-340 | a key whose device is unknown in a tick is forgotten and nothing is recorded for it |
| ConnRuns.RunOfKey | daemon/hnc_httpd/app_usage.go:285-340 | what a run of the program keeps and records for a key is the run of that key alone |
| ConnRuns.InputShows | daemon/hnc_httpd/app_usage.go:285-340 | every environment of a key is that of some run of the program |
| ConnExact.RecordedExactly | daemon/hnc_httpd/app_usage.go:271-340 | in every lossless run in which all connections have ended and been drained, the bytes recorded are the final bytes less the baseline bytes, less what ended between the baseline's read and drain, plus the stated error of stale readings and of ticks without the device |
| ConnExact.ExactIff | daemon/hnc_httpd/app_usage.go:271-340 | with the device always known the count is exact if and only if the baseline dropped nothing and a stale baseline reading takes nothing from the first tick |
| ConnExact.NoByteLostOrDoubled | daemon/hnc_httpd/app_usage.go:271-340 | with a clean baseline the bytes recorded are exactly the final bytes less the baseline bytes, however often the key is reused |
| ConnExact.OneGapIff | daemon/hnc_httpd/app_usage.go:301-340 | with the device unknown in one tick the count is exact if and only if that gap is harmless |
| ConnExact.ExactRun | daemon/hnc_httpd/app_usage.go:285-340 | invariant of a lossless run: recorded bytes are those owed for the settled connections, the live reading, and the error so far |
| ConnExact.ReadPlace | daemon/hnc_httpd/app_usage.go:276-284 | an entry is that of the first connection not settled, or its event is in the same batch and marks it as stale |
| ConnBound.NeverTooMuch | daemon/hnc_httpd/app_usage.go:271-340 | whatever events are lost, the bytes recorded never exceed those owed for the connections not gone at the baseline, plus the readings forgotten while the device was unknown: none if it never was |
| ConnBound.WithinRun | daemon/hnc_httpd/app_usage.go:264-269 | invariant of any run: saturating differences lose bytes but never add any |
| ConnWitness.StaleBaselineLoses | daemon/hnc_httpd/app_usage.go:285-300 | a lossless run with a stale baseline that records 70 bytes too few |
| ConnWitness.GapDoubles | daemon/hnc_httpd/app_usage.go:301-340 | a lossless run with the device unknown in one tick that records 100 bytes too many |
| CtEventBuffer.CtEvents.Push | daemon/hnc_httpd/ct_events.go:212-222 | an event is buffered, or the loss flag and count say that it was not |
| CtEventBuffer.CtEvents.Overrun | daemon/hnc_httpd/ct_events.go:295-300 | a socket overrun raises the loss flag and keeps the buffer |
| CtEventBuffer.CtEvents.Drain | daemon/hnc_httpd/ct_events.go:195-203 | everything buffered comes out in order and the loss flag is handed over once; events received are drained, buffered, discarded or counted as lost |
| CtEventBuffer.CtEvents.SetActive | daemon/hnc_httpd/ct_events.go:224-234 | ending the subscription discards the buffer without raising the loss flag |
| LimitRules.StricterIsGreatestLowerBound | daemon/hnc_httpd/limit_policy.go:134-145 | of two rates, where 0 means no limit, the stricter one is their greatest lower bound |
| LimitRules.ActiveWindowIsFirstCovering | daemon/hnc_httpd/limit_policy.go:156-196 | the window selected is exactly the first whose circular interval of the week holds the minute; overnight windows belong to their first day, also from Saturday to Sunday |
| LimitRules.ClockReads | daemon/hnc_httpd/limit_policy.go:147-154 | a text is read as a time of day exactly if it is that time in two digits, a colon and two digits |
| LimitRules.CoversMeans | daemon/hnc_httpd/limit_policy.go:156-196 | when a window holds, in minutes: begun on one of its days, or any if it names none, less than its length ago |
| LimitRules.EqualEndsFromStart | daemon/hnc_httpd/limit_policy.go:168-196 | a window of equal ends is a full day from its start exactly if it starts at midnight or its days make no difference |
| LimitRules.MondayFromMidnight | daemon/hnc_httpd/limit_policy.go:168-196 | a window from ten to ten on Mondays covers Monday at one and not Tuesday at ten in the morning |
| LimitRules.EffectiveWithoutOverride | daemon/hnc_httpd/limit_policy.go:198-234 | with no quota exceeded and no window, the effective rule is the base |
| LimitRules.EffectiveMeaning | daemon/hnc_httpd/limit_policy.go:198-270 | a device is blocked exactly if base, quota or the first covering window says so; a throttle only tightens |
| LimitRules.NearestKbit | daemon/hnc_httpd/limit_policy.go:120-132 | a rate in megabits becomes the nearest whole kilobit, no less than 64 and no more than 10 * 1024 * 1024 |
| LimitRules.VerdictMeans | daemon/hnc_httpd/limit_policy.go:236-270 | a quota is exceeded exactly if its daily limit in bytes is positive and reached by today's use, or the monthly one by the month's; it throttles to its own rates, or to 1000 and 500 kbit |
| LimitRules.EffectiveExactly | daemon/hnc_httpd/limit_policy.go:198-234 | the effective rule, block and both limits, in terms of base, use and limits of the quota, and the first covering window |
| LimitRules.ReasonMeans | daemon/hnc_httpd/limit_policy.go:198-234 | which of user, quota and window is given as the reason |
| RateText.RateToMbps | daemon/hnc_httpd/action.go:628-667 | the scan and the trimming of zeros compute the specified text; an empty number before kbit, or one beyond 64 bits, is an error |
| RateText.RateRoundTrip | daemon/hnc_httpd/action.go:628-753 | a rate written as kbit text reads back unchanged exactly if it lies in the valid range, and a valid one is accepted |
| RateText.ReadBackClamps | daemon/hnc_httpd/limit_policy.go:120-132 | any other rate of 64 bits is clamped when it is read back |
| RateText.AcceptedReadsBack | daemon/hnc_httpd/action.go:628-753 | a written rate in kbit or mbit is accepted exactly from 64 to 10 * 1024 * 1024 kilobits, and then reads back as what it says |
| LimitController.PlanReaches | daemon/hnc_httpd/limit_policy.go:941-974 | a plan of actions carried out in full ends at the target rule |
| LimitController.NeverExposed | daemon/hnc_httpd/limit_policy.go:941-974 | after any part of a plan an open device has the new limits, or nothing has happened yet and it was open before |
| LimitController.LimitCtl.ReconcileDevice | daemon/hnc_httpd/limit_policy.go:896-930 | one device's state and live rule become those of the specification; other devices are untouched |
| LimitController.LimitCtl.Tick | daemon/hnc_httpd/limit_policy.go:700-883 | a round does this for every device it sees, and nothing to the others |
| LimitRuns.BaseIsNeverOwnRule | daemon/hnc_httpd/limit_policy.go:805-930 | in every run of ticks, edits and policy changes, with applies that fail or stop halfway, the base was there at adoption or was written by somebody else, as long as the file can be read after an apply that failed |
| LimitRuns.UnreadFailureBecomesBase | daemon/hnc_httpd/limit_policy.go:805-812 | without that read, the next tick that takes care of the device has a base written by somebody else exactly if the rule left behind is the one seen last or somebody else's |
| LimitRuns.LiveRuleIsEffective | daemon/hnc_httpd/limit_policy.go:764-930 | in every run in which each apply made finished in full, after a tick that reads the file the live rule of a policy device is the effective rule of its base, and the base itself if nothing overrides it |
| LimitRuns.LiveRuleExactly | daemon/hnc_httpd/limit_policy.go:764-930 | in such runs, what the live rule is: blocked exactly if base, a block quota with a limit reached, or the first covering window says so; else the limits of window or base, the stricter of these and the throttle when a throttle quota has a limit reached |
| LimitLapses.LiveRuleIff | daemon/hnc_httpd/limit_policy.go:805-930 | in every run, whatever failed before, a tick whose apply finishes leaves the rule wanted in force, exactly unless the file was left halfway, unedited, and the rule wanted is the one brought about last |
| LimitLapses.LeftHalfway | daemon/hnc_httpd/limit_policy.go:896-930 | a file is left halfway only by a tick that did not get through, and all that tried since did not either |
| LimitLapses.OfflineBlocks | daemon/hnc_httpd/limit_policy.go:899-930 | offline, a block is put in place or lifted and a change of limits put off |
| LimitLapses.BlockStays | daemon/hnc_httpd/limit_policy.go:833-930 | a device blocked while offline, whose limits the block would change, stays blocked while the rule from before is wanted again |
| LimitLapses.MonthBlocked | daemon/hnc_httpd/limit_policy.go:833-930 | such a device: throttled by its monthly quota, offline on Monday, blocked in all later ticks that want it throttled only |
| LimitRuns.ClearedPolicyRestoresBase | daemon/hnc_httpd/limit_policy.go:764-835 | in such runs a policy taken away leaves the base in force, unless somebody edited the rule meanwhile |
| LimitRuns.QuietTick | daemon/hnc_httpd/limit_policy.go:896-930 | any later tick that asks for the same rule issues no apply and changes no state |
| UsageLedger.LatestPeriodStart | daemon/hnc_httpd/limit_policy.go:272-300 | the billing period start is the latest period start not after now, and a fixed point |
| UsageLedger.StartIsThatDay | daemon/hnc_httpd/limit_policy.go:272-300 | of every month one day is a period start: the last valid day not after the billing day, 1 for a billing day outside 1 to 31 |
| UsageLedger.MonthLength | daemon/hnc_httpd/limit_policy.go:272-300 | the lengths of months agree with counting Gregorian days |
| UsageLedger.SamePeriod | daemon/hnc_httpd/limit_policy.go:272-300 | two days share a period exactly if no period starts between them |
| UsageLedger.UsageAcc.Add | daemon/hnc_httpd/limit_policy.go:335-358 | a reading is charged to day and month as the difference to the last one, or in full after a counter reset |
| UsageLedger.UsageAcc.Rebase | daemon/hnc_httpd/limit_policy.go:726-731 | after a clock jump the next reading is only a new baseline; sums and stored readings stay |
| UsageLedger.UsageAcc.Rollover | daemon/hnc_httpd/limit_policy.go:326-333 | a new day or month starts from zero, and nothing else changes |
| UsageLedger.LedgerNeverOvercharges | daemon/hnc_httpd/limit_policy.go:310-358 | every reachable ledger has day <= month = received + sent, and never charges more than the true traffic, whatever counters are reset |
| UsageLedger.LedgerExact | daemon/hnc_httpd/limit_policy.go:310-358 | without resets and clock jumps it charges exactly the true traffic |
| UsageLedger.LedgerExactly | daemon/hnc_httpd/limit_policy.go:310-358 | in every run the day and both directions of the month are the true traffic less exactly what is missed: the bytes between a reading and a later reset, what a reset unnoticed hides, and all between the readings around a clock jump |
| IpRanges.Normalize | tools/build_ip_owner.py:204-223 | the result is sorted, disjoint and merged, and every address keeps the owner of the first range in sorted order that covers it |
| IpRanges.Paint | tools/build_ip_owner.py:180-201 | the result is the overlay plus the parts of the base outside it |
| IpRanges.Cut | tools/build_ip_owner.py:184-196 | the pieces left of a range cover exactly what the cut range does not |
| IpRanges.BuildTable | tools/build_ip_owner.py:239-251 | every address gets its curated owner, else its ASN owner, else none |
| IpRanges.NormalFormUnique | tools/build_ip_owner.py:204-223 | two normal lists that own the same addresses alike are equal |
| IpRanges.FirstOwnerOfSorted | tools/build_ip_owner.py:204-223 | the first owner in sorted order exists exactly for covered addresses and is that of the least covering range |
| IpRanges.PaintedCurated | tools/build_ip_owner.py:180-201 | an address covered by the overlay goes to its first overlay range |
| IpRanges.PaintedBase | tools/build_ip_owner.py:180-201 | any other address keeps its base owner |
| IpOwnerFile.ParseIPOwner | daemon/hnc_httpd/ip_owner.go:106-169 | the cursor parser computes the specification parser on every input |
| IpOwnerFile.SearchStart | daemon/hnc_httpd/ip_owner.go:172-194 | binary search finds the first range that starts beyond the address |
| IpOwnerFile.LookupIsFirstOwner | daemon/hnc_httpd/ip_owner.go:172-194 | looking before that index gives the owner, or a miss |
| IpOwnerFile.LookupIP | daemon/hnc_httpd/ip_owner.go:172-194 | an IPv4 or IPv6 address is looked up in its table; no table or no address is a miss |
| IpOwnerRoundTrip.ParseInvertsEncode | tools/build_ip_owner.py:254-265 | parsing an encoded table gives it back |
| IpOwnerRoundTrip.AcceptsExactlyEncodings | daemon/hnc_httpd/ip_owner.go:106-169 | a file is accepted as a table exactly if it is the encoding of that table |
| IpOwnerRoundTrip.RepresentationUnique | tools/build_ip_owner.py:239-251 | there is only one normal table for given sources |
| IpOwnerRoundTrip.EndToEnd | tools/build_ip_owner.py:239-265 | build, encode, parse and look up: curated owner, else first ASN owner, else a miss; it fails only if every table has too many ranges to count |
| DnsWire.ReadName | daemon/hnc_httpd/dns_wire.go:109-151 | the loop with its hop limit, pointers and 255-octet cap computes the specification reader |
| DnsWire.SkipName | daemon/hnc_httpd/dns_wire.go:154-175 | the loop computes the specification skipper, whose result lies behind its start |
| DnsWire.ParseQueryMsg | daemon/hnc_httpd/dns_wire.go:178-233 | header, one question, and the OPT records among the additional ones up to the first malformed record |
| DnsWire.ParseResponseMsg | daemon/hnc_httpd/dns_wire.go:259-342 | all records of an answer with owners, TTL offsets, least TTL and negative TTL, or a failure |
| DnsNames.SkipStopsWhereReadStops | daemon/hnc_httpd/dns_wire.go:109-175 | a name that reads well is skipped to the same offset, takes at most 258 octets in place and has at most 255 |
| DnsNames.SkipSame | daemon/hnc_httpd/dns_wire.go:154-175 | skipping depends only on the octets stepped over |
| DnsNames.NameRoundTrip | daemon/hnc_httpd/dns_wire.go:377-390 | an encoded name reads back, at any offset of any message, in lower case and with the right next offset, exactly if it has at most 255 octets and 127 labels |
| DnsLabels.TextTells | daemon/hnc_httpd/dns_wire.go:109-151 | two names have the same text up to case exactly if their labels cut at dots are the same; among names without dots in their labels that means the same name |
| DnsLabels.TextIsJoined | daemon/hnc_httpd/dns_wire.go:109-151 | the text read is that of the labels on the wire, pointers followed, joined by dots, in lower case |
| DnsLabels.SameNameMeans | daemon/hnc_httpd/dns_wire.go:94-143 | names are the same in lower case exactly if label by label and octet by octet they are the same up to the case of letters |
| DnsMessages.QueryRoundTrip | daemon/hnc_httpd/dns_wire.go:393-414 | parsing a built query gives its fields back, with the advertised size cut to 16 bits and clamped to 512..4096 |
| DnsMessages.ReplyFlagBits | daemon/hnc_httpd/dns_wire.go:417-427 | reply flags: QR and RA set, opcode, RD and CD of the query, the code, no other bit |
| DnsMessages.BlockReplyRoundTrip | daemon/hnc_httpd/dns_wire.go:430-478 | parsing a zero-mode block reply to an uncompressed A or AAAA question gives the same ID and question and one all-zero address for 60 seconds; with more than 126 labels it fails |
| DnsMessages.ParsedQuery | daemon/hnc_httpd/dns_wire.go:178-233 | a query parses exactly if its question does; its size limit is 512..4096 and its end lies in the message |
| DnsRecords.QueryEdns | daemon/hnc_httpd/dns_wire.go:199-234 | reply size, DNSSEC wish and option length of a query are those of the last EDNS record of its additional section before a malformed record, the size 512 without one |
| DnsRecords.ParsedRecords | daemon/hnc_httpd/dns_wire.go:259-342 | an answer parses exactly if it has a question and its records, 128 at most, follow one another; answers, TTL fields and the negative TTL are those of the records, the last the least TTL or MINIMUM of an authority SOA |
| DnsRecords.LifeExactly | daemon/hnc_httpd/dns_forwarder.go:640-663 | for how long an answer is kept: the least TTL of all records and an hour, or the negative TTL and five minutes |
| DnsRecords.ServedInTime | daemon/hnc_httpd/dns_forwarder.go:640-750 | what is served from the cache was stored no longer ago than that |
| DnsCache.Cache.Put | daemon/hnc_httpd/dns_forwarder.go:665-695 | list and map stay in bijection, the byte count is the sum, both caps hold, and the list is the trimmed one with the new entry in front, or unchanged if the answer is rejected |
| DnsCache.Cache.Get | daemon/hnc_httpd/dns_forwarder.go:698-736 | a live entry is served and moves to the front, an expired one is removed, a miss changes nothing |
| DnsCache.Cache.Evict | daemon/hnc_httpd/dns_forwarder.go:688-694 | the least recently used entries go until both caps hold |
| DnsCache.Cache.Flush | daemon/hnc_httpd/dns_forwarder.go:744-750 | the cache is empty and consistent |
| DnsCache.ParsedTTLs | daemon/hnc_httpd/dns_wire.go:286-314 | TTL fields stand behind the question, inside the message and apart, and the least TTL is that of some record and of none less |
| DnsCaching.ServedTTLs | daemon/hnc_httpd/dns_forwarder.go:640-736 | each TTL served is the original less the whole seconds kept, or zero, and for a positive answer at least 1 |
| DnsCaching.ServedTouches | daemon/hnc_httpd/dns_forwarder.go:718-736 | a hit differs from the stored message only in ID, flags, question octets of equal length and TTL fields |
| DnsCaching.ServedHeader | daemon/hnc_httpd/dns_forwarder.go:720-724 | a hit has the query's ID, RD and CD, and the stored message's other flags |
| DnsCaching.CacheKeyInjective | daemon/hnc_httpd/dns_forwarder.go:625-637 | queries share a key exactly if the texts of their names, type, class, EDNS, DO and CD agree, also if a text holds bars |
| DnsCaching.TrimLongest | daemon/hnc_httpd/dns_forwarder.go:688-694 | what stays is the longest beginning of the list that fits |
| DnsRecency.OrderOfUse | daemon/hnc_httpd/dns_forwarder.go:665-736 | in every run the list is in the order of last use, so what is dropped was used longest ago |
| DnsRecency.StaysHeld | daemon/hnc_httpd/dns_forwarder.go:665-736 | an answer stored is found until its time is over, as long as no more others are used since than there is room for, however long they are |
| DnsRecency.DefaultRoom | daemon/hnc_httpd/dns_forwarder.go:39-44 | with the program's caps there is room for 511 others |
| DnsCaching.HitIsLastPut | daemon/hnc_httpd/dns_forwarder.go:602-750 | in every run, what is found under a key is the last message accepted under it since the last flush |
| DnsLimiter.Limiter.Allow | daemon/hnc_httpd/dns_forwarder.go:771-799 | table and answer are those of the specification step, and the table never outgrows its limit |
| DnsLimiter.Limiter.Sweep | daemon/hnc_httpd/dns_forwarder.go:776-780 | exactly the clients idle for more than a minute are forgotten |
| DnsLimiter.TrackedExactly | daemon/hnc_httpd/dns_forwarder.go:771-799 | who is tracked after a call: all as before, unless a new client meets a full table and those idle for more than a minute go; the client itself unless there is no room even then |
| DnsLimiter.LetThroughIff | daemon/hnc_httpd/dns_forwarder.go:771-799 | a tracked query is let through exactly if at least one token is there, and takes one |
| DnsLimiter.EnoughTokens | daemon/hnc_httpd/dns_forwarder.go:771-799 | a client with at least k tokens has its next k queries let through, however close together |
| DnsLimiter.NewClientBurst | daemon/hnc_httpd/dns_forwarder.go:767-799 | the first 200 queries of a new client are let through |
| DnsLimiter.TokensLeft | daemon/hnc_httpd/dns_forwarder.go:771-799 | after any queries a bucket has been full since, or has what it had and gained less one token for every query let through |
| DnsLimiter.RefusedOnlyAfter | daemon/hnc_httpd/dns_forwarder.go:771-799 | a query is refused only if those let through since the bucket was last full exceed burst plus rate times time, less one |
| DnsLimiter.ForgottenIsFull | daemon/hnc_httpd/dns_forwarder.go:774-797 | every forgotten bucket would be full exactly if the rate refills the burst in the idle time, so if 60 * rate >= burst |
| DnsLimiter.DefaultForgives | daemon/hnc_httpd/dns_forwarder.go:46-48 | the program's own limits, 50 a second and a burst of 200, are such |
| DnsLimiter.ForgettingIsInvisible | daemon/hnc_httpd/dns_forwarder.go:771-799 | with room in the table, all answers of a run are those of a table that never forgets |
| DnsLimiter.WindowBound | daemon/hnc_httpd/dns_forwarder.go:754-799 | the queries of a tracked client allowed in any window are at most burst + rate * length |
| DnsLimiter.RunKeepsTable | daemon/hnc_httpd/dns_forwarder.go:771-799 | in every run token counts stay between zero and the burst |
| DnsLimiter.FullTableLetsThrough | daemon/hnc_httpd/dns_forwarder.go:774-786 | while the table is full and nobody in it goes idle, every query of a client outside is let through and the table stays |
| DnsLimiter.NewcomerPasses | daemon/hnc_httpd/dns_forwarder.go:774-786 | with the program's limits, one query each of 1024 clients, and then any number of one more |
| DnsHandle.TruncateFits | daemon/hnc_httpd/dns_wire.go:481-505 | a cut message is within the limit, and one within it is not cut |
| DnsHandle.TruncateKeeps | daemon/hnc_httpd/dns_wire.go:481-505 | a cut message keeps ID and other flags, has TC set and no records, and has the question exactly if there is one and it is whole |
| DnsHandle.ReplyFits | daemon/hnc_httpd/dns_forwarder.go:359-452 | every UDP reply on every path is within the client's limit, and every reply carries the query's ID |
| DnsHandle.CachedIsAbout | daemon/hnc_httpd/dns_forwarder.go:411-423 | an answer from the cache was the answer to a question with the same text of its name, type and class |
| DnsHandle.NextAbout | daemon/hnc_httpd/dns_forwarder.go:411-444 | every query keeps each entry about the question of its key |
| DnsRuns.FoundMeans | daemon/hnc_httpd/dns_forwarder.go:411-444 | in every run of queries, what is held under a key was fetched by the last query of that key to go upstream |
| DnsRuns.ServedInRun | daemon/hnc_httpd/dns_forwarder.go:411-444 | an answer served from the cache came from that query, and each TTL served is that of the answer as it came less the whole seconds since, at least 1 if positive |
| DnsTwins.KeysTellNames | daemon/hnc_httpd/dns_forwarder.go:625-637 | two parsed queries share a key exactly if the labels on the wire have the same text up to case and type, class, EDNS, DO and CD agree; for a name without dots in its labels, the same name exactly if the other has none either |
| DnsTwins.CachedNames | daemon/hnc_httpd/dns_forwarder.go:411-423 | the labels of the stored question have the text of the labels asked for, and are these, if they hold no dots, exactly if the stored ones hold none |
| DnsTwins.SameTextIsServed | daemon/hnc_httpd/dns_forwarder.go:411-444 | after an answer for one name every name with the same text is served with it while it lives |
| DnsTwins.TwinIsServed | daemon/hnc_httpd/dns_forwarder.go:718-727 | the answer for the label "a.b" is served for the labels "a" and "b", with their question put over the stored one |
| DnsHits.HitReads | daemon/hnc_httpd/dns_forwarder.go:698-736 | what a client parses from a hit: ID and flags for its query, the stored question, every stored record with owner, type and data, its TTL lower by the seconds kept, and so the least TTL; the negative TTL lower by no more |
| DnsHits.CachedReads | daemon/hnc_httpd/dns_forwarder.go:411-423 | for names written out without dots in their labels, every answer from the cache parses that way and is about the question asked |
| DnsHits.AnswerIsLegible | daemon/hnc_httpd/dns_wire.go:109-151 | an answer whose owner is a pointer to the question meets the condition of these two |
| DnsWitness.OlderStays | daemon/hnc_httpd/dns_forwarder.go:665-669 | a run of the cache in which an answer without records is rejected and the older one stays |
| DnsWitness.LongNameBlocked | daemon/hnc_httpd/dns_wire.go:430-478 | a query of 127 labels parses, and the block reply to it does not |
| DnsForwarder.Forwarder.Handle | daemon/hnc_httpd/dns_forwarder.go:359-452 | a query is answered exactly if it parses and is no response; reply and caches are those of the specification, fitting a UDP limit and carrying its ID; a refusal has code 5 and a block reply the zero address or code 3, and both leave the answers held alone |
| DnsReplies.NoReply | daemon/hnc_httpd/dns_forwarder.go:359-366 | nothing is sent, and nothing changes, exactly for what does not parse or is a response |
| DnsReplies.NotLetThrough | daemon/hnc_httpd/dns_forwarder.go:391-398 | an outside query the limiter does not let through gets code 5 with its question and no records, and the answers held stay |
| DnsReplies.BlockedIsBlocked | daemon/hnc_httpd/dns_forwarder.go:400-410 | an outside query for a blocked name gets one all-zero address in zero mode, no records for other types, code 3 outside it, whatever is held and upstream says, and the answers held stay |
| DnsReplies.BlockedAlike | daemon/hnc_httpd/dns_forwarder.go:400-410 | its reply is the same for every cache, time and upstream |
| DnsReplies.HeldIsServed | daemon/hnc_httpd/dns_forwarder.go:413-424 | an answer held that has not run out is what the client gets, and becomes the most recently used |
| DnsReplies.FailsWithout | daemon/hnc_httpd/dns_forwarder.go:425-440 | without one, and with no answer or a mismatching one from upstream, the client gets code 2 |
| DnsReplies.PassedOn | daemon/hnc_httpd/dns_forwarder.go:425-452 | without one, an answer from upstream is what the client gets, and it is held from then on for its life exactly if it may be |
| DnsTakeover.Takeover.DoTick | daemon/hnc_httpd/dns_takeover.go:1005-1171 | a tick leads to the specified state from every state and for every input |
| DnsTakeover.Takeover.Apply | daemon/hnc_httpd/dns_takeover.go:1204-1239 | a failed apply removes the rules and goes to the error state |
| DnsTakeover.Takeover.GoFailOpen | daemon/hnc_httpd/dns_takeover.go:1242-1277 | retry time, doubled backoff, rules removed if active |
| DnsTakeover.Takeover.StopAll | daemon/hnc_httpd/dns_takeover.go:899-911 | forwarder closed, rules removed if active |
| DnsTakeover.Takeover.RemoveRules | daemon/hnc_httpd/dns_takeover.go:888-896 | the controller is inactive afterwards whether or not the script worked |
| DnsTakeover.Takeover.HealthCheck | daemon/hnc_httpd/dns_takeover.go:1143-1171 | differences of counters decide on failing open or resetting the backoff |
| DnsTakeover.Takeover.ChooseUpstream | daemon/hnc_httpd/dns_takeover.go:945-976 | the resolver chosen is the first that answers, in the specified order |
| DnsTakeover.Takeover.SetConfig | daemon/hnc_httpd/dns_takeover.go:1376-1380 | a user action clears the backoff and ticks |
| DnsTakeover.Takeover.Shutdown | daemon/hnc_httpd/dns_takeover.go:1280-1291 | a shutdown stops everything |
| DnsTakeoverRuns.TickSound | daemon/hnc_httpd/dns_takeover.go:1005-1171 | every tick keeps: rules only while active, active only with forwarder, upstream and known rules, backoff within 1..30 minutes |
| DnsTakeoverRuns.ActiveExactly | daemon/hnc_httpd/dns_takeover.go:1005-1171 | from any state, a tick ends active exactly if enabled on a hotspot with a forwarder and an upstream and: past the retry time with self-test and apply in order, if it was inactive; with the apply in order, if new rules are due; else with its health in order |
| DnsTakeoverRuns.CanServeIff | daemon/hnc_httpd/dns_takeover.go:1005-1171 | a forwarder is there if the one before listens on the present addresses or one can be opened on all of them or the first; an upstream if one answers, or the one before may stay |
| DnsTakeoverRuns.FailsOpenExactly | daemon/hnc_httpd/dns_takeover.go:159-170 | an active controller fails open exactly if the self-test failed, of 20 upstream queries or more half failed, or 10 redirected packets came to no query; ten healthy minutes reset the backoff |
| DnsTakeoverRuns.UserActsAtOnce | daemon/hnc_httpd/dns_takeover.go:1005-1171 | after a user action the retry time does not count, and failing open then means a minute |
| DnsTakeoverRuns.StartSound | daemon/hnc_httpd/dns_takeover.go:711-730 | a new controller without leftover rules meets these conditions |
| DnsTakeoverRuns.AlwaysSound | daemon/hnc_httpd/dns_takeover.go:1005-1391 | so in every run of ticks, actions and shutdowns; after a shutdown no rules are left |
| DnsTakeoverRuns.ActiveIsCurrent | daemon/hnc_httpd/dns_takeover.go:1005-1130 | while active after a tick, forwarder and rules are for the hotspot's present addresses |
| DnsTakeoverRuns.RetryRespected | daemon/hnc_httpd/dns_takeover.go:1096-1104 | after failing open, no run of ticks activates again before the retry time |
| DnsTakeoverRuns.FailingOpenCools | daemon/hnc_httpd/dns_takeover.go:1242-1277 | failing open sets the retry time to now plus the backoff |
| DnsTakeoverRuns.FailingDoubles | daemon/hnc_httpd/dns_takeover.go:1242-1256 | of the ticks that end in the fail-open state exactly those that fail open move the backoff up |
| DnsTakeoverRuns.BackoffOfFailures | daemon/hnc_httpd/dns_takeover.go:1242-1256 | in a row of ticks that end in the fail-open state the backoff after k failures is the lesser of 2^k and 30 minutes |
| DnsTakeoverRuns.SelfTestGuards | daemon/hnc_httpd/dns_takeover.go:1106-1143 | with a failed self-test the controller ends active exactly if it was and put new rules in place |
| DnsTakeoverRuns.LeftoversAtStart | daemon/hnc_httpd/dns_takeover.go:1005-1110 | leftover rules outlive the first tick exactly if enabled on a hotspot without reaching an apply |
| DnsTakeoverRuns.LeftoversSurviveOff | daemon/hnc_httpd/dns_takeover.go:899-911 | later not even switching off removes them |
| DnsTakeoverRuns.RemoveMustWork | daemon/hnc_httpd/dns_takeover.go:888-896 | a remove script that fails leaves rules without a controller, through any number of ticks while switched off |
| DnsTakeoverRuns.ChooseAnswers | daemon/hnc_httpd/dns_takeover.go:945-976 | the upstream chosen answered; system resolvers only if no tether address answers; none only if nothing answers; a custom one is never replaced |
| DnsTakeoverRuns.UpstreamFollows | daemon/hnc_httpd/dns_takeover.go:945-976 | behind an active controller is the custom resolver if one is set and answers, none formerly custom if another answers, and otherwise the one before or one that answered, looked at within a minute unless it is the tether's |
| ImportV2fly.FailsIfMissing | tools/import_v2fly.py:87-133 | expansion ends on every include graph and fails exactly if some include route leads to a missing list |
| ImportV2fly.FindsEverything | tools/import_v2fly.py:103-133 | an entry is found exactly if some include route, however it winds, leads to it through filters that let it pass: cutting circles loses nothing |
| ImportV2fly.LeaveOutCircles | tools/import_v2fly.py:114-133 | every include route has a shortened one that visits no list twice |
| DomainClaims.FindOwner | tools/import_v2fly.py:191-199 | the loop computes the specified longest owner |
| DomainClaims.LongestIsLongest | tools/import_v2fly.py:191-199 | the owner found is that of the longest covering suffix, and none is found exactly if no suffix covers |
| DomainClaims.ClaimList | tools/import_v2fly.py:270-303 | a list adds exactly its candidate hosts without owner that nobody claimed before |
| DomainClaims.ClaimGroup | tools/import_v2fly.py:253-303 | so does a target, over all its lists |
| DomainClaims.Build | tools/import_v2fly.py:251-331 | a host is claimed exactly if it has no owner and is some target's candidate, by the first such target; the rules are the non-empty claims; the claims extend the owners conservatively |
| DomainImport.FilterIff | tools/import_v2fly.py:103-111 | an include line lets an entry through exactly if it has every plain attribute named and none named with a dash |
| DomainImport.CandidateIff | tools/import_v2fly.py:268-288 | which lines stand for a host: no keyword or expression, no advertising outside its categories, well formed, no public suffix, not blocked, neither excluded nor below an excluded one |
| DomainImport.ListOffersIff | tools/import_v2fly.py:114-136 | a list offers a host exactly if no include route from it leads to a missing list, and some route leads to a line that stands for the host through include lines that all let it through |
| DomainImport.ClaimedExactly | tools/import_v2fly.py:251-303 | a host is claimed exactly if no existing suffix covers it and some target's lists offer it, and then by the first such target |
| DomainClaims.ConservativeExtension | tools/import_v2fly.py:251-303 | hosts with an owner keep it, by the same suffix; others get the target of their longest claimed suffix |
| DomainClaims.ImportExtends | tools/import_v2fly.py:251-303 | so it is for whatever the import has claimed in the end, for every host |
| DomainClaims.OneRuleEach | tools/import_v2fly.py:304-331 | each emitted suffix is in the rule of the target it was claimed for and in no other |
| DomainClaims.TargetsDiffer | tools/import_v2fly.py:304-331 | no two rules are for the same target |
| DomainClaims.RuleIdsDistinct | tools/import_v2fly.py:307-331 | rules of different targets share an id exactly if one is the child rule of an existing target and the other a new target of that name |
| CatalogAttach.Catalog.FindRoot | daemon/hnc_httpd/app_time.go:381-406 | the loop computes the specified root |
| CatalogAttach.Catalog.Attach | daemon/hnc_httpd/app_time.go:377-439 | attached applications are gone; every other one has its own suffixes in place and exactly those of the applications attached to it |
| CatalogAttach.RootIsEnd | daemon/hnc_httpd/app_time.go:381-406 | an application is attached exactly if its parent chain ends after one to eight steps, and to that end |
| CatalogAttach.RootStays | daemon/hnc_httpd/app_time.go:407-439 | no root is deleted |
| CatalogAttach.CirclesStay | daemon/hnc_httpd/app_time.go:381-406 | members of a circle are never attached |
| CatalogAttach.SuffixesKept | daemon/hnc_httpd/app_time.go:418-439 | no suffix is lost or made up; those of an attached application are with its root |
| CatalogAttach.SecondPass | daemon/hnc_httpd/app_time.go:377-439 | a second pass attaches nothing exactly if no chain of ten or more steps ends |
| CatalogAttach.TwoPassesDiffer | daemon/hnc_httpd/app_time.go:377-439 | a chain of ten steps is a catalogue that a second pass changes |
| FgTimeline.DropShortestOf | daemon/hnc_httpd/fg_model.go:952-963 | the loop drops the specified session |
| FgTimeline.Timeline.OpenSession | daemon/hnc_httpd/fg_model.go:920-950 | a session is opened or merged as specified, if the day has room for the device |
| FgTimeline.Timeline.ExtendSession | daemon/hnc_httpd/fg_model.go:965-988 | the last session's end moves on, never back |
| FgTimeline.Timeline.CloseSession | daemon/hnc_httpd/fg_model.go:990-1004 | an open session is extended to its end and closed |
| FgTimeline.Timeline.Decide | daemon/hnc_httpd/fg_model.go:645-682 | a change of the application shown closes one session and opens another; the open one is extended |
| FgTimeline.Timeline.ResetAll | daemon/hnc_httpd/fg_model.go:375-387 | all open sessions are closed and all devices forgotten |
| FgTimeline.Timeline.RollDay | daemon/hnc_httpd/fg_model.go:875-917 | at a new date the old day is cut at midnight and sessions in use go on |
| FgTimeline.Timeline.Step | daemon/hnc_httpd/fg_model.go:396-412 | a whole tick leads to the specified state |
| FgRuns.DropsTheShortest | daemon/hnc_httpd/fg_model.go:952-963 | the first of the shortest sessions goes, never the last one, and the others stay |
| FgRecord.ShownIsRecorded | daemon/hnc_httpd/fg_model.go:645-682 | after a tick the device's session is open if it was and the application is the same, or if there is room for a new one; the open one is of the application shown and ends no earlier than it was last active |
| FgRecord.GoesOnWhileShown | daemon/hnc_httpd/fg_model.go:671-682 | over runs, while an application stays shown its session stays the same one and ends at the latest activity seen, or its end before |
| FgRecord.SessionLength | daemon/hnc_httpd/fg_model.go:965-988 | while activity is not seen going back, the session ends at the greater of its start and the last activity |
| FgRecord.NewlyShown | daemon/hnc_httpd/fg_model.go:920-950 | another application shown ends the session before at its last activity and begins one, not before midnight nor within the last; the same one within two minutes goes on; of 600 one is dropped |
| FgRecord.NoLongerShown | daemon/hnc_httpd/fg_model.go:645-682 | nothing shown ends the session at the last activity |
| FgRecord.MidnightIs | daemon/hnc_httpd/fg_model.go:871-873 | midnight is the start of the local day in which a time lies |
| FgRecord.OverMidnight | daemon/hnc_httpd/fg_model.go:875-917 | a session open at midnight is cut there and goes on exactly if it reaches to within 30 seconds of it; any other stays on the old day and is closed |
| FgRecord.NotCarriedOn | daemon/hnc_httpd/fg_model.go:875-917 | an application in use around midnight that is not carried on, and not recorded on the new day as long as it stays shown |
| FgRecord.ResetEnds | daemon/hnc_httpd/fg_model.go:375-387 | a reset ends open sessions at their last activity, or at the reset if that is earlier, and forgets the devices |
| FgRecord.WhenReset | daemon/hnc_httpd/fg_model.go:396-412 | time that stands still or goes back resets at the last tick, a gap of more than 90 seconds ten seconds after it |
| FgRecord.AlwaysOpenOK | daemon/hnc_httpd/fg_model.go:645-1004 | in every run an open session is the last of its device and of the application shown |
| FgRuns.TickOrdered | daemon/hnc_httpd/fg_model.go:396-412 | every tick, whatever the clock does and whatever is shown, keeps all lists in order exactly if at a roll-over no open session ends and starts after the new midnight |
| FgRuns.AlwaysInOrder | daemon/hnc_httpd/fg_model.go:875-1004 | in every run from a timeline in order, today and before, sessions are in order, do not overlap, start no later than they end and number at most 600, exactly if no roll-over finds such a session |
| FgRuns.ResetOrdered | daemon/hnc_httpd/fg_model.go:375-387 | a reset keeps all lists in order, wherever it ends the sessions |
| FgRuns.CutOrdered | daemon/hnc_httpd/fg_model.go:875-917 | the cut at midnight keeps a list in order exactly if its open session does not end and start after it |
| FgClassic.Chooser.Tick | daemon/hnc_httpd/fg_model.go:507-634 | taking in, scoring, forgetting, ranking and choosing lead to the specified state of a device; new applications are admitted while there are fewer than 64 |
| FgClassic.Chooser.Enter | daemon/hnc_httpd/fg_model.go:514-528 | everything seen is noted, and as many new applications taken in as there is room for |
| FgClassic.Chooser.FindFirst | daemon/hnc_httpd/fg_model.go:587-599 | the first in rank: the highest score, of equal ones the least name |
| FgClassic.Chooser.Choose | daemon/hnc_httpd/fg_model.go:601-634 | leads and choice after ranking are those specified |
| FgClassic.StepSound | daemon/hnc_httpd/fg_model.go:507-634 | every tick keeps: scores come from activity, nothing is active later than now, leads are of one tick at most, and the one chosen is known and has been active |
| FgClassic.SwitchExactly | daemon/hnc_httpd/fg_model.go:601-634 | over two ticks: an application is newly chosen exactly if it is first with a score of 30 and was so in the tick before too, or has 60 and leads by 40 |
| FgClassic.ChosenHolds | daemon/hnc_httpd/fg_model.go:614-634 | whatever is chosen has a score of 20 or was active in the last 30 seconds, and stays exactly as long as that is so and no challenger qualifies |
| FgScores.InUseRises | daemon/hnc_httpd/fg_model.go:507-576 | the score of an application in use in every tick comes within a distance of what is seen of it that shrinks by a factor with every tick |
| FgScores.IdleFalls | daemon/hnc_httpd/fg_model.go:507-576 | the score of one not in use shrinks by a factor with every tick, down to nothing |
| FgScores.ChosenExactly | daemon/hnc_httpd/fg_model.go:587-634 | over two ticks, in numbers: newly chosen is exactly who has 30 and is first, of equal ones by name, now and in the tick before, or has 60 and 40 more than the one chosen |
| FgScores.GivenUpExactly | daemon/hnc_httpd/fg_model.go:601-634 | nobody is chosen exactly if the one chosen has less than 20 and was idle for more than 30 seconds, or is forgotten, and nobody takes its place |
| FgScores.KnownExactly | daemon/hnc_httpd/fg_model.go:514-583 | who is remembered after a tick: seen in the last 10 minutes, or chosen by either engine |
| FgScores.RoomExactly | daemon/hnc_httpd/fg_model.go:514-528 | never more than 64 are taken in, and with fewer all that is seen |
| FgScores.SinceExactly | daemon/hnc_httpd/fg_model.go:559-564 | activity after more than 20 seconds, and one and a half ticks, begins anew at the start of the tick |
| FgClassic.ShownHasBeenActive | daemon/hnc_httpd/fg_model.go:507-634 | in every run of a device the application shown was active in some tick, the one it remembers |
| FgClassic.ClassicRunsInOrder | daemon/hnc_httpd/fg_model.go:396-682 | under the classic engine the timeline is in order in every run, whatever is seen and whatever clocks and resets do |
| FgRuns.ActiveRunsInOrder | daemon/hnc_httpd/fg_model.go:875-1004 | runs in which every application shown has been active stay in order, whatever clocks and resets do |
| FgRuns.StartOrdered | daemon/hnc_httpd/fg_model.go:231-233 | an empty timeline is in order |
| FgRuns.StartTimely | daemon/hnc_httpd/fg_model.go:231-233 | an empty timeline meets the hypothesis of ActiveRunsInOrder |
| FgRuns.MidnightSplit | daemon/hnc_httpd/fg_model.go:875-917 | a session in use at midnight ends there and goes on there, for the same application |
| FgRuns.JumpsCanBreakOrder | daemon/hnc_httpd/fg_model.go:875-917 | a run with two clock jumps and a never-active application, as only the experimental engine shows, whose finished day holds a session that ends before it starts |
| ClockGuard.ClockDir.SaneMono | daemon/hnc_httpd/clock_guard.go:189-225 | verdict and mark after a sample are those specified, including both ways of healing |
| ClockGuard.ClockDir.NoteTime | daemon/hnc_httpd/clock_guard.go:233-260 | the mark moves on and is written when due |
| ClockGuard.ClockDir.Save | daemon/hnc_httpd/clock_guard.go:250-260 | the mark is written if forced or 5 minutes ahead of the file, and only a write that succeeds counts |
| ClockGuard.Writer.Check | daemon/hnc_httpd/clock_guard.go:324-352 | guard, mark and verdict after a sample are those specified |
| ClockGuard.StartKept | daemon/hnc_httpd/clock_guard.go:163-186 | a guard opened on any file meets the hypothesis of the next ones |
| ClockGuard.NeverFarBack | daemon/hnc_httpd/clock_guard.go:189-260 | over any number of restarts, with writes succeeding and no healing, every accepted time is later than every earlier accepted one less 15 minutes, if that one was noted or lay less than 15 minutes above the lowest acceptable time |
| ClockGuard.LowestExactly | daemon/hnc_httpd/clock_guard.go:189-260 | exactly the times from the lowest on, the greater of 2025 and 10 minutes before the saved mark, can be accepted by some such run |
| ClockGuard.AskedBinds | daemon/hnc_httpd/clock_guard.go:228-230 | a time only asked for binds the later ones exactly if it lies less than 15 minutes above the lowest |
| ClockGuard.AskedFallsBack | daemon/hnc_httpd/clock_guard.go:228-230 | a run that asks a day ahead and is then accepted a day back |
| ClockGuard.BoundIsReached | daemon/hnc_httpd/clock_guard.go:233-260 | 15 minutes less a second do occur |
| ClockGuard.BeforeTheMinimum | daemon/hnc_httpd/clock_guard.go:194-220 | a time before 2025 is accepted exactly if it heals the mark, and lies at most 14 hours before |
| ClockGuard.BehindTheMark | daemon/hnc_httpd/clock_guard.go:194-220 | a time too far behind the mark is accepted exactly if it heals the mark, which is then set to it |
| ClockGuard.AcceptedExactly | daemon/hnc_httpd/clock_guard.go:189-225 | after any number of refused samples a time is accepted exactly if it is neither before 2025 nor 10 minutes behind the mark, or local time is in 2025 and the system sets the clock and is up for 10 minutes, or 6 hours are over since the first refused sample in 2025; the mark is then set to it |
| ClockGuard.BackAfterReset | daemon/hnc_httpd/clock_guard.go:194-220 | such times do occur: an hour before 2025, any time of 2025 up to the mark, and as far back after a failed write and a restart |
| ClockGuard.GoodMeans | daemon/hnc_httpd/clock_guard.go:324-352 | a sample is judged good exactly if it is trusted, wall and monotonic clock agree within 10 minutes since the last trusted sample, and no distrust in between lasted longer |

## Left out

- Concurrency: every method is one atomic step; goroutines, locks, sockets, timeouts and in-flight limits are not modelled, nor are queries whose arrival times go back slightly because they were stamped in parallel.
- Accounting assumes what the kernel provides: lifetimes on one key do not overlap, counters only grow, a snapshot lists a key once, an event is stamped no earlier than its connection ends, and an event missing from its batch never comes. The line cap of the connection table and the discarded interval of a clock jump are not modelled.
- 64-bit overflow of byte counters: counters are unbounded.
- Floating point: megabit values and tokens are reals. The upper rate bound is 10*1024*1024 kbit, as the code has it, not the round ten gigabit of its comment.
- Names are lowered within ASCII. The program also folds letters beyond it and puts one replacement character for every octet that is not valid UTF-8, so names with such octets share a text more often than the model says.
- DnsHits.HitReads: is for answers none of whose names runs through the header or a TTL field or takes octets of the question for a pointer; for others only the octets are specified (`ServedTouches`, `ServedTTLs`).
- Address texts in parsed answers are kept as octets; following CNAME chains for the log and the name table is left out.
- DNS upstream exchange (retries, TCP fallback, ID rewriting) is an input of `DnsForwarder.Forwarder.Handle`; the block list and the hotspot's own addresses are inputs too.
- Local time: midnight has a fixed offset from UTC; changes of daylight saving time are not modelled. Calendar days in the ledger are given as dates.
- Timeline sessions carry application, start and end; names, confidence and engagement counts are left out, as are the score of a tick from its traffic, the choice of the experimental engine, switching between engines, the limit on known devices, and loading a day that was saved before a restart.
- Clock guard: the shell helpers write the same mark file (`bin/hnc_clock.sh:62`); only the daemon's own writes are modelled.
- Files, JSON, checksums and scripts are values, functions or success flags.
- DnsTakeover.Takeover.ChooseUpstream: a configured resolver is given in its normal form; one that has none, where the program looks for no other and finds no upstream, is not modelled, because the loader drops it.
- Takeover: log and alert texts, the fail-open counter, the IPv6 status text and the forwarder's own block mode.
- Import: host syntax, normalisation and the public-suffix list are parameters; line parsing, counters of the report and splitting into files are left out.
- Attachment: the order in which suffixes of several children are appended is not specified, only that own suffixes come first.
- The quota controller's history floor, alert texts, simulated devices and audit log are left out.
- Scoring, statistics and fingerprint confidence add tuned arithmetic only; HTTP handlers, views, exports and password handling are input, output and presentation.
- CtEventBuffer.CtEvents.Overrun: does not model what the kernel dropped, because no count of it is available.
