# Verified model of Trench's core logic

This project models, in Dafny, the parts of the Trench DNS/DHCP server whose
correctness no single function body shows, and proves what they promise over
every input, every run and every interleaving.

- **Dynamic update** (`Dns`, `Zones`, `Updates`, `UpdateInvariants`, `UpdateMeaning`,
  `UpdateDemand`, `UpdateRcodes`): the handler of RFC 2136 messages on a zone with a
  bounded journal, what every run of them keeps, when it does what the RFC demands and
  with which error it refuses. Main theorems:
  `UpdateInvariants.RunKeepsSound`, `UpdateDemand.UpdateFollowsDemand`.
- **Zone replication** (`Xfr`, `AxfrRoundTrip`, `DeltaReplay`, `StepReplay`, `Convergence`,
  `SecondSoa`): RFC 5936 and RFC 1995 streams, their framing, the receive loop and the
  secondary's reading of the flat stream. Main theorems:
  `Convergence.RunReplicatesExactly`, `Convergence.ReplicationConverges`.
- **Cross-process cache memory** (`ShmLock`, `SharedMemory`, `SharedCacheRuns`,
  `SharedCacheProgress`, `SharedCacheLaws`, `Caches`, `CacheRuns`): locks with a bounded
  wait, the slot table over raw octets, a state machine in which any process may be
  killed between any two octets, and the local store of each worker on top. Main theorems:
  `SharedCacheRuns.NoTornReadsFromStart`, `CacheRuns.EveryHitIsJustified`.
- **Wire replay** (`FastWire`, `FastWritten`, `FastReplay`, `FastTable`): the byte walkers
  and what they find in a written message, the replay key, in-place patching, and the
  replay table over whole runs.
- **Matching** (`Globs`, `FilterEngine`, `FilterLaws`): the greedy glob matcher against the
  declarative meaning of `*`; the compiled rule index against a scan of all rules, and
  what each modifier of a rule lets through.
- **Authoritative lookup** (`ZoneLookup`, `LookupLaws`): delegation, the one-pass closest
  encloser, wildcards and CNAME chains.
- **TSIG** (`Tsig`, `TsigWritten`, `TsigIntegrity`, `ReplayWindows`, `TsigReplay`): signing and
  verifying octets, what the MAC covers, and the replay window. Main theorems:
  `TsigIntegrity.AcceptedIsSigned`, `TsigReplay.SignedAtMostOnce`.
- **DHCP** (`DhcpPackets`, `DhcpScopes`, `DhcpLaws`) and **rate limiting** (`RateLimiters`,
  `RateLaws`).

`Messages` lays out written DNS messages octet by octet; `Bytes`, `Sets` and `Wrappers`
hold octet encodings, set sizes and the option and result types.

Code that works step by step is modelled by classes and methods with loops, each
proved equal to a function of its inputs or of the old state; the theorems are
lemmas about those functions, and the runs are sequences of those steps.

A name is its sequence of lowercased labels, leaf first. Two rdata values are equal
when their presentation texts are, the only comparison the update and transfer code
makes. HMAC, the key hash, the regular expression engine, the message codec, the
zone signer, the clock and the gates around the replay table are parameters.

## What came out

Some promises hold only under a condition. It is proved to be the exact one where a
theorem below says "if and only if"; each of the others comes with an input that
breaks the promise.

- The handler departs from RFC 2136 section 3.4.2.2 for some additions, and exactly for
  these: a CNAME that would replace another one or its TTL, a CNAME beside other types
  or another type beside a CNAME, an SOA that is not there yet, another TTL for a record
  that is there, and a WKS record for a service that has one
  (`UpdateDemand.OneFollowsExactly`, `UpdateDemand.WrongAdditionsHappen`).
- It carries out a formed message if and only if the RFC has it do so and no
  prerequisite asks for an RRset that another one spells out: the "exact RRset" of
  trench/auth_zone/update.py:50 is gathered from the prerequisites of every class
  (`UpdateDemand.AdmissionExactly`, `UpdateDemand.MixedIsRefused`). The form itself is
  not checked: prerequisites of a foreign class, for names outside the zone, or with
  rdata beside class ANY get through, and update records that the prescan of section
  3.4.1 refuses are carried out (`UpdateDemand.UnformedIsAdmitted`,
  `UpdateDemand.UnformedUpdateIsAdmitted`).
- A refused message is answered with the error of the first prerequisite that fails. RFC
  2136 section 3.2.5 compares the RRsets spelled out after all other prerequisites; the
  handler takes them in their place, and the errors agree if and only if the first that
  fails is none of these, or the RFC too comes to NXRRSET
  (`UpdateRcodes.PrerequisiteOrderExactly`, `UpdateRcodes.OrderMatters`).
- Replaying a journal step (deletions, then additions) gives the updated zone if
  and only if the message never deletes a record it has itself added
  (`DeltaReplay.ReplayExact`, `StepReplay.StepConvergesExactly`). Such a record stays
  behind at the secondary until a later message deletes it without having added it: a
  pull by delta converges if and only if, for every record, the last message since that
  deleted it had not added it before (`Convergence.RunReplicatesExactly`).
- A full transfer carries a zone exactly if and only if it has one SOA record, at
  the apex, and no RRSIG kept as an ordinary record (`AxfrRoundTrip.AxfrRoundTripExact`).
  An UPDATE can add either. A delta carries such an RRSIG, and never a second SOA: a
  clean message reaches a secondary one version behind if and only if it added no SOA
  (`SecondSoa.OneUpdateReplicatesExactly`, `SecondSoa.SoaAdditionIsLost`).
- `ixfr_complete` takes the first record alone for an up-to-date reply, so a
  transfer whose first envelope holds one record ends there
  (`Convergence.ReceiveExact`); framing never makes such an envelope unless two
  records overflow one (`Xfr.ChunkIntoMessages`).
- The serial bump can make the apex SOA a copy of another one there. A message leaves
  the apex SOA set without duplicates if and only if it is refused or without effect, or
  the bumped SOA is neither among the others there nor among those it asks to add
  (`UpdateInvariants.SoaStaysSingleExactly`, `UpdateInvariants.SoaAdditionCanDuplicate`).
- The closest-encloser scan is right for every name of the zone if and only if
  every owner, read as if it lay under the apex, is a name of the zone
  (`ZoneLookup.ScanIsExact`); an owner outside the zone can mislead it.
- An alias is followed under a zone cut, and what lies there is handed out with AA set.
  An authoritative answer holds a record owned under a cut if and only if there is an
  alias or the type to answer with, and the name asked for is a cut, asked for its DS, or
  its aliases lead under one
  (`ZoneLookup.GlueInAnswerExactly`, `ZoneLookup.GlueIsAnswered`).
- The compiled block table drops domains longer than 255 octets. Its comment
  (trench/filter/shared.py:125-127) says the caller keeps them as rules; the caller
  (trench/filter/engine.py:149-155) does not. Names of at most 255 characters are
  unaffected (`FilterEngine.LongRulesDoNotMatter`, `FilterEngine.LongRuleIsLost`).
- A TSIG message is accepted again, if nothing else stands against it, if and only if
  some turn since it was last accepted cleared the replay window or accepted the same
  key and found the time outside its own window (`ReplayWindows.AcceptedAgainExactly`).
  A narrower window does the latter and one key too many the former
  (`ReplayWindows.NarrowWindowForgets`, `ReplayWindows.OneKeyTooManyForgets`).
- A MAC may be cut to half its length (trench/auth_zone/tsig.py:303-308) and the window
  compares whole MACs: whatever message is signed, a copy with the MAC cut short passes
  after the original (`TsigReplay.CutCopyPasses`). Signed octets are accepted twice only
  with MACs of two lengths (`TsigReplay.SignedAtMostOnce`).
- The rate bound needs no assumption about evictions: each one costs at most one
  more burst (`RateLimiters.AllowedAtMost`). Collecting idle buckets changes no decision
  while there is room; with the table full it can (`RateLimiters.FullTableChangesDecision`).
- A full cache flush reaches the shared memory and the flushing worker's own store;
  other workers keep answering from theirs (`CacheRuns.FlushSparesOthers`).

## Model

| member | source | states |
|---|---|---|
| Zones.Zone.Add | trench/auth_zone/zone.py:40-42 | The record is appended to its RRset, the RRset takes the new TTL, and nothing else changes. |
| Zones.Zone.SetSerial | trench/auth_zone/update.py:62-66 | Editing the SOA rdata in place changes the serial of the first apex SOA and nothing else. |
| Zones.WithSerialRrset | trench/auth_zone/update.py:62-66 | After the edit every RRset but the apex SOA set is the same, and of that set only the first serial moves. |
| Zones.RrsetsDetermineRecords | trench/auth_zone/zone.py:27-42 | A store without empty nodes and RRsets is determined by its RRsets. |
| Updates.CheckPrerequisites | trench/auth_zone/update.py:30-55 | The loop returns the rcode of the first prerequisite that fails, NOERROR if none does. |
| Updates.ApplyOneInPlace | trench/auth_zone/update.py:114-163 | Editing the dictionaries in place is the update of the zone value, with both lists extended to match. |
| Updates.ApplyUpdateInPlace | trench/auth_zone/update.py:69-111 | The whole handler on the zone object computes the new zone value and the rcode that ApplyUpdate defines. |
| Updates.Admit | trench/auth_zone/update.py:72-101 | All checks happen before the zone is touched, and give the rcode in their order. |
| Updates.SoaSurvives | trench/auth_zone/update.py:114-163 | Whatever the records of a message say, the apex keeps its SOA in first place. |
| UpdateMeaning.PrerequisitesMean | trench/auth_zone/update.py:30-59 | What the handler takes prerequisites to say: it accepts them if and only if each has TTL 0 and the name or RRset exists, does not exist, or is what all prerequisites for it together hold. |
| UpdateMeaning.OneOutcome | trench/auth_zone/update.py:114-163 | What one update record makes of each RRset: emptied, one record taken out, one appended if absent, apex SOA and last apex NS protected, every other RRset alone. |
| UpdateMeaning.AllOutcomes | trench/auth_zone/update.py:103-108 | A message acts on every RRset by itself, its records in order. |
| UpdateMeaning.UpdateOutcome | trench/auth_zone/update.py:69-111 | An admitted update takes every RRset but the apex SOA through its records in that way; a refused one leaves every RRset alone. |
| UpdateDemand.OneFollowsExactly | trench/auth_zone/update.py:114-163 | After one update record a node is what RFC 2136 section 3.4.2 demands, records and TTLs, if and only if the record is none of the listed additions. |
| UpdateDemand.AllFollowExactly | trench/auth_zone/update.py:102-103 | A node is as demanded after each record of a message if and only if none of them is such an addition when it comes to it. |
| UpdateDemand.PrerequisitesExactly | trench/auth_zone/update.py:30-59 | Formed prerequisites pass if and only if they hold as RFC 2136 section 3.2 defines it, with RRsets gathered from those of class IN, and none asks for an RRset that another spells out. |
| UpdateDemand.AdmissionExactly | trench/auth_zone/update.py:69-101 | A formed message on a zone without empty records is carried out if and only if the RFC and the policy have it so and its prerequisites are not mixed. |
| UpdateDemand.MixedIsRefused | trench/auth_zone/update.py:50-59 | Whatever the RRset, a class-ANY prerequisite beside the class-IN one that holds is answered NXRRSET, where the RFC has the message carried out. |
| UpdateDemand.UnformedIsAdmitted | trench/auth_zone/update.py:30-55 | Three families of prerequisites that the RFC refuses and the handler lets through. |
| UpdateDemand.UnformedUpdateIsAdmitted | trench/auth_zone/update.py:82-96 | So is every update record that is permitted and of a known class but refused by the prescan of RFC 2136 section 3.4.1. |
| UpdateDemand.AdmissionMeans | trench/auth_zone/update.py:69-101 | Exactly which messages, formed or not, the handler carries out. |
| UpdateDemand.UpdateFollowsDemand | trench/auth_zone/update.py:69-111 | Both together for the handler: which formed messages it carries out, that a refused one changes nothing, and that an accepted one leaves every node as demanded, the apex SOA apart, unless one of its additions is listed. |
| UpdateDemand.SingleFollowsExactly | trench/auth_zone/update.py:69-163 | An admitted message of one record, not for the apex SOA, leaves its node as demanded if and only if the record is not such an addition. |
| UpdateDemand.WrongAdditionsHappen | trench/auth_zone/update.py:159-163 | One zone and one admitted message for each kind of such an addition, with a result that is not the demanded one. |
| UpdateRcodes.FirstPrerequisiteAnswers | trench/auth_zone/update.py:30-55 | The first prerequisite that fails decides the error, and nothing changes: FORMERR for a TTL, NXDOMAIN and NXRRSET for a name or RRset that is not there, YXDOMAIN and YXRRSET for one that is, NXRRSET for one that is not the same. |
| UpdateRcodes.RefusalAnswers | trench/auth_zone/update.py:69-98 | Every other refusal: FORMERR for another question than an SOA, NOTAUTH for another zone; after the prerequisites NOTZONE or REFUSED for the first record outside the zone or outside the policy, then FORMERR for a foreign class, SERVFAIL for a zone without an SOA. |
| UpdateRcodes.PrerequisiteOrderExactly | trench/auth_zone/update.py:30-55 | Formed prerequisites that fail are answered as RFC 2136 section 3.2.5 orders them if and only if the first that fails is of class ANY or NONE, or the first of these that fails asks for an RRset, or none of these fails and the RFC refuses the message too. |
| UpdateRcodes.OrderMatters | trench/auth_zone/update.py:30-55 | An RRset spelled out that is not there, before one that is there and is to be absent, is answered NXRRSET, where the RFC answers YXRRSET. |
| UpdateInvariants.OneRrset | trench/auth_zone/update.py:114-163 | An update record leaves an RRset alone, empties it, takes out one record, or adds one that was not there; the apex SOA is never shrunk and the last apex NS never taken. |
| UpdateInvariants.ApexNsSurvives | trench/auth_zone/update.py:120-150 | A non-empty apex NS set without duplicates never becomes empty, whatever the message. |
| UpdateInvariants.EffectBumpsSerial | trench/auth_zone/update.py:69-111 | A refused message and one without effect leave the zone as it was; any other moves the serial by exactly one modulo 2^32 and journals the step from the old serial to the new one, with both lists of the message. |
| UpdateInvariants.UpdateKeepsSound | trench/auth_zone/update.py:69-168 | One message keeps: an apex SOA, no empty node or RRset, no record twice outside the apex SOA set, a contiguous journal of at most 64 steps that ends at the current serial, and a non-empty apex NS set. |
| UpdateInvariants.RunKeepsSound | trench/auth_zone/update.py:69-168 | So does every run of messages, each under its own policy. |
| UpdateInvariants.SoaStaysSingleExactly | trench/auth_zone/update.py:62-111 | The exact rest: a message keeps the apex SOA set without duplicates if and only if it is refused, logs neither deletion nor addition, or the bumped SOA is neither among the other apex SOAs nor among those it asks to add. |
| UpdateInvariants.SoaAdditionCanDuplicate | trench/auth_zone/update.py:62-66 | An admitted message after which the apex SOA set holds one record twice. |
| Xfr.AxfrRecords | trench/auth_zone/xfr.py:41-62 | The nested loops emit the SOA, every RRset with its signature, the apex SOA's signature and the SOA, each owner once. |
| Xfr.IxfrRecords | trench/auth_zone/xfr.py:129-139 | The loop emits the SOA, per step old SOA, deletions, new SOA, additions, and the closing SOA. |
| Xfr.Flush | trench/auth_zone/xfr.py:80-90 | Splitting loses and reorders nothing, and each envelope fits 60,000 octets or holds one record. |
| Xfr.ChunkIntoMessages | trench/auth_zone/xfr.py:65-77 | The concatenated answers are the record list in order; each envelope has at most 100 records and fits or holds one record; the first envelope holds at least two records of a list whose head fits. |
| Xfr.IxfrMessages | trench/auth_zone/xfr.py:97-113 | The reply to a client's serial carries a single SOA, the journal's delta or the full zone, as its serial, the journal and signing require. |
| Xfr.TransferRecords | trench/auth_zone/secondary.py:66-90 | The receive loop adds up envelopes until the records look complete; it fails when they run out, and before an envelope when records, octets, envelopes or time are over their ceiling. |
| Xfr.LimitsOnlyRefuse | trench/auth_zone/secondary.py:66-90 | The ceilings only refuse: what is received within them is what is received without, and every transfer that stays under them is. |
| Xfr.ReceivedExactly | trench/auth_zone/secondary.py:66-90 | A transfer is received if and only if some of its first envelopes make it whole, and before each of them, the last one included, records, octets, envelopes and time were within the ceilings. |
| Xfr.ZoneFromRecords | trench/auth_zone/xfr.py:161-177 | The loop keeps the first SOA, files signatures under the type they cover and adds every other record. |
| Xfr.RemoveRR | trench/auth_zone/xfr.py:246-257 | Removing a record in place removes every copy of it, and its RRset and node once empty. |
| Xfr.ApplySteps | trench/auth_zone/xfr.py:220-239 | The index loop over the flat stream applies step after step, or fails on a truncated delta. |
| Xfr.ApplyIxfrRecords | trench/auth_zone/xfr.py:203-243 | The reply is read as up to date, full zone or delta; the zone held before is not touched, a delta goes to a fresh copy. |
| AxfrRoundTrip.LoadRrset | trench/auth_zone/xfr.py:161-177 | After its first SOA a stream adds to each RRset its own records in order, and nothing else. |
| AxfrRoundTrip.AxfrRoundTripExact | trench/auth_zone/xfr.py:41-62 | Loading the full stream of a zone rebuilds its records if and only if the zone is representable, and then its TTLs and signatures too; for every order of owners. |
| DeltaReplay.OneReplays | trench/auth_zone/update.py:114-163 | The entries that an update record logs, replayed as deletions then additions, are what it does to each RRset, in order. |
| DeltaReplay.LeavesExactly | trench/auth_zone/update.py:103-111 | The two lists and the updated RRset tell, record by record, what a message deletes after adding it. |
| DeltaReplay.ReplayExact | trench/auth_zone/update.py:103-111 | The deletion and addition lists of a message replay to the updated RRsets, in order, if and only if the message deletes nothing it has added. |
| Convergence.SerialGtIsCircular | trench/auth_zone/xfr.py:30-34 | The comparison is RFC 1982's: newer by less than half of the 32-bit circle. |
| StepReplay.StepKeepsSameBut | trench/auth_zone/xfr.py:220-239 | A step replayed on a copy with records left behind leaves behind what the step leaves and what it does not delete; all else, order and TTLs included, is as at the primary. |
| StepReplay.StepConvergesExactly | trench/auth_zone/xfr.py:220-239 | A secondary one version behind that replays the step agrees with the primary if and only if the update was clean. |
| Convergence.FullStreamEndsOnce | trench/auth_zone/xfr.py:181-200 | Of an AXFR-style stream only the whole, or its first record alone, looks complete. |
| Convergence.DeltaStreamEndsOnce | trench/auth_zone/xfr.py:181-200 | The same of a delta stream whose last step, and no other, reaches the current serial. |
| Convergence.ReceiveExact | trench/auth_zone/secondary.py:66-90 | However the stream is cut into envelopes, the loop returns all of it, except when the first envelope holds only the first record. |
| Convergence.RunIsChain | trench/auth_zone/update.py:69-168 | A run of messages that add no SOA is a history of versions linked by journal steps, the journal is its newest part, and it leaves behind what the messages do. |
| Convergence.DeltaIsOwn | trench/auth_zone/xfr.py:116-126 | The journal lookup by serial finds the step of the client's own version, across the wrap at 2^32. |
| Convergence.DeltaConverges | trench/auth_zone/xfr.py:203-243 | Applying the delta of any part of a history to the version it starts from gives the current version if and only if that part leaves nothing behind. |
| Convergence.FullConverges | trench/auth_zone/xfr.py:203-243 | Applying a full transfer of a zone with one SOA gives the primary's zone, whatever the secondary held, if and only if no RRSIG is kept as an ordinary record. |
| Convergence.SignedZoneConverges | trench/auth_zone/xfr.py:106-110 | A signed zone is sent in full and arrives with its records, TTLs and signatures. |
| Convergence.RunReplicatesExactly | trench/auth_zone/xfr.py:97-243 | After any run that adds no SOA, a secondary holding the zone as it was at any point of it, less than 2^31 versions behind, pulls the primary's records, TTLs and serial if and only if it is up to date, or the first envelope holds two records and either the journal reaches back and no record was last deleted by a message that had added it, or it does not and no RRSIG is kept as an ordinary record. |
| Convergence.ReplicationConverges | trench/auth_zone/xfr.py:97-243 | After any clean run that adds no SOA, a secondary holding any version less than 2^31 behind pulls the primary's records, TTLs and serial, whichever shape the reply has and however it is cut, if and only if it is up to date, or the first envelope holds two records and the journal reaches back to its version or no RRSIG is kept as an ordinary record. |
| SecondSoa.SecondSoaNeverArrives | trench/auth_zone/xfr.py:203-243 | Whatever the journal and the framing, a secondary whose copy has one SOA never arrives at a zone that has not. |
| SecondSoa.OneUpdateReplicatesExactly | trench/auth_zone/xfr.py:203-243 | A clean message on a plain zone with an empty journal reaches a secondary one version behind if and only if it added no SOA. |
| SecondSoa.SoaAdditionIsLost | trench/auth_zone/xfr.py:220-239 | An admitted message that adds an apex SOA, after which no answer, however framed, brings the primary's zone. |
| ShmLock.BoundedLocks.Hold | trench/shmlock.py:42-63 | Holding a lock: at most one bounded wait, a written-off lock is skipped until its retry time and then probed without waiting. |
| ShmLock.DeadHolderCostsOneWait | trench/shmlock.py:42-67 | However often a lock held by a dead process is asked for, a process waits for it at the first attempt at most, and never gets it. |
| ShmLock.FreedLockIsFoundAgain | trench/shmlock.py:48-57 | A lock that was written off is taken by the first attempt that finds it free after the retry time. |
| SharedMemory.HeaderRoundTrip | trench/cache/shared.py:71-93 | A slot header unpacks to what was packed. |
| SharedMemory.SlotsAreDisjoint | trench/cache/shared.py:67-69 | Writing an octet of one slot changes that slot and no other. |
| SharedMemory.SharedCache.Get | trench/cache/shared.py:71-83 | If the stripe can be had, the answer is the entry of the key's slot, whole, while its lifetime lasts; otherwise nothing. |
| SharedMemory.SharedCache.Put | trench/cache/shared.py:85-93 | Writing header and payload in place makes the memory picture the table with this entry; what does not fit changes nothing. |
| SharedMemory.SharedCache.Delete | trench/cache/shared.py:95-104 | The key's slot no longer answers it, and no other entry changes. |
| SharedMemory.SharedCache.Clear | trench/cache/shared.py:106-122 | The strided loops blank every slot of each stripe that can be had exactly once, and leave the other stripes alone. |
| SharedCacheRuns.DoKeepsInv | trench/cache/shared.py:67-122 | Every octet written, step taken, or process killed keeps: a slot of a free stripe is a whole entry or blank. |
| SharedCacheRuns.NoTornReads | trench/cache/shared.py:67-122 | In every interleaving, kills included, a get that answers returns the octets of one completed put under the same key hash. |
| SharedCacheRuns.NoTornReadsFromStart | trench/cache/shared.py:60-122 | The same from a freshly mapped memory and any number of processes. |
| SharedCacheRuns.WedgedStripeAnswersNothing | trench/shmlock.py:41-67 | Once the holder of a stripe is dead, no get is ever answered from that stripe. |
| SharedCacheProgress.PutCompletes | trench/cache/shared.py:85-93 | From any reachable state, a put that is let finish stores its record in its slot, changes no other entry and frees the stripe. |
| SharedCacheProgress.GetAnswers | trench/cache/shared.py:71-83 | A get that is let finish answers with its slot's entry if and only if that is under its key and still alive, and changes nothing. |
| SharedCacheProgress.DeleteCompletes | trench/cache/shared.py:95-104 | A delete that is let finish takes out its key's entry, if its slot holds it, and nothing else. |
| SharedCacheProgress.ClearCompletes | trench/cache/shared.py:106-122 | A clear that is let finish blanks every slot of the stripes that are free, and nothing else. |
| SharedCacheLaws.PutDisplacesItsRemainder | trench/cache/shared.py:67-93 | After a put, a key with another remainder modulo the slots is answered as before, the key itself with what was put while it lives, and the other keys of its remainder not at all. |
| SharedCacheLaws.EverySlotServes | trench/cache/shared.py:67-93 | Keys 0 up to the number of slots, put in turn, are all answered with their own records. |
| SharedCacheLaws.OtherStripesGoOn | trench/cache/shared.py:67-83 | While one process is in the middle of a put, a key of another stripe is answered as if nobody were writing. |
| SharedCacheLaws.PutAndAsk | trench/cache/shared.py:71-93 | The first of these on the octets of the class. |
| Caches.TtlIsHonest | trench/cache/cache.py:223-235 | A stored TTL lies between floor and ceiling, and above the floor never exceeds a record's TTL, nor for a negative answer the SOA's TTL, its MINIMUM or the negative TTL. |
| Caches.TtlIsNoShorter | trench/cache/cache.py:223-235 | It is no less than any time that these bounds and the ceiling allow. |
| Caches.GetShows | trench/cache/cache.py:125-190 | Every hit has, section by section and record by record, the body, SOA and OPT of what is held, with the whole seconds left as its TTL if fresh and 30 if stale, and the rest of that message. |
| Caches.Cache.Get | trench/cache/cache.py:125-190 | The lookup on the ordered dictionary gives the new store that GetResult defines, order included, and a hit that shows what is held record by record, with the whole seconds left or, stale, 30. |
| Caches.Cache.Put | trench/cache/cache.py:192-221 | The store after a put, and what is written through. |
| Caches.EvictionKeepsNewest | trench/cache/cache.py:213-215 | Eviction keeps exactly the most recently used entries, as many as fit. |
| CacheRuns.FailuresLeaveNoTrace | trench/cache/cache.py:195-204 | Any run of puts, gets and flushes leaves every worker's store, its order and the shared memory as the run without its failures does. |
| Caches.PutIsLast | trench/cache/cache.py:208-215 | A stored answer is there afterwards, used last, with the deadline its TTL sets. |
| Caches.PutIsServed | trench/cache/cache.py:125-152 | Until that deadline a lookup answers with the message put, its TTLs the whole seconds left. |
| Caches.PutIsServedStale | trench/cache/cache.py:125-165 | After it the message is served with TTL 30 to those who accept a stale answer, as long as the grace says, and to nobody else. |
| Caches.NotKeptIsNotServed | trench/cache/cache.py:192-204 | A failure, or an answer with records and without any time to live, leaves the store as it was. |
| Caches.GetStaysBounded | trench/cache/cache.py:181-187 | A get, promotion included, never takes the store over its limit. |
| CacheRuns.RunKeepsInv | trench/cache/cache.py:125-299 | Over every run of put, get and flush by all workers, each entry, local or shared, is some put since the last flush of its place, fresh no longer than that put. |
| CacheRuns.PromotionNeverExtends | trench/cache/cache.py:169-190 | An entry taken over from the shared memory expires when the shared record does, less the time between the two readings of the clock. |
| CacheRuns.EveryHitIsJustified | trench/cache/cache.py:125-190 | Every hit shows, record by record, an answer that some worker put under that key since this worker's last flush; fresh, its deadline has not passed and every TTL is the whole seconds of a time left that does not lead beyond it; stale, it was asked for, every TTL is 30 and the grace has not passed. |
| CacheRuns.OtherWorkersBenefit | trench/cache/cache.py:216-221 | What one worker has put, another one that does not hold it gets until the put's deadline, with the seconds left. |
| CacheRuns.SomeRunIsFaithful | trench/cache/cache.py:125-221 | An environment and a run that meet the hypotheses of these theorems, in which a put by one worker is a hit for another. |
| CacheRuns.FlushSparesOthers | trench/cache/cache.py:272-284 | After one worker's flush another still answers from its own store. |
| FastWire.ComputeQueryKey | trench/engine/fastpath.py:50-92 | The cursor loop accepts exactly the replayable queries and yields key and question end. |
| FastWire.KeyIdentifiesQuery | trench/engine/fastpath.py:50-92 | Two accepted datagrams have equal keys if and only if they differ at most in the id and the letter case of the question name; then the question ends coincide. |
| FastWire.ComputeTtlOffsets | trench/engine/fastpath.py:95-127 | The loops return the TTL offsets of all records but OPT, or nothing for a malformed message. |
| FastWire.ComputeEdnsOption | trench/engine/fastpath.py:130-168 | The walk returns the option that EdnsOption defines; what that is in a written message FastWritten says. |
| FastWritten.OptionIsFound | trench/engine/fastpath.py:130-168 | In every written message whose OPT record holds a list of options, the first option with the code is found, with its value at the place returned, and none if there is none. |
| FastWritten.FoundHasHead | trench/engine/fastpath.py:130-168 | In any octets, what is found has the code and its own length right before it. |
| FastWritten.OffsetsHoldTtls | trench/engine/fastpath.py:95-127 | In every written message the offsets are the places of the TTLs of its records, in order, OPT left out. |
| FastWritten.QueryIsKeyed | trench/engine/fastpath.py:50-92 | Which written queries are accepted, and where their question ends. |
| FastWire.TtlFieldsAreFields | trench/engine/fastpath.py:95-127 | The offsets are ascending, disjoint four-octet fields inside the message and past the questions. |
| FastWire.PatchPreservesStructure | trench/engine/fastpath.py:368-390 | Overwriting id, question case, TTL fields and cookie leaves every TTL offset and every EDNS option where it was. |
| FastReplay.CookieApart | trench/engine/fastpath.py:130-168 | The cookie overlaps no TTL field. |
| FastReplay.ReplayIsPatch | trench/engine/fastpath.py:368-390 | A replay is the recorded reply except for the patched places, which hold this client's id, question spelling and cookie. |
| FastReplay.ReplayTtls | trench/engine/fastpath.py:376-381 | Each TTL field holds what its own recorded TTL has left. |
| FastReplay.TtlStaysInRange | trench/engine/fastpath.py:381 | A replayed TTL lies between 1 and the recorded one. |
| FastReplay.TtlNeverGrows | trench/engine/fastpath.py:381 | It never grows with time. |
| FastReplay.TtlIsTimeLeft | trench/engine/fastpath.py:370-381 | It is the time left, rounded up. |
| FastReplay.ImmediateReplayIsRecording | trench/engine/fastpath.py:370-375 | An immediate replay to the recorded query is the recorded reply, octet for octet. |
| FastReplay.CookieStaysPut | trench/engine/fastpath.py:382-389 | The client cookie sits at the same offset in every query with this key. |
| FastTable.TagsTellPoliciesApart | trench/engine/fastpath.py:292-307 | Below 65,536 policies, equal tags mean equal policies. |
| FastTable.NewestIsLast | trench/engine/fastpath.py:329-345 | The entry under a query's key is that of the last reply recorded for the same policy and the same query. |
| FastTable.FastPath.Serve | trench/engine/fastpath.py:329-393 | A hit is a replay of the last reply recorded for this policy and query, younger than its smallest TTL; it happens exactly when the gates admit it and such an entry is in the table, and changes nothing but the counter. |
| FastTable.FastPath.Store | trench/engine/fastpath.py:439-488 | A storable reply is recorded under policy and query after evicting the oldest entries; the table stays within its limit; any other reply changes nothing. |
| FastTable.FastPath.Clear | trench/engine/fastpath.py:490-496 | Everything recorded is gone. |
| FastTable.HitHasRecordedStructure | trench/engine/fastpath.py:368-390 | A hit has the TTL fields and EDNS options of the recorded reply. |
| Globs.Glob.Search | trench/filter/parser.py:289-302 | The greedy matcher on the compiled pieces answers as the declarative meaning of the pattern. |
| Globs.Match | trench/filter/parser.py:283-302 | For every pattern, starless ones included, and every name. |
| Globs.GreedyIsEnough | trench/filter/parser.py:296-302 | Taking the leftmost occurrence of the next piece loses no match. |
| Globs.WildIsReach | trench/filter/parser.py:283-287 | A pattern with a star means: its head, its pieces in order with gaps, its tail, without overlap. |
| FilterEngine.SuffixesAreParents | trench/wire/name.py:286-307 | The candidates of a name are exactly the domains it lies under. |
| FilterEngine.Build | trench/filter/shared.py:97-152 | The table holds the domains of 1 to 255 octets that some list supplies, each with a source that lists it. |
| FilterEngine.Engine.Compile | trench/filter/engine.py:100-125 | Every live rule is in the bucket of its form and polarity and no other rule is; plain rules are deduplicated by domain. |
| FilterEngine.BadfilterRemoves | trench/filter/engine.py:73-97 | A badfilter takes away itself and exactly the rules of the same form, pattern and polarity that do not rewrite. |
| FilterEngine.CandidateIsRule | trench/filter/engine.py:180-226 | Whatever the index brings up stands for a live rule that matches, and names its source. |
| FilterEngine.RuleIsFound | trench/filter/engine.py:180-226 | Every live rule that matches and fits is brought up, itself or by a plain stand-in. |
| FilterEngine.Engine.Match | trench/filter/engine.py:258-299 | The decision is that of scanning the live rules, and reports source and text of a rule none of its polarity is more specific than; it rewrites if and only if that rule does. |
| FilterEngine.Decide | trench/filter/engine.py:100-299 | Compiling and matching decides as evaluating every live rule directly does, for names of at most 255 characters. |
| FilterLaws.Report | trench/filter/engine.py:236-299 | The rule reported is of the list, not taken away by a badfilter, its pattern matches, and each modifier lets the query through: type, tags, clients and the names carved out; no other such rule of its polarity goes before it. |
| FilterLaws.OneRuleDecides | trench/filter/engine.py:236-299 | A rule on its own decides every query that its pattern matches and each of its modifiers lets through, and no other. |
| FilterLaws.NameIsFolded | trench/filter/engine.py:258-264 | Names are matched whatever their ASCII letter case and trailing dots. |
| FilterEngine.LongRulesDoNotMatter | trench/filter/shared.py:125-127 | For such names the domains the table drops change nothing. |
| FilterEngine.LongRuleIsLost | trench/filter/shared.py:125-127 | For every longer domain they do: the compiled engine lets pass the name that its rule blocks. |
| ZoneLookup.ClosestEncloser | trench/auth_zone/zone.py:88-111 | The one-pass scan, in any order and with its early end, returns the deepest ancestor that seems to exist. |
| ZoneLookup.ScanIsExact | trench/auth_zone/zone.py:88-111 | It is the closest encloser of every name of the zone if and only if every owner, seen under the apex, is a name of the zone. |
| ZoneLookup.ScanFindsEncloser | trench/auth_zone/zone.py:88-111 | It is when all owners lie under the apex. |
| ZoneLookup.EncloserIsUnique | trench/auth_zone/zone.py:88-111 | A name has one closest encloser. |
| ZoneLookup.StrayOwnerMisleads | trench/auth_zone/zone.py:99-111 | Concrete zone and name for which the scan is wrong. |
| ZoneLookup.Delegation | trench/auth_zone/zone.py:113-151 | There is a referral if and only if a cut stands between apex and answer, a DS query at the cut excepted; it comes from the deepest one. |
| ZoneLookup.GlueIsGlue | trench/auth_zone/zone.py:136-145 | The additional records are the addresses of name servers below the cut, and no others. |
| ZoneLookup.Chase | trench/auth_zone/zone.py:169-199 | The chain follows aliases inside the zone, at most 16, none twice, to the RRset asked for or until it is stuck. |
| ZoneLookup.ChainIsUnique | trench/auth_zone/zone.py:169-199 | The zone determines the answers of a chain. |
| ZoneLookup.Lookup | trench/auth_zone/zone.py:65-86 | Not authoritative if and only if a cut stands before the name asked for, and then the referral of the lowest one; NXDOMAIN exactly when there is no cut, the name does not exist and the wildcard of its closest encloser owns nothing; otherwise the answer of the name or of that wildcard, or NODATA. |
| ZoneLookup.NegativeTtl | trench/auth_zone/zone.py:217-225 | A negative answer holds the zone's SOA alone, for the lesser of that record's TTL and its MINIMUM. |
| LookupLaws.ReferredExactly | trench/auth_zone/zone.py:113-151 | An answer is a referral if and only if some name from the one asked for up to below the apex has NS and no SOA records, a DS question for that name excepted; it lists the NS and DS records of the lowest such name. |
| LookupLaws.DeniedExactly | trench/auth_zone/zone.py:65-86 | NXDOMAIN is answered if and only if the answer is no referral, the name is not there, and right below the first name above it that is there no wildcard holds records; hashed denial records make no name be there. |
| LookupLaws.AnsweredFrom | trench/auth_zone/zone.py:65-86 | The RRset of the name, or of that wildcard, is handed out whole under the name asked for; a name that is there only through names below it has NODATA. |
| ZoneLookup.AnswerOwners | trench/auth_zone/zone.py:153-199 | The owners of an answer's records are the name asked for and the names its aliases lead to, each of them, and no others. |
| ZoneLookup.GlueInAnswerExactly | trench/auth_zone/zone.py:65-199 | An authoritative answer holds a record owned under a cut if and only if the name that answers holds the type or an alias, and the name asked for is at a cut, which only a DS question can be, or one that its aliases lead to is under one. |
| ZoneLookup.AliasUnderCut | trench/auth_zone/zone.py:169-199 | Every alias of a name under a cut that has the type asked for is answered with AA set from below that cut. |
| ZoneLookup.GlueIsAnswered | trench/auth_zone/zone.py:65-199 | A zone in which the lookup of an alias does that. |
| Tsig.LocateTsig | trench/auth_zone/tsig.py:154-186 | The reader loop finds the final TSIG record, its start and owner, or fails. |
| Tsig.NameRoundTrip | trench/wire/name.py:250-283 | An uncompressed name is read back as written. |
| Tsig.RecordRoundTrip | trench/auth_zone/tsig.py:117-133 | So is a TSIG record. |
| Tsig.AppendedIsLocated | trench/auth_zone/tsig.py:117-186 | On a well-formed message with the record appended, exactly that record is located; at ARCOUNT 65535 none is. |
| Tsig.RebuiltIsOriginal | trench/auth_zone/tsig.py:295-300 | Stripping it gives back the signed octets if and only if it carries the message's id. |
| Tsig.CutVerifies | trench/auth_zone/tsig.py:302-312 | A signed message verifies with its MAC cut to any length from half, and at least ten octets, to full. |
| Tsig.SignedVerifies | trench/auth_zone/tsig.py:136-334 | A signed message, its id changed on the way or not, is accepted under the same key, request MAC and form, unless it reports an error (BADSIG) or is outside the window (BADTIME). |
| TsigIntegrity.DigestTells | trench/auth_zone/tsig.py:81-114 | What the MAC is computed over tells the request MAC, the message, the form and the variables: two different ones never give the same octets. |
| TsigIntegrity.AcceptedMeans | trench/auth_zone/tsig.py:262-334 | What is accepted is under a key of the ring with the record's algorithm, in time, without an error, and under at least half of a hash of that key and ten octets of it. |
| TsigIntegrity.AcceptedIsSigned | trench/auth_zone/tsig.py:262-334 | If the hash gives the MAC, or the part of it that is left, on one input only, what is accepted under it is what the signer signed, octet for octet, with the same request MAC, form, time and fudge and, unless the form leaves them out, key name, error and other data. |
| TsigIntegrity.AlteredIsRefused | trench/auth_zone/tsig.py:262-334 | So a signed message with any octet after its header altered and its TSIG record untouched is refused. |
| TsigWritten.WrittenIsWellFormed | trench/auth_zone/tsig.py:154-186 | Every written message without a TSIG record, its names uncompressed, is one that these laws are about. |
| TsigWritten.PointerIsFollowed | trench/wire/name.py:250-283 | A compressed name reads as its labels and the name pointed to; a pointer to itself or beyond does not read. |
| TsigWritten.SignedIsWritten | trench/auth_zone/tsig.py:117-133 | The signed message is the written message with one more additional record: type 250, class ANY, TTL 0, and the fields of RFC 8945 section 4.2. |
| TsigWritten.DigestOctets | trench/auth_zone/tsig.py:81-114 | Octet by octet, the digest has the parts and variables of RFC 8945 section 4.3.3, or after the first message of a transfer the timers only. |
| ReplayWindows.ReplayWindow.CheckMessage | trench/auth_zone/tsig.py:210-229 | The two dictionaries after a check, and its verdict. |
| ReplayWindows.AcceptedExactly | trench/auth_zone/tsig.py:210-229 | One check: a message is accepted if and only if it is timely, its MAC is not among those still remembered, and its time is not a window behind the newest. |
| ReplayWindows.SeenExactly | trench/auth_zone/tsig.py:210-229 | After any run, the window holds exactly the accepted messages that no later turn made it forget. |
| ReplayWindows.HighExactly | trench/auth_zone/tsig.py:223-229 | After any run, the mark of a key is the latest time accepted from it since the last clearing. |
| ReplayWindows.AcceptedInRun | trench/auth_zone/tsig.py:210-229 | In any run, a message is accepted if and only if it is timely, no earlier accepted one of its key and MAC is still in its window and unforgotten, and none of its key since the last clearing is more than a window later. |
| ReplayWindows.AcceptedAgainExactly | trench/auth_zone/tsig.py:210-229 | A message that was accepted is accepted again, when timely and not outdated, if and only if some turn since cleared the window or accepted the same key and found the time outside its own window. |
| ReplayWindows.AcceptedAtMostOnce | trench/auth_zone/tsig.py:210-229 | With a clock that does not run backwards, no more keys than the limit, and accepted windows that never shrink for a key, no message, its MAC included, is accepted twice. |
| ReplayWindows.FixedWindowNeverShrinks | trench/auth_zone/tsig.py:328-333 | One fixed window satisfies the last condition. |
| ReplayWindows.NarrowWindowForgets | trench/auth_zone/tsig.py:213-216 | A run with a narrower window in which a message is accepted twice. |
| ReplayWindows.OneKeyTooManyForgets | trench/auth_zone/tsig.py:219-222 | A run with one key more than the limit in which it is: the whole window is cleared. |
| TsigReplay.SignedAtMostOnce | trench/auth_zone/tsig.py:262-334 | Verification and window together, under the same conditions: signed octets that are accepted twice came with MACs of two lengths. |
| TsigReplay.CutCopyPasses | trench/auth_zone/tsig.py:302-334 | Every signed message and then its copy with the MAC cut short are both accepted, while both are timely. |
| DhcpPackets.ToWire | trench/dhcp/v4.py:102-126 | The loops write header, options in 255-octet chunks, end marker and padding. |
| DhcpPackets.ParseOptions | trench/dhcp/v4.py:129-157 | The index loop reads what ParseFrom defines, and fails on a packet that does not add up. |
| DhcpPackets.ChunksRoundTrip | trench/dhcp/v4.py:113-122 | Reading the chunks of a value appends that value, whole, to what its code has. |
| DhcpPackets.PacketRoundTrip | trench/dhcp/v4.py:89-157 | Parsing the written packet gives it back if and only if no option uses code 0 or 255; values may be empty or of any length, in any order. |
| DhcpPackets.WriteAndRead | trench/dhcp/v4.py:89-157 | The loops that write and read a packet, one after the other, do the same. |
| DhcpPackets.HeaderOctets | trench/dhcp/v4.py:102-112 | Each field of a written packet is at its place of RFC 2131 section 2, most significant octet first, the hardware address padded or cut to 16 octets, the cookie at 236. |
| DhcpPackets.OneOptionOctets | trench/dhcp/v4.py:113-126 | An option is its code, its length and its value; the end marker and zeros up to 300 octets follow. |
| DhcpScopes.Scope.Allocate | trench/dhcp/scope.py:51-78 | A client is turned away if and only if it has neither reservation nor live lease and the offer cap is reached or the pool is exhausted; else it gets its reservation, its own address, the free one it asks for, or the lowest free one. |
| DhcpScopes.Scope.Release | trench/dhcp/scope.py:114-132 | Only the lease of the address given is dropped. |
| DhcpScopes.GrantIsSound | trench/dhcp/scope.py:51-112 | Such a grant keeps live leases on distinct addresses, pool leases inside the pool and off reservations, and pool offers within the cap. |
| DhcpScopes.Run | trench/dhcp/scope.py:51-132 | So does every run of requests and releases under a clock that does not run backwards. |
| DhcpScopes.SharedReservationClashes | trench/dhcp/scope.py:62-64 | Two clients with one reservation both get it. |
| DhcpLaws.AskAfter | trench/dhcp/scope.py:51-112 | An address is given to the next client that asks for it as soon as the offer hold, or for a lease the lease time, is over, and not before. |
| DhcpLaws.FloodIsRefused | trench/dhcp/scope.py:51-86 | With offers out for the offer share of the pool, and no fewer than four, a new client's request for an offer is refused, and a request for a lease is not while an address is free. |
| DhcpLaws.FewOffersAreHonoured | trench/dhcp/scope.py:51-86 | With fewer, an offer is refused only when no address is free. |
| RateLimiters.RateLimiter.Allow | trench/engine/ratelimit.py:36-46 | The decision and the new bucket; the table stays within its limit. |
| RateLimiters.RateLimiter.Trim | trench/engine/ratelimit.py:48-57 | A quarter of the buckets goes, none fresher than any that stays. |
| RateLimiters.TokensAreConserved | trench/engine/ratelimit.py:36-67 | Over every run, what a key has spent and has left was there at the start or has flowed in since, but for one burst per eviction. |
| RateLimiters.AllowedAtMost | trench/engine/ratelimit.py:36-46 | A key is allowed at most burst plus rate times length in any interval, and one more burst per eviction. |
| RateLimiters.PacedIsAllowed | trench/engine/ratelimit.py:36-46 | A key for which a whole token has flowed in since it was last seen is never refused. |
| RateLaws.AllowedExactly | trench/engine/ratelimit.py:36-67 | In a run in which the key starts without a bucket and none is dropped for another key, collections or not, a call is allowed if and only if every stretch from one of the key's calls to now holds, with it, no more allowed calls than the burst and what the rate brings in. |
| RateLimiters.WorkersTogether | trench/engine/ratelimit.py:14-31 | N workers together allow a key at most N shares plus rate times length, and one more share per eviction; a share is the burst over N, or the rate over N without one, but at least 1. |
| RateLaws.WorkersAtMost | trench/engine/ratelimit.py:14-31 | The same bound with calls and evictions counted as pairs of worker and turn. |
| RateLimiters.GcChangesNoDecision | trench/engine/ratelimit.py:59-67 | When burst is at most rate times idle, a run with collections anywhere in it answers its calls as the run without them, if that one never finds the table full. |
| RateLimiters.FullTableChangesDecision | trench/engine/ratelimit.py:48-67 | With a full table it can answer differently: two runs of the same calls, one with a collection, that do. |

## Left out

- Convergence.RunReplicatesExactly: runs of messages that add an SOA are outside it. One such message alone is covered, SecondSoa.OneUpdateReplicatesExactly is exact, and by SecondSoa.SecondSoaNeverArrives no run that leaves a second SOA converges. An SOA below the apex that a later message takes out again is not followed.
- UpdateDemand.UpdateFollowsDemand: unsigned zones; not covered are the apex SOA, whose serial the handler bumps (UpdateInvariants.EffectBumpsSerial, UpdateInvariants.SoaStaysSingleExactly); which error a refused message gets is in UpdateRcodes. An RRset has one TTL, as section 5.2 of RFC 2181 has it; which rdata are empty and which WKS records are for one service are parameters.
- Convergence.SignedZoneConverges: one transfer of one signed zone; `_resign` is a parameter, so no run of updates on a signed zone is followed.
- UpdateInvariants.RunKeepsSound: unsigned zones only, for the same reason.
- Xfr.TransferRecords: the TSIG check of envelopes, the timeout of one read and the socket are not modelled; the convergence theorems are about transfers under the ceilings (Xfr.LimitsOnlyRefuse).
- Xfr.AxfrRecords: the code sorts the owners; the theorems hold for every order.
- Updates.ApplyOneInPlace: a deletion of all RRsets goes through the types in ascending instead of insertion order; the resulting zone is the same.
- Letter case of owner names is not kept, and rdata equality is equality of presentation text.
- SharedMemory.SharedCache.Put: the time stamp is eight opaque octets; that the times of a run are read back as written is a hypothesis of CacheRuns only.
- SharedCacheRuns.NoTornReads: `clear` is one action per stripe; a process that cannot have a stripe at once goes on without it, so waiting is not a step.
- CacheRuns.EveryHitIsJustified: full flushes only, every stripe obtainable; the keys of the run have distinct hashes and its messages survive the codec. `load` and `dump` restart lifetimes and are not modelled.
- Caches.Cache.Get: statistics, hit counters and the copying of messages are not modelled.
- FastTable.FastPath.Serve: the early-refresh flag and the bookkeeping of hits are not modelled; the gates are two flags.
- FastTable.FastPath.Store: the reply repeats the question, as the replies of the pipeline do; fewer than 65,535 policies between clears.
- Globs.Match: lower case is ASCII.
- FilterEngine.Engine.Compile: `from_table`, operator removals from the table and more than 65,535 list sources are not modelled; regular expressions and network membership are parameters.
- FilterEngine.Engine.Match: among rules equally specific the code takes the first of the index order; the model says only that none is better.
- ZoneLookup.Lookup: DNSSEC denial records and signatures in answers are not modelled; owners lie under the apex.
- Tsig.SignedVerifies: the keyring lookup is a parameter that finds the key; the text of a key name is a parameter of TsigReplay.
- TsigIntegrity.AcceptedIsSigned: the verifier knows whether it waits for a reply, and the hash is one-to-one where the MAC is concerned; that the hash is, and that secrets are kept, is not part of this model.
- TsigWritten.WrittenIsWellFormed: uncompressed names; how one compressed name reads is TsigWritten.PointerIsFollowed.
- Tsig.AppendedIsLocated: compression pointers lead past the header, as those of a well-formed message do.
- DhcpScopes.Scope.Allocate: addresses are their numbers; the text forms are not modelled.
- RateLimiters.AllowedAtMost: exact arithmetic, a clock that does not run backwards.
- The NOTIFY scheduler, DGA and tunnel scoring, list reports, the API and the command line: wiring, heuristics or easy members.
