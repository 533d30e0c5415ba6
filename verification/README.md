# Verified model of the Usage plugin

A usage-metering library records immutable usage events, aggregates them into
immutable versions and coordinates aggregation runs with leased claims and
watermark checkpoints. This project models its core in Dafny and proves what
that core promises. `dafny verify dfyconfig.toml` checks everything.

How the model speaks:

- A `Decimal` is sign, coefficient and exponent, as in Python's `decimal`;
  coefficient digits are counted, powers of ten are exact.
- An instant or duration is an integer number of microseconds.
- A digest is a parameter `hash` applied to the complete text. Where a proof
  needs it to be collision-free, it says so: `Injective(hash)`.
- A table is the sequence of its rows in storage order (events, aggregates) or
  a map of rows with storage versions (checkpoints, claims). Reads, conditional
  writes and commits are atomic. Anything that several clients do is a
  transition system over such steps, in which any client may also stop for good.
- Source loops over mutable state are methods; each is proved against a
  function, and the laws are lemmas about that function.

Modules, from the ground up:

| modules | subject |
|---|---|
| `Prelude`, `Orders`, `Digits` | results, sorting, powers of ten and numerals |
| `Canonical`, `JsonReading` | the canonical JSON encoder (RFC 8259 sections 4 to 7), its injectivity, a reference reader of its texts, and its exact acceptance |
| `Decimals`, `Meters`, `Totals`, `TotalTexts` | the decimal input domain, storage test, unit conversion, meter precision, 100-digit running sum and when its decimal, its text and what is stored of it depend on order |
| `Texts`, `Representations`, `Splitting`, `Recovery`, `StoredRecords`, `StoredTotals` | authenticated recovery of decimal text: candidate texts, split hashing, soundness and completeness |
| `Events`, `SortedObjects`, `EventRecords`, `DictionaryReading`, `IdentityTexts`, `Recording`, `Batches`, `BatchCalls` | event construction and normalization, an event as a stored record, dictionaries read back by name, the texts behind identities, write-once recording under concurrency, correction forest, batches alone and interleaved |
| `Cells`, `Claims`, `Checkpoints` | compare-and-set records: every interleaving is a sequential execution; the two protocols on top |
| `Aggregation`, `AggregationLaws`, `Revisions`, `AggregateRecords` | grouping, versions, identities; partition, conservation, order independence; revision chains under interleaved runners; a version as a stored record |
| `Queries`, `RunQueries`, `Paging` | predicate validation and lowering, the queries of a run, page draining |
| `Planning`, `Runner`, `Refinement`, `Workers`, `TimelyRuns`, `RunReports` | runs: scan, plan, put, advance; incremental runs refine one aggregation; crash recovery; interleaved runs under expiring leases, their refinement and their reports |
| `Repository` | the repository and the runner as a class over mutable tables |

Main results, hardest first: `TimelyRuns.InterleavedIsOneShot`,
`Refinement.IncrementalIsOneShot`, `Refinement.CrashedRunsAreResumed` and
`Refinement.RunSucceedsExactly`; `Workers.LiveRunCovers` and
`Workers.StaleScanCanWin`; `TotalTexts.OrderNeverShowsExactly`,
`TotalTexts.TextNeverShowsExactly` and `TotalTexts.StoredNeverShowsExactly`;
`Revisions.RevisionsAreOneToN`;
`StoredRecords.RecoveryIsComplete` with `EventRecords.EventSurvivesStorage` and
`AggregateRecords.AggregateSurvivesStorage`, and `Recovery.StreamedDigest`; `Recording.CallsAreAtomic`,
`Recording.AtMostOneRecorded` and `BatchCalls.FailedCallLeavesRows`;
`RunReports.ReportedIsStored` and `AggregationLaws.ResultsExplained`;
`JsonReading.CanonicalTextIsRead` and `Queries.ExecutesAsGiven`;
`Cells.RunsAreSerial`, `Claims.AtMostOneLiveOwner` and
`Checkpoints.CheckpointProtocol`; `AggregationLaws.AggregationConserves`,
`AggregationLaws.AggregationIgnoresOrder` and
`AggregationLaws.AggregatesExactly`; `Totals.RunningSumIsExact`;
`Meters.ConversionNeverRounds`; `Canonical.CanonicalTextsAgree`;
`Queries.LoweringKeepsMeaning`; `Paging.PageSizeIsInvisible`.

Errors are part of the contracts: `Refinement.RunFailsWith`,
`Batches.BatchFailsWith`, `Events.NormalizationFailsWith`,
`StoredRecords.ReadFailsWith` and the `...Exactly` lemmas say which failure a
call ends in.

Where a promise is narrower than it looks, the model keeps the code and says
exactly how far the promise goes:

- The encoder refuses arrays of more than 256 items
  (`Canonical.TextArrayExactly`), so groups and batches above 256 members fail
  although batches of 1000 are admitted. When aggregation and batches succeed is
  `AggregationLaws.AggregatesExactly` and `Batches.BatchSucceedsExactly`; its
  failing input among the admitted sizes is `Batches.LargeBatchFails`.
- A failed batch call stores nothing if it is alone on its store
  (`Batches.BatchIsFaithful`). Among other calls it leaves its newly recorded
  rows if another batch's manifest is under its id by the time it puts its own,
  and in no other case (`BatchCalls.FailedCallLeavesRows`, `BatchCalls.ManifestDecides`;
  such a run is `BatchCalls.LoserLeavesItsRow`).
- A meter whose precision equals its scale accepts no number
  (`Meters.PrecisionEqualToScaleAcceptsNothing`).
- The claim does not fence aggregate writes (`Workers.StaleScanCanWin`); what it
  does guarantee while leases do not overlap is `Workers.OrderlyRunsExclude` and
  `Workers.LiveRunCovers`.
- Two runs with the same owner name do not exclude each other
  (repository.py:859-863): `Claims.AcquiresExactly` says whom a lease keeps out,
  `Claims.SameOwnerOverlaps` is a run with two unexpired acquisitions by one
  owner, and `Claims.OverlapIsBySameOwner` says that no other overlap exists.
- A total, as a decimal with coefficient and exponent, is independent of input
  order exactly under the condition of `TotalTexts.OrderNeverShowsExactly`. Its
  text is exactly under that condition or if the total is zero
  (`TotalTexts.TextNeverShowsExactly`), and so is, within its bounds, what the
  aggregate stores (`TotalTexts.StoredNeverShowsExactly`). Normalized events
  always meet the condition (`TotalTexts.RunningSumPermuted`), storable numbers
  in general do not (`TotalTexts.PaddedTextDependsOnOrder`,
  `TotalTexts.ZeroHidesItsExponent`). The number always is independent
  (`Totals.TotalNumberIgnoresOrder`).
- An event that arrives after the scans that could see it is missed for good:
  a group before the scan is current after a run exactly if nothing arrived in
  it (`Refinement.LateEventIsMissed`). Events within the allowed lateness are
  never that late (`Runner.AllowedLatenessIsInTime`), and events before the
  first bucket never matter. While a run has scanned and not advanced yet,
  arrivals must suit the scan after it (`TimelyRuns.InTime`).
- Replaying an event needs the ambient correlation it was first recorded under
  (`Recording.RerecordingReplays`, both directions).
- A run whose scan would start at or after its watermark ends with an error: the
  query window would be empty (aggregation.py:242-246, models.py:76-80). For a
  run repeated at its own watermark this happens exactly if no lateness is
  allowed and the watermark is a bucket edge
  (`Refinement.RerunWindowIsEmptyExactly`, `Refinement.RerunAtEdgeFails`).

## Model

| member | source | states |
|---|---|---|
| `Canonical.CanonicalTextsAgree` | src/meridian_storage/plugins/usage/_canonical.py:120-158 | two accepted float-free JSON values have equal canonical texts exactly when they are equal as values, whatever order their dictionary entries were inserted in |
| `Canonical.PrintUnambiguous` | src/meridian_storage/plugins/usage/_canonical.py:150-158 | a printed value can be read off any text it begins: no value's text is a proper beginning of another's followed by a non-digit |
| `Canonical.PrintInjective` | src/meridian_storage/plugins/usage/_canonical.py:150-158 | distinct normal values never share an encoding |
| `JsonReading.CanonicalTextIsRead` | src/meridian_storage/plugins/usage/_canonical.py:150-158 | a reference reader of RFC 8259 texts, which knows nothing of the encoder, reads every canonical text as the normal form of its value, to the last character |
| `JsonReading.NormalFormIsSame` | src/meridian_storage/plugins/usage/_canonical.py:120-147 | the normal form is the value itself but for the order of dictionary entries |
| `JsonReading.AcceptsExactly` | src/meridian_storage/plugins/usage/_canonical.py:120-147 | a value is accepted exactly if nothing inside it is nested deeper than 8 or too large in itself, and refused as invalid usage otherwise |
| `Canonical.JsonValue` | src/meridian_storage/plugins/usage/_canonical.py:120-147 | the recursive walk rebuilds exactly the normal form, or fails exactly where depth, 64-bit, text or size bounds are exceeded |
| `Canonical.JsonObject` | src/meridian_storage/plugins/usage/_canonical.py:136-142 | the dictionary loop over sorted entries yields the normal object |
| `Canonical.JsonArray` | src/meridian_storage/plugins/usage/_canonical.py:143-146 | arrays over 256 items are refused, shorter ones rebuilt item by item |
| `Decimals.StorageAcceptsExactly` | src/meridian_storage/plugins/usage/_decimal.py:20-30 | storage accepts exactly the multiples of 10^-18 below 10^58 in magnitude, and returns the same number |
| `Decimals.StorageDecimal` | src/meridian_storage/plugins/usage/_decimal.py:20-30 | the digit loop computes that test |
| `Decimals.DecimalValueKeeps` | src/meridian_storage/plugins/usage/_canonical.py:80-91 | what the input domain accepts keeps its number; every zero becomes the one plain zero |
| `Decimals.DomainExactly` | src/meridian_storage/plugins/usage/_canonical.py:80-91 | an input has at most 1000 digits, the first one at most 1000 places from the point |
| `Meters.ConversionNeverRounds` | src/meridian_storage/plugins/usage/models.py:139-153 | for every accepted operand, scale and offset the working precision suffices for the product and for the sum: the Inexact trap never fires |
| `Meters.ConversionIsAffine` | src/meridian_storage/plugins/usage/models.py:139-153 | the result is value * scale + offset, read in any common unit |
| `Meters.FitsExactly` | src/meridian_storage/plugins/usage/models.py:354-370 | fitting succeeds exactly on multiples of 10^-scale with max(1, integer digits) + scale <= precision, and gives the same number at exponent -scale |
| `Meters.PrecisionEqualToScaleAcceptsNothing` | src/meridian_storage/plugins/usage/models.py:365-369 | a meter whose precision equals its scale refuses every number, zero included |
| `Meters.NormalizesExactly` | src/meridian_storage/plugins/usage/models.py:346-352 | normalization succeeds exactly for a declared unit whose converted number fits, and returns that number at the meter's scale |
| `Meters.NormalizedIsStorable` | src/meridian_storage/plugins/usage/models.py:264-273 | whatever a valid meter normalizes passes the storage test and is an accepted input again |
| `Meters.NormalizationIsIdempotent` | src/meridian_storage/plugins/usage/models.py:346-352 | normalizing a normalized value in the canonical unit changes neither number nor exponent |
| `Texts.ParseFixed` | src/meridian_storage/plugins/usage/_canonical.py:94-96 | fixed-point text parses back to the coefficient and scale it was printed from |
| `Texts.StrippedText` | src/meridian_storage/plugins/usage/_decimal.py:41-43 | stripping zeros and the point leaves the text of the reduced digits |
| `Representations.Enumerate` | src/meridian_storage/plugins/usage/_decimal.py:33-53 | the generator yields exactly the candidate texts: shortest first, one more zero each time |
| `Representations.SearchIsBounded` | src/meridian_storage/plugins/usage/_decimal.py:44-53 | candidates are pairwise distinct, at most 19 for a meter value and at most 1000 for an original |
| `Representations.CandidateIsSound` | src/meridian_storage/plugins/usage/_decimal.py:33-53 | every candidate is the text of an accepted number equal to the stored one |
| `Representations.CandidatesAreComplete` | src/meridian_storage/plugins/usage/_decimal.py:33-53 | however an accepted number was re-padded, its own text is among the candidates |
| `Splitting.SplitTextIsWhole` | src/meridian_storage/plugins/usage/_decimal.py:70-83 | the fragments joined around the two holes are the encoding of the content with both texts substituted |
| `Splitting.HolesAt` | src/meridian_storage/plugins/usage/_decimal.py:78-80 | the first two empty fragments are exactly the originalValue and value holes, in that order |
| `Recovery.StreamedDigest` | src/meridian_storage/plugins/usage/_decimal.py:81-92 | prefix, original, middle, value and suffix fed piece by piece give the digest of the complete candidate object |
| `Recovery.Fragments` | src/meridian_storage/plugins/usage/_decimal.py:70-77 | the loop over sorted fields builds those fragments |
| `Recovery.RestoreEventDecimals` | src/meridian_storage/plugins/usage/_decimal.py:60-93 | the nested search over copied hash states is the search over complete digests |
| `StoredRecords.RecoveryIsSound` | src/meridian_storage/plugins/usage/models.py:674-684 | an event read back under a fingerprint has that fingerprint, the other facts unchanged and the stored numbers |
| `StoredRecords.RestoredIsSound` | src/meridian_storage/plugins/usage/models.py:683-684 | a successful search returns numbers inside the constructor's domain, so the final reconstruction cannot fail |
| `StoredRecords.RecoveryIsComplete` | src/meridian_storage/plugins/usage/models.py:623-684 | for every recordable event, reading a row with re-padded numbers gives back its original dictionary |
| `StoredRecords.RedundantFieldsMustAgree` | src/meridian_storage/plugins/usage/models.py:674-682 | under a fingerprint a redundant field that disagrees is an invalid result; without one nothing is compared |
| `StoredRecords.ReadFailsWith` | src/meridian_storage/plugins/usage/models.py:623-684 | why a row cannot be read, in the order of the checks |
| `StoredTotals.RestoreAggregateTotal` | src/meridian_storage/plugins/usage/_decimal.py:96-103 | the loop over total texts is the search over complete digests |
| `StoredTotals.TotalRecoveryIsSound` | src/meridian_storage/plugins/usage/models.py:837-851 | an aggregate read back under a fingerprint has that fingerprint and the stored total |
| `StoredTotals.TotalRecoveryIsComplete` | src/meridian_storage/plugins/usage/models.py:793-851 | reading a re-padded aggregate gives back the original total text |
| `StoredTotals.RedundantTotalFieldsMustAgree` | src/meridian_storage/plugins/usage/models.py:836-848 | the same for the redundant fields of an aggregate |
| `StoredTotals.TotalReadFailsWith` | src/meridian_storage/plugins/usage/models.py:793-851 | why an aggregate row cannot be read, in the order of the checks |
| `Events.ConstructsExactly` | src/meridian_storage/plugins/usage/models.py:473-538 | an event is constructed exactly when its numbers are in the domain, its window is not empty and the rules for ordinary and correcting events hold, and which error it fails with otherwise; numbers keep their value |
| `Events.NormalizesExactly` | src/meridian_storage/plugins/usage/models.py:565-585 | a meter normalizes exactly the events of its id and version, whose window lies in its active time and tolerance, whose dimensions are the declared ones, and whose numbers store and convert |
| `Events.NormalizedFields` | src/meridian_storage/plugins/usage/models.py:565-585 | normalization changes only value, unit and originals: the originals are the event's own, or the reported value and unit; and only for windows, times and dimensions the meter admits |
| `Events.OriginalAccountsForValue` | src/meridian_storage/plugins/usage/models.py:575-585 | converting the recorded original value in the recorded original unit gives the recorded value |
| `Events.NormalizationFailsWith` | src/meridian_storage/plugins/usage/models.py:565-585 | the first thing wrong with an event, in the order of the checks, names the error |
| `Events.AcceptedExactlyWhileActive` | src/meridian_storage/plugins/usage/models.py:310-331 | a window is accepted exactly when the meter is active at every instant of it |
| `Events.NormalizedIsRecordable` | src/meridian_storage/plugins/usage/models.py:565-585 | every normalized event fits storage with at most 18 decimals, keeps what was reported, and is not negative unless it corrects |
| `Events.NormalizedIsIdempotent` | src/meridian_storage/plugins/usage/models.py:565-585 | normalizing a normalized event under the same meter returns it unchanged, texts included |
| `Events.NormalizingAgainChangesNothing` | src/meridian_storage/plugins/usage/repository.py:455-464 | the same with correlation capture, the ambient correlation held constant |
| `Events.FingerprintFixesEvent` | src/meridian_storage/plugins/usage/models.py:561-563 | equal fingerprints of normalized events mean equal events: every field, the value digit for digit, the original value's text |
| `Events.NormalizedSurvivesStorage` | src/meridian_storage/plugins/usage/models.py:623-684 | whatever other content fields it has, a normalized event whose numbers storage re-padded is read back with its original dictionary |
| `EventRecords.EventIsNormal` | src/meridian_storage/plugins/usage/models.py:592-623 | the encoder accepts an event's dictionary and prints it with its 22 keys in order, whatever order the entries are inserted in |
| `EventRecords.FingerprintsAgree` | src/meridian_storage/plugins/usage/models.py:561-563 | the fingerprint of an event and that of its stored record, taken through the whole encoder, are one text |
| `EventRecords.EventSurvivesStorage` | src/meridian_storage/plugins/usage/models.py:623-684 | a row of a normalized event's own fields with re-padded numbers is read back as that event's dictionary under that event's fingerprint |
| `DictionaryReading.EventRoundTrip` | src/meridian_storage/plugins/usage/models.py:623-672 | reading an event's dictionary field by field, by name, gives back the event |
| `DictionaryReading.NumbersReadExactly` | src/meridian_storage/plugins/usage/models.py:650-668 | a number is read exactly from null or from the text of one in the input domain |
| `DictionaryReading.DerivedFieldsAreNamed` | src/meridian_storage/plugins/usage/models.py:592-620 | the redundant fields stand under their names with the digests of what they repeat |
| `IdentityTexts.IdempotencyKeyIsCanonical` | src/meridian_storage/plugins/usage/models.py:548-555 | the idempotency key is the canonical digest of the source's dictionary |
| `Totals.RunningSumIsExact` | src/meridian_storage/plugins/usage/aggregation.py:157-159 | for up to 10^24 members that fit Decimal(76, 18) the 100-digit running sum is their exact sum although Inexact is not trapped |
| `Totals.TotalNumberIgnoresOrder` | src/meridian_storage/plugins/usage/aggregation.py:157-159 | whatever the members' scales, the order never changes the number |
| `TotalTexts.RunningSumDecided` | src/meridian_storage/plugins/usage/aggregation.py:157-159 | the running sum is the exact number at one exponent, given by a recursion on the members |
| `TotalTexts.OrderNeverShowsExactly` | src/meridian_storage/plugins/usage/aggregation.py:157-159 | for up to 10^24 members that fit Decimal(76, 18), whatever their scales: all orders give one decimal, coefficient and exponent, exactly when the members finer than the total can show, together with all coarser gains and together with all coarser losses, stay below the 100-digit bound |
| `TotalTexts.RunningSumPermuted` | src/meridian_storage/plugins/usage/aggregation.py:157-159 | with at most 18 decimals per member that condition holds, so the total is one decimal, hence one text, in every order |
| `TotalTexts.TextNeverShowsExactly` | src/meridian_storage/plugins/usage/_canonical.py:94-96 | all orders give one text exactly when the total is zero or that condition holds |
| `TotalTexts.StoredNeverShowsExactly` | src/meridian_storage/plugins/usage/models.py:734-734 | all orders store one total, or refuse alike, exactly when the total is 10^58 or more, or nonzero under that condition, or zero while no member, or every nonzero one, has more than 1000 decimals |
| `TotalTexts.PaddedTextDependsOnOrder` | src/meridian_storage/plugins/usage/aggregation.py:157-159 | three storable members that fail the condition: 99 decimals in one order, 42 in another, so two texts |
| `TotalTexts.ZeroHidesItsExponent` | src/meridian_storage/plugins/usage/aggregation.py:157-159 | four storable members of zero total that fail the condition, 100 decimals in one order and 42 in another, yet have one text and one stored total |
| `TotalTexts.TotalStorableExactly` | src/meridian_storage/plugins/usage/aggregation.py:157-159 | a total passes the storage test exactly below 10^58, unless it is a zero of more than 1000 decimals |
| `Aggregation.BucketContains` | src/meridian_storage/plugins/usage/models.py:107-121 | the bucket is the one aligned window of its size containing the instant, before the epoch too |
| `Aggregation.AggregateEvents` | src/meridian_storage/plugins/usage/aggregation.py:114-179 | the grouping and version-building loops compute the aggregation that the laws below are about, mismatches failing before the watermark skip |
| `AggregationLaws.ResultsExplained` | src/meridian_storage/plugins/usage/aggregation.py:149-178 | the versions returned are, group by group in order, either the previous one with the group's members as sources, or made by this call: every field, among them its watermark, time, correlation, the spec's meter and algorithm, revision and supersession |
| `AggregationLaws.MismatchFailsFirst` | src/meridian_storage/plugins/usage/aggregation.py:132-141 | a foreign event fails the call before any group is looked at |
| `AggregationLaws.GroupsStop` | src/meridian_storage/plugins/usage/aggregation.py:149-178 | otherwise the first group that fails, in order, names the error |
| `AggregationLaws.SameGroupExactly` | src/meridian_storage/plugins/usage/aggregation.py:142-146 | two events share a group exactly when they start in one bucket and agree on every dimension of the spec |
| `AggregationLaws.GroupsPartition` | src/meridian_storage/plugins/usage/aggregation.py:132-148 | every event before the watermark is in exactly one group, and no other event is in any |
| `AggregationLaws.AggregationConserves` | src/meridian_storage/plugins/usage/aggregation.py:132-178 | counts and totals of fresh groups add up exactly to those of the eligible input |
| `AggregationLaws.AggregationIgnoresOrder` | src/meridian_storage/plugins/usage/aggregation.py:114-179 | permuting a normalized event set changes nothing in the outcome, success or failure, text included |
| `AggregationLaws.AggregatesExactly` | src/meridian_storage/plugins/usage/aggregation.py:114-179 | the call succeeds exactly when every event matches and every group of events before the watermark has at most 256 members and either repeats its previous version's sources or has a storable total |
| `AggregationLaws.NormalizedAggregatesExactly` | src/meridian_storage/plugins/usage/aggregation.py:114-179 | the same for normalized events, where a storable total is one below 10^58 in magnitude |
| `Aggregation.SetFingerprintIsCanonical` | src/meridian_storage/plugins/usage/models.py:857-860 | the source fingerprint is the canonical encoding's digest, and it is the encoder that refuses exactly the sets above 256 events |
| `Canonical.TextArrayExactly` | src/meridian_storage/plugins/usage/_canonical.py:143-146 | an array of encodable texts is refused exactly above 256 items and otherwise is its own normal form |
| `AggregationLaws.CrowdedGroupFails` | src/meridian_storage/plugins/usage/models.py:857-860 | one group of more than 256 members makes the whole call fail, the other groups included |
| `AggregationLaws.AggregateIdFixesGroup` | src/meridian_storage/plugins/usage/aggregation.py:99-111 | distinct (spec, window, dimensions) triples never share an aggregate id |
| `AggregationLaws.SpecFingerprintFixesSpec` | src/meridian_storage/plugins/usage/aggregation.py:83-96 | specs with one fingerprint differ at most in page size and coordination ids |
| `AggregationLaws.SourceFixesNumbers` | src/meridian_storage/plugins/usage/models.py:857-860 | event sets with one source fingerprint have one count and one total, so reusing a version never reuses a wrong number |
| `AggregationLaws.TotalSurvivesStorage` | src/meridian_storage/plugins/usage/models.py:793-851 | whatever other content fields it has, a new version whose total storage re-padded is read back with the original total text |
| `AggregateRecords.AggregateIsNormal` | src/meridian_storage/plugins/usage/models.py:766-792 | the encoder accepts a version's dictionary and prints it with its 20 keys in order, whatever order the entries are inserted in |
| `AggregateRecords.AggregateFingerprintsAgree` | src/meridian_storage/plugins/usage/models.py:762-764 | the fingerprint of a version and that of its stored record, taken through the whole encoder, are one text |
| `AggregateRecords.AggregateSurvivesStorage` | src/meridian_storage/plugins/usage/models.py:793-851 | a row of a new version's own fields with a re-padded total is read back as that version's dictionary under that version's fingerprint |
| `DictionaryReading.VersionRoundTrip` | src/meridian_storage/plugins/usage/models.py:793-835 | reading a version's dictionary field by field, by name, gives back the version |
| `DictionaryReading.DerivedVersionFieldsAreNamed` | src/meridian_storage/plugins/usage/models.py:766-792 | the redundant fields of a version stand under their names |
| `IdentityTexts.SpecFingerprintIsCanonical` | src/meridian_storage/plugins/usage/aggregation.py:83-96 | a spec's fingerprint is the canonical digest of the source's eight fields, durations in whole seconds |
| `IdentityTexts.AggregateIdIsCanonical` | src/meridian_storage/plugins/usage/aggregation.py:99-111 | an aggregate id is built on the canonical digest of spec fingerprint, window and dimensions |
| `Cells.StepKeepsInvariant` | src/meridian_storage/plugins/usage/repository.py:356-379 | each interleaved read, drop or conditional write keeps: every stored record was decided from the one right before it |
| `Cells.RunsAreSerial` | src/meridian_storage/plugins/usage/repository.py:356-379 | in every interleaving, from any starting storage version, the successful operations form a sequential execution and the others leave no trace |
| `Checkpoints.CheckpointHistory` | src/meridian_storage/plugins/usage/repository.py:780-825 | write i stores its watermark and time at revision i+1 over expected revision i, and never moves the watermark back |
| `Checkpoints.AdvancesExactly` | src/meridian_storage/plugins/usage/repository.py:780-825 | an advance succeeds exactly with the stored revision and a watermark not behind; which error it fails with otherwise |
| `Checkpoints.CheckpointProtocol` | src/meridian_storage/plugins/usage/repository.py:780-825 | the stored revision counts the successful advances, each expected revision has at most one winner, a stale initializer never resets a checkpoint, the watermark never decreases |
| `Claims.ClaimHistory` | src/meridian_storage/plugins/usage/repository.py:837-925 | in every history an acquisition stores its owner until its expiry, a release the last owner as expired at once, each at its time and one revision on; the owner changes only if the old expiry is at or before the new claim's time |
| `Claims.ReleasesExactly` | src/meridian_storage/plugins/usage/repository.py:885-925 | a token releases exactly while the stored claim is the one it names, by revision and owner |
| `Claims.AtMostOneLiveOwner` | src/meridian_storage/plugins/usage/repository.py:837-883 | under a clock that no stored claim is ahead of, at most one owner holds an unexpired lease |
| `Claims.OverlapIsBySameOwner` | src/meridian_storage/plugins/usage/repository.py:859-863 | in every history, a claim acquired while the previous lease is unexpired has the same owner |
| `Claims.SameOwnerOverlaps` | src/meridian_storage/plugins/usage/repository.py:859-863 | a reachable run in which one owner holds two unexpired acquisitions: an owner does not exclude itself |
| `Claims.SupersededTokenNeverReleases` | src/meridian_storage/plugins/usage/repository.py:885-925 | a claim token is released at most once, as the direct successor of the claim it names; once superseded it releases nothing |
| `Recording.RecordKeeps` | src/meridian_storage/plugins/usage/repository.py:466-490 | one call keeps keys unique and rows append-only, and the receipt's event is stored under the caller's fingerprint |
| `Recording.RecordAnswersExactly` | src/meridian_storage/plugins/usage/repository.py:435-490 | a correction without target is refused first; then a stored event under the key is replayed if its fingerprint is the same and conflicts if not; else the event is appended |
| `Recording.RerecordingReplays` | src/meridian_storage/plugins/usage/repository.py:466-490 | recording again replays exactly when the event has its own correlation or the ambient one is unchanged, and conflicts otherwise |
| `Recording.TargetHolds` | src/meridian_storage/plugins/usage/repository.py:435-453 | validation passes exactly when a stored row in the same scope and domain is corrected |
| `Recording.ChainsEnd` | src/meridian_storage/plugins/usage/repository.py:435-453 | following corrections ends at an ordinary event of the same scope, subject, meter version, window and dimensions |
| `Recording.CallsAreAtomic` | src/meridian_storage/plugins/usage/repository.py:466-490 | whatever is interleaved, a call ends with exactly the effect and answer it would have alone on the store of that instant |
| `Recording.RecordingIsWriteOnce` | src/meridian_storage/plugins/usage/repository.py:466-490 | under any interleaving of writers, batches and crashes, rows are unique, sound and never change |
| `Recording.AtMostOneRecorded` | src/meridian_storage/plugins/usage/repository.py:466-490 | per scoped event id at most one call ever reports RECORDED, and its event stays stored |
| `Recording.RecordedIsNormalized` | src/meridian_storage/plugins/usage/repository.py:466-490 | in every reachable store each row was returned by normalization under a valid meter, so its value is one a meter leaves: the premise of the aggregation laws |
| `Recording.CorrectionsShareTheirGroup` | src/meridian_storage/plugins/usage/aggregation.py:142-146 | in every reachable store an event and its whole correction chain fall in one aggregation group |
| `Batches.BatchIsFaithful` | src/meridian_storage/plugins/usage/repository.py:610-677 | a batch call alone on its store keeps it sound; every non-failed item carries the stored event's fingerprint despite double normalization; a failed call stores nothing; an atomic one stores all |
| `Batches.AtomicIsRecordAll` | src/meridian_storage/plugins/usage/repository.py:564-583 | the transaction body records all events in order, or fails |
| `Batches.PartitionedIsBacked` | src/meridian_storage/plugins/usage/repository.py:585-608 | exactly the events of newly recorded items are appended, and every surviving item is backed by a row |
| `Batches.PartitionedAnswers` | src/meridian_storage/plugins/usage/repository.py:585-608 | each item is answered as recording its event over the rows stored by then, and carries its id and fingerprint |
| `Batches.AllReceipts` | src/meridian_storage/plugins/usage/repository.py:564-583 | each receipt of an atomic batch is that of recording its event over the ones before it |
| `Batches.ManifestNamesBatch` | src/meridian_storage/plugins/usage/repository.py:643-677 | a new manifest has the batch's id, scope, mode, fingerprint and events in order, and is the only one put |
| `Batches.BatchFingerprintFixesBatch` | src/meridian_storage/plugins/usage/repository.py:626-631 | one batch fingerprint means one mode and the same event fingerprints in the same order |
| `Batches.BatchFingerprintFixesEvents` | src/meridian_storage/plugins/usage/repository.py:626-631 | and of metered events the same events, up to padding of the original value |
| `Batches.TakenIdReplaysOrConflicts` | src/meridian_storage/plugins/usage/repository.py:637-642 | a call under the id of a stored batch changes nothing: it replays if mode and events are that batch's, and otherwise is a conflict |
| `Batches.BatchFailsWith` | src/meridian_storage/plugins/usage/repository.py:533-677 | why a batch call fails, in the order of its checks |
| `Batches.NormalizationStops` | src/meridian_storage/plugins/usage/repository.py:533-550 | the first event that cannot be normalized names the error |
| `Batches.UnregisteredMeterFails` | src/meridian_storage/plugins/usage/repository.py:533-550 | exactly the events whose meter id and version are not registered are refused as such |
| `Batches.RecordingStops` | src/meridian_storage/plugins/usage/repository.py:564-583 | the first event that cannot be recorded over the ones before it names the error of an atomic batch |
| `Batches.BatchReplays` | src/meridian_storage/plugins/usage/repository.py:637-642 | submitting the same batch again returns the same manifest and changes nothing |
| `Batches.BatchSucceedsExactly` | src/meridian_storage/plugins/usage/repository.py:610-677 | a call succeeds exactly with 1 to 256 events that all normalize, of one scope and distinct ids, that repeat the batch stored under the id or, no batch being stored there, are partitioned or can all be recorded in order |
| `Batches.RecordAllExactly` | src/meridian_storage/plugins/usage/repository.py:564-583 | events of distinct ids can all be recorded in order exactly when none conflicts with a stored row and each correction's target is stored or earlier in the batch |
| `Batches.BatchFingerprintIsCanonical` | src/meridian_storage/plugins/usage/repository.py:626-631 | the batch fingerprint is the digest of the encoded dictionary of mode, by its name, and event fingerprints; the encoder refuses exactly the batches above 256 events |
| `BatchCalls.AloneIsRecordBatch` | src/meridian_storage/plugins/usage/repository.py:610-677 | the steps of a call, undisturbed, are the batch recording above |
| `BatchCalls.MoveAppendsAdded` | src/meridian_storage/plugins/usage/repository.py:643-651 | each step appends to the rows exactly what its call then counts as newly recorded |
| `BatchCalls.ManifestsAreWriteOnce` | src/meridian_storage/plugins/usage/repository.py:637-670 | under any interleaving of batch calls and single recordings, rows and manifests never change and every manifest's items are backed by stored events |
| `BatchCalls.AtMostOneManifest` | src/meridian_storage/plugins/usage/repository.py:656-677 | per scoped batch id at most one call ever returns a receipt of its own |
| `BatchCalls.ManifestDecides` | src/meridian_storage/plugins/usage/repository.py:656-670 | a call that has recorded its events fails exactly if a manifest of another batch is there when it puts its own, and returns its own receipt exactly if none is |
| `BatchCalls.FailedCallLeavesRows` | src/meridian_storage/plugins/usage/repository.py:637-670 | a failed call leaves behind exactly the events it counted as recorded; there are any only if it failed with a conflict and another batch's manifest is stored under its id |
| `BatchCalls.LoserLeavesItsRow` | src/meridian_storage/plugins/usage/repository.py:637-670 | for any two new events of one scope, a run of two partitioned calls under one id in which the second fails with a conflict while its event stays stored |
| `Revisions.VersionIdInjective` | src/meridian_storage/plugins/usage/models.py:754-756 | a version id splits in one way into aggregate id and revision |
| `Revisions.NextKeepsInvariant` | src/meridian_storage/plugins/usage/repository.py:679-743 | every read, plan, put or stop of any runner keeps the table's chains |
| `Revisions.VersionsFormChains` | src/meridian_storage/plugins/usage/repository.py:679-716 | under every interleaving of runners, live, stale or crashed, stored versions never change and form gapless chains of honest revisions |
| `Revisions.RevisionsAreOneToN` | src/meridian_storage/plugins/usage/aggregation.py:153-175 | an aggregate's stored revisions are exactly 1 to n, each once; revision 1 supersedes nothing, each later one its predecessor |
| `Revisions.LatestIsHighest` | src/meridian_storage/plugins/usage/repository.py:718-743 | the latest version is the highest listed revision |
| `Revisions.PutAnswersExactly` | src/meridian_storage/plugins/usage/repository.py:679-716 | a put fails, changing nothing, exactly if the version id is taken by other content; it replays what is stored with the same content and appends otherwise |
| `Planning.PlanMeaning` | src/meridian_storage/plugins/usage/aggregation.py:253-275 | aggregating twice around the latest-version queries plans, per group, its current version or the successor of it |
| `Planning.PutAllAppendsFresh` | src/meridian_storage/plugins/usage/aggregation.py:276-279 | putting a plan appends exactly the versions not stored yet and replays the others |
| `Planning.PutAllCounts` | src/meridian_storage/plugins/usage/aggregation.py:276-279 | each version of a plan that went through was replayed or appended, and all are stored, content and all |
| `Planning.ScanIsOrdered` | src/meridian_storage/plugins/usage/query.py:170-175 | a scan is ordered by window start, then event id |
| `Planning.PlannedBecomesCurrent` | src/meridian_storage/plugins/usage/aggregation.py:276-279 | after the puts each planned version is its group's current one |
| `Planning.OthersKeepCurrent` | src/meridian_storage/plugins/usage/aggregation.py:276-279 | groups outside the plan keep their current version |
| `Runner.AllowedLatenessIsInTime` | src/meridian_storage/plugins/usage/aggregation.py:236-242 | events no later than the allowed lateness always start inside the next scan |
| `Runner.ScannedGroupIsComplete` | src/meridian_storage/plugins/usage/aggregation.py:236-242 | the scan starts at a bucket edge, so every rescanned group is complete |
| `Runner.PassedGroupIsUnchanged` | src/meridian_storage/plugins/usage/aggregation.py:236-242 | groups before the scan still have the members they had when the last run ended |
| `Runner.ReadIsPaged` | src/meridian_storage/plugins/usage/aggregation.py:243-252 | reading is what draining the pages of a faithful engine gives, page budget included |
| `Runner.ScanStartExactly` | src/meridian_storage/plugins/usage/aggregation.py:236-242 | the scan starts at the last bucket edge that leaves out no start that may still arrive: not before the spec's, nor later than the lateness behind the checkpoint |
| `Runner.ClaimIsReleased` | src/meridian_storage/plugins/usage/aggregation.py:222-296 | however a run ends that got the claim, the stored claim has expired at its time, two revisions on, and any owner can take it |
| `Runner.RefusedRunChangesNothing` | src/meridian_storage/plugins/usage/aggregation.py:219-227 | a run that cannot start or does not get the claim changes nothing and says why |
| `Runner.RunAnswersBody` | src/meridian_storage/plugins/usage/aggregation.py:228-296 | the result of a run that got the claim is that of its body, whatever it is |
| `Refinement.IncrementalIsOneShot` | src/meridian_storage/plugins/usage/aggregation.py:210-287 | from any sound table, with other specs' versions, failed runs, runs stopped anywhere and events arriving anywhere but between the first bucket and the next scan: after each successful run every group's latest version has the count, total and sources of one aggregation of all stored events from the first bucket to its watermark |
| `Refinement.LateEventIsMissed` | src/meridian_storage/plugins/usage/aggregation.py:236-242 | after a run a group before its scan is current exactly if no event of it arrived since the last one: what arrives there is missed |
| `Refinement.RunSettles` | src/meridian_storage/plugins/usage/aggregation.py:210-287 | one successful run makes everything up to its watermark current, provided the groups before its scan were |
| `Refinement.FailedRunChangesClaimOnly` | src/meridian_storage/plugins/usage/aggregation.py:219-296 | a run alone on its store that fails leaves versions and checkpoint as they were |
| `Refinement.RunSucceedsExactly` | src/meridian_storage/plugins/usage/aggregation.py:210-296 | a run succeeds exactly when the watermark follows the start, is not behind the checkpoint and leaves something to scan, the lease is positive and no other owner's is unexpired, the scan takes at most 10000 pages, and its groups have at most 256 members with totals below 10^58 |
| `Refinement.RunFailsWith` | src/meridian_storage/plugins/usage/aggregation.py:210-296 | why a run fails, in the order of its checks |
| `RunReports.ReportIsTrue` | src/meridian_storage/plugins/usage/aggregation.py:280-287 | the report of a successful run: the checkpoint stored now with its watermark, time and next revision, the events read, a plan all of which is stored, and replays and appends adding up to it |
| `RunReports.RunAppendsItsOwn` | src/meridian_storage/plugins/usage/aggregation.py:149-178 | whatever it ends in, a run appends only versions of its own making, for its watermark and at its time |
| `Refinement.RerunWindowIsEmptyExactly` | src/meridian_storage/plugins/usage/aggregation.py:236-246 | repeating a run at the checkpoint's own watermark meets an empty window exactly if no lateness is allowed and the watermark is a bucket edge |
| `Refinement.RerunAtEdgeFails` | src/meridian_storage/plugins/usage/aggregation.py:236-246 | there the rerun fails though it got the claim, and changes nothing but the claim |
| `Refinement.QuietRunAppendsNothing` | src/meridian_storage/plugins/usage/aggregation.py:252-286 | a run appends no version, however it ends, if nothing its scan covers arrived or came of age since the last run |
| `Refinement.CrashedRunIsResumed` | src/meridian_storage/plugins/usage/aggregation.py:252-286 | stop after any number of puts and rerun: the rows are those of one uninterrupted run in everything but creation time and correlation, the checkpoint but for its update time |
| `Refinement.CrashedRunsAreResumed` | src/meridian_storage/plugins/usage/aggregation.py:252-286 | the same after any number of tries, each stopped after any number of its puts |
| `Refinement.InterruptedHoldsLease` | src/meridian_storage/plugins/usage/aggregation.py:222-227 | a run that stopped for good still holds its lease, from its time on for the lease given |
| `Workers.AloneIsRunOnce` | src/meridian_storage/plugins/usage/aggregation.py:219-296 | the steps of a run, undisturbed, are the run of the results above |
| `Workers.OrderlyRunsExclude` | src/meridian_storage/plugins/usage/aggregation.py:219-296 | while nobody moves past its lease and no owner begins again under its own: at most one run is live, it holds the stored claim, and what it has read is still so |
| `Workers.LiveRunCovers` | src/meridian_storage/plugins/usage/aggregation.py:243-287 | such a run, once its plan is put, advances the checkpoint without fail, and each scanned group's latest version covers exactly its scan |
| `Workers.AloneReleasesClaim` | src/meridian_storage/plugins/usage/aggregation.py:291-296 | wherever a run is, going on undisturbed it ends with its claim expired, one revision on |
| `Workers.LiveRunReleases` | src/meridian_storage/plugins/usage/aggregation.py:291-296 | a live run's last step releases its claim and keeps its result, good or bad |
| `Workers.LostClaimShows` | src/meridian_storage/plugins/usage/aggregation.py:291-296 | a run whose claim was superseded releases nothing: its success becomes the release's error, its failure stays |
| `RunReports.VersionsAreAccounted` | src/meridian_storage/plugins/usage/aggregation.py:219-296 | in every interleaving each stored version was made by one of the runs, for its watermark and at its time |
| `RunReports.ReportedIsStored` | src/meridian_storage/plugins/usage/aggregation.py:276-287 | in every interleaving each version that a successful run reports is stored under its own fingerprint |
| `TimelyRuns.TimelyRunsStayTimely` | src/meridian_storage/plugins/usage/aggregation.py:219-296 | with events arriving at any step, but inside the scans still to come, every group that no later scan reaches is current in every reachable state |
| `TimelyRuns.AdvanceSettles` | src/meridian_storage/plugins/usage/aggregation.py:243-287 | then each advance makes every group up to its watermark, scanned or not, current for all events stored when the run looked |
| `TimelyRuns.InterleavedIsOneShot` | src/meridian_storage/plugins/usage/aggregation.py:210-287 | so after each advance in an interleaved history the latest versions have the count, total and sources of one aggregation of those events |
| `Workers.StaleScanCanWin` | src/meridian_storage/plugins/usage/aggregation.py:219-296 | a reachable run with claims: a lease expires, a second owner aggregates everything and advances the checkpoint, then the first runner appends revision 2 from its older scan and only its checkpoint advance fails |
| `Queries.ValidateWhere` | src/meridian_storage/plugins/usage/query.py:54-85 | the validation loops accept exactly the bounded, known-operator predicates, in field and operator order |
| `Queries.ValidatesExactly` | src/meridian_storage/plugins/usage/query.py:54-85 | predicates are accepted exactly on at most 32 fields, each with an encodable value or with known operators by name whose operands have the right shape |
| `Queries.ExecutesAsGiven` | src/meridian_storage/plugins/usage/query.py:54-120 | executing what validation and lowering made of given predicates selects exactly the records that meet each of them as it was given, operators by name |
| `Queries.LogicalPredicate` | src/meridian_storage/plugins/usage/query.py:88-109 | the loop builds the conjunction of the clauses |
| `Queries.ExpressionPredicates` | src/meridian_storage/plugins/usage/query.py:112-120 | the loop builds the `$operator` mapping |
| `Queries.LoweringKeepsMeaning` | src/meridian_storage/plugins/usage/query.py:88-120 | the executed mapping and the logical plan select the same records: every operator, several on one field, negated membership, both null tests |
| `Queries.ValidatedIsWellShaped` | src/meridian_storage/plugins/usage/query.py:54-85 | whatever validation accepts can be planned and executed |
| `Queries.QuerySelects` | src/meridian_storage/plugins/usage/query.py:207-215 | a query selects exactly its scope, its half-open window and its predicates |
| `Queries.QueryConstructsExactly` | src/meridian_storage/plugins/usage/query.py:170-205 | a query is constructed exactly with a non-empty window, accepted predicates that leave the derived fields alone, a page of 1 to 500 and an acceptable cursor, and keeps what it is given |
| `Queries.PlanSelects` | src/meridian_storage/plugins/usage/query.py:170-215 | every constructible query's plan means the same, and its predicates leave the derived fields alone |
| `RunQueries.EventQuerySelectsVisible` | src/meridian_storage/plugins/usage/aggregation.py:243-251 | a run's event query executes to exactly the spec's events that start between scan start and watermark |
| `RunQueries.AggregateQuerySelectsListed` | src/meridian_storage/plugins/usage/repository.py:726-731 | the latest-version query executes to exactly the versions of the id in the window |
| `Paging.ScanPages` | src/meridian_storage/plugins/usage/repository.py:745-764 | the page loop computes the specified draining, budget, repeat and size errors included |
| `Paging.ScanIsBounded` | src/meridian_storage/plugins/usage/repository.py:755-764 | against any executor a cursorless scan ends within max_pages executions and never executes a cursor twice |
| `Paging.DrainedExactly` | src/meridian_storage/plugins/usage/repository.py:755-764 | against any executor: which cursors are executed, that success is the page without a cursor and returns all items in order, and which of the four failures ends a scan otherwise |
| `Paging.PageSizeIsInvisible` | src/meridian_storage/plugins/usage/repository.py:745-764 | a faithful offset pager's rows all arrive once, in order, exactly when max(1, ceil(n/limit)) <= max_pages |
| `Paging.PagerDelivers` | tests/conftest.py:153-175 | the same from any offset on |
| `Repository.UsageRepository.WriteCheckpoint` | src/meridian_storage/plugins/usage/repository.py:356-379 | conditional write of a checkpoint row: initialize if absent, patch only the version that was read |
| `Repository.UsageRepository.WriteClaim` | src/meridian_storage/plugins/usage/repository.py:356-379 | the same for claims |
| `Repository.UsageRepository.AdvanceCheckpoint` | src/meridian_storage/plugins/usage/repository.py:780-825 | writes and returns what the checkpoint protocol decides, and nothing else |
| `Repository.UsageRepository.AcquireClaim` | src/meridian_storage/plugins/usage/repository.py:837-883 | writes and returns what the claim protocol decides, and nothing else |
| `Repository.UsageRepository.ReleaseClaim` | src/meridian_storage/plugins/usage/repository.py:885-925 | likewise for release |
| `Repository.UsageRepository.RecordEvent` | src/meridian_storage/plugins/usage/repository.py:466-490 | the new rows and the receipt are those of the recording the laws above are about |
| `Repository.UsageRepository.NormalizeAll` | src/meridian_storage/plugins/usage/repository.py:533-562 | the batch loop normalizes in order and rejects mixed scopes and repeated ids |
| `Repository.UsageRepository.RecordAtomic` | src/meridian_storage/plugins/usage/repository.py:564-583 | all items recorded, or the snapshot restored and the first error returned |
| `Repository.UsageRepository.RecordPartitioned` | src/meridian_storage/plugins/usage/repository.py:585-608 | each item recorded on its own, failures listed |
| `Repository.UsageRepository.RecordBatch` | src/meridian_storage/plugins/usage/repository.py:610-677 | rows, manifests and receipt of a whole batch call |
| `Repository.UsageRepository.PutAggregateVersion` | src/meridian_storage/plugins/usage/repository.py:679-716 | append if absent, replay if identical, conflict otherwise: the put of `Revisions.PutAnswersExactly` |
| `Repository.UsageRepository.ReadPrevious` | src/meridian_storage/plugins/usage/aggregation.py:259-268 | one latest-version lookup per provisional aggregate |
| `Repository.UsageRepository.PutVersions` | src/meridian_storage/plugins/usage/aggregation.py:276-279 | the put loop, stopping at the first failure with earlier versions kept |
| `Repository.UsageRepository.RunClaimed` | src/meridian_storage/plugins/usage/aggregation.py:229-287 | the run between claim and release changes the store as specified and no other checkpoint |
| `Repository.UsageRepository.RunAggregation` | src/meridian_storage/plugins/usage/aggregation.py:210-296 | a whole run is the run that the refinement and crash results are about, its claim released as in `Runner.ClaimIsReleased` whether it succeeds or not |

## Left out

- SHA-256 (FIPS 180-4) is the parameter `hash`; streaming state is the text absorbed so far, and the "sha256:" prefix is not shown. Collision freedom is an explicit premise wherever it is used; a real digest meets it only up to collisions.
- UTF-8: text is a sequence of code points; only byte lengths are computed.
- Floats in `json_value`: no fingerprinted Usage record contains one. Python's equality of `True` and 1 is not modelled either.
- Control characters never reach the printer (`bounded_text` refuses them), so their JSON escapes are not printed.
- RFC 3339 text and time zones: instants are integers, in fingerprinted dictionaries too; comparing instants stands for comparing their stored text.
- Regular expressions and length limits for names, tokens, units and labels (`logical_name`, `token`, `unit_name`, `string_map`); string mappings are sequences of entries in key order. Bounds that decide a property (1000 digits, 256 items, 64 entries, depth 8) are modelled.
- The meter constructor's loops over transforms and dimensions (models.py:203-237): `Meter.Valid` states what they establish.
- The Meridian runtime, adapters and engines, eventual consistency and the idempotency-key cache: gets, conditional puts, patches and queries are atomic, transactions all-or-nothing.
- Exponent limits (Emin, Emax) of the decimal contexts: the modelled exponents stay far inside them.
- Operands beginning with `$`, which the external query library may read as field references; plan fingerprints, projections, ordering specifications and safety budgets of queries. Ordering comparisons between values of different types, which the reference executor does not define, select nothing here.
- Meter registration, `get_meter` errors other than an unknown meter, retention, schema, plugin wiring, packaging.
- Batch calls look, record, put and reread in steps, but each recording and each atomic transaction is one step; that the reads and puts inside one recording interleave safely is `Recording.CallsAreAtomic`.
- Stored events and versions are values in `Recording` to `Repository`; that reading them back through storage changes nothing is `EventRecords.EventSurvivesStorage` and `AggregateRecords.AggregateSurvivesStorage`.
- DictionaryReading.EventRoundTrip: for numbers of exponent 0 or below, as meters leave them; a larger exponent is printed as zeros. Shape checks of nested mappings and the correlation record's own fields are not modelled.
- IdentityTexts.AggregateIdIsCanonical: the nested window is stated in key order.
- EventRecords.EventSurvivesStorage: that constructed events meet `FieldsFit` (bounded texts, mappings in key order, 64-bit integers) is the string grammars above, which are not modelled.
- AggregateRecords.AggregateSurvivesStorage: likewise for `AggregateFits`.
- Refinement.IncrementalIsOneShot: each run is one step of the history; runs step by step are the subject of `Workers` and `TimelyRuns`.
- TimelyRuns.InterleavedIsOneShot: nobody moves past its lease, no owner begins again under its own unexpired lease, and other specs do not write to the shared table while runs are under way.
- Repository.UsageRepository.RecordEvent: takes the meter as an argument; looking it up is part of `RecordBatchEvent`.
- Paging.PageSizeIsInvisible: assumes fewer than 10^4096 rows, so that an offset fits a cursor token.
