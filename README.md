# Credit ledger and image-generation gate

A Dafny model of the credit accounting in a small image-generation web
application. Users hold a credit balance. A request for images is priced
at one credit per started megapixel per image. It is paid from the
user's balance if that covers it. Otherwise it falls back to a daily
free allowance shared by all users and capped at $20.

A paid request is debited before the external generator is called and
refunded in full if the call fails. A successful request is recorded in
the user's generation history, and free usage is added to the day's
usage record. Balances also grow through a one-time profile-completion
bonus and through purchases reported by the payment webhook.

The store is modelled as a class whose fields are the lists the
application keeps:

- users
- generations
- daily free usage (one record per date)
- pricing tests

Each operation reassigns those fields. The route handlers are methods
that receive the store.

Modules, one per source file or concern:

- `Seqs`: the `find` and `filter` searches the store code uses, and `Option`.
- `Records`: users, generations, images; lookups by email and by id; balance updates.
- `History`: the newest-first, capped history listing.
- `FreeTier`: the daily usage records and the $20 cap, kept in integer cents (2 cents per credit, cap 2000 cents).
- `Pricing`: the A/B pricing tests.
- `LowDb`: the store of `lib/db.ts` (class `Db`).
- `SimpleDb`: the local branch of `lib/db-simple.ts` (class `LocalDb`).
- `GenerateRoute`, `StripeWebhook`, `CompleteProfile`: the three route handlers.

Inputs the model cannot compute are parameters:

- what the external generator returned;
- the signed-in email;
- the date key of today;
- new ids and timestamps;
- the random pick among pricing tests.

Behaviour of the code worth knowing:

- A 1024×1024 image costs 2 credits, not 1, because 1,048,576 pixels round up to two megapixels. Every table entry costs 2 credits per image.
- The payment webhook is not idempotent. Each delivery adds the credits again.
- A failed generation writes no history record.
- The long-edge check comes after the identity check. No table entry can fail it anyway.
- The signup bonus is 3 credits in `lib/db.ts` and 5 in `lib/db-simple.ts`. Both constants are kept, one per store.

## Model

| member | source | states |
|---|---|---|
| GenerateRoute.ParseBody | app/api/generate/route.ts:10-14 | a body is accepted exactly when the prompt is non-empty, the ratio is one of the six labels and the output count is an integer from 1 to 4; the accepted request carries those same values |
| GenerateRoute.ParseAspectRatio | app/api/generate/route.ts:12 | exactly the six labels are accepted, each as the ratio it names |
| GenerateRoute.AspectToSize | app/api/generate/route.ts:16-25 | every table entry has positive sides, a long edge of at most 1536 and an area above one and at most two megapixels |
| GenerateRoute.LongEdge | app/api/generate/route.ts:64 | the larger of the two sides |
| GenerateRoute.Megapixels | app/api/generate/route.ts:69 | the result is the least whole number of megapixels covering the area (the ceiling) |
| GenerateRoute.CostCredits | app/api/generate/route.ts:69-70 | an area of at most one megapixel costs one credit per image, above one and up to two costs two per image; the cost is zero only for zero images or zero area |
| GenerateRoute.TableCostIsTwoPerOutput | app/api/generate/route.ts:69-70 | every ratio costs exactly 2 credits per image |
| GenerateRoute.AcceptedCostIsTwicePerImage | app/api/generate/route.ts:62-70 | every accepted request costs 2·n credits, between 2 and 8 |
| GenerateRoute.Admit | app/api/generate/route.ts:78-95 | paid iff the balance covers the cost; free iff it does not and today's value plus the cost stays within $20; refused otherwise; a paid debit never makes the balance negative |
| GenerateRoute.FailureMessage | app/api/generate/route.ts:130-132 | the text is `Generation failed: ` followed by the rethrown error's message, `Generation failed` when that is empty, or `FAL returned no images` for an empty image list |
| GenerateRoute.Post | app/api/generate/route.ts:29-76 | an invalid body is 400, a missing identity 401, an unknown user 404, each with the store unchanged; the status is 400 exactly for an invalid body, since the resolution answer never occurs; a found user's request settles as Settle states; the store invariant is kept |
| GenerateRoute.Settle | app/api/generate/route.ts:78-133 | refused: 402 and only today's zeroed record may appear; paid and delivered: balance down by exactly the cost, which is returned as remaining, one succeeded record appended with the cost and images; paid and failed: the store exactly as before; free and delivered: balance untouched, one record appended, today's usage grows by the cost and lists the user; free and failed: only today's zeroed record may appear |
| GenerateRoute.Fulfil | app/api/generate/route.ts:92-133 | for an admitted request: without images every list is as before (a paid debit refunded in full); with images one succeeded record is appended, and either the paid balance drops by exactly the cost, which is reported as remaining, or today's free usage takes the cost and the user |
| Records.IndexByEmail | lib/db.ts:104 | the position of the first user with that email, or None exactly when no user has it |
| Records.IndexById | lib/db.ts:127 | the position of the first user with that id, or None exactly when no user has it |
| Records.UserByEmail | lib/db-simple.ts:194-197 | the first user of the list with that email (no earlier user has it), None exactly when there is none |
| Records.AddCredits | app/api/generate/route.ts:94 | the user at that position gains exactly the amount (a debit when negative); every other user is unchanged |
| Records.DebitThenRefund | app/api/generate/route.ts:92-128 | debiting the cost and refunding it restores the user list exactly |
| Records.AddCreditsTwice | app/api/stripe-webhook/route.ts:37-41 | two credits to a user add up; nothing collapses repeated grants |
| Records.AppendNewEmail | lib/db.ts:104-120 | appending a user whose email is absent keeps emails unique and makes the new user the one found by that email |
| History.OwnedBy | lib/db-simple.ts:240 | exactly the given user's records, each as often as in the store |
| History.SortNewestFirst | lib/db-simple.ts:241 | newest first, and a permutation of its input |
| History.UserGenerations | lib/db-simple.ts:238-243 | only the user's stored records, each at most as often as stored, newest first, min(50, their count) of them, none omitted that is newer than one listed, and all of them when there are at most 50 |
| History.AppendedNewestListedFirst | lib/db-simple.ts:201-243 | a record newer than the user's others, once appended, is the first entry of that user's listing |
| FreeTier.ZeroUsage | lib/db.ts:160-166 | a fresh record for the date with no credits, no value and no users |
| FreeTier.Recorded | lib/db.ts:186-198 | credits and their value are added, the user set gains exactly the user, and a consistent record (value = 2 cents per credit, no duplicate user) stays consistent |
| FreeTier.IndexOfDate | lib/db.ts:158 | the position of the first record for the date, or None exactly when the date has none |
| FreeTier.WithinDailyCap | lib/db.ts:174-184 | admitted exactly when recording the credits would keep the day's value within $20, for any user |
| FreeTier.WithDay | lib/db.ts:156-172 | the list is unchanged when the date has a record and otherwise gains one zeroed record; the date then has a record; one record per date and consistency are kept |
| FreeTier.RecordedOn | lib/db.ts:186-198 | the date's record, created if need be, takes the credits and the user; no other record changes; one record per date and consistency are kept |
| FreeTier.AdmittedStaysWithinCap | lib/db.ts:174-198 | a request the cap check admits leaves the day's value at most $20 once recorded |
| FreeTier.RepeatUserListedOnce | lib/db.ts:193-195 | a second recording by the same user adds the credits but not the user again |
| Pricing.ActiveTests | lib/db.ts:213 | exactly the active tests of the list |
| Seqs.FindAfterFilter | lib/db.ts:213-216 | filtering keeps order: the first element of the filtered list passing a second test is the first element of the original list passing both |
| Pricing.SelectPricingTest | lib/db.ts:213-222 | the result is an active test of the list; None exactly when no test is active; a non-empty name that matches an active test selects the first active test of that name in list order |
| Pricing.DefaultsAllSelectable | lib/db.ts:203-211 | after a reset to the defaults a test is always handed out |
| Pricing.DefaultsByName | lib/db.ts:205-217 | asking for a default test by name returns exactly that test |
| LowDb.CompletedProfile | lib/db.ts:126-134 | only the first user with the id can change; it ends completed, with 2 more credits if it was incomplete and none otherwise; no email or id changes |
| LowDb.CompleteProfileIdempotent | lib/db.ts:128-132 | completing a profile twice is the same as completing it once |
| LowDb.CompleteProfileKeepsInvariants | lib/db.ts:126-134 | completion keeps emails and ids unique, balances non-negative and lookups by email unchanged |
| LowDb.Db.Open | lib/db.ts:55-95 | the file's lists or the defaults; a missing usage list becomes empty and a missing pricing list the three defaults, while present lists are kept |
| LowDb.Db.GetOrCreateGoogleUser | lib/db.ts:98-123 | a known email returns its user with the store unchanged; an unknown one appends a user with 3 credits and an incomplete profile; the store invariant is kept |
| LowDb.Db.CompleteUserProfile | lib/db.ts:126-134 | the user list becomes CompletedProfile of the old one; returns the user found by id after the update, or None for an unknown id |
| LowDb.Db.RecordGeneration | lib/db.ts:136-150 | appends exactly one record with the given owner, fields, id and time; earlier records are unchanged |
| LowDb.Db.GetTodayUsage | lib/db.ts:156-172 | the usage list becomes WithDay of the old one and the result is the position of the date's first record |
| LowDb.Db.CanUseFreeCreditToday | lib/db.ts:174-184 | today's record is created if missing and the answer is the cap check on it |
| LowDb.Db.RecordFreeUsage | lib/db.ts:186-198 | the usage list becomes RecordedOn of the old one; the store invariant is kept for a non-negative amount |
| LowDb.Db.GetPricingTest | lib/db.ts:201-223 | an empty list is reset to the defaults, and the result is the selection from the list |
| SimpleDb.LocalDb.Open | lib/db-simple.ts:254-267 | the file's two lists, or empty ones without a file |
| SimpleDb.LocalDb.GetOrCreateUser | lib/db-simple.ts:131-151 | a known email returns its user with the store unchanged; an unknown one appends a user with 5 credits and an incomplete profile; emails stay unique and the user is then found by email |
| SimpleDb.LocalDb.UpdateUserCredits | lib/db-simple.ts:162-169 | the first user with the email gets the new balance; every other user and an unknown email leave the list unchanged |
| SimpleDb.LocalDb.GetUserByEmail | lib/db-simple.ts:194-197 | the first user of the store with that email, None exactly when there is none |
| SimpleDb.LocalDb.RecordGeneration | lib/db-simple.ts:207-211 | the record is appended at the end |
| SimpleDb.LocalDb.GetUserGenerations | lib/db-simple.ts:238-243 | min(50, their count) of the user's own records, each at most as often as stored, newest first, none omitted that is newer than one listed, and all of them when there are at most 50 |
| StripeWebhook.PurchaseOf | app/api/stripe-webhook/route.ts:30-33 | a purchase is read exactly when the metadata names a non-empty buyer and a credit count, and it carries both unchanged |
| StripeWebhook.Post | app/api/stripe-webhook/route.ts:8-55 | a missing signature or secret, an unverified event, or incomplete metadata is 400, and an unknown buyer is 404, each with no change; other event types are received with no change; a completed checkout for a known buyer adds exactly the purchased credits to that user alone |
| StripeWebhook.DeliveredTwice | app/api/stripe-webhook/route.ts:26-47 | delivering the same completed checkout twice adds the credits twice |
| CompleteProfile.Post | app/api/complete-profile/route.ts:8-42 | no session email is 401 and an unknown user 404, with no change; an already completed profile returns its balance with no change; otherwise the first user with the found user's id is completed and its new balance returned (the found user's balance if that is zero); with that id unshared, the found user ends completed with 2 more credits, which are reported |

## Left out

- The external image generator (`lib/fal.ts`) is a foreign call. It is the `FalOutcome` parameter: an error, or a list of images. An empty list counts as a failure.
- Authentication (next-auth sessions, the development JWT cookie) is left out. The resolved identity is an optional email parameter, and an empty email counts as no identity.
- Stripe is left out: signature verification, checkout creation and the `parseInt` of the credit metadata. A failed verification is an absent event. Credits arrive as a natural number, so a metadata value that does not parse is not modelled.
- The Postgres branches and `initDatabase` of `lib/db-simple.ts` go through a foreign SQL client. Only the local branch is modelled.
- Persistence is left out: file creation, `db.write()` (assumed to succeed), and the promise caching in `getDb`/`getLocalDb`. The constructors model the first call. Both stores read the same file, but they keep separate in-memory copies; the model keeps two independent objects.
- Because writes never fail, the catch paths that answer 500 (or 400 in the webhook) after an exception are not modelled. So is the refund the generate handler would make if recording itself threw.
- Dollar amounts are floating point in the source and integer cents here. The float sum of 0.02-dollar steps can drift near the $20 boundary; the model does not capture that.
- Concurrency is left out. The unsynchronised read-modify-write of balances and daily usage is modelled as requests that run one after another.
- The handler reads the clock twice: once in the cap check and once when it records usage. The model uses one date key per request, so a request that straddles midnight is not modelled.
- Object identity and aliasing are left out. The source returns and mutates shared user and usage objects; the model updates the list at the object's position.
- The random choice in `getPricingTest` is the `pick` parameter. The source's random index always falls inside the active list. A missing pricing list is handled when the store is opened.
- The pages and components, the admin, test and diagnostic routes, and the subscribe and generations routes are left out. The last two call a `getOrCreateUser` that `lib/db.ts` does not export.
- History.SortNewestFirst: the definition keeps records with equal timestamps in stored order, as JavaScript's stable sort does, but no lemma states this.
