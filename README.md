# hub-educativo: the quiz store, the coin payments and the challenge join, in Dafny

This project models the core of the hub-educativo quiz game and proves properties of
that model:

- the client-side game store: start, answer, next question, lifelines and reset;
- the two payment routes:
  - `POST /api/payment/create` stores a pending transaction with its coins;
  - `POST /api/payment/webhook` credits the coins once the payment provider reports an approval;
- the challenge join route, which inserts a zero-score placeholder match once per user
  and challenge while its lookups work;
- the coin shop dialog: its package table, its CPF input mask (`formatCPF`) and the
  guard in front of the purchase.

Each piece has two layers:

- **A pure function over a state value.** For example, `Handle` maps a ledger and a
  notification to a new ledger and a response. The lemmas are proved about these
  functions.
- **A class holding the same state in fields.** Its methods change the fields step by
  step, as the source does, and each method's postcondition ties the new state to the
  pure function.

Modules:

| module | file | models |
|---|---|---|
| `Common` | common.dfy | JavaScript's or-operator on optional strings, decimal rendering of numbers |
| `GameStore` | game_store.dfy | `src/lib/store.ts` |
| `Ledger` | ledger.dfy | the `transactions` table, balances, the coins table and the database calls of both payment routes |
| `PaymentCreate` | payment_create.dfy | `src/app/api/payment/create/route.ts` |
| `PaymentWebhook` | payment_webhook.dfy | `src/app/api/payment/webhook/route.ts` |
| `ChallengeJoin` | challenge_join.dfy | `src/app/api/challenge/join/route.ts` |
| `Cpf` | cpf.dfy | `formatCPF` in `src/components/shop/CoinStore.tsx` |
| `CoinStore` | coin_store.dfy | `PACKAGES`, `initiateBuy`, the CPF field and `confirmBuy` in `src/components/shop/CoinStore.tsx` |

Conventions:

- **Amounts are integer centavos.** The source's `Number(amount)` in reais is
  `amountCents / 100`, so `Math.floor(Number(amount) * 10)` is `amountCents / 10`.
- **External calls become inputs.** The payment provider's answers, the database
  failures and the clock are inputs of the operations:
  - `intent` stands for `payment.create`;
  - the map `provider` stands for `payment.get`;
  - `Faults` and the `insertFails` flags say which database calls fail;
  - `now` stands for `Date.now()` and `new Date().toISOString()`.
- **Supabase lookups.** `.single()` and `.maybeSingle()` yield the row only when
  exactly one row matches. No match, or several, give null.
- **Regular expressions.** Each `replace` in `formatCPF` is a leftmost-match search
  (`FirstMatch`) followed by a splice. `\d` is `[0-9]`.

What `src/lib/store.ts` does not have, and so the model does not have either:

- There are no lives, no game modes, no question appending and no restart action.
  `startGame` takes only the deck and its id (`src/lib/store.ts:24`), although
  `src/app/(game)/challenge/[id]/ChallengeClient.tsx:59-66` calls it with six
  arguments (deck, deck id, a mode, subject, grade level and challenge id); the extra
  arguments are ignored.
- A wrong answer changes nothing; it only returns `'wrong'`.
- The status `lost` is declared but never set by the store itself.

Some behaviours of the code, each proved as a lemma:

- An approved payment is credited on every delivery whose lookup yields no row: no
  row or several rows match, or the lookup fails (`NoLocalRowCreditsEveryTime`).
- After a credit, a redelivery whose lookup fails credits again
  (`ApprovedThenFailedLookupCreditsAgain`).
- A failed status update after a successful credit leads to a second credit on
  redelivery (`UnrecordedApprovalCreditsAgain`).
- The join route ignores its lookup's error, so a failed lookup for a caller who
  already joined inserts a second row (`FailedLookupAddsSecondRow`). From then on
  `.single()` finds nothing and every join whose insert succeeds adds another row
  (`DuplicatedPairKeepsGrowing`).
- A later non-approved notification overwrites an approved row's status
  (`NotApprovedMirrorsStatus`).
- `nextQuestion` on a won game adds the completion bonus again
  (`WonGameKeepsCollectingBonus`).
- A skip on the last question moves the index past the deck, and then no number of
  `nextQuestion` calls wins (`PastTheEndNeverWins`).

## Model

| member | source | states |
|---|---|---|
| Common.OrElse | src/app/api/payment/webhook/route.ts:17-18 | JavaScript's or-operator on optional strings: `a` when it is present and non-empty, otherwise `b` |
| Common.OrDefault | src/app/api/payment/create/route.ts:32-33 | the or-operator with a default: the value when present and non-empty, otherwise the default |
| Common.DecimalString | src/app/api/payment/create/route.ts:64 | `toString()` of a non-negative number is a non-empty string of digits |
| Common.DecimalStringInjective | src/app/api/payment/create/route.ts:64 | different numbers render as different texts, so different provider ids and timestamps never collide |
| GameStore.Started | src/lib/store.ts:42-49 | `startGame` gives status playing, index 0, score 0, both lifelines available, and the given deck and deck id |
| GameStore.Answer | src/lib/store.ts:51-79 | the result is `correct` exactly when the option is the current question's correct index; then the score rises by 100 and nothing else changes; a wrong answer leaves the whole state unchanged |
| GameStore.Next | src/lib/store.ts:81-90 | on the last index: status won, score +1000, index unchanged; on any other index (an empty deck included): index +1, score and status unchanged |
| GameStore.WithLifeline | src/lib/store.ts:92-102 | the chosen flag becomes false and the other is kept; a skip moves the index on by one, a fifty-fifty keeps it; score, status and deck never change |
| GameStore.Reset | src/lib/store.ts:104 | status idle and an empty deck; index, score, lifelines and deck id are kept |
| GameStore.PerfectPlayFrom | src/lib/store.ts:51-90 | answering every remaining question correctly, each followed by `nextQuestion`, ends won with 100 per question plus 1000 added, at the last index |
| GameStore.PerfectGameWins | src/lib/store.ts:42-90 | a started deck of n ≥ 1 questions played perfectly ends won with score 100·n + 1000 |
| GameStore.LifelinesOnlyFall | src/lib/store.ts:92-102 | over any run of actions without `startGame`, a lifeline flag that is true at the end was true at the start |
| GameStore.PastTheEndNeverWins | src/lib/store.ts:81-102 | from an index past the deck, k calls of `nextQuestion` leave status and score alone and add k to the index |
| GameStore.WonGameKeepsCollectingBonus | src/lib/store.ts:83-86 | two `nextQuestion` calls on the last question add the completion bonus twice |
| GameStore.Store.constructor | src/lib/store.ts:31-40 | the initial state: idle, index 0, score 0, both lifelines, empty deck, no deck id |
| GameStore.Store.StartGame | src/lib/store.ts:42-49 | the fields become `Started(deck, deckId)` |
| GameStore.Store.AnswerQuestion | src/lib/store.ts:51-79 | the fields and the result are those of `Answer` on the old fields |
| GameStore.Store.NextQuestion | src/lib/store.ts:81-90 | the fields become `Next` of the old fields |
| GameStore.Store.UseLifeline | src/lib/store.ts:92-102 | the fields become `WithLifeline` of the old fields |
| GameStore.Store.ResetGame | src/lib/store.ts:104 | the fields become `Reset` of the old fields |
| Ledger.PackageCoins | src/app/api/payment/create/route.ts:50-54 | the `coinsMap` table keyed by centavos (no contract of its own; `Ledger.CoinsFor` and `Ledger.CoinsTable` state its values) |
| Ledger.CoinsFor | src/app/api/payment/create/route.ts:50-55 | 10, 25 and 50 reais give 100, 300 and 700 coins; any other amount gives ten coins per real, rounded down |
| Ledger.CoinsTable | src/app/api/payment/webhook/route.ts:68-73 | the table on its keys and the fallback on amounts off the table |
| Ledger.WithProviderId | src/app/api/payment/webhook/route.ts:55-58 | exactly the rows whose provider id equals the given one |
| Ledger.MaybeSingle | src/app/api/payment/webhook/route.ts:55-62 | a row is found exactly when one row has the provider id, and it is that row |
| Ledger.SetStatus | src/app/api/payment/webhook/route.ts:96-99 | rows with the id get the new status; every other row is untouched |
| Ledger.Credit | src/app/api/payment/webhook/route.ts:81-84 | the user's balance grows by the coins, and every other balance stays the same |
| Ledger.Valid | src/app/api/payment/create/route.ts:57-67 | the ledger invariant: ids distinct and below the next id, every row's coins those of the coins table for its amount (no contract of its own; preserved by `PaymentCreate.CreatePreservesValid`, `Ledger.SetStatusKeepsRows` and `PaymentWebhook.HandlePreservesValid`) |
| Ledger.SetStatusKeepsRows | src/app/api/payment/webhook/route.ts:107-111 | a status update changes no other column and keeps the ledger invariant |
| Ledger.Database.SelectByProviderId | src/app/api/payment/webhook/route.ts:55-62 | a failed query gives no row; otherwise the row is `MaybeSingle` of the table |
| Ledger.Database.AddCoins | src/app/api/payment/webhook/route.ts:81-91 | on success the balances become `Credit` of the old ones; on error nothing changes |
| Ledger.Database.UpdateStatus | src/app/api/payment/webhook/route.ts:96-99 | the table becomes `SetStatus` of the old one, or stays the same on error |
| Ledger.Database.Insert | src/app/api/payment/create/route.ts:57-67 | on success the row is appended with the next id; on error nothing changes |
| PaymentCreate.IdempotencyKey | src/app/api/payment/create/route.ts:24 | `pay_`, the user id, `_` and the timestamp in decimal (no contract of its own; `PaymentCreate.IdempotencyKeyInjective` states what it promises) |
| PaymentCreate.IdempotencyKeyInjective | src/app/api/payment/create/route.ts:24 | two idempotency keys are equal only for the same user at the same millisecond |
| PaymentCreate.ProviderRequestFor | src/app/api/payment/create/route.ts:26-39 | the provider gets the amount, `pix`, the user as external reference, the e-mail and first name or their defaults, and the idempotency key |
| PaymentCreate.ProviderIdText | src/app/api/payment/create/route.ts:64 | `result.id?.toString()`: text exactly when the provider returned an id, and then a non-empty string of digits |
| PaymentCreate.PendingRow | src/app/api/payment/create/route.ts:59-67 | the inserted row: user, amount, the table's coins, `pending`, the provider id as text and the two QR code fields (no contract of its own; `PaymentCreate.CreateInsertsPendingRow` states it for the appended row) |
| PaymentCreate.Create | src/app/api/payment/create/route.ts:41-79 | no provider result: 500 and no change; otherwise the response carries the provider's data, and the pending row is appended unless the insert fails (the failure is only logged) |
| PaymentCreate.CreateInsertsPendingRow | src/app/api/payment/create/route.ts:57-67 | exactly one row is appended: the user, the amount, the table's coins, status `pending`, the provider id as text and the provider's two QR code fields |
| PaymentCreate.CreatePreservesValid | src/app/api/payment/create/route.ts:41-72 | whatever the provider and the database do, the ledger invariant still holds |
| PaymentCreate.Post | src/app/api/payment/create/route.ts:17-86 | sends `ProviderRequestFor` and leaves the database and the response as `Create` says |
| PaymentWebhook.Topic | src/app/api/payment/webhook/route.ts:17 | `topic` or else `type` from the query (no contract of its own; `PaymentWebhook.QueryIdPrecedence` states the precedence) |
| PaymentWebhook.QueryId | src/app/api/payment/webhook/route.ts:18 | `id` or else `data.id` from the query (no contract of its own; `PaymentWebhook.QueryIdPrecedence` states the precedence) |
| PaymentWebhook.Route | src/app/api/payment/webhook/route.ts:16-33 | a query id is handled only for the topics `payment` and `merchant_order`, otherwise ignored; without one the body's `data.id` is handled, and with neither the answer is "No ID found" |
| PaymentWebhook.QueryIdPrecedence | src/app/api/payment/webhook/route.ts:17-18 | a non-empty `id` beats `data.id`, and a non-empty `topic` beats `type` |
| PaymentWebhook.LocalRow | src/app/api/payment/webhook/route.ts:55-62 | the row handlePayment sees: none when the query fails (its error is not read); otherwise found exactly when one row has the provider id, and then that row |
| PaymentWebhook.Handle | src/app/api/payment/webhook/route.ts:41-116 | an unknown payment gives 500 and no change; no id is handed out; no column but a row's status changes |
| PaymentWebhook.Receive | src/app/api/payment/webhook/route.ts:15-38 | a reply from `Route` changes nothing; an id chosen by `Route` is handled by `Handle` |
| PaymentWebhook.AlreadyApprovedIsNoOp | src/app/api/payment/webhook/route.ts:75-78 | approved, with the local row already approved: "Already processed", nothing credited, nothing written |
| PaymentWebhook.ApprovedCreditsOnce | src/app/api/payment/webhook/route.ts:67-91 | approved, with the row not yet approved: 200, exactly the table's coins credited to the external reference, no other balance changed |
| PaymentWebhook.CreditFailureChangesNothing | src/app/api/payment/webhook/route.ts:86-91 | a failed `add_coins` answers 500 and leaves the ledger as it was |
| PaymentWebhook.NotApprovedMirrorsStatus | src/app/api/payment/webhook/route.ts:105-113 | a non-approved payment credits nothing; the found row takes the provider's status when the update succeeds; otherwise nothing is written |
| PaymentWebhook.HandlePreservesValid | src/app/api/payment/webhook/route.ts:93-113 | handling a notification keeps the ledger invariant |
| PaymentWebhook.WithProviderIdAfterSetStatus | src/app/api/payment/webhook/route.ts:95-99 | after its status is updated, the single row for a provider id is still the one found, with the new status |
| PaymentWebhook.SecondDeliveryCreditsNothing | src/app/api/payment/webhook/route.ts:75-99 | for a single unapproved row, a successful delivery credits once and records the approval; a second delivery with a working lookup answers "Already processed" and changes nothing |
| PaymentWebhook.RedeliveriesCreditAtMostOnce | src/app/api/payment/webhook/route.ts:67-104 | for a single unapproved row, with working lookups and status updates, any number of deliveries credits the coins exactly once if some `add_coins` succeeds, never otherwise; no other user is touched |
| PaymentWebhook.ApprovedAfterwardsCreditsNothing | src/app/api/payment/webhook/route.ts:75-78 | once the row is approved, any further deliveries with working lookups and status updates leave the ledger unchanged |
| PaymentWebhook.ApprovedThenFailedLookupCreditsAgain | src/app/api/payment/webhook/route.ts:55-91 | after a delivery that credited and approved the row, a redelivery whose lookup fails credits the user a second time |
| PaymentWebhook.NoLocalRowCreditsEveryTime | src/app/api/payment/webhook/route.ts:55-104 | when the lookup yields no row (no row or several match, or the query fails), two deliveries of one approval credit twice and record nothing |
| PaymentWebhook.UnrecordedApprovalCreditsAgain | src/app/api/payment/webhook/route.ts:93-99 | a credit whose status update fails is followed by a second credit on redelivery |
| PaymentWebhook.ApprovedFirstDelivery | src/app/api/payment/webhook/route.ts:67-99 | the first approval for a single pending row credits the user and then marks that row approved |
| PaymentWebhook.CreateThenApprovalCreditsStoredCoins | src/app/api/payment/webhook/route.ts:67-73 | after the create route stored a row, the approval for the same amount and user credits exactly the row's stored coins and marks the row approved |
| PaymentWebhook.PaymentTopicIsHandled | src/app/api/payment/webhook/route.ts:17-30 | a notification with topic `payment` and a non-empty id is handed to handlePayment with that id |
| PaymentWebhook.CreatedRowIsFound | src/app/api/payment/webhook/route.ts:55-62 | the pending row stored by the create route for a new provider id is the single row the webhook's lookup finds |
| PaymentWebhook.HandlePayment | src/app/api/payment/webhook/route.ts:41-116 | the database and the response end as `Handle` says |
| PaymentWebhook.Post | src/app/api/payment/webhook/route.ts:6-39 | the database and the response end as `Receive` says |
| ChallengeJoin.MaxScoreOrZero | src/app/api/challenge/join/route.ts:42 | `maxScore` or-ed with 0: the given maximum, or 0 when absent |
| ChallengeJoin.HasFields | src/app/api/challenge/join/route.ts:14 | challenge, user and deck all truthy (no contract of its own; `ChallengeJoin.MissingFieldsRejected` states what happens without them) |
| ChallengeJoin.Matching | src/app/api/challenge/join/route.ts:20-25 | exactly the rows for the challenge and the user |
| ChallengeJoin.Single | src/app/api/challenge/join/route.ts:20-25 | a match is found exactly when one row has the pair, and it is that row |
| ChallengeJoin.Placeholder | src/app/api/challenge/join/route.ts:37-44 | the zero-score row with `maxScore` or 0 and the current time (no contract of its own; `ChallengeJoin.NewMatchInsertsPlaceholder` states the appended row) |
| ChallengeJoin.Join | src/app/api/challenge/join/route.ts:9-59 | missing fields give 400 and no change; an existing match, a failed insert or missing fields leave the table unchanged; an existing match is only ever reported by a working lookup |
| ChallengeJoin.Valid | src/app/api/challenge/join/route.ts:18-46 | the table invariant the route is meant to keep: distinct ids below the next id and at most one row per challenge and user (no contract of its own; `ChallengeJoin.JoinPreservesValid` states when it survives) |
| ChallengeJoin.MatchingAtMostOne | src/app/api/challenge/join/route.ts:20-25 | in a table with one row per pair, a lookup sees at most one row |
| ChallengeJoin.LookupFindsEveryRow | src/app/api/challenge/join/route.ts:20-30 | in a valid table the lookup finds nothing exactly when no row has the pair |
| ChallengeJoin.MissingFieldsRejected | src/app/api/challenge/join/route.ts:14-16 | a falsy challenge, user or deck gives 400, with no lookup and no insert |
| ChallengeJoin.ExistingMatchUnchanged | src/app/api/challenge/join/route.ts:20-30 | an existing match found by a working lookup returns its id with `existing`, and the table is unchanged |
| ChallengeJoin.NewMatchInsertsPlaceholder | src/app/api/challenge/join/route.ts:20-53 | when the lookup yields nothing (no single row, or a failed query), exactly one row is appended (pair, deck, score 0, `maxScore` or 0, now, next id) and its id is returned with `new` |
| ChallengeJoin.InsertFailureAnswers500 | src/app/api/challenge/join/route.ts:48-51 | when the lookup yields nothing, a failed insert answers 500 and adds nothing |
| ChallengeJoin.JoinKeepsExistingRows | src/app/api/challenge/join/route.ts:18-46 | every row already in the table survives unchanged, so no score is ever reset |
| ChallengeJoin.JoinPreservesValid | src/app/api/challenge/join/route.ts:20-46 | the table invariant survives a call exactly unless a failed lookup let a successful insert add a second row for a pair that already had one |
| ChallengeJoin.DuplicateBreaksValid | src/app/api/challenge/join/route.ts:20-46 | a failed lookup for a pair that has a row, followed by a successful insert, breaks the one-row-per-pair invariant |
| ChallengeJoin.FailedLookupAddsSecondRow | src/app/api/challenge/join/route.ts:20-46 | in a valid table, a failed lookup for a caller who already joined answers `new` and leaves two rows for the pair |
| ChallengeJoin.DuplicatedPairKeepsGrowing | src/app/api/challenge/join/route.ts:20-46 | once a pair has two rows, `.single()` finds nothing, so every later call whose insert succeeds adds one more row for the pair, whether or not its lookup fails |
| ChallengeJoin.JoinedStaysPut | src/app/api/challenge/join/route.ts:20-30 | with working lookups, once the pair has its row any number of further joins leave the table unchanged |
| ChallengeJoin.RepeatedJoinsLeaveOneRow | src/app/api/challenge/join/route.ts:14-46 | with working lookups, from no row, any sequence of joins for one pair leaves exactly one row if some attempt had a deck and a successful insert, and none otherwise |
| ChallengeJoin.JoinTwice | src/app/api/challenge/join/route.ts:20-53 | joining twice from no row, the second time with a working lookup: `new` then `existing` with the same id, and one row for the pair |
| ChallengeJoin.MatchesTable.SelectSingle | src/app/api/challenge/join/route.ts:20-25 | a failed query gives no row; otherwise the row found is the single row for the pair, if there is exactly one |
| ChallengeJoin.MatchesTable.Insert | src/app/api/challenge/join/route.ts:35-46 | on success the row is appended with the next id and returned; on error nothing changes |
| ChallengeJoin.Post | src/app/api/challenge/join/route.ts:9-59 | the table and the response end as `Join` says |
| Cpf.StripNonDigits | src/components/shop/CoinStore.tsx:27 | the result consists of digits only and is no longer than the input |
| Cpf.StripKeepsDigits | src/components/shop/CoinStore.tsx:27 | a character occurs in the result exactly when it is a digit of the input |
| Cpf.StripConcat | src/components/shop/CoinStore.tsx:27 | stripping distributes over concatenation, so the kept digits stay in input order |
| Cpf.StripDigits | src/components/shop/CoinStore.tsx:27 | a string of digits is left unchanged |
| Cpf.FirstMatch | src/components/shop/CoinStore.tsx:28-31 | the leftmost position where the pattern matches, or none when it matches nowhere |
| Cpf.DashMatchLength | src/components/shop/CoinStore.tsx:30 | the greedy `\d{1,2}` makes the match four or five characters long, within the text |
| Cpf.DotStep | src/components/shop/CoinStore.tsx:28-29 | `replace(/(\d{3})(\d)/, '$1.$2')` as a leftmost match and a splice (no contract of its own; `Cpf.DotStepOnDigits` and `Cpf.SecondDotStep` state its effect) |
| Cpf.DashStep | src/components/shop/CoinStore.tsx:30 | `replace(/(\d{3})(\d{1,2})/, '$1-$2')` with the greedy one-or-two digits (no contract of its own; `Cpf.DashStepOnOneDot` and `Cpf.DashStepOnTwoDots` state its effect) |
| Cpf.TrimStep | src/components/shop/CoinStore.tsx:31 | `replace(/(-\d{2})\d+?$/, '$1')` (no contract of its own; `Cpf.TrimStepWithoutDash` and `Cpf.TrimStepOnDash` state its effect) |
| Cpf.DotStepOnDigits | src/components/shop/CoinStore.tsx:28 | on a digit string the first replacement puts a dot after the third digit when a fourth follows |
| Cpf.SecondDotStep | src/components/shop/CoinStore.tsx:29 | the second replacement puts a dot after the sixth digit when a seventh follows |
| Cpf.DashStepOnOneDot | src/components/shop/CoinStore.tsx:30 | with at most six digits the dash replacement finds nothing |
| Cpf.DashStepOnTwoDots | src/components/shop/CoinStore.tsx:30 | with seven to nine digits nothing changes; with ten or more a dash goes after the ninth, and all later digits follow it |
| Cpf.TrimStepWithoutDash | src/components/shop/CoinStore.tsx:31 | without a dash the trimming replacement changes nothing |
| Cpf.TrimStepOnDash | src/components/shop/CoinStore.tsx:31 | after the dash at most two digits remain: the tenth and the eleventh |
| Cpf.ChainUpToThree | src/components/shop/CoinStore.tsx:28-31 | on up to three digits none of the four replacements changes anything |
| Cpf.ChainUpToSix | src/components/shop/CoinStore.tsx:28-31 | on four to six digits the replacements leave one dot after the third digit |
| Cpf.ChainUpToNine | src/components/shop/CoinStore.tsx:28-31 | on seven to nine digits the replacements leave dots after the third and sixth digits |
| Cpf.ChainFromTen | src/components/shop/CoinStore.tsx:28-31 | on ten or more digits the replacements give `ddd.ddd.ddd-d` or `ddd.ddd.ddd-dd` and drop any further digits |
| Cpf.FormatCpf | src/components/shop/CoinStore.tsx:25-32 | `formatCPF` as the chain of the four replacements after stripping non-digits (no contract of its own; the `Cpf.FormatCpf…` lemmas below state its properties) |
| Cpf.Mask | src/components/shop/CoinStore.tsx:25-32 | the closed form `ddd.ddd.ddd-dd` filled with the first eleven digits (no contract of its own; `Cpf.MaskLength`, `Cpf.MaskDigits` and `Cpf.MaskSeparators` state its shape) |
| Cpf.FormatCpfIsMask | src/components/shop/CoinStore.tsx:25-32 | the replacement chain equals the mask `ddd.ddd.ddd-dd` filled with the input's digits |
| Cpf.MaskLength | src/components/shop/CoinStore.tsx:25-32 | the mask is at most 14 characters long, and exactly 14 when there are at least 11 digits |
| Cpf.MaskDigits | src/components/shop/CoinStore.tsx:25-32 | the digits of the mask are the first min(n, 11) digits |
| Cpf.MaskSeparators | src/components/shop/CoinStore.tsx:28-30 | dots at positions 3 and 7 and a dash at 11, each exactly when a digit follows it; digits everywhere else |
| Cpf.MaskOfPrefix | src/components/shop/CoinStore.tsx:30-31 | digits beyond the eleventh do not change the mask |
| Cpf.FormatCpfAlphabet | src/components/shop/CoinStore.tsx:25-32 | the output holds only digits, `.` and `-` |
| Cpf.FormatCpfDigits | src/components/shop/CoinStore.tsx:27-31 | the digits of the output are the input's first min(n, 11) digits |
| Cpf.FormatCpfSeparators | src/components/shop/CoinStore.tsx:28-30 | `.` after the 3rd and 6th digits and `-` after the 9th, each only when another digit follows |
| Cpf.FormatCpfLength | src/components/shop/CoinStore.tsx:25-32 | the output has length 14 exactly when the input has at least 11 digits, and never more |
| Cpf.FormatCpfIdempotent | src/components/shop/CoinStore.tsx:25-32 | formatting a formatted value changes nothing |
| CoinStore.PackagesAgreeWithServerTable | src/components/shop/CoinStore.tsx:9-13 | each package's price is worth, in the servers' coins table, exactly the coins shown for it |
| CoinStore.PurchaseRequest | src/components/shop/CoinStore.tsx:83-89 | the body `handleBuy` posts: package id, price as the amount, the user's id and e-mail (no contract of its own; `CoinStore.PurchaseStoresPackageCoins` states what it stores) |
| CoinStore.PurchaseStoresPackageCoins | src/components/shop/CoinStore.tsx:80-89 | buying a listed package makes the create route store a row with that package's coins |
| CoinStore.GuardAcceptsFullCpfs | src/components/shop/CoinStore.tsx:41 | a formatted value passes the length guard exactly when at least 11 digits were typed |
| CoinStore.AcceptedCpfHasElevenDigits | src/components/shop/CoinStore.tsx:39-47 | a formatted value that passes the guard yields exactly eleven digits: the first eleven typed |
| CoinStore.CoinStoreView.Valid | src/components/shop/CoinStore.tsx:152 | the CPF field holds formatted text (no contract of its own; established by the constructor and `ChangeCpf`, and used by `ConfirmBuy`) |
| CoinStore.CoinStoreView.constructor | src/components/shop/CoinStore.tsx:17-19 | no package, no CPF field shown, an empty CPF, which counts as formatted |
| CoinStore.CoinStoreView.InitiateBuy | src/components/shop/CoinStore.tsx:34-37 | the package is selected and the CPF field shown |
| CoinStore.CoinStoreView.ChangeCpf | src/components/shop/CoinStore.tsx:152 | the field holds `formatCPF` of what was typed, so it stays formatted |
| CoinStore.CoinStoreView.ConfirmBuy | src/components/shop/CoinStore.tsx:39-47 | nothing without a package; a rejection below 14 characters; otherwise the purchase with the CPF's digits, which are exactly eleven while the field is formatted |

## Left out

- Floating point. `Number(amount)`, `Math.floor(amount * 10)` and `NaN` are not modelled: amounts are whole centavos, and non-numeric amounts are not represented.
- GameStore.Answer and GameStore.Store.AnswerQuestion: the source reads `deck[currentQuestionIndex].correctIndex` and throws when the index is past the deck. The model makes an existing current question a precondition rather than modelling the thrown `TypeError`.
- The status `lost`: the store never sets it. It is set from outside the store, in `src/app/(game)/arena/page.tsx`, which is not part of this model.
- Zustand itself: the subscriptions and the merge semantics of `set` are not modelled. Each action is a method that overwrites the fields its `set` names.
- Concurrency. Deliveries and joins are sequential calls. Concurrent webhook deliveries, the race between the lookup and the insert in the join route, and the atomicity of the `add_coins` SQL function are not modelled.
- The payment provider. `payment.create` and `payment.get` are inputs; their HTTP traffic and authentication are left out.
- Thrown errors. Any thrown provider error, including the awaited and un-awaited calls of `handlePayment`, becomes one 500 response. The messages in the error bodies are not modelled. Promise semantics are not modelled either.
- The clock. `Date.now()` and `new Date().toISOString()` are the inputs `now`.
- Body parsing. JSON bodies are parsed into typed records; request fields of other JSON types (numbers, objects) are not represented. In the join route every field may be absent; in the create route only `email` and `firstName` may.
- PaymentCreate.ProviderRequestFor, PaymentCreate.IdempotencyKey and PaymentCreate.PendingRow: `userId` and `packageId` are taken as present strings. An absent `userId` is not represented; the source would then use the key `pay_undefined_<now>`, send no `external_reference` and store a null `user_id`. An absent `packageId` (the description `Pack undefined`) is not represented either.
- The payment create route: the `cpf` field posted by the client is never read by the route, so it is not part of the request record; the `amount` column stores the request's amount in centavos.
- The `qr_code` and `ticket_url` values: they are passed through opaquely.
- ChallengeJoin.MatchesTable.SelectSingle: the source selects only the `id` column; the model returns the whole row and the route uses only its id.
- ChallengeJoin.ExistingMatchUnchanged: stated for a working lookup only. A failed lookup reads as "no match" and inserts a placeholder (`ChallengeJoin.NewMatchInsertsPlaceholder`), a second one when the caller had already joined (`ChallengeJoin.FailedLookupAddsSecondRow`).
- ChallengeJoin.JoinedStaysPut: stated for working lookups only. One failed lookup adds a second row for the pair (`ChallengeJoin.FailedLookupAddsSecondRow`), after which every successful insert adds another (`ChallengeJoin.DuplicatedPairKeepsGrowing`).
- ChallengeJoin.RepeatedJoinsLeaveOneRow: stated for working lookups only. With failed lookups the pair can end with more than one row, as `ChallengeJoin.FailedLookupAddsSecondRow` and `ChallengeJoin.DuplicatedPairKeepsGrowing` show; the exact count for arbitrary failures is not stated.
- ChallengeJoin.JoinTwice: the second call's lookup works. When it fails, the second call inserts a second row (`ChallengeJoin.FailedLookupAddsSecondRow`).
- PaymentWebhook.SecondDeliveryCreditsNothing: the second delivery's lookup works. When it fails, the approval is credited again (`PaymentWebhook.NoLocalRowCreditsEveryTime`).
- PaymentWebhook.RedeliveriesCreditAtMostOnce: every delivery's lookup and status update are taken to work; only `add_coins` may fail. A failed lookup after the credit pays again (`PaymentWebhook.ApprovedThenFailedLookupCreditsAgain`), and so does a failed status update (`PaymentWebhook.UnrecordedApprovalCreditsAgain`); a lookup that finds no row credits every time (`PaymentWebhook.NoLocalRowCreditsEveryTime`).
- PaymentWebhook.ApprovedAfterwardsCreditsNothing: the further deliveries' lookups are taken to work. A failed lookup on an approved row credits again (`PaymentWebhook.ApprovedThenFailedLookupCreditsAgain`, `PaymentWebhook.NoLocalRowCreditsEveryTime`).
- The coin shop dialog:
  - `handleBuy` (login check, the fetch, the QR code state, `loadingPackage`, `status`) is left out, as are the polling interval, the clipboard, the cancel button and the JSX.
  - `ConfirmBuy` returns the guard's decision instead of calling `handleBuy` or `alert`.
  - The `maxLength={14}` attribute is not modelled; FormatCpfLength shows `formatCPF` never produces more than 14 characters anyway.
- The daily-deck, generate-deck and challenge create routes, and the other pages and hooks: they are not part of this model.
