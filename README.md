# okies-backend ledger and settlement core, in Dafny

This project models the money-moving handlers of the okies-backend Go API and proves properties
of them. It covers these handlers:

- gifts between users;
- admin top-ups from the system wallet;
- the wallet balance and transaction listing;
- the two withdrawal flows:
  - `withdrawal_handlers.go`: a hold, then provider transfer or reversal;
  - `payout_handlers.go`: payout destinations, a reserve, then approval or refund;
- the provider's transfer webhook.

The ledger is double entry. Every transaction has one debit and one credit of its amount. A
wallet's balance is not stored; it is the sum of its credits minus its debits. Idempotency keys
are unique across the ledger.

Each handler is modelled twice:

- a pure function from the state it reads to an outcome datatype (the response, the tables
  afterwards, the wallets locked, the provider call made);
- a method on the `Store` class. Its fields are the tables. The method's `ensures` ties the new
  fields and its outputs to that function applied to the old state.

Where a handler has guards, the function is split in two: the first guard that stops the request,
and the effect once all guards pass (`Hold`, `Reversal`, `Initiate`, `ReserveFunds`,
`MarkApproved`, `MarkRejected`). A guards lemma ties the two together.

Modules, one per concern:

| module | models |
|---|---|
| `Base` | `Option` and `Reply` (an HTTP status with data, or with an error code) |
| `Text` | `strings.TrimSpace`, `strings.ToLower` (ASCII letters), `strconv.Atoi` |
| `Locking` | the sorted order in which wallet rows are locked |
| `Ledger` | transactions, entries, balances, posting |
| `Store` | the table rows, the store invariant `Consistent` and the `Store` class |
| `Paging` | limit/offset parsing and the LIMIT/OFFSET slice |
| `Wallets` | `wallet_handlers.go` |
| `Gifts` | `gift_handlers.go` |
| `Topups` | `admin_topup.go` |
| `Withdrawals` | `withdrawal_handlers.go` |
| `Payouts` | `payout_handlers.go` |
| `Webhooks` | `webhook_handlers.go` |

Both withdrawal files declare `CreateWithdrawal`, `AdminApproveWithdrawal`,
`AdminRejectWithdrawal` and `ListMyWithdrawals` on the same receiver. The model keeps them apart,
as `Withdrawals` and `Payouts`, and models each file as written.

Behaviour the model keeps as the code has it:

- **Withdrawal approval** marks a pending withdrawal approved before it checks that the amount is
  a whole number of naira. A refused amount therefore leaves the row approved with no transfer.
- **Payout approval** sets any payout that has not succeeded to approved, including a rejected
  one that was already refunded. `ApproveAfterReject` states this.
- **Payout rejection** refunds from any status but succeeded, and always answers
  `refunded: true`.
- **The payout reserve** has no balance check: it can drive the user's balance negative.
- **A top-up** has no floor on the system wallet.
- **The gift key** is trimmed after the UUID fallback. A blank `Idempotency-Key` header therefore
  becomes the empty key, shared by every such gift.
- **The webhook** moves a withdrawal to paid or failed but posts nothing to the ledger. The hold
  stays with the system wallet.

## Model

| member | source | states |
|---|---|---|
| Text.LeadingSpacesSpec | apps/api/payout_handlers.go:79-81 | the white space TrimSpace drops at the front is exactly the run before the first other character |
| Text.TrailingSpacesSpec | apps/api/payout_handlers.go:79-81 | the white space dropped at the back is exactly the run after the last other character |
| Text.TrimSpaceCut | apps/api/payout_handlers.go:79-81 | TrimSpace(s) is the slice of s between the leading and the trailing white space; a non-empty result starts and ends with other characters |
| Text.TrimSpaceSpec | apps/api/gift_handlers.go:56 | the trimmed string is a slice of s, everything after it is white space, and it neither starts nor ends with white space |
| Text.TrimSpace | apps/api/gift_handlers.go:56 | the result is the slice of s that starts after its leading white space |
| Text.TrimSpaceEmpty | apps/api/admin_topup.go:59-62 | TrimSpace(s) is empty exactly when s is all white space (so the UUID fallback applies to blank headers) |
| Text.TrimSpaceIdempotent | apps/api/gift_handlers.go:52-56 | trimming twice equals trimming once |
| Text.LowerChar | apps/api/webhook_handlers.go:28 | an upper-case ASCII letter becomes the letter 32 code points above it; every other character is kept; no upper-case letter comes out |
| Text.ToLower | apps/api/webhook_handlers.go:28 | same length, each character lowered, no upper-case ASCII letter left |
| Text.ToLowerIdempotent | apps/api/webhook_handlers.go:28 | lowering twice equals lowering once |
| Text.Atoi | apps/api/wallet_handlers.go:60-71 | a parsed value is the optionally signed decimal numeral read as a number, negated after "-", and lies in the signed 64-bit range; the empty text, a bare sign, a leading character that is neither sign nor digit and any later non-digit are refused |
| Text.ShowNat | apps/api/wallet_handlers.go:60-71 | the decimal numeral of a number is non-empty and all digits |
| Text.DigitsValueShowNat | apps/api/wallet_handlers.go:60-71 | reading back the numeral of n gives n |
| Text.AtoiShowNat | apps/api/wallet_handlers.go:60-71 | Atoi parses the numeral of n to n, and "-" followed by it to -n |
| Locking.LexLeTotal | apps/api/gift_handlers.go:63-64 | any two wallet ids are ordered by Go's string order one way or the other |
| Locking.LexLeAntisymmetric | apps/api/gift_handlers.go:63-64 | two ids ordered both ways are equal |
| Locking.LexLeTransitive | apps/api/gift_handlers.go:63-64 | Go's string order is transitive |
| Locking.LockOrder | apps/api/gift_handlers.go:62-67 | the two ids to lock, sorted: two entries, a permutation of the inputs, strictly ordered when distinct |
| Locking.LockOrderSymmetric | apps/api/admin_topup.go:71-77 | the same pair of wallets is locked in the same order whichever role each plays |
| Ledger.PairDelta | apps/api/gift_handlers.go:81-89 | a two-entry transaction changes w's balance by the signed sum of its two entries |
| Ledger.PairTotal | apps/api/gift_handlers.go:108-115 | the total of one direction in a two-entry transaction is the sum of the entries with that direction |
| Ledger.DoubleEntryBalances | apps/api/gift_handlers.go:108-115 | in a balanced transaction the debits and the credits total the same |
| Ledger.Move | apps/api/gift_handlers.go:108-115 | debit from, credit to: a balanced transaction of the given kind, amount and key |
| Ledger.MoveDelta | apps/api/gift_handlers.go:108-115 | a move adds the amount to the credited wallet and subtracts it from the debited one |
| Ledger.CreditFirst | apps/api/withdrawal_handlers.go:329-342 | the reversal's entries, credit first: a balanced transaction of the given kind, amount and key |
| Ledger.CreditFirstDelta | apps/api/payout_handlers.go:470-475 | credit to, debit from: to gains the amount, from loses it |
| Ledger.Mirror | apps/api/withdrawal_handlers.go:329-342 | the mirror of a balanced transaction is balanced, keyless, of the same amount |
| Ledger.MirrorDelta | apps/api/withdrawal_handlers.go:329-342 | the mirror changes every wallet by the opposite of the original |
| Ledger.BalanceConcat | apps/api/wallet_handlers.go:34-42 | the balance over two runs of transactions is the sum of the two balances |
| Ledger.Balance | apps/api/wallet_handlers.go:34-42 | a wallet's balance is the total of its credit entries minus the total of its debit entries over the ledger |
| Ledger.DeltaSplits | apps/api/wallet_handlers.go:36-40 | within one transaction, w's signed delta is its credits minus its debits |
| Ledger.BalanceWithoutEntries | apps/api/wallet_handlers.go:34-42 | a wallet with no entries has balance 0 (the COALESCE(…, 0)) |
| Ledger.EntriesWithoutWallet | apps/api/wallet_handlers.go:34-42 | entries on other wallets contribute nothing |
| Ledger.HoldThenMirrorRestores | apps/api/withdrawal_handlers.go:329-342 | a hold and its mirror posted at any later point leave every balance as if neither were posted |
| Ledger.EmptyBookWellFormed | apps/api/gift_handlers.go:69-79 | the empty ledger satisfies the double-entry law and the unique-key index |
| Ledger.KeysUnique | apps/api/gift_handlers.go:69-79 | no two transactions carry the same idempotency key |
| Ledger.Post | apps/api/gift_handlers.go:95-115 | appending a balanced transaction with an unused key keeps the ledger well formed, appends exactly it and indexes its key |
| Ledger.PostBalance | apps/api/gift_handlers.go:95-115 | posting t moves every balance by what t does to that wallet |
| Store.TransferReference | apps/api/withdrawal_handlers.go:224 | the transfer reference of id is "wd-" followed by id |
| Store.TransferReferenceInjective | apps/api/withdrawal_handlers.go:224 | distinct withdrawals never share a transfer reference |
| Store.HoldsSurviveAppend | apps/api/withdrawal_handlers.go:124-129 | appending to the ledger keeps every withdrawal pointing at its hold |
| Store.PayoutsKeyedGrow | apps/api/payout_handlers.go:274-283 | a growing ledger keeps every payout reference keyed |
| Store.HoldsSurviveWrite | apps/api/withdrawal_handlers.go:348-356 | writing a withdrawal row whose hold transaction moves its amount from its owner to the system keeps every withdrawal linked to its hold |
| Store.ListsKeysInsert | apps/api/withdrawal_handlers.go:125-129 | inserting a new row at the end keeps the creation order listing the table once each |
| Store.ListsKeysUpdate | apps/api/withdrawal_handlers.go:348-356 | updating an existing row keeps the creation order listing the table |
| Store.Store.CommitLedger | apps/api/gift_handlers.go:117-120 | committing a consistent ledger keeps the store valid and changes only the ledger |
| Store.Store.CommitWithdrawals | apps/api/withdrawal_handlers.go:358-361 | committing consistent withdrawal tables keeps the store valid and changes only them |
| Store.Store.CommitPayouts | apps/api/payout_handlers.go:285-288 | committing consistent payout tables keeps the store valid and changes only them |
| Paging.Limit | apps/api/wallet_handlers.go:60-65 | limit is the parsed value when it lies in 1..100, else 20 |
| Paging.Offset | apps/api/wallet_handlers.go:66-71 | offset is the parsed value when it is not negative, else 0 |
| Paging.ParamsRoundTrip | apps/api/withdrawal_handlers.go:375-386 | values echoed back by a client are read unchanged; out-of-range and negative values fall back to 20 and 0 |
| Paging.Page | apps/api/wallet_handlers.go:82-83 | LIMIT/OFFSET: the rows from offset on, at most limit of them, in order |
| Paging.PagesConcatenate | apps/api/withdrawal_handlers.go:388-394 | two consecutive pages of one size are the page of twice that size |
| Wallets.NewestFirst | apps/api/wallet_handlers.go:73-84 | the listing is never longer than the ledger; what it holds is stated by NewestFirstSound and NewestFirstComplete |
| Wallets.RowsOfPrefix | apps/api/wallet_handlers.go:73-84 | rows listed from an earlier ledger still list the current one |
| Wallets.RowsOfCons | apps/api/wallet_handlers.go:82 | a newer transaction's row can head a listing |
| Wallets.NewestFirstSound | apps/api/wallet_handlers.go:73-84 | every row is a transaction touching the wallet, with its kind and its delta on the wallet, newest first |
| Wallets.NewestFirstComplete | apps/api/wallet_handlers.go:78-81 | every transaction touching the wallet is listed |
| Wallets.UntouchedDeltaZero | apps/api/wallet_handlers.go:78-80 | a transaction without entries on the wallet has delta 0 on it |
| Wallets.DeltasSumToBalance | apps/api/wallet_handlers.go:34-42 | the deltas of the full listing add up to the balance GetWallet reports |
| Wallets.DeltaIsSignedAmount | apps/api/wallet_handlers.go:75 | a row's delta is +amount for the credited wallet and -amount for the debited one |
| Wallets.GetWallet | apps/api/wallet_handlers.go:21-45 | 404 wallet_not_found without a wallet; otherwise 200 in NGN with a balance equal to the sum of the deltas in the wallet's transaction listing |
| Wallets.PageKeepsRows | apps/api/wallet_handlers.go:82-83 | a page of a newest-first listing is still a newest-first listing |
| Wallets.ListWalletTransactions | apps/api/wallet_handlers.go:47-106 | 404 without a wallet; else 200 with the parsed paging and one page of the newest-first rows, each the caller's own with its delta |
| Gifts.GiftKey | apps/api/gift_handlers.go:51-56 | the key is already trimmed; a non-empty header gives exactly the header trimmed, the header itself when it has no outer white space, and an empty header gives the trimmed UUID |
| Gifts.BlankHeaderGivesEmptyKey | apps/api/gift_handlers.go:52-56 | any non-empty header made only of white space is not replaced by the UUID and trims to the empty key |
| Gifts.SendGift | apps/api/gift_handlers.go:24-123 | the ledger is unchanged or gains exactly the gift transaction of an admitted request; a failure never changes it |
| Gifts.GiftRejections | apps/api/gift_handlers.go:31-49 | the four guards in order with their codes; a refused request locks nothing and changes nothing |
| Gifts.GiftLocksInOrder | apps/api/gift_handlers.go:62-67 | an admitted gift locks the two distinct wallets in sorted order |
| Gifts.GiftReplay | apps/api/gift_handlers.go:69-75 | a known key answers 200 with the transaction carrying it and appends nothing |
| Gifts.GiftInsufficientIff | apps/api/gift_handlers.go:81-93 | insufficient_funds exactly when the sender's balance is below the amount |
| Gifts.GiftMovesAmount | apps/api/gift_handlers.go:95-122 | a gift appends one gift transaction and moves the amount from sender to recipient; other wallets keep their balance |
| Gifts.GiftKeepsSenderSolvent | apps/api/gift_handlers.go:90-93 | a sender whose balance is not negative never goes negative |
| Gifts.CreateGift | apps/api/gift_handlers.go:24-123 | the handler as a store update: reply, locks and new ledger are SendGift's; the store stays valid |
| Topups.TopupKey | apps/api/admin_topup.go:58-62 | the trimmed header when it has a non-space character, otherwise the fresh UUID |
| Topups.CreditUser | apps/api/admin_topup.go:21-130 | the ledger is unchanged or gains exactly the top-up of an admitted request; a failure never changes it |
| Topups.TopupRejections | apps/api/admin_topup.go:29-56 | the guards in order with their codes; 500000000 kobo passes and one more is amount_too_large; a refusal changes nothing |
| Topups.TopupReplay | apps/api/admin_topup.go:71-85 | the user and system wallets are locked in sorted order; a known key replays its transaction |
| Topups.TopupMovesAmount | apps/api/admin_topup.go:91-129 | a fresh key appends one top-up, debit system and credit user, moving exactly the amount |
| Topups.TopupCanOverdrawSystem | apps/api/admin_topup.go:113-122 | the system wallet has no floor: a top-up on an empty ledger leaves it at -amount |
| Topups.AdminTopup | apps/api/admin_topup.go:21-130 | the handler as a store update: reply, locks and new ledger are CreditUser's |
| Withdrawals.NairaAmount | apps/api/withdrawal_handlers.go:216-222 | a kobo amount converts exactly when it is a multiple of 100, to amount/100 naira |
| Withdrawals.NairaRoundTrip | apps/api/withdrawal_handlers.go:216-222 | n naira in kobo converts back to n; one kobo more does not convert |
| Withdrawals.LatestActiveDestination | apps/api/withdrawal_handlers.go:31-43 | none exactly when the user has no active destination; otherwise the last-created active one |
| Withdrawals.TransferLookupByWithdrawal | apps/api/withdrawal_handlers.go:186-191 | looking a transfer up by withdrawal id is a lookup by its "wd-" reference |
| Withdrawals.ReversalMirrorsHold | apps/api/withdrawal_handlers.go:329-342 | the reversal (credit user, debit system) is the exact mirror of the hold |
| Withdrawals.Open | apps/api/withdrawal_handlers.go:47-143 | a failure changes nothing; a success opens a pending row pointing at the appended hold (debit user, credit system) |
| Withdrawals.OpenKeepsHoldsLinked | apps/api/withdrawal_handlers.go:105-133 | create keeps every withdrawal linked to its hold |
| Withdrawals.OpenKeepsOrder | apps/api/withdrawal_handlers.go:124-129 | create keeps the creation order, with the new row last |
| Withdrawals.OpenGuards | apps/api/withdrawal_handlers.go:54-103 | invalid_request, wallet_not_found, then locks in sorted order and insufficient_funds exactly when the balance is short |
| Withdrawals.Hold | apps/api/withdrawal_handlers.go:107-133 | insufficient_funds (400) exactly when the balance is below the amount, changing nothing; otherwise the hold (debit user, credit system) is appended at the old ledger end and a pending row for the amount under the new id points at it; the two wallets are locked in sorted order |
| Withdrawals.OpenHolds | apps/api/withdrawal_handlers.go:105-142 | a covered request appends the hold, opens the pending row under the new id, and lowers the user's balance by the amount |
| Withdrawals.CreateWithdrawal | apps/api/withdrawal_handlers.go:47-143 | the handler as a store update equal to Open |
| Withdrawals.ApproveGuards | apps/api/withdrawal_handlers.go:151-201 | invalid_id, withdrawal_not_found, already_processed, payout_destination_missing, already_initiated in order; none changes anything or calls the provider; past them, Initiate with the latest active destination |
| Withdrawals.ApproveEarlyReply | apps/api/withdrawal_handlers.go:151-201 | no early reply exactly when the request goes on to initiate a transfer; an early 200 means the transfer row already exists and answers already_initiated with its "wd-" reference |
| Withdrawals.Initiate | apps/api/withdrawal_handlers.go:203-265 | the table keeps its keys and a pending row becomes approved; 200 exactly when the amount is whole naira and the provider accepts, and then the transfer table gains the pending row under "wd-"+id; otherwise it is unchanged |
| Withdrawals.Approve | apps/api/withdrawal_handlers.go:145-266 | the table keeps its keys; a failure records no transfer; a provider call is made only when the guards pass, under the "wd-" reference of the withdrawal |
| Withdrawals.InitiateFrame | apps/api/withdrawal_handlers.go:203-257 | only the row of id is written, never its owner, amount or hold; transfer rows stay keyed by reference |
| Withdrawals.InitiateMarksFirst | apps/api/withdrawal_handlers.go:203-221 | a pending row becomes approved by the admin before the whole-naira check, which refuses without a provider call; a failed call records no transfer |
| Withdrawals.InitiateCallsProvider | apps/api/withdrawal_handlers.go:222-265 | the provider is asked for amount/100 naira to the destination under "wd-"+id; 502 on failure, else a pending transfer row and transfer_initiated |
| Withdrawals.ApproveRetries | apps/api/withdrawal_handlers.go:186-201 | a retry after a provider failure sends the identical request; a retry after success answers already_initiated and changes nothing |
| Withdrawals.AdminApproveWithdrawal | apps/api/withdrawal_handlers.go:145-266 | the handler as a store update equal to Approve; the ledger is untouched |
| Withdrawals.InitiateTransfer | apps/api/withdrawal_handlers.go:203-265 | the part past the guards as a store update equal to Initiate |
| Withdrawals.Reverse | apps/api/withdrawal_handlers.go:268-366 | the table keeps its keys; a failure changes nothing and locks nothing |
| Withdrawals.Reversal | apps/api/withdrawal_handlers.go:329-356 | posting the reversal keeps the ledger well formed |
| Withdrawals.ReverseKeepsInvariants | apps/api/withdrawal_handlers.go:329-356 | reject keeps every withdrawal linked to its hold and the creation order intact |
| Withdrawals.RejectOnlyPending | apps/api/withdrawal_handlers.go:275-293 | invalid_id, then not_found_or_already_processed for anything not pending; a pending row is rejected by the admin, and rejecting again is refused |
| Withdrawals.RejectUndoesHold | apps/api/withdrawal_handlers.go:329-342 | the reversal appended is the mirror of the withdrawal's own hold, so every balance is as if the hold had never been posted |
| Withdrawals.CreateThenRejectRestores | apps/api/withdrawal_handlers.go:105-133 | a hold followed by the rejection of the new withdrawal succeeds, leaves it rejected and every balance where it started |
| Withdrawals.HandlersDelegate | apps/api/withdrawal_handlers.go:285-302 | once their guards pass, create is Hold on the user's wallet and reject is Reversal on the owner's wallet |
| Withdrawals.AdminRejectWithdrawal | apps/api/withdrawal_handlers.go:268-366 | the handler as a store update equal to Reverse |
| Withdrawals.NewestOwned | apps/api/withdrawal_handlers.go:388-394 | the list of positions is never longer than the creation order; NewestOwnedSound and NewestOwnedComplete state what it holds |
| Withdrawals.OwnedPrefix | apps/api/withdrawal_handlers.go:388-394 | positions found in an earlier order remain valid |
| Withdrawals.OwnedCons | apps/api/withdrawal_handlers.go:392 | a newer own withdrawal can head the list |
| Withdrawals.NewestOwnedSound | apps/api/withdrawal_handlers.go:388-394 | only the caller's withdrawals are listed, newest first |
| Withdrawals.NewestOwnedComplete | apps/api/withdrawal_handlers.go:388-394 | every withdrawal of the caller is listed |
| Withdrawals.ViewsAt | apps/api/withdrawal_handlers.go:408-416 | one row per position, each the stored withdrawal's id, status, amount and currency |
| Withdrawals.ViewsAtOwn | apps/api/withdrawal_handlers.go:408-416 | rows at distinct own positions are own rows, each id at most once |
| Withdrawals.PageKeepsOwnViews | apps/api/withdrawal_handlers.go:393 | a page of own rows is own rows, each once |
| Withdrawals.ListMyWithdrawals | apps/api/withdrawal_handlers.go:368-421 | 200 with the parsed paging; the rows are exactly the LIMIT/OFFSET page of the views of the caller's withdrawals, newest first, and each is the caller's own as stored, each once |
| Payouts.AddDestination | apps/api/payout_handlers.go:77-120 | 400 exactly when a field is blank after trimming, changing nothing; else 201 with the new id and one more row |
| Payouts.AddDestinationEffect | apps/api/payout_handlers.go:86-111 | the new row comes last with the fields as sent; other users' rows are untouched; a new default is the user's only default |
| Payouts.AddDestinationKeepsInvariants | apps/api/payout_handlers.go:99-111 | adding under a fresh id keeps ids unique and at most one default per user |
| Payouts.ClearUserDefaults | apps/api/payout_handlers.go:99-101 | the row-by-row UPDATE clears exactly the user's default flags |
| Payouts.ClearDefaults | apps/api/payout_handlers.go:99-101 | the table keeps its length and every other field; the user's rows lose the default flag and other users' rows are unchanged |
| Payouts.CreatePayoutDestination | apps/api/payout_handlers.go:70-121 | the handler as a store update equal to AddDestination |
| Payouts.Without | apps/api/payout_handlers.go:167-170 | the DELETE never adds rows |
| Payouts.WithoutSpec | apps/api/payout_handlers.go:167-178 | the DELETE removes exactly the caller's rows with that id, and removes something exactly when one matches |
| Payouts.AppendKeepsInvariants | apps/api/payout_handlers.go:167-170 | a row with a new id that is not a second default can follow the others |
| Payouts.WithoutKeepsInvariants | apps/api/payout_handlers.go:167-170 | deleting keeps ids unique and at most one default per user |
| Payouts.DeleteDestination | apps/api/payout_handlers.go:155-180 | missing_id exactly for a blank id, not_found exactly when no own row has it, else the matching rows are gone |
| Payouts.DeleteOthersDestinationRefused | apps/api/payout_handlers.go:167-178 | another user's destination cannot be deleted: 404 and the table is unchanged |
| Payouts.KeepOthers | apps/api/payout_handlers.go:167-170 | the row-by-row DELETE keeps the same rows as Without |
| Payouts.DeletePayoutDestination | apps/api/payout_handlers.go:155-180 | the handler as a store update equal to DeleteDestination |
| Payouts.FindDestination | apps/api/payout_handlers.go:199-206 | the position of the row with that id, or none exactly when no row has it |
| Payouts.PayoutByReference | apps/api/payout_handlers.go:247-251 | a payout found carries the reference; none means no listed payout carries it |
| Payouts.ReserveRefusal | apps/api/payout_handlers.go:191-212 | no refusal exactly when the amount is positive, the destination id is not blank, the destination is the caller's and the caller has a wallet; any refusal is a failure |
| Payouts.IdempotencyKey | apps/api/payout_handlers.go:219-223 | the key is never empty: the header when one is sent, otherwise "wd-" followed by the UUID, the payout's own reference |
| Payouts.ReserveFunds | apps/api/payout_handlers.go:232-283 | the reserve, past the request guards, keeps the ledger well formed |
| Payouts.Reserve | apps/api/payout_handlers.go:184-297 | the whole request keeps the ledger well formed |
| Payouts.ReserveGuards | apps/api/payout_handlers.go:191-212 | invalid_request, invalid_destination and wallet_not_found each exactly when their guard fails; a refusal changes nothing; past them, ReserveFunds on the user's wallet |
| Payouts.ReserveMovesFunds | apps/api/payout_handlers.go:232-296 | 200 exactly for a known key, changing nothing; otherwise 201 with the key, the reserve moves the amount from user to system even below zero, and a pending payout is opened |
| Payouts.PayoutsKeyedInsert | apps/api/payout_handlers.go:274-283 | a payout under a key new to the ledger keeps references keyed and unique |
| Payouts.ReserveKeepsInvariants | apps/api/payout_handlers.go:254-283 | a reserve keeps holds linked, amounts positive, references keyed and the creation order |
| Payouts.ReserveReplays | apps/api/payout_handlers.go:240-252 | the same request again with the same key answers 200 with the first payout's id and posts nothing |
| Payouts.ApprovePayoutGuards | apps/api/payout_handlers.go:338-356 | missing_id for a blank trimmed id, payout_not_found for an unknown one, else MarkApproved; a refusal changes nothing |
| Payouts.ApprovePayout | apps/api/payout_handlers.go:333-386 | the table keeps its keys; a refusal changes nothing and calls nobody |
| Payouts.MarkApproved | apps/api/payout_handlers.go:358-385 | always 200 with the keys kept; a payout that has not succeeded becomes approved; a transfer is requested only when the provider is configured and the payout has not succeeded |
| Payouts.BankTransfer | apps/api/payout_handlers.go:367-377 | a request carries a non-empty bank code and account number, the payout's amount and reference, in NGN; no destination row means no request |
| Payouts.MarkApprovedEffect | apps/api/payout_handlers.go:358-385 | a succeeded payout is left alone; any other, rejected included, becomes approved with nothing else changed; a transfer is only requested when configured, for the payout's amount and reference |
| Payouts.MarkApprovedCalls | apps/api/payout_handlers.go:367-377 | the transfer is requested exactly when configured and the destination has a bank code and an account number |
| Payouts.MarkApprovedNoDestination | apps/api/payout_handlers.go:370-376 | without a destination row the provider is never asked |
| Payouts.RefundKey | apps/api/payout_handlers.go:428 | the refund key extends the payout's reference |
| Payouts.MarkRejected | apps/api/payout_handlers.go:443-493 | the rejection, past the guards, keeps the ledger well formed |
| Payouts.RejectPayout | apps/api/payout_handlers.go:388-494 | the whole request keeps the ledger well formed |
| Payouts.RejectPayoutGuards | apps/api/payout_handlers.go:393-421 | missing_id, payout_not_found, cannot_reject_succeeded and wallet_not_found each exactly when their guard fails; a refusal changes nothing; past them, MarkRejected |
| Payouts.RejectRefusal | apps/api/payout_handlers.go:393-421 | no refusal exactly when the trimmed id is non-empty, names a payout that has not succeeded, and its owner has a wallet; any refusal is a failure |
| Payouts.MarkRejectedEffect | apps/api/payout_handlers.go:450-493 | the payout becomes rejected, refunded is true, the refund key ends up in the ledger, and the refund is posted exactly when the key was free, crediting the user |
| Payouts.MarkRejectedKeepsConsistent | apps/api/payout_handlers.go:450-479 | a rejection keeps every store invariant |
| Payouts.RejectRefundsOnce | apps/api/payout_handlers.go:453-479 | rejecting twice refunds once and answers the same |
| Payouts.ReserveThenRejectRestores | apps/api/payout_handlers.go:254-283 | a reserve followed by the rejection of the new payout leaves every balance as before |
| Payouts.ApproveAfterReject | apps/api/payout_handlers.go:364-376 | approving a rejected, refunded payout sets it back to approved and makes the same transfer call as any approval, while the refund stays in the ledger |
| Payouts.PayoutStatusWrite | apps/api/payout_handlers.go:365 | a status change keeps the payouts table's invariants |
| Payouts.CreateWithdrawal | apps/api/payout_handlers.go:184-297 | the handler as a store update equal to Reserve with the header or "wd-"+uuid as key |
| Payouts.AdminApproveWithdrawal | apps/api/payout_handlers.go:333-386 | the handler as a store update equal to ApprovePayout; the ledger is untouched |
| Payouts.AdminRejectWithdrawal | apps/api/payout_handlers.go:388-494 | the handler as a store update equal to RejectPayout |
| Payouts.RefundPayout | apps/api/payout_handlers.go:428-493 | the part past the guards as a store update equal to MarkRejected; the destinations and the creation order are untouched and the store stays valid |
| Payouts.DestinationsNewestFirst | apps/api/payout_handlers.go:130-135 | the listing is never longer than the table; DestinationsNewestFirstExact, DestinationsNewestFirstReversed and DestinationsListedOnce state what it holds and in which order |
| Payouts.DestinationsNewestFirstExact | apps/api/payout_handlers.go:130-135 | exactly the caller's destinations are listed |
| Payouts.OwnedDestinations | apps/api/payout_handlers.go:130-133 | the caller's destinations in creation order, never more than the table holds |
| Payouts.Reversed | apps/api/payout_handlers.go:134 | same length, the i-th element from the front is the i-th from the back |
| Payouts.OwnedDestinationsSnoc | apps/api/payout_handlers.go:130-133 | a row appended to the table is appended to its owner's destinations and to nobody else's |
| Payouts.DestinationsNewestFirstReversed | apps/api/payout_handlers.go:130-135 | ORDER BY created_at DESC: the listing is the caller's destinations in creation order, reversed |
| Payouts.OlderDestinationsDiffer | apps/api/payout_handlers.go:130-135 | with unique ids, no destination listed from the older rows shares the newest row's id |
| Payouts.DestinationsListedOnce | apps/api/payout_handlers.go:130-135 | with unique ids in the table, no destination is listed twice |
| Payouts.RowsOf | apps/api/payout_handlers.go:142-149 | one row per destination with its id, bank code, account number, name and default flag |
| Payouts.ListPayoutDestinations | apps/api/payout_handlers.go:123-153 | 200 with the rows of the caller's destinations in creation order reversed, so newest first; a row is listed exactly when it shows one of the caller's destinations |
| Payouts.CreatedDestinationListedFirst | apps/api/payout_handlers.go:130-134 | a destination just created heads the caller's list |
| Payouts.PayoutsNewestFirst | apps/api/payout_handlers.go:306-312 | the listing is never longer than the creation order; PayoutsNewestFirstExact and PayoutsNewestFirstReversed state what it holds and in which order |
| Payouts.PayoutsNewestFirstExact | apps/api/payout_handlers.go:306-312 | exactly the caller's payouts are listed, each once |
| Payouts.OwnedPayouts | apps/api/payout_handlers.go:306-309 | the caller's payout ids in creation order, never more than the order holds |
| Payouts.OwnedPayoutsSnoc | apps/api/payout_handlers.go:306-309 | an id appended to the order is appended to its owner's ids and to nobody else's |
| Payouts.PayoutsNewestFirstReversed | apps/api/payout_handlers.go:306-310 | ORDER BY created_at DESC: the listing is the caller's ids in creation order, reversed |
| Payouts.PayoutRowsOf | apps/api/payout_handlers.go:320-327 | one row per id with its destination, amount, status and reference |
| Payouts.ListMyPayouts | apps/api/payout_handlers.go:299-331 | 200 with min(100, number of the caller's payouts) rows; the i-th row is the i-th newest of the caller's payouts, as stored, each once |
| Payouts.ListsAllPayoutsUnderCap | apps/api/payout_handlers.go:306-312 | when the caller has at most 100 payouts, every one of them is listed |
| Payouts.NewestPayoutListedFirst | apps/api/payout_handlers.go:310 | a payout appended to the order heads its owner's list |
| Payouts.ReservedPayoutListedFirst | apps/api/payout_handlers.go:274-283 | a payout just reserved heads the user's list, pending under its key |
| Webhooks.GetString | apps/api/webhook_handlers.go:70-82 | "" for a nil map or a missing or null key; a string value as it is |
| Webhooks.GetMap | apps/api/webhook_handlers.go:83-93 | a map exactly when the value under the key is an object, holding its fields |
| Webhooks.GetAfterPut | apps/api/webhook_handlers.go:70-93 | a string stored under a key reads back as itself, null as "", an object as its fields |
| Webhooks.Payload | apps/api/webhook_handlers.go:22-23 | the payload map is present exactly when the body is a JSON object |
| Webhooks.Settlement | apps/api/webhook_handlers.go:45-63 | paid exactly for successful, success or completed; failed exactly for failed or error; nothing otherwise |
| Webhooks.UpperCaseSuccessSettles | apps/api/webhook_handlers.go:28-46 | SUCCESSFUL, SUCCESS and COMPLETED settle to paid once lower-cased |
| Webhooks.UpperCaseFailureSettles | apps/api/webhook_handlers.go:28-55 | FAILED and ERROR settle to failed once lower-cased |
| Webhooks.UpperCasePendingIgnored | apps/api/webhook_handlers.go:28-63 | PENDING settles nothing |
| Webhooks.ReadNotice | apps/api/webhook_handlers.go:22-28 | the status read has no upper-case ASCII letter; a body that is absent or not an object gives empty event, reference and status |
| Webhooks.Logged | apps/api/webhook_handlers.go:30-34 | a JSON body adds exactly one event at the end, from flutterwave with the raw payload; earlier events are kept; a non-JSON body adds none |
| Webhooks.Retagged | apps/api/webhook_handlers.go:38-42 | the transfer table keeps its keys, and every row keeps its withdrawal and amount |
| Webhooks.Settled | apps/api/webhook_handlers.go:44-63 | the withdrawal table keeps its keys, and every row keeps its owner, amount, hold and decider |
| Webhooks.Reconcile | apps/api/webhook_handlers.go:19-66 | past authentication the answer is always 200 "ok", and both tables keep their keys |
| Webhooks.HandleWebhook | apps/api/webhook_handlers.go:12-67 | both tables keep their keys; a refused request logs nothing and changes no row |
| Webhooks.WebhookAuthenticates | apps/api/webhook_handlers.go:13-17 | 403 exactly without a secret or with a different verif-hash, changing nothing; otherwise 200 "ok" |
| Webhooks.ReconcileLogs | apps/api/webhook_handlers.go:30-34 | a JSON body is logged once with its reference or NULL; earlier events are kept |
| Webhooks.NonObjectBodyUpdatesNothing | apps/api/webhook_handlers.go:19-27 | a body that is not a JSON object updates no table row |
| Webhooks.EmptyReferenceUpdatesNothing | apps/api/webhook_handlers.go:36 | an empty reference updates neither table |
| Webhooks.TransferTakesStatus | apps/api/webhook_handlers.go:37-42 | the transfer row of the reference takes the lower-cased status; no other transfer row changes |
| Webhooks.SettlesOnlyOpenWithdrawal | apps/api/webhook_handlers.go:44-63 | only the withdrawal behind the reference changes, only from approved or pending, only to paid or failed and only in its status |
| Webhooks.TerminalStatusesStay | apps/api/webhook_handlers.go:51 | rejected, paid and failed withdrawals never move |
| Webhooks.ReplayChangesNoRow | apps/api/webhook_handlers.go:36-63 | delivering the same event again leaves both tables as the first delivery left them |
| Webhooks.UpdatesKeepConsistent | apps/api/webhook_handlers.go:38-61 | the two UPDATEs keep every store invariant |
| Webhooks.FlutterwaveWebhook | apps/api/webhook_handlers.go:12-67 | the handler as a store update equal to HandleWebhook; the ledger is untouched |
| Webhooks.ApplyProviderStatus | apps/api/webhook_handlers.go:36-64 | the two UPDATEs as a store update equal to Retagged and Settled |

## Left out

- Authentication and roles (`getUserID`, `RequireAdmin`) are assumed to have passed. The caller's
  id is a parameter, and the `not_authenticated` branches are not modelled.
- JSON request decoding is not modelled: a body that fails to decode is treated like an invalid
  field. The webhook body is already-decoded JSON, and `json.Marshal` of a non-string field is a
  function parameter.
- Database and transaction errors are not modelled: every `db_error`, `tx_begin_error`,
  `lock_wallets_error`, `insert_*_error`, `scan_error` and `tx_commit_error` branch, and the
  ignored errors of `_, _ = Exec`. Each handler is one atomic step on the store.
- Concurrency is reduced to the order in which wallets are locked. Row locks are not modelled,
  and neither is `SELECT … FOR UPDATE` on payouts.
- The system user is looked up by e-mail address; the model takes the system wallet as given.
  The `system_user_missing` and `system_wallet_missing` branches are therefore not modelled.
- Timestamps, the `metadata`, `raw_request` and `raw_response` columns, currencies other than
  NGN, and `approved_at` are not modelled. `ORDER BY created_at` is creation order.
- Ids assigned by the database and fresh UUIDs are parameters.
- Transaction ids are positions in the ledger, not UUID strings.
- Amounts are unbounded integers. JSON's int64 limit on request amounts and overflow of the
  balance SUM are not modelled.
- The provider's HTTP client (`flutterwave.go`) is not part of this model: each call is a
  recorded request plus an accepted/refused parameter. The payout approval ignores the call's
  result, so no such parameter appears there.
- The `ON CONFLICT (reference) DO NOTHING` branch of the withdrawal approval is unreachable in
  the model: that insert is only reached when no transfer row for the reference exists.
- The `wallet_not_found` branch of the withdrawal rejection cannot be taken on a store whose
  invariant holds. The method omits it; `Withdrawals.Reverse` models it.
- Text.ToLower: lowers ASCII letters only, not the rest of Unicode, because provider statuses
  are ASCII.
- Webhooks: JSON numbers are kept as their literal text. An event whose body is not JSON is
  treated as not logged (the jsonb cast fails and its error is ignored). Unicode escapes that
  jsonb rejects are not modelled.
- The two "(Optional)" ledger postings that the webhook handler leaves as comments are not
  code, and are not modelled.
- Withdrawals.Reversal: its own `ensures` says only that the ledger stays well formed; `Withdrawals.CreateThenRejectRestores` (with `Withdrawals.RejectUndoesHold` on `Reverse`) states what it does.
- Payouts.ReserveFunds: its own `ensures` says only that the ledger stays well formed; `Payouts.ReserveMovesFunds` states what it does.
- Payouts.Reserve: its own `ensures` says only that the ledger stays well formed; `Payouts.ReserveGuards` states what it does.
- Payouts.MarkRejected: its own `ensures` says only that the ledger stays well formed; `Payouts.MarkRejectedEffect` states what it does.
- Payouts.RejectPayout: its own `ensures` says only that the ledger stays well formed; `Payouts.RejectPayoutGuards` states what it does.
- Payouts.AddDestination: a new destination row is active. The INSERT at
  `payout_handlers.go:104-107` sets no status, so the table default is taken to be 'active', as
  `withdrawal_handlers.go:35` relies on.
- Webhooks.Settled: its own `ensures` states only what stays fixed;
  `Webhooks.SettlesOnlyOpenWithdrawal` states the change.
- Webhooks.Retagged: its own `ensures` states only what stays fixed;
  `Webhooks.TransferTakesStatus` states the change.
