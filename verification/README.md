# A verified model of OutLayer's contracts and typed-data hashing

This project models, in Dafny, the parts of OutLayer that are hardest to get right, and proves what
they promise for every input and every run.

* **Typed-data hashing** in the keystore worker: the EIP-712 encoder (sections "Definition of
  encodeType", "Definition of encodeData" and "Definition of hashStruct" of EIP-712), down to the
  in-place carry loops that turn decimal text into 256-bit words. Keccak is symbolic: a hash word is a
  constructor over its preimage.
* **The execution protocol** of the main contract: request, output, resume, settlement callback,
  sender and owner cancels, deposits, earnings withdrawals and their roll-back, over all interleavings.
* **The registries**: secrets and payment keys, wallet policies, projects, and the keystore DAO's
  registrations, revocations and vault-version ballots. Each keeps several maps that must agree.
* **The signed messages** that authorise agent secrets and wallet policies.

## How it is built

For each stateful component there are three layers.

1. A state machine of values (`Execution`, `Dao`, `Secrets`, `Wallet`, `Projects`): a `State`, a `Call`
   for each entry point and callback, and `Step`, where `None` is a panic and changes nothing. History
   that the contract does not keep (what was deposited, which requests ended how, which writes were
   accepted) is part of the state.
2. Theorems about `Step` and about `Run` over any list of calls (`ExecutionLedger`, `ExecutionPayout`,
   `DaoGovernance`, `DaoVault`, `SecretsRegistry`, `AgentSecrets`, `WalletPolicies`, `ProjectRegistry`,
   `ProjectLedger`); and what each single call does in its caller's terms, accepted exactly when, which
   entry changes to what, that no other does, and which account is paid how much (`ExecutionEffects`,
   `DaoEffects`, `SecretsEffects`, `WalletEffects`, `ProjectEffects`).
3. A class with the contract's fields and methods (`ExecutionContract`, `DaoContract`,
   `SecretsContract`, `WalletContract`, `ProjectContract`); each method's postcondition equates the
   new state with the state machine's, so the theorems hold of the methods.

The typed-data side has the same shape: `Integers` and `TypeGraph` hold the loops and prove them against
functions; `TypedData` holds the encoder and, beside it, an independent reading of what a JSON value
means under a type; `DigestFaithful` proves the two agree, and `DigestAcrossTypes` extends that to documents
with different types; `DigestDecoding` reads words back by the standard and finds the same meaning, and
`TypeSyntax` says how types are written.

## Where the code and its documentation part

The model follows the code.

* A store message is said to need a colon-free ciphertext, and nothing checks that. It is not needed:
  `StoreMessages.StoreMessageNamesOneRequest`.
* A policy signature is said to be good for exactly one write. It is, per lifetime of the policy. After a
  delete the versions count from 1 again, and an old signature is good whenever its version comes up, the
  lock it was signed with notwithstanding: `WalletPolicies.FiledAgain` gives the exact condition,
  `WalletPolicies.LockedWriteFiledAgain` and `WalletPolicies.SecondWriteFiledAgain` two such runs.
* A timeout books the base fee of the day even when the request paid less:
  `ExecutionLedger.TimeoutCanOverbook`, with the exact condition in `ExecutionLedger.EndingIsAccounted`.
* An `intN` value is accepted by its word, so 2^256-1 passes as -1:
  `Integers.AllOnesIsAcceptedAsMinusOne`, with the exact condition in `Integers.AcceptanceIsFit`.
* The storage part of a large input is said to come back whichever way a request ends. After a rise of
  the fees a timeout or a stale cancel can keep it: `ExecutionLedger.StaleCancelCanKeepStorage`, with the
  exact condition in `ExecutionLedger.EndingIsAccounted`.
* A price is meant to stand on a project that exists. A deleted project leaves its price to whoever takes
  the name next: `ExecutionPayout.PriceIsInherited`, with the exact step in
  `ExecutionPayout.PricedAreLiveStep`.
* Type and field names are taken as they come, and a comma in a name lets one hash have two readings:
  `TypeCollision.CommasCollide`. With identifiers there is one reading:
  `DigestAcrossTypes.DigestsAcrossTypes`.
* The DAO's first threshold counts the list of members, not the set: `DaoGovernance.NewIsSeated`.
* The next payment-key nonce a view answers cannot be stored once the floor has reached 2^31 - 1:
  `SecretsContract.SecretsVault.GetNextPaymentKeyNonce`, and `SecretsRegistry.NoncesRunOut` for a run.

Things the code does that a reader may miss: a top-up replaces a payment key's ciphertext without pricing it
(`SecretsRegistry.DepositCoversRow`), a transfer renames a project without pricing it
(`ProjectLedger.DepositCoversProject`), deleting a project repays the project's own
deposit only, so its versions' deposits stay with the contract
(`ProjectLedger.DeleteKeepsVersionDeposits`), and `cancel_pending_requests` keeps the attached stablecoin
(the "written off" term of `ExecutionLedger.StablecoinIsConserved`).

## Model

| member | source | states |
|---|---|---|
| `DigestFaithful.DigestIsFaithful` | keystore-worker/src/eip712.rs:75-271 | under the same types and primary type, two digests are equal **if and only if** the domains mean the same and the messages mean the same, at every depth (integers by value as encoded, `bytesN` up to right padding, undeclared fields ignored) |
| `DigestFaithful.DigestExists` | keystore-worker/src/eip712.rs:75-95 | a digest exists exactly when the document has its four parts and its domain and message both have a meaning |
| `DigestFaithful.DigestBindsTypes` | keystore-worker/src/eip712.rs:75-95 | whatever the types, equal digests come from equal `encodeType` texts of the domain and of the message |
| `DigestAcrossTypes.DigestsAcrossTypes` | keystore-worker/src/eip712.rs:75-271 | for documents that each declare their own types, identifier-shaped names throughout: equal digests **if and only if** domain and message are of types described alike and mean the same |
| `DigestAcrossTypes.DigestFixesTypes` | keystore-worker/src/eip712.rs:75-169 | and then primary types and every definition they reach are the same |
| `DigestAcrossTypes.StructAcrossTypes` | keystore-worker/src/eip712.rs:171-195 | the same for one struct hash under two sets of definitions |
| `DigestDecoding.DigestDecodes` | keystore-worker/src/eip712.rs:75-95 | read by the standard, a digest is 0x1901, the domain separator, then the struct hash of the message, and they say exactly what the document's domain and message mean |
| `DigestDecoding.StructDecodes` | keystore-worker/src/eip712.rs:176-195 | read by the standard (type hash first, then the fields in the order of declaration), a struct hash gives back the struct's meaning |
| `DigestDecoding.FieldDecodes` | keystore-worker/src/eip712.rs:197-219 | a field's words, read under its type at any depth, give back the value's meaning |
| `DigestDecoding.ItemsDecode` | keystore-worker/src/eip712.rs:197-219 | an array is the hash of its items' words, one after the other in order |
| `DigestDecoding.KindDecodes` | keystore-worker/src/eip712.rs:221-271 | an atom's word, read by the standard (big-endian numbers, the last byte of a boolean, the last 20 bytes of an address, the front bytes of a fixed one), gives back the value |
| `TypeSyntax.ArrayOf` | keystore-worker/src/eip712.rs:125-132 | `T[d]` is an array of `T`, whatever `T` is |
| `TypeSyntax.ArrayLengths` | keystore-worker/src/eip712.rs:197-219 | `T[]` takes any number of items and `T[n]` exactly n; `T[0]` takes none |
| `TypeSyntax.UintNames` | keystore-worker/src/eip712.rs:221-303 | `uintN` is accepted exactly for the byte widths 8 to 256, and `uint` is 256 |
| `TypeSyntax.IntNames` | keystore-worker/src/eip712.rs:221-303 | the same for `intN` |
| `TypeSyntax.BytesNames` | keystore-worker/src/eip712.rs:221-271 | `bytesN` is accepted exactly for 1 to 32 |
| `TypeSyntax.OtherNames` | keystore-worker/src/eip712.rs:221-271 | the other four atomic names |
| `TypeSyntax.DefinitionsAreRead` | keystore-worker/src/eip712.rs:97-113 | a definition's fields are read from `name` and `type`, in order |
| `TypeSyntax.MailText` | keystore-worker/src/eip712.rs:150-169 | for all names, the text of a struct that refers to another: the primary first, each as `Name(type field,type field)` |
| `TypeText.EncodeTypeIsInjective` | keystore-worker/src/eip712.rs:150-169 | with identifier-shaped names one text fixes the primary type, the reachable types and all their fields |
| `TypeCollision.CommasCollide` | keystore-worker/src/eip712.rs:97-195 | without that, for all names: two type sets share a text, and one struct hash stands for a number and for an address |
| `DigestFaithful.StructHashBindsType` | keystore-worker/src/eip712.rs:171-195 | equal struct hashes come from equal type descriptions |
| `DigestFaithful.StructFaithful` | keystore-worker/src/eip712.rs:176-195 | struct hashes are equal exactly when the structs mean the same |
| `DigestFaithful.FieldFaithful` | keystore-worker/src/eip712.rs:197-219 | field words (struct, array, atom) are equal exactly when the values mean the same, by recursion on the value even where the type refers to itself |
| `DigestFaithful.ItemsFaithful` | keystore-worker/src/eip712.rs:197-219 | concatenated array items are equal exactly when the items mean the same, number and order included |
| `DigestFaithful.KindFaithful` | keystore-worker/src/eip712.rs:221-271 | words of one atomic kind are equal exactly when the values mean the same |
| `DigestFaithful.FieldAccepted` | keystore-worker/src/eip712.rs:197-219 | a field is encoded exactly when its value has a meaning under its type, fixed array lengths included |
| `DigestFaithful.KindAccepted` | keystore-worker/src/eip712.rs:221-271 | an atom is encoded exactly when it has a meaning of its kind |
| `TypedData.AtomicKind` | keystore-worker/src/eip712.rs:221-303 | an accepted integer width is a multiple of 8 from 8 to 256 and a fixed `bytesN` has 1 to 32 bytes |
| `TypedData.EncodeField` | keystore-worker/src/eip712.rs:197-219 | every encoded field is one word |
| `TypedData.HashStruct` | keystore-worker/src/eip712.rs:176-195 | every struct hash is one word |
| `TypeGraph.CollectDeps` | keystore-worker/src/eip712.rs:135-147 | on any type graph, cyclic or not, adds exactly what is newly reachable, avoiding what was visited; it terminates |
| `TypeGraph.ExploredFromNothing` | keystore-worker/src/eip712.rs:135-147 | started from nothing, the closure is exactly the declared types reachable from the primary |
| `TypeGraph.BuildEncodeType` | keystore-worker/src/eip712.rs:150-169 | returns the text with the primary first and every other reachable type once, in byte order; refuses an undeclared primary |
| `TypeGraph.DescribeInOrder` | keystore-worker/src/eip712.rs:150-169 | writes out a set of types in ascending order |
| `TypeGraph.AscendingIsUnique` | keystore-worker/src/eip712.rs:150-169 | there is one ascending listing of a set, so the text is determined by the set of reachable types |
| `ByteOrder.BelowIsByteOrder` | keystore-worker/src/eip712.rs:135-169 | the order by code point in which types are listed is the order of their UTF-8 bytes |
| `TypeGraph.EncodeTypeIgnoresUnreachable` | keystore-worker/src/eip712.rs:135-169 | type texts agree whenever the definitions agree on the reachable types: adding or editing unreachable types changes nothing |
| `Utf8.EncodeIsInjective` | keystore-worker/src/eip712.rs:171-174 | the bytes hashed for a text determine the text |
| `Utf8.CharDecodes` | keystore-worker/src/eip712.rs:171-174 | read by RFC 3629, a character's bytes stand for it, in the shortest form |
| `Words.MulAddTen` | keystore-worker/src/eip712.rs:383-393 | one turn of the carry loop multiplies the word by ten and adds the digit in place, with the carry out exactly the overflow |
| `Words.NegateInPlace` | keystore-worker/src/eip712.rs:409-422 | inverting and adding one in place gives the two's-complement negation, modulo the word |
| `Integers.ParseDecimal` | keystore-worker/src/eip712.rs:379-396 | the carry loop returns exactly the big-endian word of the written number and fails exactly when it does not fit |
| `Integers.ParseHex` | keystore-worker/src/eip712.rs:360-378 | the hex path accepts exactly 1 to 64 hex digits, an odd count included, and returns the word of the written number |
| `Integers.ParseUint256Be` | keystore-worker/src/eip712.rs:353-396 | for every JSON value: the 32-byte big-endian form of the number, refused exactly when it is no numeral, is at least 2^256, or is hex of more than 64 digits |
| `Integers.ParseInt256Be` | keystore-worker/src/eip712.rs:399-425 | for every JSON value: the number modulo 2^256 in two's complement |
| `Integers.FitsUintIsRange` | keystore-worker/src/eip712.rs:306-313 | the leading-zero scan accepts exactly the words below 2^N |
| `Integers.FitsIntIsUniform` | keystore-worker/src/eip712.rs:316-328 | the sign-byte test accepts exactly the words whose bits from N-1 up are all equal |
| `Integers.FitsIntIsRange` | keystore-worker/src/eip712.rs:316-328 | accepted exactly when the signed reading lies in [-2^(N-1), 2^(N-1)) |
| `Integers.UintAccepted` | keystore-worker/src/eip712.rs:306-396 | a uintN text is accepted exactly when it is a numeral (hex of at most 64 digits) below 2^N, and its word has that value |
| `Integers.IntWordReading` | keystore-worker/src/eip712.rs:399-425 | the signed reading of the parsed word is the number wrapped into the signed range |
| `Integers.IntAccepted` | keystore-worker/src/eip712.rs:316-425 | an intN text is accepted exactly when its wrapped value fits, and then reads back as it |
| `Integers.WrappingIsExact` | keystore-worker/src/eip712.rs:399-425 | a number is read as itself exactly when it lies in the signed range of the word |
| `Integers.AcceptanceIsFit` | keystore-worker/src/eip712.rs:316-425 | "accepted exactly when the number fits intN" holds of a numeral z **if and only if** 2^(N-1)-2^256 <= z < 2^256-2^(N-1) or no word holds z, and, for hex of too many digits, exactly when z does not fit |
| `Integers.AcceptedExactlyWhenItFits` | keystore-worker/src/eip712.rs:316-425 | a numeral in the signed range of the word is accepted exactly when it fits intN, and then reads back as itself |
| `Integers.AllOnesIsAcceptedAsMinusOne` | keystore-worker/src/eip712.rs:316-425 | outside that range the value is not kept: 2^256-1 is accepted under every intN and reads as -1 |
| `Integers.UintFieldFaithful` | keystore-worker/src/eip712.rs:306-396 | two accepted uintN texts share a word exactly when they are the same number |
| `Integers.IntFieldFaithful` | keystore-worker/src/eip712.rs:316-425 | two accepted intN texts share a word exactly when they wrap to the same number |
| `Charges.EstimateIsMonotone` | contract/src/lib.rs:829-840 | the estimate never falls when no fee falls, and is at least the base fee |
| `Charges.EstimateCoversRun` | contract/src/lib.rs:815-840 | a run within its limits that compiled nothing costs no more than the estimate paid |
| `ExecutionEffects.CostLaws` | contract/src/lib.rs:815-827 | nothing used costs the base fee; a further millisecond, million instructions or compile millisecond adds exactly its own fee |
| `ExecutionEffects.PartOfAMillionIsFree` | contract/src/lib.rs:815-827 | instructions short of a further million add nothing |
| `ExecutionEffects.EstimateLaws` | contract/src/lib.rs:829-840 | the same for the estimate, by its limits: a second is 1000 milliseconds, missing limits count as 60 s and 10^9 instructions, memory as nothing |
| `ExecutionEffects.StorageLaws` | contract/src/lib.rs:76-82 | 32 KiB of input are free and every further byte is held at the storage price |
| `Charges.SettleAttached` | contract/src/payment.rs:290-299 | caller's part and developers' part add up to what was attached; the developers never get more than the price less the clamped refund |
| `Charges.SplitPayment` | contract/src/payment.rs:269-276 | author's floored share and the remainder add up to the payment |
| `Charges.FindRow` | contract/src/payment.rs:306-312 | the row found is a row of the table with that operation, and none is found only if none is there |
| `ExecutionLedger.StablecoinIsConserved` | contract/src/execution.rs:211-236 | from `new`, after every sequence of calls and callbacks: balances + earnings + attached to pending requests + withdrawals in flight + written off by the bulk cancel = deposited - withdrawn |
| `ExecutionLedger.BalancedStep` | contract/src/execution.rs:495-649 | every call and callback keeps that equation |
| `ExecutionLedger.NumberedStep` | contract/src/execution.rs:261-358 | every step keeps ids handed out in order, each pending or ended and never both, and only adds endings |
| `ExecutionLedger.IdsAreFresh` | contract/src/execution.rs:261-358 | an admitted request gets an id nothing had before, and its terms stand until it ends |
| `ExecutionLedger.EndsOnce` | contract/src/execution.rs:455-880 | a request ends at most once across callback, stale cancel and the three owner cancels: its record never changes afterwards |
| `ExecutionLedger.LateCallbackIsInert` | contract/src/execution.rs:795-802 | the callback of a request no longer pending moves nothing, even if it was resumed before the cancel |
| `ExecutionLedger.EndingIsAccounted` | contract/src/execution.rs:652-781 | booked + refunded is the NEAR payment **exactly when** the ending is no timeout or the base fee is within the payment; results and owner cancels return the storage part, timeouts and stale cancels exactly when the fee they ask for leaves it untouched; with no fee raised since admission every ending does both |
| `ExecutionLedger.NearIsAccounted` | contract/src/execution.rs:652-861 | on every run every ending accounts for its payment so, and collected fees are the sum of what the endings booked |
| `ExecutionLedger.TimeoutCanOverbook` | contract/src/execution.rs:769-781 | a run in which a timeout books more than the request paid, because the base fee was raised meanwhile |
| `ExecutionLedger.StaleCancelCanKeepStorage` | contract/src/execution.rs:823-880 | a run in which a stale cancel returns less than the storage part of a large input, because the base fee was raised meanwhile |
| `ExecutionLedger.FirstPendingIsExact` | contract/src/admin.rs:351-388 | the sweep picks pending ids only, in ascending order, each once, and passes over none below the last |
| `ExecutionLedger.ClearAllClears` | contract/src/admin.rs:351-388 | the sweep removes exactly the requests it picked, at most the limit and the lowest ids first; fewer than the limit means none is left |
| `ExecutionEffects.AdmittedExactly` | contract/src/execution.rs:36-259 | when a request is admitted, check by check, in the caller's terms |
| `ExecutionEffects.AdmissionTakes` | contract/src/execution.rs:211-365 | admission takes the attachment from the caller and from nobody else, and enters exactly the request asked for |
| `ExecutionEffects.ChargeLaws` | contract/src/execution.rs:486-494 | a reported run books its cost while that is within the payment less storage, and exactly that much beyond |
| `ExecutionEffects.ChargeGrows` | contract/src/execution.rs:486-494 | unit by unit: zero metrics book the base fee, one more millisecond, million instructions or compile millisecond its own fee |
| `ExecutionEffects.CallbackSettles` | contract/src/execution.rs:455-802 | each outcome of the callback: the request goes, the charge fixed by the metrics is booked, and the rest of the payment goes to the payer |
| `ExecutionEffects.CallbackKeepsSettings` | contract/src/execution.rs:455-802 | the callback runs exactly once per yield and changes no setting |
| `ExecutionEffects.StaleCancelSettles` | contract/src/execution.rs:823-880 | by the sender, after ten minutes: the attachment goes back to the sender and nobody else, the base fee (or, with an output delivered, the estimate) is kept, the rest goes to the payer |
| `ExecutionEffects.EmergencyCancelSettles` | contract/src/admin.rs:268-295 | by the owner: the whole attachment to the sender, the whole payment to the payer, account by account |
| `ExecutionEffects.ListedCancelSettles` | contract/src/admin.rs:318-341 | each listed request: the payment goes back, the attachment is written off and credited to nobody |
| `ExecutionEffects.ClearAllSweeps` | contract/src/admin.rs:351-388 | every account gains exactly the attachments it sent and the payments it made among the requests picked |
| `ExecutionEffects.SweepPaysEach` | contract/src/admin.rs:351-388 | the same for any list of ids |
| `ExecutionEffects.DepositCredits` | contract/src/payment.rs:1165-1181 | a deposit of the configured token credits its sender and nobody else |
| `ExecutionEffects.WithdrawalTakesAll` | contract/src/lib.rs:727-768 | a withdrawal empties the caller's earnings, no other account's, and puts all of it in flight |
| `ExecutionEffects.WithdrawalEnds` | contract/src/lib.rs:774-799 | a completed transfer pays out what was in flight; a failed one restores it to the account that earned it and to nobody else |
| `ExecutionEffects.RefundsReachPayers` | contract/src/execution.rs:652-781 | from `new`, on every run: what each account was refunded is exactly the refunds of the ended requests it paid for |
| `ExecutionEffects.SubmitMarks` | contract/src/execution.rs:1018-1045 | the operator marks one request as delivered, once; nothing else changes |
| `ExecutionEffects.ResumeLeavesTheResponse` | contract/src/execution.rs:1047-1080 | the callback will find exactly the response of the resume |
| `ExecutionEffects.SubmitAndResumeDoesBoth` | contract/src/execution.rs:393-425 | one call marks the output and leaves the response, without a refund |
| `ExecutionEffects.SettingsTakeEffect` | contract/src/admin.rs:32-94 | each setting takes the value passed, at the hand of the account that may, and no other setting moves |
| `ExecutionEffects.FeesTakeEffect` | contract/src/admin.rs:63-94 | the fees that are given take effect and the others stay |
| `ExecutionEffects.PricesTakeEffect` | contract/src/admin.rs:191-255 | a price table replaces or leaves one project's row and no other |
| `ExecutionEffects.RowIsTheTables` | contract/src/payment.rs:306-312 | a call is priced by the row of its project's table that its input names |
| `ExecutionPayout.PriceIsExact` | contract/src/execution.rs:504-648 | a priced success whose row stood still: author and owner get price less clamped refund (author's share floored), the caller the rest; a deleted project returns everything |
| `ExecutionPayout.PaidToLiveProject` | contract/src/execution.rs:504-648 | account by account, what a settlement of a live project pays, priced or not |
| `ExecutionPayout.PaidBackWhenGone` | contract/src/execution.rs:504-648 | a project gone by settlement: no earnings, all back to the caller |
| `ExecutionPayout.NothingEarnedOnFailure` | contract/src/execution.rs:711-781 | failure and timeout pay the developers nothing and return the whole attachment |
| `ExecutionPayout.OnePricePerOperation` | contract/src/admin.rs:191-242 | an accepted price table finds for each operation its only row |
| `ExecutionPayout.PricedAreLiveStep` | contract/src/admin.rs:188-242 | prices stand on live projects only, until the one step that breaks it: a priced project goes |
| `ExecutionPayout.PriceIsInherited` | contract/src/projects.rs:328-366 | a run: a priced project is deleted and its name taken again, and the old price stands for the new owner |
| `ExecutionContract.Contract.constructor` | contract/src/lib.rs:666-716 | starts in the initial state of the protocol |
| `ExecutionContract.Contract.CheckRequest` | contract/src/execution.rs:36-259 | answers whether every admission check holds |
| `ExecutionContract.Contract.RequestExecution` | contract/src/execution.rs:36-365 | the whole new state of an admitted request, or no change |
| `ExecutionContract.Contract.SubmitExecutionOutput` | contract/src/execution.rs:1018-1045 | stores an output once, operator only |
| `ExecutionContract.Contract.ResolveExecution` | contract/src/execution.rs:1047-1080 | resumes a yield that is still waiting, operator only |
| `ExecutionContract.Contract.SubmitExecutionOutputAndResolve` | contract/src/execution.rs:393-425 | both or neither |
| `ExecutionContract.Contract.ReturnAttachedUsd` | contract/src/execution.rs:944-956 | credits exactly the amount, and writes no entry for zero |
| `ExecutionContract.Contract.SettleSuccess` | contract/src/execution.rs:495-649 | divides the attached stablecoin of a success |
| `ExecutionContract.Contract.SettleNear` | contract/src/execution.rs:652-781 | books the charge and the refund of each way a callback ends |
| `ExecutionContract.Contract.OnExecutionResponse` | contract/src/execution.rs:455-802 | the whole new state of the settlement callback |
| `ExecutionContract.Contract.CancelStaleExecution` | contract/src/execution.rs:823-880 | the sender's cancel after the timeout, charged by the estimate once output was delivered |
| `ExecutionContract.Contract.EmergencyCancelExecution` | contract/src/admin.rs:268-295 | gives everything back |
| `ExecutionContract.Contract.CancelPendingRequests` | contract/src/admin.rs:318-341 | cancels the listed ids in order, skipping absent and repeated ones, writes their stablecoin off, and counts exactly what it removed |
| `ExecutionContract.Contract.ClearAllPendingRequests` | contract/src/admin.rs:351-388 | the sweep from id 0 up to the limit, with its exact count |
| `ExecutionContract.Contract.FtOnTransferDeposit` | contract/src/payment.rs:1165-1181 | credits a deposit from the configured token only |
| `ExecutionContract.Contract.WithdrawDeveloperEarnings` | contract/src/lib.rs:727-768 | moves all earnings into a withdrawal in flight |
| `ExecutionContract.Contract.OnWithdrawDeveloperEarnings` | contract/src/lib.rs:774-799 | completes it, or credits it back |
| `ExecutionContract.Contract.SetPricing` | contract/src/admin.rs:63-94 | owner-only fee update |
| `ExecutionContract.Contract.SetProjectPricing` | contract/src/admin.rs:191-242 | accepts 1 to 32 named rows, no operation twice, shares at most the whole, for an existing project |
| `ExecutionContract.Contract.RemoveProjectPricing` | contract/src/admin.rs:250-255 | owner only; the project is then unpriced |
| `DaoGovernance.OnlyMajoritiesExecute` | keystore-dao-contract/src/lib.rs:565-644 | on every run from `new` with distinct members: each executed proposal has on record a majority of the then-current members, each with a standing approving vote; every approved key was installed by an executed registration |
| `DaoGovernance.DecidedIsFinal` | keystore-dao-contract/src/lib.rs:565-644 | Executed and Rejected are terminal on every run |
| `DaoGovernance.VoteDecides` | keystore-dao-contract/src/lib.rs:565-644 | a vote executes exactly at a majority of current members, rejects exactly when a majority became impossible, and always decides once all members voted |
| `DaoGovernance.OnlyVotesDecide` | keystore-dao-contract/src/lib.rs:757-808 | no other call changes the status of an existing proposal |
| `DaoGovernance.ProposalDecides` | keystore-dao-contract/src/lib.rs:715-755 | a revocation executes with its own proposal exactly when the proposer is the only member, and is never rejected by it |
| `DaoGovernance.QuorumIsOfTheMoment` | keystore-dao-contract/src/lib.rs:565-841 | the members recorded with a proposal that executes are the members at that step, and its approvers their approving votes |
| `DaoGovernance.VerdictIsDecisive` | keystore-dao-contract/src/lib.rs:597-644 | with a majority threshold the tests exclude each other, the subtraction never underflows, and complete voting decides |
| `DaoGovernance.NewIsSeated` | keystore-dao-contract/src/lib.rs:388-425 | `new` sets a majority threshold exactly when repeated names do not change half the count |
| `DaoGovernance.RepeatedNameUnseats` | keystore-dao-contract/src/lib.rs:388-425 | with a repeated name the threshold can exceed the number of members |
| `DaoGovernance.RevocationRemovesItsKeys` | keystore-dao-contract/src/lib.rs:810-841 | an executed revocation removes exactly its keys |
| `DaoEffects.RegistrationAddsItsKey` | keystore-dao-contract/src/lib.rs:1446-1498 | an executed registration puts exactly its key into the approved set; no other vote on one adds or removes any |
| `DaoEffects.ApprovedExactly` | keystore-dao-contract/src/lib.rs:565-841 | from `new`, on every run: a key is approved **if and only if** a registration of it executed and no revocation that lists it executed after the last such registration |
| `DaoEffects.ApprovedStep` | keystore-dao-contract/src/lib.rs:565-841 | every call keeps that, and only adds to the order of executions |
| `DaoEffects.VoteNeeds` | keystore-dao-contract/src/lib.rs:565-596 | a vote is taken exactly from a member who has not voted on a proposal that is pending |
| `DaoEffects.VoteIsCounted` | keystore-dao-contract/src/lib.rs:594-612 | one vote adds one to its own side of its own proposal and to nothing else |
| `DaoEffects.SubmitFiles` | keystore-dao-contract/src/lib.rs:436-562 | who may register which key, and the one pending proposal that is filed |
| `DaoEffects.ProposalNeeds` | keystore-dao-contract/src/lib.rs:715-755 | a revocation is proposed exactly by a member, for 1 to 16 distinct approved keys |
| `DaoEffects.MembershipChanges` | keystore-dao-contract/src/lib.rs:850-876 | the owner adds or removes exactly one member, and the threshold follows |
| `DaoEffects.NewSeats` | keystore-dao-contract/src/lib.rs:388-427 | the roles and members of `new`, and a threshold of more than half the list |
| `DaoGovernance.RegisterStep` | keystore-dao-contract/src/lib.rs:436-872 | every call keeps the majority threshold, disjoint ids, standing votes and installed keys |
| `DaoGovernance.TallyStep` | keystore-dao-contract/src/lib.rs:565-808 | the stored counters equal the votes ever cast for and against, which is not what decides |
| `DaoVault.RunInv` | keystore-dao-contract/src/lib.rs:1082-1210 | on every run: approved hashes are the versions' domain, voter lists have no duplicates, metadata is locked exactly while an approve ballot is open and is what all its voters passed |
| `DaoVault.NewInv` | keystore-dao-contract/src/lib.rs:388-427 | `new` with distinct members starts where all of this holds |
| `DaoVault.ListedByMajority` | keystore-dao-contract/src/lib.rs:1082-1160 | a hash is listed, or a listed one's metadata replaced and its deprecation lifted, only by a call completing a majority of distinct current members who all passed identical metadata |
| `DaoVault.DeprecatedByMember` | keystore-dao-contract/src/lib.rs:1163-1181 | a version is marked deprecated only by a current member's call, which changes nothing else of it |
| `DaoVault.DelistedByMajority` | keystore-dao-contract/src/lib.rs:1184-1212 | a hash is delisted only by a call completing a majority of distinct current members |
| `DaoEffects.ApprovalLists` | keystore-dao-contract/src/lib.rs:1082-1160 | an approval that reaches the threshold lists the hash with the metadata passed and closes the ballot; one that does not leaves the list alone |
| `DaoEffects.ApprovalNeeds` | keystore-dao-contract/src/lib.rs:1082-1120 | who may approve, and that the metadata must be those of the open ballot |
| `DaoEffects.RevocationDelists` | keystore-dao-contract/src/lib.rs:1184-1212 | a revocation that reaches the threshold takes the hash off the list; one that does not only adds its voter |
| `DaoEffects.DeprecationMarks` | keystore-dao-contract/src/lib.rs:1163-1181 | a member deprecates a listed version, and nothing else changes |
| `DaoVault.ApprovalOpensOrExecutes` | keystore-dao-contract/src/lib.rs:1082-1160 | short of the threshold the ballot stays open, locked to the caller's metadata |
| `DaoVault.PollIsFair` | keystore-dao-contract/src/lib.rs:1082-1160 | a poll drops former members, counts each voter once and adds only the caller |
| `DaoContract.KeystoreDao.constructor` | keystore-dao-contract/src/lib.rs:388-427 | members as a set, threshold from the list's length |
| `DaoContract.KeystoreDao.SubmitKeystoreRegistration` | keystore-dao-contract/src/lib.rs:436-562 | files one pending proposal under the next id |
| `DaoContract.KeystoreDao.CountLive` | keystore-dao-contract/src/lib.rs:574-596 | counts exactly the current members' approving and rejecting votes |
| `DaoContract.KeystoreDao.Vote` | keystore-dao-contract/src/lib.rs:565-645 | the whole new state of a vote on either kind of proposal |
| `DaoContract.KeystoreDao.VoteOnRevoke` | keystore-dao-contract/src/lib.rs:757-808 | the whole new state of a vote on a revocation |
| `DaoContract.KeystoreDao.ExecuteRevoke` | keystore-dao-contract/src/lib.rs:810-841 | removes the listed keys, skipping absent ones |
| `DaoContract.KeystoreDao.CheckKeys` | keystore-dao-contract/src/lib.rs:715-734 | a non-empty batch within the limit, all approved, none twice |
| `DaoContract.KeystoreDao.ProposeRevokeKeystoreKeys` | keystore-dao-contract/src/lib.rs:715-755 | files the proposal and casts the proposer's vote |
| `DaoContract.KeystoreDao.AddDaoMember` | keystore-dao-contract/src/lib.rs:850-860 | adds a member and recomputes the threshold |
| `DaoContract.KeystoreDao.RemoveDaoMember` | keystore-dao-contract/src/lib.rs:862-876 | removes one, never the last, and recomputes the threshold |
| `DaoContract.KeystoreDao.ApproveVaultVersion` | keystore-dao-contract/src/lib.rs:1082-1160 | the whole new state of an approval |
| `DaoContract.KeystoreDao.RevokeVaultVersion` | keystore-dao-contract/src/lib.rs:1184-1212 | the whole new state of a revocation vote |
| `DaoContract.KeystoreDao.DeprecateVaultVersion` | keystore-dao-contract/src/lib.rs:1163-1181 | marks a listed version deprecated |
| `SecretsRegistry.RunInv` | contract/src/secrets.rs:1969-2316 | on every run: exact never-empty owner indexes, bindings only for rows, canonical and well-shaped keys, bounded conditions, every deposit the price of what it was last computed for (or more, once a binding was dropped), all NEAR accounted for, nonces never repeated |
| `SecretsRegistry.StoreStep` | contract/src/secrets.rs:1969-2316 | every call keeps indexes, bindings, keys and conditions sound |
| `SecretsRegistry.FundedStep` | contract/src/secrets.rs:600-696 | every call keeps each deposit at the price of the row as last priced, or above it once its binding was dropped; only a payment key's ciphertext changes without pricing |
| `SecretsRegistry.DepositCoversRow` | contract/src/payment.rs:578-642 | in every reachable state a deposit covers its row as it stands exactly when the ciphertext is no longer than the one last priced; for all but topped-up payment keys, always |
| `SecretsRegistry.UnboundIsCheaper` | contract/src/secrets.rs:2323-2399 | dropping a binding never makes a row dearer |
| `SecretsRegistry.AccountedStep` | contract/src/secrets.rs:1969-2316 | every call keeps NEAR in = held + kept + paid out |
| `SecretsRegistry.KeyForIsCanonical` | contract/src/secrets.rs:39-83 | canonicalising is idempotent: every door reaches the slot it names |
| `SecretsRegistry.CanonicalPaymentKey` | contract/src/secrets.rs:75-83 | a stored payment key is the one deletion builds from its nonce |
| `SecretsRegistry.NoncesAreNeverReused` | contract/src/secrets.rs:2136-2160 | from `new`, no (owner, nonce) payment key is created twice, whichever way it was deleted |
| `SecretsRegistry.NonceFreeAboveFloor` | contract/src/payment.rs:34-43 | in every reachable state a nonce is free exactly above the owner's floor |
| `SecretsRegistry.TakenAboveFloor` | contract/src/payment.rs:34-43 | in every reachable state an owner can take exactly the nonces above the floor and at most 2^31 - 1 |
| `SecretsRegistry.NoncesRunOut` | contract/src/secrets.rs:2136-2160 | a run from `new`: one payment key of nonce 2^31 - 1, after which its owner can take no nonce |
| `SecretsRegistry.TopUpReachesItsKey` | contract/src/payment.rs:578-642 | a resumed top-up replaces the ciphertext of the very row the transfer named and keeps all tokens, or changes no row and returns all |
| `SecretsEffects.StoreWrites` | contract/src/secrets.rs:1969-2256 | the row holds the ciphertext, the condition and the vault passed, under the owner's key, with its birth kept; no other row, binding or floor changes |
| `SecretsEffects.StoreNeeds` | contract/src/secrets.rs:1969-2256 | accepted exactly when the checks pass, the nonce is free and what is due is at hand |
| `SecretsEffects.StorableExactly` | contract/src/secrets.rs:1969-2135 | the checks, in the caller's own spelling |
| `SecretsEffects.StorePays` | contract/src/secrets.rs:2160-2256 | the payer and nobody else is repaid exactly what was held and attached less what is due; only a floor entry is kept |
| `SecretsEffects.StoreRaisesTheFloor` | contract/src/secrets.rs:2136-2160 | a payment key raises its owner's floor to its nonce, and nothing else raises one |
| `SecretsEffects.StoreDoors` | contract/src/secrets.rs:343-459 | a signed store writes under the signer's implicit account and repays the payer |
| `SecretsEffects.UpdateWrites` | contract/src/secrets.rs:633-696 | the row's condition is the one passed, its ciphertext, birth and binding stay, no other row changes, and the caller is repaid exactly held plus attached less the new price |
| `SecretsEffects.UpdateNeeds` | contract/src/secrets.rs:633-696 | accepted exactly for an existing row of the caller's, a bounded condition and the new price at hand |
| `SecretsEffects.DeleteRemoves` | contract/src/secrets.rs:2283-2316 | row, index entry and binding go, the whole deposit goes to the one account named, nothing else changes |
| `SecretsEffects.DeleteDoors` | contract/src/secrets.rs:490-557 | a signed delete removes the signer's row and repays the payer |
| `SecretsEffects.UnbindDrops` | contract/src/secrets.rs:600-614 | the binding of an existing row goes, and nothing else does |
| `SecretsEffects.SizeLaws` | contract/src/secrets.rs:2323-2375 | every byte of ciphertext, condition and key is charged once, and the key again with a binding |
| `SecretsEffects.PriceIsByTheByte` | contract/src/secrets.rs:2323-2375 | and each byte costs 10^19 yocto |
| `SecretsEffects.KeySizeLaws` | contract/src/secrets.rs:2323-2375 | what one more byte of a profile, owner, hash, id, repository or branch adds to a key |
| `SecretsEffects.TopUpOpens` | contract/src/payment.rs:1184-1247 | at least the minimum, to an existing key, opens one yield that remembers whose, which and how much |
| `SecretsEffects.TopUpIsSpent` | contract/src/payment.rs:578-642 | each callback spends its yield once, and all its tokens are kept or refunded |
| `SecretsEffects.DeletionOpens` | contract/src/payment.rs:702-762 | a deletion of an existing key opens one yield and keeps what was attached |
| `SecretsEffects.DeletionSettles` | contract/src/payment.rs:766-820 | consent removes the key, repays its owner and leaves the floor at its nonce or above; anything else only spends the yield |
| `Conditions.LeafCountIsExact` | contract/src/secrets.rs:2420-2441 | the recursive count is the number of patterns, their bytes and the chain reads among the flattened leaves |
| `Conditions.WellFormedHasLeaves` | contract/src/secrets.rs:2448-2486 | a condition without an empty Logic asks something |
| `SecretsContract.SecretsVault.CheckStore` | contract/src/secrets.rs:1969-2160 | answers whether every check of a store holds |
| `SecretsContract.SecretsVault.StoreSecretsInternal` | contract/src/secrets.rs:1969-2256 | the whole new state of a store: row, binding, index, floor, deposit and refund |
| `SecretsContract.SecretsVault.StoreAgentSecret` | contract/src/secrets.rs:343-459 | the agent door, with payer and owner apart |
| `SecretsContract.SecretsVault.DeleteSecretsInternal` | contract/src/secrets.rs:2283-2316 | row, binding and index entry go together and the deposit is repaid |
| `SecretsContract.SecretsVault.DeleteAgentSecret` | contract/src/secrets.rs:490-557 | the agent's delete, refunding the payer |
| `SecretsContract.SecretsVault.UnbindSecretVault` | contract/src/secrets.rs:600-614 | drops a binding and keeps the deposit |
| `SecretsContract.SecretsVault.UpdateAccess` | contract/src/secrets.rs:633-696 | re-prices the row for the new condition |
| `SecretsContract.SecretsVault.HandleTopUp` | contract/src/payment.rs:1184-1247 | opens a yield for an existing key and a sufficient amount |
| `SecretsContract.SecretsVault.OnTopUpResponse` | contract/src/payment.rs:578-642 | replaces the ciphertext or refunds |
| `SecretsContract.SecretsVault.DeletePaymentKey` | contract/src/payment.rs:702-762 | opens a deletion yield |
| `SecretsContract.SecretsVault.OnDeletePaymentKeyResponse` | contract/src/payment.rs:766-820 | deletes and raises the floor, or only spends the yield |
| `SecretsContract.SecretsVault.RaisePaymentKeyNonceFloor` | contract/src/payment.rs:39-43 | the floor only rises |
| `SecretsContract.SecretsVault.GetNextPaymentKeyNonce` | contract/src/views.rs:220-240 | one above all live keys and the floor, saturating; in every reachable state one above the floor, with no lower nonce to be had, and itself to be had exactly when the floor is below 2^31 - 1 |
| `Messages.DeleteMessageParses` | contract/src/secrets.rs:186-201 | a delete message parses back to its tuple for every tuple the checks let through, colons in the accessor included |
| `Messages.ParseDelete` | contract/src/secrets.rs:186-201 | what parses is exactly a message of what it parses to |
| `Messages.PolicyMessageParses` | contract/src/wallet.rs:297-315 | a policy message parses back to its tuple for every wallet key, whatever the data holds |
| `Messages.ParsePolicy` | contract/src/wallet.rs:297-315 | what parses is exactly a message of what it parses to |
| `Messages.StoreMessageParses` | contract/src/secrets.rs:203-225 | a store message with a colon-free ciphertext parses back to its tuple |
| `Messages.ParseStore` | contract/src/secrets.rs:203-225 | what parses is exactly a message of what it parses to |
| `Messages.DomainsAreDisjoint` | contract/src/secrets.rs:186-225 | no text is a message of two of the three kinds |
| `Messages.PolicyMessageText` | contract/src/wallet.rs:297-316 | the signed text of a policy, field by field in order |
| `AgentSecrets.SignedTexts` | contract/src/secrets.rs:186-225 | the signed texts of a delete and of a store, field by field in order, for a project's row and for a hash's |
| `StoreMessages.StoreMessageNamesOneRequest` | contract/src/secrets.rs:203-225 | a store message names one tuple **whatever the ciphertext holds**, given NEAR account ids and an access condition in its printed JSON form |
| `StoreMessages.NothingHides` | contract/src/secrets.rs:203-225 | no printed condition contains `:account:vault:` followed by another printed condition |
| `PrintedJson.PrintIsInjective` | contract/src/secrets.rs:220-224 | the compact JSON text determines the document |
| `PrintedJson.PrintReads` | contract/src/secrets.rs:220-224 | a reader by the grammar of RFC 8259 gets every printed document back: names, order, escapes and numbers |
| `ConditionText.PrintConditionIsInjective` | contract/src/types.rs:25-136 | the printed JSON of an access condition determines the condition |
| `ConditionText.PrintConditionReads` | contract/src/types.rs:25-136 | reading the JSON back, variants and fields by name, gives the very condition |
| `AgentSecrets.AgentBindingIsExact` | contract/src/secrets.rs:13-22 | agent accessors share a binding exactly when equal or when a project id reads as the other's `wasm:` form |
| `AgentSecrets.ProjectCanReadAsHash` | contract/src/secrets.rs:13-22 | the binding alone does not separate the two kinds |
| `AgentSecrets.StoredBindingIsInjective` | contract/src/secrets.rs:13-22 | among accessors of the shape that is stored it does |
| `AgentSecrets.DeleteMessageNamesOneRow` | contract/src/secrets.rs:490-557 | in every reachable state one signed delete message authorises one row and one payer |
| `AgentSecrets.StoreMessageNamesOneWrite` | contract/src/secrets.rs:343-459 | one signed store message authorises one key, row, ciphertext, payer, vault and access condition, as a value |
| `WalletKeys.CanonicalKeyNamesTheKey` | contract/src/wallet.rs:156-159 | two spellings share a canonical form exactly when they are the same key |
| `WalletKeys.ImplicitAccountNamesTheKey` | contract/src/wallet.rs:191-201 | the account is the canonical key's own digits, and names one key |
| `WalletKeys.ParseKey` | contract/src/wallet.rs:94-137 | an accepted key text has the fixed length of its kind |
| `WalletKeys.KeyShape` | contract/src/wallet.rs:94-137 | a key text is accepted exactly as its type and 64 hex digits, or 02 or 03 and 64 more |
| `WalletKeys.CanonicalIsLowerCase` | contract/src/wallet.rs:156-159 | the stored spelling is as long as the submitted one and holds no capital |
| `WalletPolicies.RunInv` | contract/src/wallet.rs:347-714 | on every run: version records for exactly the live policies, beneficiaries only for live ones, exact owner indexes, deposit equal to price, NEAR accounted for, each policy the last write of its lifetime and its version the number of them |
| `WalletPolicies.AcceptedOncePerLifetime` | contract/src/wallet.rs:395-422 | between two acceptances of the same signed text the policy was deleted |
| `WalletPolicies.FiledAgain` | contract/src/wallet.rs:395-422 | in every reachable state, a signature accepted once is accepted again **if and only if** the contract is not paused, the deadline has not passed, its sender may write, the deposit suffices, and its version is one above the number of writes in the policy's present lifetime |
| `WalletPolicies.FiledAgainAfterDelete` | contract/src/wallet.rs:395-422 | once its policy is gone, a signature accepted before is accepted again exactly when it was for version 1, in time and paid for, locked or not |
| `WalletPolicies.LockedWriteFiledAgain` | contract/src/wallet.rs:395-422 | a run: locked first write, unlocked second, delete, and the locked first write is accepted again |
| `WalletPolicies.SecondWriteFiledAgain` | contract/src/wallet.rs:395-422 | a run: two writes, delete, the first again, and the second is accepted again |
| `WalletPolicies.AcceptedWasSigned` | contract/src/wallet.rs:413-422 | every write a run accepted was presented by its controller with a signature over that very write |
| `WalletPolicies.LockIsLeftBySignedWrite` | contract/src/wallet.rs:632-680 | a locked policy is only ever deleted after a later unlocked write, which the run presented with a signature over it |
| `WalletPolicies.OnlyTheirHolders` | contract/src/wallet.rs:556-714 | only the controller freezes or thaws, and a freeze survives every edit; only the controller changes data, version or lock, under a signature over that very write; only the controller deletes, never while locked; only the beneficiary hands refunds on; the controller never changes |
| `WalletPolicies.PricedStep` | contract/src/wallet.rs:798-835 | every call keeps each deposit at exactly its policy's price, beneficiary record included |
| `WalletEffects.WriteStores` | contract/src/wallet.rs:347-549 | the policy has the data, owner, version and lock that were signed; its frozen mark and beneficiary stay, and a new one starts thawed with the beneficiary named |
| `WalletEffects.StoreNeeds` | contract/src/wallet.rs:347-549 | accepted exactly for a key, a policy that fits, the next version, in time, signed as such |
| `WalletEffects.StoreIsWrite` | contract/src/wallet.rs:347-549 | and then it writes under the key's one stored spelling |
| `WalletEffects.WriteNeeds` | contract/src/wallet.rs:347-549 | and only at the hand of the policy's owner, without naming a second beneficiary, with the price at hand |
| `WalletEffects.WritePays` | contract/src/wallet.rs:347-549 | whoever owns the refunds is repaid exactly held plus attached less the new price |
| `WalletEffects.FreezeFreezes` | contract/src/wallet.rs:556-625 | the controller freezes a thawed policy or thaws a frozen one, and the mark is all that changes |
| `WalletEffects.DeleteRemoves` | contract/src/wallet.rs:632-680 | everything filed under the key goes; accepted exactly from the controller of an unlocked policy |
| `WalletEffects.DeletePays` | contract/src/wallet.rs:632-680 | the whole deposit goes to the beneficiary if there is one, to the controller if not |
| `WalletEffects.RefundsAreHandedOn` | contract/src/wallet.rs:690-714 | the beneficiary, and nobody else, hands the refunds on |
| `WalletEffects.SizeLaws` | contract/src/wallet.rs:798-835 | every byte of a policy is charged once, of its key twice, and a third time with a beneficiary |
| `WalletContract.WalletShelf.StoreWalletPolicy` | contract/src/wallet.rs:347-549 | the whole new state of a policy write |
| `WalletContract.WalletShelf.FreezeWallet` | contract/src/wallet.rs:556-589 | freezes a thawed policy, controller only |
| `WalletContract.WalletShelf.UnfreezeWallet` | contract/src/wallet.rs:595-625 | thaws a frozen policy, controller only |
| `WalletContract.WalletShelf.DeleteWalletPolicy` | contract/src/wallet.rs:632-680 | removes policy, version, beneficiary and index entry and repays the deposit, refused while locked |
| `WalletContract.WalletShelf.SetStorageRefundTo` | contract/src/wallet.rs:690-714 | hands refunds on, beneficiary only |
| `ProjectLedger.RunInv` | contract/src/projects.rs:50-604 | on every run: ids are owner/name and indexed under exactly that owner, the versions map's keys are exactly the live uuids, the active version exists, NEAR is accounted for, every acceptance is used at most once |
| `ProjectLedger.LiveProjectResolves` | contract/src/execution.rs:986-1012 | resolving a live project without a version never fails, and gives a well-formed source filed under the active key |
| `ProjectEffects.ResolvesExactly` | contract/src/execution.rs:961-1015 | a request resolves exactly when the project has the version it names, or the active one if it names none, and gets that version's source |
| `ProjectEffects.NamedVersionResolves` | contract/src/execution.rs:961-1015 | a named version that resolves is the code that name stands for |
| `ProjectEffects.ReachableIsFiled` | contract/src/projects.rs:50-136 | the conditions of these laws hold on every run |
| `ProjectLedger.UuidsAreNeverReused` | contract/src/projects.rs:70-71 | a uuid handed out and no longer live never comes back |
| `ProjectLedger.OnlyAcceptedTransfersMove` | contract/src/projects.rs:515-604 | a project changes id only by its owner's transfer to an account that accepted this project from that owner; the acceptance is consumed and repaid to the new owner, the project was not priced, and uuid, versions and active version stay |
| `ProjectLedger.ConsumedStep` | contract/src/projects.rs:397-604 | each acceptance given is revoked, used by one transfer, or still stands |
| `ProjectLedger.AccountedStep` | contract/src/projects.rs:50-604 | NEAR in = held for projects, versions and acceptances + left with deleted projects' versions + paid out |
| `ProjectLedger.DeleteKeepsVersionDeposits` | contract/src/projects.rs:328-366 | a delete repays exactly the project's own deposit; the deposits of all its versions, never zero, stay behind: no delete repays everything |
| `ProjectLedger.DepositCoversProject` | contract/src/projects.rs:515-604 | in every reachable state a project's deposit covers it under its present id exactly when its owner's name is no longer than its first owner's |
| `ProjectEffects.CreatedResolves` | contract/src/projects.rs:50-136 | a new project runs the source it was created with; every other project runs what it ran |
| `ProjectEffects.FoundingFiles` | contract/src/projects.rs:50-136 | owner, name, uuid and first version of a new project, and the caller repaid exactly what is over |
| `ProjectEffects.CreateNeeds` | contract/src/projects.rs:50-136 | accepted exactly for a short plain name not taken, a well-formed source and the price at hand |
| `ProjectEffects.AddedResolves` | contract/src/projects.rs:148-220 | a new version can be named at once and is what the project runs exactly when it was made active; nothing else changes what it runs |
| `ProjectEffects.ExtensionFiles` | contract/src/projects.rs:148-220 | one more version at its price; the caller is repaid exactly what is over |
| `ProjectEffects.AddNeeds` | contract/src/projects.rs:148-220 | accepted exactly from the owner, for a well-formed source not yet there, with the price at hand |
| `ProjectEffects.ActiveIsResolved` | contract/src/projects.rs:235-268 | a version made active is what the project runs from then on, and what each name stands for stays |
| `ProjectEffects.RemovedIsUnresolved` | contract/src/projects.rs:278-320 | a removed version no longer resolves, everything else does as before, and the caller is paid exactly its deposit |
| `ProjectEffects.RemoveNeeds` | contract/src/projects.rs:278-320 | accepted exactly from the owner, for a version that exists and is not active |
| `ProjectEffects.DeletedIsUnresolved` | contract/src/projects.rs:328-366 | nothing of a deleted project resolves, the others do as before, and the caller is paid exactly the project's own deposit |
| `ProjectEffects.AcceptRecords` | contract/src/projects.rs:397-447 | when an acceptance is recorded, and the caller repaid exactly what is over its price |
| `ProjectEffects.RevokeForgets` | contract/src/projects.rs:453-475 | who accepted takes it back and is paid exactly what was held for it |
| `ProjectEffects.TransferNeeds` | contract/src/projects.rs:515-604 | a transfer is accepted exactly from the owner of an unpriced project, onto an account that accepted it and has none of that name |
| `ProjectEffects.TransferMoves` | contract/src/projects.rs:515-604 | the project moves to its new owner's name with versions, uuid and deposit as they were; the acceptance is used up and its deposit goes to the new owner |
| `ProjectEffects.TransferredResolves` | contract/src/projects.rs:515-604 | under its new name it resolves, version by version, to what it did under the old one |
| `ProjectEffects.UuidShape` | contract/src/projects.rs:68-74 | a uuid is a p and the counter in hex, 16 digits of it while the counter is a 64-bit number |
| `ProjectEffects.VersionPriceLaws` | contract/src/projects.rs:744-759 | every byte of a version's source is charged once |
| `ProjectEffects.PriceLaws` | contract/src/projects.rs:736-742 | every byte of a project's id and uuid, and of an acceptance's names, is charged once |
| `ProjectRegistry.BoardStep` | contract/src/projects.rs:50-604 | every call keeps ids, uuids, versions and indexes in agreement |
| `Projects.UuidIsInjective` | contract/src/projects.rs:70-71 | distinct counters give distinct uuids |
| `CodeSources.VersionKeyNamesTheCode` | contract/src/projects.rs:729-734 | well-formed sources share a version key exactly when they name the same binary or the same repository and commit; the key is never empty |
| `CodeSources.VersionKeyText` | contract/src/projects.rs:729-734 | the key is `repo@commit`, or the hash of the binary |
| `ProjectContract.ProjectBoard.CreateProject` | contract/src/projects.rs:50-136 | the whole new state of a creation |
| `ProjectContract.ProjectBoard.AddVersion` | contract/src/projects.rs:148-220 | adds one version, optionally active |
| `ProjectContract.ProjectBoard.SetActiveVersion` | contract/src/projects.rs:235-268 | only an existing version |
| `ProjectContract.ProjectBoard.RemoveVersion` | contract/src/projects.rs:278-320 | never the active version; repays its deposit |
| `ProjectContract.ProjectBoard.DeleteProject` | contract/src/projects.rs:328-366 | removes project, versions and index entry and repays the project's own deposit |
| `ProjectContract.ProjectBoard.AcceptProjectTransfer` | contract/src/projects.rs:397-447 | records one acceptance at its price |
| `ProjectContract.ProjectBoard.RevokeProjectTransfer` | contract/src/projects.rs:453-475 | repays an unused acceptance |
| `ProjectContract.ProjectBoard.TransferProject` | contract/src/projects.rs:515-604 | the whole new state of a transfer |
| `Indexes.RemovedIsExact` | contract/src/secrets.rs:2297-2307 | removing an entry keeps an index exact and drops an emptied set |

## Left out

- ed25519 and secp256k1 verification, SHA-256, TDX quotes and measurements: a verified signature is given as the text it was made over, a verified attestation as a fact about the submission.
- Keccak's bytes and collisions: hashing is symbolic.
- Overflow of 64- and 128-bit integers, which panics in the contract: amounts are unbounded, except for the 64-bit product inside the cost estimate.
- Timestamps that are stored and only shown (`created_at`, `updated_at`, `added_at`), events, logs, gas, and what a promise does after its transfer is issued.
- Borsh, and JSON arguments: only the printed JSON of conditions is here, which is what prices a row and what a signature covers.
- The letters a non-ASCII profile may hold and the non-ASCII white space a URL may not: bytes from 128 up are admitted.
- The stored output's bytes and the response text: only whether an output was stored matters to the money.
- `migrate`, subscription sales, swaps of NEAR into top-ups, per-token top-ups, USD fees and the remaining views: copies, external calls, or one-branch decisions that touch no ledger here.
- The resume calls of payment-key yields: a resume and its callback are one step.
- Collateral, measurements, cessation, banned and verified vaults, and `request_key` of the DAO: lists with one-line checks.
- Evaluation of access conditions: it happens in the keystore; only the bounds on stored conditions are here.
