# Verification of the wallet's core

A Dafny model of the parts of a post-quantum QOGE wallet in which a wrong result
loses money, with proofs over all inputs, all runs and all interleavings. Run
`dafny verify dfyconfig.toml`.

- **Addresses.** `Checksum` holds the 30-bit register of the Bech32 and Bech32m
  codec, first on bit vectors (linearity, injectivity, bursts) and then on the codec's
  bytes. `Bech32` is the string encoder and decoder on ASCII strings, `Regroup` the
  8/5-bit regrouping of BIP-173, `Address` the wallet's own addresses and payment
  destinations. `Vectors` has the published texts that pin the codec's constants.
- **Transaction bytes.** `Bytes` has little-endian fields, compact sizes, hexadecimal
  and displayed ids. `Transaction` holds both serializers, `Parser` the cursor parser,
  `Grammar` what the parser accepts and why it agrees with the serializers, `Canonical`
  which accepted bytes the serializer writes, `VirtualSize` the closed-form size,
  `Sighash` the digest each input signs.
- **Money.** `Fees` plans fees, `Coins` orders candidates, `Selection` selects them,
  `Completeness` says what a selection is and when "insufficient funds" is true.
  `Amounts` parses and prints decimals, which `Spaces` trims.
- **The database.** `Keystore` gives every call as a function from store to store;
  `KeyIndexObject.KeyIndex` is the object whose methods edit the buckets, each proved
  to reach exactly the store of that function. `Lifecycle` and `Recovery` prove what
  every run keeps, `Records` which entries are taken and kept. `Listing` is the sorted listing.
- **Signing.** `Signing` says what a call checks, prepares and commits,
  `WalletObject.Wallet` does it step by step, and `Interleaving` runs signing calls
  under signMu with all other calls in between; `RecoveryRuns` is about repeated
  recoveries in such a run, `SigningExamples` about two calls at the edge.
- **Funding.** `Deposits` reads a node scan three ways, `Funding` follows deposits into
  the history.
- **Keys.** `Rng` is the protocol over the process-wide random slot.

SHA-256 is an arbitrary function from bytes to 32 bytes; where a result needs it not to
collide, the lemma says so for exactly the strings that are hashed. Key derivation is
an arbitrary function from the index; lemmas that need different addresses for
different indices take that as a hypothesis. Clocks, signatures, derivation results and
scans are inputs.

## Where the code does not do what one might expect

Each of these is proved with the exact condition. Each but the last, which holds for every
program, also has a lemma at one input.

- The comment at internal/txbuilder/txbuilder.go:618-621 says that the addition cannot
  overflow. It does for the whole part 92233720368 with a fraction above 54775807, and so
  does the scan's parser: `Amounts.PlainAmount`, `Amounts.EightPlaces`, `Amounts.TopWraps`.
- The amount parser is to return an error on invalid input. It takes a sign before the
  whole part and another one inside the fraction, where a plus shifts the digits: "1.+5"
  is 1.05. "-0.5" is read as 0.5, and "." as 0: `Amounts.AmountIff`, `Amounts.AmountReads`,
  `Amounts.MinusLost`, `Amounts.SignedForms`, `Amounts.LooseForms`.
- The selector can report insufficient funds although a smaller set would do:
  `Completeness.WrongAnswerIff`, `Completeness.DustExample`. It never does when every coin
  is worth the fee that it adds: `Completeness.SelectorComplete`.
- The depth that AnalyzeFunding reports is not always the least, because 0 also stands
  for "not set": `Deposits.DepthIsLeastIff`, `Deposits.DepthExample`.
- Deposits of an address that is asked about twice are listed twice:
  `Deposits.AnalysesAgree`, `Deposits.AskedTwiceExample`. A history record given twice is
  stored once and counted twice: `Funding.StoredIsBalanceIff`, `Funding.TwiceExample`.
- Without details of its own the signer accepts outputs that exceed the inputs, and
  stores fee 0: `Signing.DetailsAcceptedIff`, `SigningExamples.OverspendExample`. A first
  output of zero passes every check and is signed, and is refused only by the commit:
  `Signing.PreparedIff`, `Interleaving.CommitSucceedsIff`, `SigningExamples.ZeroOutputExample`.
- The parser accepts transactions that the serializer never writes, so reserializing
  accepted bytes is not the identity: `Canonical.SerializedIff`, `Canonical.ReserializesIff`,
  `Canonical.AcceptedButNeverWritten`.
- The size of a transaction whose weight exceeds int64 is wrong, and one with a script that
  long passes as standard: `VirtualSize.SizeExact`, `Fees.HugeScriptPasses`.
- An amount below zero can be shown with its sign after the point:
  `Amounts.FormatRoundTrip`, `Amounts.NegativeShown`.
- Regtest shares its prefix with Mainnet and reads back as Mainnet:
  `Address.AddressRoundTrip`.

## Model

| member | source | states |
|---|---|---|
| Checksum.ComputePolymod | address/bech32m.go:69-82 | The nested bit loop over a 32-bit register computes the register function that the algebra is about |
| Checksum.StepInjective | address/bech32m.go:72-80 | Feeding one symbol is injective in the register below 2^30, for a fixed symbol |
| Checksum.RunSix | address/bech32m.go:69-82 | Up to six trailing symbols enter the register as one exclusive-or of their packed value: the linearity behind the checksum |
| Checksum.ExpandHrp | address/bech32m.go:86-96 | The filled slice is the expansion of BIP-173: high bits, a zero, low bits |
| Checksum.ChecksumUnique | address/bech32m.go:101-133 | For every prefix, payload and 30-bit constant exactly one six-symbol suffix leads to that constant, and it is the one the builder makes |
| Checksum.VariantsDiffer | address/bech32m.go:120-133 | The Bech32 and Bech32m suffixes of one payload always differ |
| Checksum.BurstChangesPolymod | address/bech32m.go:69-82 | Two equally long symbol sequences of any length that differ only within six consecutive positions never have the same register |
| Checksum.BuildChecksum | address/bech32m.go:120-133 | The builder's loops fill in exactly that suffix |
| Checksum.CheckChecksum | address/bech32m.go:101-116 | The verifier answers with the variant that the register equals, and 0 for neither |
| Checksum.VerifyIffCreated | address/bech32m.go:101-133 | A suffix verifies under a variant if and only if the builder made it for that variant |
| Checksum.OtherConstantRejected | address/bech32m.go:101-133 | A suffix built for any third constant is not accepted under either variant |
| Checksum.BurstNotVerified | address/bech32m.go:101-116 | A burst of wrong symbols never verifies under the variant of the right text |
| Vectors.StepIsMoved | address/bech32m.go:69-82 | One symbol moves the register as BIP-173 words it, with its five generators, for every register |
| Vectors.EmptyPayload | address/bech32m.go:181-221 | The published texts "A12UEL5L" of BIP-173 and "A1LQFN3A" of BIP-350 decode as published |
| Vectors.AllPayload | address/bech32m.go:138-170 | The published text of BIP-173 whose payload is all symbols in order is what the encoder writes |
| Bech32.EncodeGeneric | address/bech32m.go:138-170 | The string builder produces the encoding, or the first of the four errors in the source's order |
| Bech32.DecodeGeneric | address/bech32m.go:181-221 | The decoder's checks and loops decide exactly the decoding function, errors included |
| Bech32.DecodeOfEncode | address/bech32m.go:138-221 | Decoding an encoding returns the lower-case prefix, the payload and the constant, also for prefixes that contain '1'; longer than 90 characters, or for a third constant, it is the error |
| Bech32.EncodeOfDecode | address/bech32m.go:138-221 | Encoding whatever was decoded gives back the text in lower case |
| Bech32.EncodeIff | address/bech32m.go:138-170 | A payload is encoded if and only if its prefix is not empty, visible ASCII and without both cases, and its symbols are below 32 |
| Bech32.EncodeRefusal | address/bech32m.go:138-170 | Which of several things wrong with a prefix and payload is reported |
| Bech32.DecodeIff | address/bech32m.go:181-221 | The decoder accepts a text if and only if it is an encoding, in one case, of at most 90 characters, under one of the two variants, and then returns what was encoded |
| Bech32.DecodeRefusal | address/bech32m.go:181-221 | Which refusal of a text means what, length before case before separator, the checksum last |
| Bech32.BurstRejected | address/bech32m.go:181-221 | Two accepted texts that differ within six letters after the separator never carry the same variant |
| Regroup.EightOfFive | address/address.go:307-321 | Bytes regrouped to padded 5-bit symbols and back are the same bytes |
| Regroup.FiveOfEight | address/address.go:338-376 | Symbols that regroup to bytes at all are the padded form of those bytes: non-zero or long padding is refused |
| Regroup.FiveKeepsNumber | address/address.go:307-321 | The padded symbols write, in base 32, the number that the bytes write in base 256, times the power of two that fills up the last symbol |
| Address.AddressRoundTrip | address/address.go:307-376 | Every program survives encoding and decoding on every network; Regtest, which shares the prefix "bq", reads back as Mainnet |
| Address.AddressCanonical | address/address.go:338-376 | An accepted address is, up to case, the one the wallet would have produced for that program and network |
| Address.AddressIff | address/address.go:338-376 | A text is accepted for a program and network if and only if it is, in one case, the address that the wallet writes for them |
| Address.AddressBegins | address/address.go:307-321 | Every mainnet address begins with "bq1z" and every testnet address with "bqt1z" |
| Address.RefusalMeans | address/address.go:338-376 | Which refusal means what: another prefix, a valid Taproot address, symbols that are no bytes |
| Address.AddressBurstRejected | address/address.go:338-376 | A burst of up to six wrong letters, anywhere in the text and whatever the letters, never turns an owned address into another accepted one |
| Address.DestinationAgrees | address/address.go:193-262 | A payment goes to a P2QPK program exactly when the wallet's own decoder accepts the text on Mainnet for that program and Base58Check does not take it |
| Address.SegwitIff | address/address.go:217-261 | A text is a SegWit destination if and only if it is, in one case, the mainnet address of a version 0 program of 20 or 32 bytes, or of a version 1 or 2 program of 32 bytes, under the variant of its version, and the script is opcode, length and program |
| Address.LegacyIff | address/address.go:193-216 | What Base58Check reads is a destination if and only if it is 20 bytes under version 120 or 102, with the pay-to-key-hash or pay-to-script-hash script |
| Address.TaprootNeverOwned | address/address.go:193-262 | A Taproot destination is never an owned address, and says so |
| Address.SameBytes | address/address.go:266-284 | The accumulated difference is zero exactly for equal programs |
| Bytes.ReadCompactOfCompact | internal/txbuilder/txbuilder.go:666-685 | A written compact size reads back, whatever follows it |
| Bytes.CompactPrefixFree | wallet/wallet.go:1174-1193 | No compact size is the beginning of another |
| Bytes.WireOrderOfDisplay | internal/txbuilder/txbuilder.go:553-566 | A displayed id converts back to the digest in wire order |
| Bytes.DisplayAt | wallet/wallet.go:1043-1045 | An id is shown in lower-case hexadecimal, the last byte of the digest first |
| Bytes.ReverseDigest | wallet/wallet.go:1043-1045 | The in-place swap loop reverses the 32 bytes |
| Transaction.SerializeBIP144 | internal/txbuilder/txbuilder.go:223-281 | The buffer writes are the BIP-144 form, or the first error in the source's order |
| Transaction.WritePreimage | wallet/wallet.go:734-757 | The wallet's second serializer writes the witness-free form of the same fields |
| Transaction.SerializeIff | internal/txbuilder/txbuilder.go:223-281 | Exactly which transactions serialize |
| Transaction.SerializeRefusal | internal/txbuilder/txbuilder.go:223-281 | Which refusal of a transaction means what |
| Transaction.TxIDIsDoubleHash | internal/txbuilder/txbuilder.go:388-394 | Back in wire order, an id is the double hash of the witness-free bytes, as inputs that spend the transaction carry it |
| Transaction.StrippedInjective | wallet/wallet.go:734-757 | Different versions, inputs, outputs or lock times have different witness-free bytes |
| Transaction.SerializeInjective | internal/txbuilder/txbuilder.go:223-281 | Different signed transactions have different bytes |
| Parser.TxIDFromBIP144 | internal/txbuilder/txbuilder.go:285-394 | The cursor never leaves the buffer, the end offset bounds every loop even for counts near 2^64, and the result, back in wire order, is the double hash of the stripped bytes, or an error |
| Grammar.StripOfSerialize | internal/txbuilder/txbuilder.go:223-394 | Parsing a serialized transaction strips it to the witness-free form, whatever the witnesses hold |
| Grammar.IdsAgree | wallet/wallet.go:986-994 | The id reparsed from the serialized bytes is the id the wallet computed from the fields |
| Grammar.AcceptsExactly | internal/txbuilder/txbuilder.go:285-394 | On arbitrary bytes the parser accepts exactly what splits into version, marker and flag, inputs, outputs, one witness stack for each input and lock time, non-minimal sizes included, and strips to just the other parts |
| Grammar.WitnessesIgnored | internal/txbuilder/txbuilder.go:285-394 | The stripped result does not depend on the contents of the witness stacks |
| Grammar.SerializerFormIff | internal/txbuilder/txbuilder.go:293-318 | For one compact size: a form of some width is what the serializer writes exactly when the value needs that width |
| Canonical.SplitUnique | internal/txbuilder/txbuilder.go:285-394 | What the parser accepts splits into its parts in one way only |
| Canonical.SerializedIff | internal/txbuilder/txbuilder.go:223-394 | An accepted split is the serializer's output for some transaction if and only if every size is in its shortest form, every input script is empty, every amount is below 2^63 and every stack is a 17088-byte signature and a 32-byte key |
| Canonical.ReserializesIff | internal/txbuilder/txbuilder.go:223-394 | The same on raw bytes that the parser accepts |
| Canonical.AcceptedButNeverWritten | internal/txbuilder/txbuilder.go:285-394 | One accepted transaction that the serializer writes, and two beside it, with a long input count and with an input script, that the parser accepts and the serializer never writes |
| VirtualSize.P2QPKVirtualSize | internal/txbuilder/txbuilder.go:399-417 | The loop computes the closed form in wrapping 64-bit arithmetic |
| VirtualSize.WeightOfBytes | internal/txbuilder/txbuilder.go:399-417 | Three times the witness-free length plus the whole length of the real bytes is the closed-form weight |
| VirtualSize.SizeExact | internal/txbuilder/txbuilder.go:399-417 | The reported size is the rounded-up quarter of that weight if and only if the weight fits int64 |
| VirtualSize.SizedIff | internal/txbuilder/txbuilder.go:399-417 | A size is refused exactly for no inputs, no outputs or a negative amount |
| Sighash.ComputeSighash | wallet/wallet.go:1093-1171 | The five hashed lists and the outer message are fed as the digest function says |
| Sighash.SighashIff | wallet/wallet.go:1093-1102 | There is a digest exactly for the index of an input, when inputs and outputs spent are as many |
| Sighash.MessageLayout | wallet/wallet.go:1104-1171 | Where everything stands in the 238 bytes that are hashed last: the tag's digest twice, two bytes, version, lock time, the five list digests, the index |
| Sighash.ListsLayout | wallet/wallet.go:1124-1164 | Where every prevout, sequence and amount stands in its list, and what precedes and follows every script and output |
| Sighash.SighashCommits | wallet/wallet.go:1093-1171 | Without a collision among the strings hashed, two parameter sets have one digest if and only if they agree on version, lock time, prevouts, amounts, spent scripts, sequences, outputs and index |
| Sighash.InputsSignDifferently | wallet/wallet.go:942-950 | The digests of the inputs of one transaction are pairwise different |
| Fees.RateFits | internal/txbuilder/txbuilder.go:461-463 | The division guard refuses exactly the products that would overflow int64 |
| Fees.FeeIsCeiling | internal/txbuilder/txbuilder.go:454-465 | A fee covers its rate and one satoshi less would not |
| Fees.FeeExistsIff | internal/txbuilder/txbuilder.go:454-465 | There is a fee exactly when rate and size are positive and the product fits |
| Fees.PlanSound | internal/txbuilder/txbuilder.go:486-523 | A plan conserves value and pays its rate for the shape it stands for; it gives change if and only if more than the ceiling for the shape with change is left, then pays just that, and never pays more |
| Fees.PlanExistsIff | internal/txbuilder/txbuilder.go:486-523 | Exactly when there is a plan, for all totals, rates and scripts |
| Fees.InsufficientMeans | internal/txbuilder/txbuilder.go:486-523 | "Insufficient funds" is reported if and only if the fee without change is known and not covered |
| Fees.PlanPaysForBytes | internal/txbuilder/txbuilder.go:486-523 | The bytes signed for a plan are paid for at its rate by their BIP-141 size |
| Fees.WithdrawSound | internal/txbuilder/txbuilder.go:528-547 | Sweeping leaves one output and the exact fee |
| Fees.WithdrawExistsIff | internal/txbuilder/txbuilder.go:528-547 | Exactly when a total can be swept |
| Fees.PlanIff | internal/txbuilder/txbuilder.go:486-523 | With sizes and fees in range a plan exists if and only if the total covers the amount and the least fee |
| Fees.CeilingKeepsStandard | internal/txbuilder/txbuilder.go:419-451 | 22 inputs stay standard for every destination script up to 4846 bytes, and for no longer one whose weight fits int64 |
| Fees.HugeScriptPasses | internal/txbuilder/txbuilder.go:419-451 | A script of 2^61 bytes wraps the weight and passes as standard |
| Coins.KeyInjective | internal/txbuilder/txbuilder.go:73-90 | The formatted key names one outpoint |
| Coins.OrderedP2QPKCoins | internal/txbuilder/txbuilder.go:71-97 | The loop refuses the first bad coin and otherwise gives the ascending order |
| Coins.ComplaintMeans | internal/txbuilder/txbuilder.go:71-97 | A complaint is about the first coin that is not positive or repeats an outpoint |
| Coins.AscendingUnique | internal/txbuilder/txbuilder.go:84-96 | An ascending arrangement of the coins is unique, so any sort gives it |
| Coins.AscendingIff | internal/txbuilder/txbuilder.go:84-96 | Ascending is by amount, then by id byte by byte, then by output index |
| Coins.OrderedSound | internal/txbuilder/txbuilder.go:71-97 | Coins are ordered if and only if there are some, all positive and none twice; the order is an ascending permutation |
| Coins.OrderedCanonical | internal/txbuilder/txbuilder.go:71-97 | The order does not depend on the order of the input |
| Selection.BuildP2QPKCoinSelection | internal/txbuilder/txbuilder.go:99-120 | Totals with overflow checks, and the coins that were not selected |
| Selection.SelectP2QPKForAmount | internal/txbuilder/txbuilder.go:123-168 | The ascending search and the last attempt with the 22 largest compute the selection function |
| Selection.SelectP2QPKMaximum | internal/txbuilder/txbuilder.go:171-192 | One pass picks the at most 22 smallest coins and plans their sweep, errors in the source's order |
| Completeness.SelectionSound | internal/txbuilder/txbuilder.go:123-168 | An accepted selection has 1 to 22 coins, partitions the coins, carries its plan, and is the shortest plannable ascending prefix or, if there is none, the 22 largest |
| Completeness.SelectionConserves | internal/txbuilder/txbuilder.go:123-168 | Selected value is amount plus fee plus change |
| Completeness.SelectionCanonical | internal/txbuilder/txbuilder.go:123-168 | The selection does not depend on the order of the coins |
| Completeness.LargestIsBest | internal/txbuilder/txbuilder.go:153-166 | No k coins are worth more than the k largest |
| Completeness.ResultIffTried | internal/txbuilder/txbuilder.go:123-168 | The selector succeeds exactly when one of the sets it looks at leaves enough after its fee, and otherwise reports insufficient funds |
| Completeness.PayableIffBest | internal/txbuilder/txbuilder.go:123-168 | Some choice of at most 22 coins can be planned exactly when, for some k, the k largest can |
| Completeness.WrongAnswerIff | internal/txbuilder/txbuilder.go:123-168 | "Insufficient funds" is wrong exactly when some k largest coins leave enough and no ascending prefix and not the 22 largest do |
| Completeness.SelectorComplete | internal/txbuilder/txbuilder.go:123-168 | If every coin is worth the fee of one more input, the selector succeeds if and only if some choice of at most 22 coins can be planned |
| Completeness.SelectRefusal | internal/txbuilder/txbuilder.go:123-168 | Which refusal means what, for all inputs: an overflow only if all coins together exceed int64, and insufficient funds only if neither an ascending prefix nor the 22 largest can be planned |
| Completeness.DustExample | internal/txbuilder/txbuilder.go:123-168 | One coin of exactly amount plus fee beside a 1-satoshi coin is refused although it alone would do |
| Completeness.MaximumSound | internal/txbuilder/txbuilder.go:171-192 | An accepted maximum is the at most 22 smallest coins, the rest beside them, and the sweep of exactly their total |
| Completeness.MaximumExistsIff | internal/txbuilder/txbuilder.go:171-192 | There is a largest payment exactly when the coins are sound and the sum of the at most 22 smallest can be swept |
| KeyIndexObject.KeyIndex.FindRecord | keystore/keystore.go:787-809 | The scan finds the first record with the address |
| KeyIndexObject.KeyIndex.GenerateAddress | keystore/keystore.go:290-333 | A record with the derived key and the blob handed over is added at next_index, which advances, or nothing changes |
| KeyIndexObject.KeyIndex.PreGenerate | keystore/keystore.go:337-349 | Succeeds if and only if every derivation it needs does; the store is the one with exactly the addresses that were made before the first failure, or all that were missing |
| KeyIndexObject.RefillAdds | keystore/keystore.go:337-349 | Filling the pool adds only unused addresses, as many as were missing if and only if no derivation failed, and changes nothing that was there |
| KeyIndexObject.KeyIndex.MarkFunded | keystore/keystore.go:356-371 | FRESH to FUNDED, clearing the reservation; errors change nothing |
| KeyIndexObject.KeyIndex.MarkSpendPendingAndReserveChange | keystore/keystore.go:376-414 | The whole new store of a spend commit: source, change mark, spending id and broadcast, or an error and no change |
| KeyIndexObject.KeyIndex.ObserveRecoverableOutpoints | keystore/keystore.go:418-453 | The whole new store of an observation, and whether recovery became available |
| KeyIndexObject.KeyIndex.MarkRecoveryPendingAndReserveChange | keystore/keystore.go:458-511 | The whole new store of a recovery commit, or an error and no change |
| KeyIndexObject.RecoveryOutpointSubset | keystore/keystore.go:525-545 | The key sets decide: submitted not empty, no repeats on either side, every submitted outpoint authorized |
| KeyIndexObject.OutpointKeyInjective | keystore/keystore.go:513-515 | The formatted key names one outpoint with its amount |
| KeyIndexObject.KeyIndex.MarkSpent | keystore/keystore.go:548-550 | SPEND_PENDING to SPENT |
| KeyIndexObject.KeyIndex.Retire | keystore/keystore.go:555-574 | SPENT to RETIRED with the seed blob gone, refused while recovery is available or in flight |
| KeyIndexObject.KeyIndex.NextFreshAddress | keystore/keystore.go:612-632 | The lowest index that is FRESH and not reserved, or none if there is none |
| KeyIndexObject.KeyIndex.ListByState | keystore/keystore.go:652-670 | The records in one state, in index order |
| KeyIndexObject.KeyIndex.DeletePendingBroadcast | keystore/pending.go:80-84 | One broadcast removed |
| KeyIndexObject.KeyIndex.PutTransaction | keystore/history.go:53-76 | A history entry is written once, and again only unchanged |
| KeyIndexObject.KeyIndex.MarkFundedAndRecordIncoming | keystore/history.go:80-116 | The whole new store of funding with history, with the running total that wraps; any error leaves every entry out |
| Keystore.FailureChangesNothing | keystore/keystore.go:356-606 | No call that reports an error changes the store |
| Records.TransitionsIff | keystore/keystore.go:356-574 | Funding, confirming, observing and retiring succeed if and only if the record is in the right state; retiring also needs no outpoint recoverable or locked |
| Records.CommitsIff | keystore/keystore.go:376-511 | Exactly when a spend and when a recovery commits: state, authorization, change and broadcast |
| Records.AuthorizesIff | keystore/keystore.go:525-545 | Outpoints are authorized if and only if there are some, none twice, and all are in a recorded list that has none twice |
| Records.CommitRefusals | keystore/keystore.go:376-511 | Which refusal of a commit means what |
| Records.OutgoingStored | keystore/history.go:53-76 | An outgoing transaction is recorded if and only if it is complete and its id is not taken by another record, and nothing else is lost |
| Records.BothStored | keystore/history.go:53-76 | Two outgoing transactions with different ids are both recorded |
| Records.FundingAcceptedIff | keystore/history.go:80-116 | Funding with history succeeds if and only if the address is FRESH, and reserved or given records to it that contradict nothing stored or given and whose wrapped sum is the balance |
| Records.BroadcastsWhole | keystore/pending.go:32-55 | In every reachable store every broadcast has a 64-character id, bytes, a source, a positive amount, no negative fee, a time and one of the two kinds |
| Records.DeletionKeeps | keystore/pending.go:80-84 | A deletion removes one broadcast and leaves every other, and everything else, as it was |
| Lifecycle.StepKeeps | keystore/keystore.go:290-606 | Every call keeps the invariant of the store, moves a record at most one state forward, and overwrites no address, key, spending id or history entry, nor a blob before its key is retired |
| Lifecycle.ReachableInv | keystore/keystore.go:290-606 | Every reachable store: indices exactly 0 to next_index-1, reserved implies FRESH, the blob is absent if and only if RETIRED, recoverable if and only if outpoints are recorded, any recovery outpoint implies SPENT, locked and recoverable outpoints disjoint, every broadcast backed by its source |
| Lifecycle.RunForward | keystore/keystore.go:290-606 | Over any run no address disappears, no state goes back, and what was written once stays |
| Lifecycle.BlobsKept | keystore/keystore.go:290-333 | In every reachable store a record that is not RETIRED holds exactly the blob of the call that generated its index |
| Lifecycle.FindOwn | keystore/keystore.go:787-809 | With derivation injective, every record is found by its own address |
| Lifecycle.BroadcastSources | keystore/pending.go:32-55 | Two stored normal spends never have the same source |
| Recovery.CommitSplits | keystore/keystore.go:458-511 | A commit needs no recovery in flight, and splits the authorized outpoints exactly into the locked ones and the rest |
| Recovery.RemainingParts | keystore/keystore.go:486-500 | The outpoints that stay authorized keep their order |
| Recovery.ObservationDecides | keystore/keystore.go:418-453 | Locks hold exactly while one of them is unspent, and only then, or before maturity, nothing is authorized |
| Recovery.LockHeld | keystore/keystore.go:418-511 | No call authorizes a locked outpoint, and only an observation with none of the locked ones unspent releases it |
| Recovery.ReauthorizedOnlyAfterRelease | keystore/keystore.go:418-511 | Over any run, a locked outpoint is authorized again only after such an observation |
| Recovery.OneSpendEach | keystore/keystore.go:376-414 | In any run at most one normal spend of an address is committed |
| Recovery.OneReservationEach | keystore/keystore.go:376-511 | In any run an address is reserved as change by at most one committed transaction |
| Signing.InputsAccepted | wallet/wallet.go:870-883 | The first complaint about the inputs is absent exactly when all are positive, pay from the source's script and are pairwise different |
| Signing.InputErrorMeans | wallet/wallet.go:870-883 | A complaint is about the first input that repeats a prevout, is not positive or is not paid by the source's script |
| Signing.SourceRefusal | wallet/wallet.go:829-869 | Which refusal of the source or of the lists means what |
| Signing.AcceptedIff | wallet/wallet.go:829-941 | The checks accept exactly: a source in the right state, matching lists, distinct positive inputs from its script, non-negative standard outputs, and change to one output at a fresh unreserved address, or one output and no change |
| Signing.IdsNeverDiffer | wallet/wallet.go:986-994 | The cross-check of the two ids never rejects |
| Signing.PreparedStands | wallet/wallet.go:942-1027 | What is committed: signature i was asked for with the digest of index i and is witness i with the key, the bytes are the serialization, and they strip to the transaction of the stored id |
| Signing.DigestsDiffer | wallet/wallet.go:942-970 | The digests that the signer is asked about are pairwise different, barring a collision of the two messages |
| Signing.DetailsAcceptedIff | wallet/wallet.go:995-1021 | Exactly which totals and details are accepted; the stored ones are the caller's or describe the first output; an accepted call that pays out more than it takes in has no details of its own and fee 0 |
| Signing.PreparedIff | wallet/wallet.go:829-1021 | A call reaches the commit if and only if the checks pass, the seed decrypts, the signer starts and answers every digest of an input with 17088 bytes, and the totals and details are accepted: sighashes, serializer and id comparison never stop it |
| Signing.PlanAccepted | wallet/wallet.go:1012-1021 | A transaction built from a fee plan passes the comparison of its details |
| Signing.WithdrawAccepted | wallet/wallet.go:1012-1021 | So does a sweep |
| Signing.OutpointsNamePrevouts | wallet/wallet.go:1040-1054 | The outpoints that get locked name exactly the prevouts signed, with their amounts, and distinct prevouts give distinct outpoints |
| WalletObject.CheckInputs | wallet/wallet.go:870-883 | The loop with its set of seen prevouts finds the first complaint |
| WalletObject.CountMatches | wallet/wallet.go:920-925 | The loop counts the outputs that pay to the change script |
| WalletObject.TotalInput | wallet/wallet.go:996-1001 | The guarded addition overflows exactly when the whole sum exceeds int64 |
| WalletObject.TotalOutput | wallet/wallet.go:1002-1007 | The same for the outputs |
| WalletObject.RecoveryOutpointsFromParams | wallet/wallet.go:1040-1054 | The reversal and formatting loop gives the outpoints in displayed form |
| WalletObject.P2QPKTxID | wallet/wallet.go:734-757 | The id, back in wire order, is the double hash of the wallet's own serialization |
| WalletObject.Wallet.SignP2QPKInputs | wallet/wallet.go:829-1038 | One whole call: the result and the whole new store, errors at every branch included |
| WalletObject.Wallet.ObserveSpendConfirmation | wallet/wallet.go:316-350 | An address becomes SPENT only for the transaction id it records, at one confirmation or more, and then the pool is refilled |
| WalletObject.Wallet.ObserveRecoverableBalance | wallet/wallet.go:298-305 | The outpoints count as mature at a positive balance and 20 confirmations, and then the key index decides |
| WalletObject.Wallet.PurgeSpentKey | wallet/wallet.go:363-372 | Below the minimum depth nothing changes, above it the key index decides |
| WalletObject.Wallet.ObserveFundingWithHistory | wallet/history.go:33-48 | The gate of balance and 20 confirmations, then every deposit as one history record, then the refill of the pool |
| WalletObject.Wallet.ListAddresses | wallet/wallet.go:431-466 | A sorted permutation of all records |
| Listing.SortByIndex | wallet/wallet.go:459-464 | The in-place insertion sort orders by index and keeps the records |
| Listing.GroupsCover | wallet/wallet.go:432-457 | State by state every record is there once |
| Listing.ListingIsIndex | wallet/wallet.go:431-466 | Of a reachable store the listing is the index itself: every address once, at its index |
| Interleaving.RunSafe | wallet/wallet.go:829-1038 | In every run of signing calls with any other calls in between: released spends have pairwise different sources, released transactions pairwise different change addresses, each source records its released spend, every address past FUNDED has one, and every stored broadcast's bytes have its id |
| Interleaving.ErrorsReleaseNothing | wallet/wallet.go:1026-1038 | A call that ends in an error leaves the store as it was just before the commit and releases nothing |
| Interleaving.CommitSucceedsIff | wallet/wallet.go:829-1038 | While signMu is held a prepared spend or recovery commits if and only if the outpoints it recovers are still authorized, its change address is still FRESH, its id is not waiting already, and what it would store is complete |
| Interleaving.ReleaseStored | wallet/wallet.go:1008-1033 | A released call leaves one new broadcast under its id: its bytes, kind, source and time, the amount of the first output, and destination and fee as the caller gave them or as the outputs say |
| RecoveryRuns.LockedUntilFreed | wallet/wallet.go:829-1038 | In every interleaved run a source stays locked by exactly the outpoints of a released recovery until an observation finds none of them unspent |
| RecoveryRuns.RecoveriesApart | wallet/wallet.go:829-1038 | Between any two released recoveries of one source, some observation of it found every outpoint that the earlier one signed spent |
| SigningExamples.OverspendExample | wallet/wallet.go:1008-1033 | A call that pays out 2 of 1 without details, on an address just funded, is committed with fee 0 and handed out |
| SigningExamples.ZeroOutputExample | wallet/wallet.go:829-1038 | A call whose first output is 0 is prepared and signed, and refused only by the commit |
| Interleaving.ConfirmationStillMatches | wallet/wallet.go:332-350 | Between the comparison of the id and the transition, over any run, the id stays, and the transition fails only if the address was confirmed meanwhile |
| Deposits.AggregateBalances | internal/rpcclient/balance.go:101-129 | The map has every address asked about with its wrapped total, or the error of the first bad address or amount |
| Deposits.TotalsAdd | internal/rpcclient/balance.go:101-176 | Balances, positive balances and groups add up over any way to cut the scan |
| Deposits.OneOutput | internal/rpcclient/balance.go:141-176 | What one output counts for in each of the analyses |
| Deposits.OwnerIsLast | internal/rpcclient/balance.go:106-116 | A script counts for the last address asked about that has it |
| Deposits.AnalyzeFunding | internal/rpcclient/balance.go:141-176 | Balance over the positive outputs and the running depth, for every address asked about |
| Deposits.AnalyzeDeposits | internal/rpcclient/deposits.go:14-46 | Every address with outputs lists every id with its wrapped total, once for each time the address was asked, in any order |
| Deposits.ComplaintMeans | internal/rpcclient/deposits.go:14-46 | A refused scan has, among the outputs that count, a first one without an id or with an amount that is none |
| Deposits.AnalysesAgree | internal/rpcclient/deposits.go:14-46 | With positive amounts that fit int64 the balance and the funding status agree, and the deposits add up to the balance if and only if the address was asked about once or the balance is zero |
| Deposits.DepthIsLeastIff | internal/rpcclient/balance.go:167-172 | The reported depth is the least one if and only if no counted output has depth 0 or the last counted one has |
| Deposits.ConfirmationsAre | internal/rpcclient/balance.go:162-165 | The depth for every pair of heights: the blocks from the output's to the tip, 0 above the tip, and what the wrap gives beyond int64 |
| Deposits.AboveTipIff | internal/rpcclient/balance.go:162-165 | Depth 0 means an output above the tip, exactly, while the difference of heights fits int64; beyond that the wrap decides |
| Deposits.DepthExample | internal/rpcclient/balance.go:162-172 | An output above the tip and then one of depth 51 are reported as depth 51 |
| Deposits.AskedTwiceExample | internal/rpcclient/deposits.go:14-46 | 5 satoshis to an address asked about twice are a balance of 5 and deposits of 10 |
| Funding.FundingStores | keystore/history.go:80-116 | External funding leaves each different record once and a reserved address none |
| Funding.StoredIsBalanceIff | keystore/history.go:94-113 | The stored records add up to the balance if and only if no record was given twice |
| Funding.TwiceExample | keystore/history.go:80-116 | One record of 5 given twice with balance 10 funds the address and is stored once |
| Funding.FundingConserves | keystore/history.go:80-116 | Over any run before and after, the incoming entries of a funded address stay exactly those records |
| Funding.DepositsFund | wallet/history.go:33-48 | Deposits with ids of their own that add up to the balance always fund a fresh unreserved address, and each is recorded under its id with its amount and time |
| Funding.ScanFunds | wallet/history.go:33-48 | From the scan to the history: what the three analyses report for a fresh address funds it, and its incoming history adds up to its balance |
| Rng.Closure.Invoke | signer/slhdsa.go:117-131 | The callback fills the buffer in place and sets its flags as the answer function says |
| Rng.StepSafe | signer/slhdsa.go:70-205 | Every step of any thread keeps the protocol's invariant |
| Rng.RunSafe | signer/slhdsa.go:70-205 | In every interleaving the slot is "system" while rngMu is free, Sign and NewSigner draw from "system" alone, a derivation that succeeded made one draw, of its own 48 bytes, from its own callback, and further draws of a derivation get zeros |
| Rng.OneKeyPerSeed | signer/slhdsa.go:105-161 | Two successful derivations from one seed give one key, whatever else ran |
| Rng.ResultIs | signer/slhdsa.go:105-161 | A derivation succeeds if and only if liboqs reports a key pair after one proper draw, and every failure of the library is reported |
| Rng.AloneSucceeds | signer/slhdsa.go:105-161 | A derivation that is left alone succeeds with the key of its seed and gives the slot and rngMu back |
| Amounts.QOGEToSatoshis | internal/txbuilder/txbuilder.go:586-625 | The parser with its padding loop computes the amount function, errors included |
| Amounts.AmountReads | internal/txbuilder/txbuilder.go:586-625 | What every text of sign, digits, point, sign, digits is read as, errors included, with the whole part, the point or the fraction missing too |
| Amounts.AmountIff | internal/txbuilder/txbuilder.go:586-625 | An input is accepted if and only if, trimmed, it is such a text with a whole part of at most 92233720368, a minus only before zeros, and a sign and digits of at most eight characters after the point |
| Amounts.PlainAmount | internal/txbuilder/txbuilder.go:586-625 | Without signs and with at most eight digits after the point a text means what it says if and only if that is at most the largest int64; above it the result is negative |
| Amounts.TopWraps | internal/txbuilder/txbuilder.go:618-622 | One satoshi above the largest amount is read as the least, by this parser and by the scan's |
| Amounts.LooseForms | internal/txbuilder/txbuilder.go:586-625 | "1", "+1.", ".5" and "." are amounts |
| Amounts.SignedForms | internal/txbuilder/txbuilder.go:608-616 | "1.+5" is 1.05, "1.-5" an error and "-0.5" is 0.5 |
| Amounts.ScanAgrees | internal/rpcclient/balance.go:44-63 | The scan's parser accepts exactly what the other one does among texts with a whole part and eight characters after the point, and reads the same |
| Amounts.EightPlaces | internal/rpcclient/balance.go:44-63 | Digits, a point and eight digits: both parsers read the same amount, exact if and only if it is at most the largest int64, negative above |
| Amounts.MinusLost | internal/txbuilder/txbuilder.go:594-597 | A minus sign is refused unless the whole part is zero, and then ignored |
| Amounts.ShownForm | internal/rpcclient/balance.go:180-184 | A non-negative amount is shown as a whole part without needless zeros, a point and eight digits that add up to it |
| Amounts.NegativeShown | internal/rpcclient/balance.go:180-184 | -1 is shown as "0.-0000001" |
| Amounts.FormatRoundTrip | internal/rpcclient/balance.go:44-63 | An amount survives formatting and either parser if and only if it is not negative |

## Left out

- Parser.TxIDFromBIP144: offsets are unbounded; Go's are int, which a buffer in memory cannot exceed.
- Coins.OrderedP2QPKCoins: sort.Slice is the unique ascending permutation, not its algorithm.
- Regroup.EightOfFive: ConvertBits is a library function that is not part of the repository; it is specified from section "Segwit address format" of BIP-173.
- KeyIndexObject.KeyIndex.GenerateAddress: next_index is unbounded, the source's wraps after 2^64 addresses.
- KeyIndexObject.KeyIndex.Retire: the blob is removed from the record; overwriting its bytes in memory is not modelled.
- WalletObject.Wallet.ListAddresses: lists whole records, where the source leaves key material out of the summary.
- WalletObject.Wallet.ObserveSpendConfirmation: its two store calls follow each other here; `Interleaving.ConfirmationStillMatches` covers what may happen between them.
- WalletObject.Wallet.SignP2QPKInputs: what decrypting the blob yields, whether the signer starts and what it answers are inputs.
- Interleaving.RunSafe: a call that fails its checks gives signMu back at its last step instead of at once.
- Rng.RunSafe: liboqs is "draws any number of bytes, any number of times"; restoring the system source always succeeds, and a failed installation leaves the slot alone.
- Amounts.QOGEToSatoshis: strings are ASCII, so white space beyond ASCII is not trimmed.
- Deposits.AggregateBalances: a scan gives satoshis or "not an amount"; the rounding of floating-point amounts is left to the library that formats them.
- Bech32.DecodeGeneric: strings are ASCII; case mapping of other characters is the library's.
- Address.DestinationAgrees: base58.CheckDecode is a library function that is not part of the repository; it is an arbitrary function from texts to answers.
- SLH-DSA, HKDF and AES-GCM; the database engine, JSON, files, opening and creating wallets.
- The RPC client's transport, the graphical interface and the command line.
- ParseFeeRate, CalcChange, SignMessage and the legacy SignTransaction, which are single checks or placeholders.
