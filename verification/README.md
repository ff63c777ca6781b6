# Trefoil undo: a verified model

Trefoil's undo module parks every payment in a holding pot for a window during which its sender, and only
its sender, can take it back. This project models three parts of it in Dafny 4.11 and proves properties of
them over all inputs and all runs:

* **The ledger** (`Ledger`, `Keeper` and the modules above them): bank balances, the holding pot, the pending
  table, the id sequence, the tallies and the parameters, as a state machine whose steps are the four messages
  and the end of a block. `Keepers.Keeper` is the keeper as an object that updates its fields in place; each
  of its methods is proved to do exactly what the ledger functions say, refusals included. The theorems are
  about the ledger functions: the rules of every message and payout (`Handlers`), solvency and conservation
  (`Solvency`), the end of a block as a one-shot settlement (`Settlement`), one fate per id (`Fates`), timing
  (`Timing`), tallies against history (`Tallies`), the event log as a complete record (`EventLog`), undo
  without trace (`NoTrace`), admission (`Admission`), what it gives per account (`Accounts`), genesis
  (`Genesis`) and entries without coins behind them (`Backing`).
* **The wire codec** (`Varints`, `Skips`, `Wire`, `Acceptance`, `Messages`, `NestedMessages`, `Layouts`, `Writer`,
  `Reader`): the generated marshallers that fill a buffer backwards, the cursor parsers with their 64-bit wrap
  checks, and the loop that skips unknown fields with a depth counter, against the Protocol Buffers Encoding
  specification (sections "Base 128 Varints", "Last One Wins" and "Groups"). The generated files repeat one
  pattern: varint, skip and field handling are modelled once (the `skip` functions of the five files modelled
  here have the same body), and the messages are instances.
* **The wallet** (`Wallet`, `WalletCodec`): printing and parsing amounts, and the hand-written encoders, which
  must write the bytes the chain writes.

## How to read the model

* Go strings, addresses and denominations are byte sequences. `uint64` and `int64` are ranges of the integers;
  every wrap-around and cast is written out (`WrapU64`, `WrapI64`, `ToI64`, `ToU64`). Shifts and masks are
  powers of two, quotients and remainders in the specifications; the loops of `Writer.EncodeVarint` and
  `Reader.DecodeVarint` use bitwise operations, and `Varints.BitsAreSums` shows that they are the same.
* The bank is what the module relies on: balances per account and denomination, one holding pot, no overdraft,
  plus a fixed set of accounts that module payouts are refused to. The address codec is any partial function.
  The source compares address strings; `Accounts` proves that the cap, the shop switch and the ban on sends
  to oneself hold per account exactly if no account has two spellings. No other theorem needs the codec to be
  injective.
* A run is any sequence of messages and block ends with any times. `Timing` groups them into blocks.
* Where code and prose differ the model follows the code. `CancelSend` compares no times: a cancel in the first
  block that has reached the time of the entry still wins, since payouts come at the end of that block.
  `Params.Validate` sets no upper limit, and `int64(window)` is a cast: `Timing.WindowLasts` says exactly which
  windows give the sender any time, `Timing.LongWindowWraps` names parameters and a window for which it does
  not. Genesis validation checks neither backing nor amounts nor the cap of 20, nor that the tallies agree
  with the entries: `Genesis.ImportSound` and `Genesis.ImportTallied` say, over the genesis
  state and the holding pot before the import, exactly when an import starts a sound run.
  `Backing.UnbackedGenesisIsStuck` follows an accepted genesis with an entry nothing stands behind,
  `Backing.RefundTakesAnothers` what happens once somebody else parks coins of its denomination, and
  `Backing.UntalliedGenesis` a sound one in which an address cancels more than it has sent. The skipping loop
  does not compare the field numbers of the two ends of a group (`Skips.WellFormed`).
* Statements about runs assume that the 64-bit sequence is not exhausted on the way. `Solvency.StepKeepsInv`
  shows that this is the only way to lose the invariant: one step keeps it if and only if it is not the send
  that takes the last id. Statements about byte strings assume them shorter than 2^63, as every Go slice is.

## Model

| member | source | states |
|---|---|---|
| Handlers.FinalSendRules | x/undo/keeper/msg_server_delayed_send.go:30-61 | A send to a final-only recipient: refused by the first of the checks (sender, recipient, not to oneself, coin, no window, funds) that fails, accepted if none does; then the amount leaves the sender's slot and arrives in the recipient's, nothing else changes, and event and response say so |
| Handlers.ParkRules | x/undo/keeper/msg_server_delayed_send.go:30-117 | Any other send: the checks in order, with the window asked for, or the default for 0, between the dials and fewer than 20 entries open; then the amount moves from the sender's slot to holding, the entry under the next id has the message's fields and now plus that window as its time, the sender's sent count is one up, and event and response name the id |
| Handlers.CancelRules | x/undo/keeper/msg_server_cancel_send.go:24-59 | The undo: its checks in order; then the entry's coin is back in the sender's slot, the entry is gone, the sender's cancelled count is one up, and all else is as it was |
| Handlers.SwitchRules | x/undo/keeper/msg_server_set_final_only.go:19-30 | Accepted exactly if the address decodes; then that address's flag is the message's, its counts are kept, all else is as it was, and the event carries the flag |
| Handlers.DialRules | x/undo/keeper/msg_update_params.go:12-32 | Accepted exactly if the signer is the authority and the parameters are in order; then the state is as before with exactly those parameters |
| Handlers.PayoutRules | x/undo/keeper/abci.go:46-67 | A payout is made exactly if the recipient decodes, is not refused by the bank, and holding covers the amount; it credits the recipient's slot, removes the entry and emits its event, and otherwise nothing happens |
| Handlers.AcceptedExactly | x/undo/keeper/msg_server_delayed_send.go:30-90 | Deciding by a list of checks means: accepted if and only if all hold, and refused with the error of the first that does not |
| Handlers.FlagIsLastSwitch | x/undo/keeper/msg_server_set_final_only.go:21-30 | After any run the flag of an address is that of its last switch message, or as it was at the start if there was none |
| Handlers.DialsAreLastChange | x/undo/keeper/msg_update_params.go:12-32 | After any run the parameters are those of the last valid change signed by the authority, or as they were; nobody else's message moves them |
| Handlers.FreshDials | x/undo/types/params.go:9-34 | On a chain from the default genesis an undoable send is accepted with any window from 120 to 86400 seconds and with none, which gives 600 |
| Solvency.RunConserves | x/undo/keeper/msg_server_delayed_send.go:56-104 | No run, from any state whatever, makes or loses a coin of any denomination: balances plus holding never change in sum |
| Solvency.StepKeepsInv | x/undo/keeper/msg_server_delayed_send.go:78-107 | A step keeps the invariant (holding equals what is pending per denomination, keys are ids below the sequence, amounts positive, at most 20 open per sender, tallies under their own address, parameters in order) if and only if it is not the send that takes id 2^64-1 |
| Solvency.RunKeepsInv | x/undo/keeper/msg_server_delayed_send.go:86-104 | The invariant, and so solvency, holds after every run |
| Solvency.CancelAccepted | x/undo/keeper/msg_server_cancel_send.go:24-50 | Under the invariant a cancel succeeds exactly if the entry is there, the caller sent it and the bank pays the caller: never refused for lack of coins, whatever the time |
| Solvency.ExecuteKeepsInv | x/undo/keeper/abci.go:46-67 | A payout keeps the invariant and fails only if the recipient's address is bad or refused by the bank, never for lack of coins |
| Settlement.EndBlockSettles | x/undo/keeper/abci.go:19-44 | The collect-then-pay loop is one settlement: exactly the due entries with an accepted recipient go, every account slot is up by the sum of what lands in it, holding is down by the total per denomination, all else is untouched |
| Settlement.SettledUnique | x/undo/keeper/abci.go:35-67 | The settlement specification determines the state completely |
| Settlement.PayAllSettles | x/undo/keeper/abci.go:35-42 | Any list of distinct entries, paid one by one with failures skipped, settles exactly the accepted ones |
| Settlement.OrderIrrelevant | x/undo/keeper/abci.go:22-42 | The order of the payouts does not matter |
| Settlement.SkippedBlocks | x/undo/keeper/abci.go:19-44 | Ending blocks at t1 and then t2 >= t1 with nothing between is ending one at t2; in particular the end-blocker is idempotent |
| Fates.OneFate | x/undo/keeper/msg_server_cancel_send.go:30-50 | Over a run every id open before it is either still open with the entry unchanged or was closed exactly once, by a refund or a payment that names that entry's parties and coin; exactly the ids taken off the sequence are opened, each by one send, and the same holds of the entry of that send: what is open under the id or closed it has that send's sender, recipient, coin and time |
| Fates.OpenThroughout | x/undo/keeper/msg_server_set_final_only.go:19-25 | An entry open after a run was open and unchanged all along, across switch flips and parameter changes |
| Timing.NothingOverdue | x/undo/keeper/abci.go:20-43 | After the end of a block every remaining entry the bank would pay lies in the future |
| Timing.NeverEarly | x/undo/keeper/abci.go:25-30 | Every payment in the log of a run, of entries opened during it too, was made by a block end that emitted it, at or after the time of the entry open under that id at that moment, and names its parties and coin |
| Timing.PaidOnTime | x/undo/keeper/abci.go:19-67 | Unless cancelled, an entry the bank will pay is open after a chain of blocks exactly if every block was before its time, and it is gone exactly if the log holds its payment |
| Timing.CancelInTime | x/undo/keeper/msg_server_cancel_send.go:30-47 | A cancel after a chain of blocks and any messages of the next block succeeds only if none of the blocks of the chain had reached the time of the entry |
| Timing.ExecuteAtExact | x/undo/keeper/msg_server_delayed_send.go:95-101 | The stored time is now plus window exactly if that fits in int64; otherwise it lies in the past |
| Timing.WindowLasts | x/undo/keeper/msg_server_delayed_send.go:67-104 | An accepted undoable send survives the end of its own block exactly if now plus the window asked for, or the default for 0, fits in int64 |
| Timing.LongWindowWraps | x/undo/types/params.go:36-47 | Parameters that Validate accepts, a sound state and a send within them that is accepted, whose entry lies in the past and is paid at the end of its own block |
| Tallies.TallyAgrees | x/undo/keeper/helpers.go:36-57 | Over every run, for every address, sent minus cancelled minus open moves by exactly the payouts the log reports; neither count goes down; cancelled plus open never exceeds sent; all sent counts sum to the sequence |
| EventLog.LogIsComplete | x/undo/keeper/abci.go:60-65 | From any state, folding the events of any run, without running a handler, rebuilds balances, holding, pending table, sequence and tallies |
| EventLog.MessageReplays | x/undo/keeper/msg_server_delayed_send.go:59-115 | The events of an accepted message carry everything the message changed, except parameters |
| NoTrace.UndoLeavesNoTrace | x/undo/keeper/msg_server_cancel_send.go:30-50 | Take any send and its later cancel out of a run in which every step succeeds: the rest, with later ids one lower, still succeeds step by step and ends with the same balances, holding and parameters and the same table up to that renaming; only the sender's two counts and the sequence differ |
| NoTrace.BlockEndShadow | x/undo/keeper/abci.go:19-67 | The end of a block treats the run with an open send and the run without it alike, as long as it does not pay that send |
| NoTrace.MessageShadow | x/undo/keeper/msg_server_delayed_send.go:30-117 | A message that succeeds beside an open or undone send succeeds without it, with the same effect up to renaming |
| Admission.AdmittedWithinDials | x/undo/keeper/msg_server_delayed_send.go:47-104 | An accepted undoable send adds exactly one entry, with the sender's, recipient's and coin's own fields, the window asked for or the default, which lies between the current dials, a recipient that has not opted out, and a sender within the cap |
| Admission.ShopStaysClear | x/undo/keeper/msg_server_delayed_send.go:47-61 | Over any run in which a final-only address does not flip its switch nothing new becomes pending for it |
| Accounts.ShopStaysClearPerAccount | x/undo/keeper/msg_server_delayed_send.go:47-61 | If no account has two spellings, the same for the account of that address |
| Accounts.CapPerAccount | x/undo/keeper/msg_server_delayed_send.go:78-84 | If no account has two spellings, at most 20 entries are open per account |
| Accounts.TwoSpellingsPassCap | x/undo/keeper/helpers.go:48-57 | If one has, a full account opens one entry more under its other spelling |
| Accounts.SelfSendExactly | x/undo/keeper/msg_server_delayed_send.go:39-41 | In no state can an account send to itself if and only if no account has two spellings |
| Accounts.CapExactly | x/undo/keeper/msg_server_delayed_send.go:78-84 | At most 20 entries are open per account after every run from the default genesis, on any balances, if and only if no account has two spellings; otherwise twenty sends under one spelling and one under the other pass the cap |
| Accounts.ShopExactly | x/undo/keeper/msg_server_delayed_send.go:47-61 | In no state reached from the default genesis does a send open an entry for the account of a final-only address if and only if no account has two spellings |
| Admission.DefaultWindowAdmitted | x/undo/keeper/msg_server_delayed_send.go:63-76 | With parameters in order, window 0 is never refused for its length |
| Keepers.Keeper.DelayedSend | x/undo/keeper/msg_server_delayed_send.go:30-117 | The handler, checks in order and writes in place, has the ledger's outcome: same answer, same new state, same event, and no write at all when refused |
| Keepers.Keeper.CancelSend | x/undo/keeper/msg_server_cancel_send.go:24-59 | Likewise for the undo |
| Keepers.Keeper.SetFinalOnly | x/undo/keeper/msg_server_set_final_only.go:21-30 | Likewise for the shop switch |
| Keepers.Keeper.UpdateParams | x/undo/keeper/msg_update_params.go:12-32 | Likewise for the guarded parameter change |
| Keepers.Keeper.CountOpen | x/undo/keeper/helpers.go:48-57 | The walk counts exactly the ids the sender has open |
| Keepers.Keeper.CollectDue | x/undo/keeper/abci.go:22-33 | The walk collects the due entries in ascending order of id and changes nothing |
| Keepers.Keeper.Execute | x/undo/keeper/abci.go:46-67 | One payout: coins moved, entry removed and event emitted together, or nothing |
| Keepers.Keeper.EndBlocker | x/undo/keeper/abci.go:19-44 | The loop over the due entries ends in the settled state, keeps the invariant, and emits one event per payout |
| Keepers.Keeper.InitGenesis | x/undo/keeper/genesis.go:10-27 | The loops write both lists, the sequence and the parameters into the store |
| Keepers.Keeper.ExportGenesis | x/undo/keeper/genesis.go:30-58 | The walks list both tables in key order |
| Keepers.Validate | x/undo/types/genesis.go:14-37 | Accepts exactly the genesis states with distinct ids below the count, distinct indexes and ordered parameters |
| Genesis.ExportImport | x/undo/keeper/genesis.go:10-58 | A sound state exports a valid genesis, and importing that into an empty store gives the state back |
| Genesis.ReachableRestored | x/undo/keeper/genesis.go:30-58 | The same for the state after any run from the default genesis |
| Genesis.ImportExport | x/undo/keeper/genesis.go:10-58 | Importing a valid genesis and exporting it gives the same genesis with its lists permuted into key order |
| Genesis.ImportSound | x/undo/types/genesis.go:12-37 | An imported valid genesis satisfies the invariant exactly if its amounts are positive, the holding pot equals the sum of its list in every denomination, and no sender occurs in it more than 20 times |
| Genesis.ImportTallied | x/undo/types/genesis.go:12-37 | Its tallies agree with its entries exactly if every sender has a tally, each tally has sent at least what it cancelled plus what it has in the list, and the sent counts add up to the pending count |
| Genesis.DefaultSound | x/undo/types/genesis.go:6-10 | The default genesis is valid and starts runs in a sound state with agreeing tallies |
| Backing.UnbackedGenesisIsStuck | x/undo/types/genesis.go:14-25 | A valid genesis with an unbacked entry, on any balances: the end of block leaves everything as it is, and after every run in which nobody sends that denomination undoably the entry is still open and nobody can cancel it |
| Backing.RunStuck | x/undo/keeper/abci.go:35-59 | From any state, an entry that holding does not cover stays open and uncovered over every such run |
| Backing.RefundTakesAnothers | x/undo/keeper/msg_server_cancel_send.go:41-50 | Once somebody parks coins of that denomination, its cancel is accepted exactly if holding then has enough, and after it the other sender's own cancel is refused for lack of coins |
| Backing.AllPaid | x/undo/keeper/abci.go:35-59 | When no recipient is refused, paying all entries in any order leaves none open exactly if holding covers their sum in every denomination |
| Backing.GenesisPaysAll | x/undo/keeper/genesis.go:10-27 | The same condition on the holding pot and the list of an imported genesis |
| Backing.UntalliedGenesis | x/undo/types/genesis.go:12-37 | A valid, backed genesis without tallies: the invariant holds, the sender's cancel is accepted, and leaves one cancelled with none sent |
| Varints.VarintOfWord | x/undo/types/record.pb.go:175-185 | Every 64-bit word has a varint of at most ten bytes with the top bit on all but the last, and it stands for the word |
| Varints.SovIsLength | x/undo/types/record.pb.go:208-210 | The size formula over the highest set bit is the exact length of the varint |
| Varints.ReadsExactly | x/undo/types/record.pb.go:220-233 | Reading succeeds and ends at a position exactly if a well-formed varint stands there, with its value modulo 2^64 |
| Varints.ReadTurn | x/undo/types/record.pb.go:227-232 | One turn of the accumulating loop gives the value so far modulo 2^64, bits beyond the word dropped |
| Varints.BitsAreSums | x/undo/types/record.pb.go:175-232 | The masks, shifts and bitwise or of the writing and reading loops are the remainders, quotients and sums of the model; the or with a shifted group of bits is the sum for every accumulator below the shift, bits lost beyond the word included |
| Skips.SkipExact | x/undo/types/record.pb.go:354-431 | The depth-counter loop answers n within the input exactly if the first n bytes are one well-formed field of the recursive grammar, groups nested to any depth |
| Skips.SkipField | x/undo/types/record.pb.go:358-429 | From the start of a well-formed field, at any depth, the loop reaches its end at the same depth |
| Skips.SkipReads | x/undo/types/record.pb.go:411-428 | Whatever the loop consumes from depth d is the rest of d groups |
| Wire.ItemReadsBack | x/undo/types/record.pb.go:218-346 | A written field is read back as itself, with its exact length |
| Wire.FoldConcat | x/undo/types/genesis.pb.go:235-404 | Decoding two byte strings one after the other continues with the second from the message the first one left |
| Acceptance.FoldExact | x/undo/types/record.pb.go:214-353 | Decoding succeeds with a message exactly if the input is a concatenation of well-formed fields, each unknown to the message or of the wire type it wants, varints of any length, and applying them in order succeeds with that message |
| Acceptance.FieldIs | x/undo/types/record.pb.go:235-346 | Whatever one turn of the decoding loop takes off the input is the bytes of one such field |
| Acceptance.ReadsField | x/undo/types/record.pb.go:235-346 | Wherever such a field stands, one turn takes exactly it, as the item it stands for |
| Wire.FoldItems | x/undo/types/record.pb.go:214-353 | Decoding what the writers write for any fitting fields, in any order and number, applies exactly those fields |
| Wire.UnknownIgnored | x/undo/types/record.pb.go:333-346 | Unknown fields anywhere between the fields of an encoding do not change the decoded message |
| Messages.RecordRoundTrip | x/undo/types/record.pb.go:140-353 | Unmarshalling a marshalled tally into an empty one gives it back |
| Messages.RecordConcat | x/undo/types/record.pb.go:214-353 | Concatenated encodings merge, last one wins for every field that is set |
| Messages.RecordIgnoresUnknown | x/undo/types/record.pb.go:333-346 | A tally decodes the same with well-formed unknown fields inserted anywhere |
| Messages.RecordSize | x/undo/types/record.pb.go:186-206 | Size is the exact length of the encoding |
| Messages.ParamsMerge | x/undo/types/params.pb.go:214-320 | Decoding parameters into existing ones overrides the nonzero fields; into empty ones it is the round trip |
| NestedMessages.PendingRoundTrip | x/undo/types/pending.pb.go:146-414 | The round trip of an entry, negative times included, for any coin codec that round-trips |
| NestedMessages.GenesisRoundTrip | x/undo/types/genesis.pb.go:141-404 | The round trip of the genesis state, list order kept |
| NestedMessages.GenesisConcat | x/undo/types/genesis.pb.go:263-383 | Concatenated genesis states merge: parameters field by field, lists appended in order, count overridden if set |
| NestedMessages.GenesisSize | x/undo/types/genesis.pb.go:203-227 | Size, with its sums over both lists, is the exact length of the encoding |
| NestedMessages.UpdateParamsRoundTrip | x/undo/types/tx.pb.go:705-1206 | The round trip of the nested parameter message |
| NestedMessages.UpdateParamsMerge | x/undo/types/tx.pb.go:1092-1206 | Decoding it into an existing message overrides the authority and merges the parameters |
| NestedMessages.UpdateParamsSize | x/undo/types/tx.pb.go:975-989 | Size is the exact length of its encoding |
| NestedMessages.DelayedSendRoundTrip | x/undo/types/tx.pb.go:768-803 | The round trip of the send message, for any coin codec that round-trips |
| NestedMessages.DelayedSendSize | x/undo/types/tx.pb.go:999-1020 | Size is the exact length of its encoding |
| NestedMessages.CancelSendRoundTrip | x/undo/types/tx.pb.go:858-876 | The round trip of the cancel message |
| NestedMessages.SetFinalOnlyRoundTrip | x/undo/types/tx.pb.go:916-939 | The round trip of the switch message |
| Layouts.RecordBytes | x/undo/types/record.pb.go:140-173 | The bytes of a tally, with the tags of the source |
| Layouts.ParamsBytes | x/undo/types/params.pb.go:156-177 | Likewise for the parameters |
| Layouts.PendingBytes | x/undo/types/pending.pb.go:146-186 | Likewise for an entry, a negative time as its 64-bit complement |
| Layouts.GenesisBytes | x/undo/types/genesis.pb.go:141-190 | Likewise for the genesis state, lists in order |
| Layouts.UpdateParamsBytes | x/undo/types/tx.pb.go:705-728 | Likewise for the parameter message |
| Layouts.DelayedSendBytes | x/undo/types/tx.pb.go:768-803 | Likewise for the send message |
| Layouts.CancelSendBytes | x/undo/types/tx.pb.go:858-876 | Likewise for the cancel message |
| Layouts.SetFinalOnlyBytes | x/undo/types/tx.pb.go:916-939 | Likewise for the switch message |
| Layouts.RecordFields | x/undo/types/record.pb.go:243-332 | One field on the wire sets exactly its member, explicit zeros included; any nonzero number is true |
| Layouts.ParamsFields | x/undo/types/params.pb.go:243-300 | Likewise for the parameters |
| Layouts.PendingFieldsRead | x/undo/types/pending.pb.go:259-394 | Likewise for an entry |
| Layouts.GenesisFields | x/undo/types/genesis.pb.go:264-383 | Likewise for the genesis state: parameters go into those already there, list elements start empty and are appended, and errors inside them are passed on |
| Layouts.UpdateParamsFields | x/undo/types/tx.pb.go:1121-1186 | Likewise for the parameter message |
| Layouts.DelayedSendFieldsRead | x/undo/types/tx.pb.go:1286-1402 | Likewise for the send message |
| Layouts.CancelSendFields | x/undo/types/tx.pb.go:1541-1592 | Likewise for the cancel message |
| Layouts.SetFinalOnlyFields | x/undo/types/tx.pb.go:1692-1744 | Likewise for the switch message; any nonzero number is true |
| Wire.FieldNumIs | x/undo/types/record.pb.go:235-236 | The field number is the tag shifted right by three, reduced to a signed 32-bit word |
| Writer.EncodeVarint | x/undo/types/record.pb.go:175-185 | Fills exactly the bytes before the offset with the varint and touches no other |
| Writer.MarshalRecordTo | x/undo/types/record.pb.go:140-173 | The backward writer leaves the forward encoding before the given end, of the predicted size, and every other byte as it was |
| Writer.MarshalParamsTo | x/undo/types/params.pb.go:156-177 | Likewise for the parameters |
| Writer.MarshalPendingTo | x/undo/types/pending.pb.go:146-186 | Likewise for an entry |
| Writer.MarshalUpdateParamsTo | x/undo/types/tx.pb.go:705-728 | Likewise with the nested message written in place |
| Writer.MarshalDelayedSendTo | x/undo/types/tx.pb.go:768-803 | Likewise for the send message |
| Writer.MarshalCancelSendTo | x/undo/types/tx.pb.go:858-876 | Likewise for the cancel message |
| Writer.MarshalSetFinalOnlyTo | x/undo/types/tx.pb.go:916-939 | Likewise for the switch message |
| Writer.MarshalGenesisTo | x/undo/types/genesis.pb.go:141-190 | Likewise for the genesis state, both lists written last element first |
| Writer.MarshalRecordBytes | x/undo/types/record.pb.go:125-133 | The bytes returned are the whole encoding |
| Writer.MarshalGenesisBytes | x/undo/types/genesis.pb.go:126-134 | The bytes returned are the whole encoding |
| Reader.DecodeVarint | x/undo/types/record.pb.go:220-233 | The shift loop reads exactly the specified varint, with the same errors |
| Reader.DecodeChunk | x/undo/types/record.pb.go:247-274 | The negative checks catch every 64-bit wrap of length and cursor: the result is that of exact arithmetic |
| Reader.PassToken | x/undo/types/record.pb.go:359-425 | The same for one turn of the skipping loop |
| Reader.SkipField | x/undo/types/record.pb.go:354-431 | The skipping loop ends on every input, stays inside it, and gives the specified answer |
| Reader.DecodeRecord | x/undo/types/record.pb.go:214-353 | The cursor loop is total on every byte string and gives exactly the specified decoding or its error |
| Reader.DecodeParams | x/undo/types/params.pb.go:214-320 | Likewise |
| Reader.DecodePending | x/undo/types/pending.pb.go:230-414 | Likewise |
| Reader.DecodeGenesis | x/undo/types/genesis.pb.go:235-404 | Likewise, with the nested messages decoded into the parameters or into fresh list elements |
| Reader.DecodeUpdateParams | x/undo/types/tx.pb.go:1092-1206 | Likewise |
| Reader.DecodeDelayedSend | x/undo/types/tx.pb.go:1257-1422 | Likewise |
| Reader.DecodeCancelSend | x/undo/types/tx.pb.go:1512-1612 | Likewise |
| Reader.DecodeSetFinalOnly | x/undo/types/tx.pb.go:1663-1764 | Likewise |
| WalletCodec.EncodeTable | wallet/src/chain.js:43-52 | The forward loop over a field table writes the concatenation of its rows' fields, zero values left out |
| WalletCodec.CancelSendAgrees | wallet/src/chain.js:116-118 | The wallet's cancel is byte for byte the chain's exactly if the id is held exactly by a double; below 2^53 it always is |
| WalletCodec.ToNumberExact | wallet/src/chain.js:48 | The conversion to a number keeps a value exactly if it is a multiple of the spacing of doubles around it |
| WalletCodec.ToNumberNearest | wallet/src/chain.js:48 | The result is a double, no double is nearer to the value, and of two equally near the one with the even quotient is taken |
| WalletCodec.ExactIsDouble | wallet/src/chain.js:48 | The values held exactly are the products of a 53-bit number and a power of two |
| WalletCodec.SetFinalOnlyAgrees | wallet/src/chain.js:119-121 | The wallet's switch message is byte for byte the chain's, and the chain reads it back |
| WalletCodec.EncodeDelayedSend | wallet/src/chain.js:77-87 | The hand-written encoder with its nested coin writes its fields in order with the window rounded to a double, which is what the chain's marshaller writes exactly if the window is held exactly, for a coin codec that writes coins the wallet's way |
| WalletCodec.WalletDelayedSendReads | wallet/src/chain.js:77-87 | What the chain reads from it is the send with its window rounded to a double |
| Wallet.ParseOfFmt | wallet/src/chain.js:355-366 | Every amount, printed and read without its commas, is the same amount |
| Wallet.ParseOfGroupedFmt | wallet/src/chain.js:355-366 | With its commas it is read back exactly below 1,000 TFL, and refused from there on |
| Wallet.ParseExactly | wallet/src/chain.js:362-366 | A text is read as an amount exactly if it is spaces, at least one digit, then nothing or a point and one to six digits, then spaces; and the amount is the whole part in millions plus the fraction scaled to millionths |
| Wallet.FmtOfText | wallet/src/chain.js:355-366 | Printing what was read from such a text gives its whole part without leading zeros, grouped, and its fraction without trailing zeros |
| Wallet.NothingShorter | wallet/src/chain.js:355-366 | No text accepted for an amount is shorter than the printed amount without its commas |
| Wallet.GroupedShape | wallet/src/chain.js:355-359 | Counted from the right, exactly every fourth character of a grouped number is a comma, and it never starts with one |

## Left out

- Store failures, gas, logging, error texts, getters, queries, wiring, simulations, the command line and the wallet's screens and keys.
- A transaction of several messages: messages stand alone here, so the rollback of earlier messages by a later failing one is not modelled.
- The bank beyond transfers: vesting, send restrictions, module accounts other than holding, and the panic on sums beyond 256 bits. Payouts from holding respect the refused set; direct sends do not consult it, as in the bank keeper.
- Payments straight into the holding pot: the application does not block the module's account (app/app_config.go:90-100), so a plain bank transfer can add to it. With such payments holding is at least, no longer exactly, what is pending; here only parking adds to the pot.
- Stored coins are natural numbers; a genesis file with a negative amount, on which building the coin panics, is not modelled. Messages may carry any integer.
- The coin codec belongs to the SDK: it is a parameter with a round trip. Merging of two coins within one entry is not modelled, because no list element is decoded twice.
- The partially filled message that an unmarshaller leaves behind when it returns an error: the methods of Reader return the error alone.
- The response messages: the same pattern with fewer fields.
- The wallet's decoders: they read with a library's reader that is not part of this model.
- The wallet's writer is a library as well; its uint32, uint64, string and bool are taken as appending the varint, the length and bytes, or one byte.
- Negative amounts in fmt: BigInt truncates toward zero there, and the wallet never prints one.
- EventLog.LogIsComplete: the log cannot rebuild the parameters, because UpdateParams emits no event.
- Keepers.Keeper.DelayedSend: its two branches and the final write are methods of their own here; in the source they are one body.
