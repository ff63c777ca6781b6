/** The escrow ledger as a state machine: what each message and each end of block does to the bank
    balances, the holding pot, the pending table, the sequence, the tallies and the parameters.
    The methods of Keeper are proved against the functions of this module. */
module Ledger {
  import opened Words
  import opened Sums
  import opened Types
  import opened Walks

  type Account = seq<byte>

  /** One denomination held by one account. */
  datatype Slot = Slot(account: Account, denom: Str)

  /** What the ledger takes from its surroundings: the address codec, the accounts the bank will not
      pay out to, the governance account, and which denominations are well formed. */
  datatype Env = Env(decode: Str -> Option<Account>, refuses: set<Account>, authority: Account, validDenom: Str -> bool)

  datatype State = State(
    balances: Purse<Slot>,
    holding: Purse<Str>,
    pending: map<U64, Pending>,
    nextId: U64,
    records: map<Str, Record>,
    params: Params)

  datatype Msg =
    | DelayedSend(creator: Str, recipient: Str, denom: Str, amount: int, window: U64)
    | CancelSend(creator: Str, id: U64)
    | SetFinalOnly(creator: Str, finalOnly: bool)
    | UpdateParams(authority: Str, params: Params)

  datatype Event =
    | SendDelayed(id: U64, sender: Str, recipient: Str, coin: Coin, executeAt: I64)
    | FinalSend(sender: Str, recipient: Str, coin: Coin)
    | SendCancelled(id: U64, sender: Str, recipient: Str, coin: Coin)
    | SendFinal(id: U64, sender: Str, recipient: Str, coin: Coin)
    | FinalOnlySet(address: Str, finalOnly: bool)

  datatype Error =
    | InvalidSender
    | InvalidRecipient
    | SendToSelf
    | InvalidAmount
    | FinalOnlyRecipient
    | WindowTooShort
    | WindowTooLong
    | TooManyPending
    | InsufficientFunds
    | NoSuchPending
    | NotSender
    | PayoutRefused
    | InvalidSigner
    | InvalidParams

  /** The answer to a message; only DelayedSend has anything to say. */
  datatype Response = Empty | SendResponse(id: U64, final: bool)

  datatype Outcome =
    | Accepted(state: State, response: Response, events: seq<Event>)
    | Refused(error: Error)

  // ---- Tallies ----

  function GetRecord(records: map<Str, Record>, address: Str): Record {
    if address in records then records[address] else Record(address, 0, 0, false)
  }

  function BumpSent(r: Record): Record {
    r.(sent := WrapU64(r.sent + 1))
  }

  function BumpCancelled(r: Record): Record {
    r.(cancelled := WrapU64(r.cancelled + 1))
  }

  /** The ids an address currently has in flight. */
  function OpenIds(pending: map<U64, Pending>, sender: Str): set<U64> {
    set id | id in pending && pending[id].sender == sender
  }

  // ---- Bank ----

  /** Whether the module account may pay this coin to the address, leaving aside what it holds. */
  predicate CanReceive(env: Env, address: Str) {
    env.decode(address).Some? && env.decode(address).value !in env.refuses
  }

  function SlotOf(env: Env, address: Str, denom: Str): Slot
    requires env.decode(address).Some?
  {
    Slot(env.decode(address).value, denom)
  }

  /** Moves a coin out of the holding pot to an address. */
  function PayOut(env: Env, st: State, address: Str, coin: Coin): State
    requires CanReceive(env, address) && coin.amount <= Get(st.holding, coin.denom)
  {
    st.(holding := Sub(st.holding, coin.denom, coin.amount),
        balances := Add(st.balances, SlotOf(env, address, coin.denom), coin.amount))
  }

  // ---- Messages ----

  function ExecuteAt(now: I64, window: U64): I64 {
    WrapI64(now + ToI64(window))
  }

  /** The window a send gets: what it asks for, or the default if it asks for 0. */
  function Window(st: State, asked: U64): U64 {
    if asked == 0 then st.params.defaultWindow else asked
  }

  function Deliver(env: Env, st: State, now: I64, msg: Msg): Outcome {
    match msg
    case DelayedSend(creator, recipient, denom, amount, window) =>
      if env.decode(creator).None? then Refused(InvalidSender)
      else if env.decode(recipient).None? then Refused(InvalidRecipient)
      else if creator == recipient then Refused(SendToSelf)
      else if !env.validDenom(denom) || amount <= 0 then Refused(InvalidAmount)
      else if GetRecord(st.records, recipient).finalOnly then
        SendNow(env, st, creator, recipient, Coin(denom, amount), window)
      else
        Park(env, st, now, creator, recipient, Coin(denom, amount), Window(st, window))
    case CancelSend(creator, id) =>
      if env.decode(creator).None? then Refused(InvalidSender)
      else if id !in st.pending then Refused(NoSuchPending)
      else if st.pending[id].sender != creator then Refused(NotSender)
      else Cancel(env, st, st.pending[id], id)
    case SetFinalOnly(creator, finalOnly) =>
      if env.decode(creator).None? then Refused(InvalidSender)
      else
        var r := GetRecord(st.records, creator).(finalOnly := finalOnly);
        Accepted(st.(records := st.records[creator := r]), Empty, [FinalOnlySet(creator, finalOnly)])
    case UpdateParams(authority, params) =>
      if env.decode(authority).None? then Refused(InvalidSender)
      else if env.decode(authority).value != env.authority then Refused(InvalidSigner)
      else if !params.Valid() then Refused(InvalidParams)
      else Accepted(st.(params := params), Empty, [])
  }

  /** A send to a final-only recipient: paid at once, or refused if it asks for a window. */
  function SendNow(env: Env, st: State, sender: Str, recipient: Str, coin: Coin, window: U64): Outcome
    requires env.decode(sender).Some? && env.decode(recipient).Some?
  {
    var source := SlotOf(env, sender, coin.denom);
    if window != 0 then Refused(FinalOnlyRecipient)
    else if Get(st.balances, source) < coin.amount then Refused(InsufficientFunds)
    else
      var debited := Sub(st.balances, source, coin.amount);
      var credited := Add(debited, SlotOf(env, recipient, coin.denom), coin.amount);
      Accepted(st.(balances := credited), SendResponse(0, true), [FinalSend(sender, recipient, coin)])
  }

  /** An undoable send: the coins go into holding and a pending entry is written. */
  function Park(env: Env, st: State, now: I64, sender: Str, recipient: Str, coin: Coin, window: U64): Outcome
    requires env.decode(sender).Some?
  {
    var source := SlotOf(env, sender, coin.denom);
    if window < st.params.minWindow then Refused(WindowTooShort)
    else if window > st.params.maxWindow then Refused(WindowTooLong)
    else if |OpenIds(st.pending, sender)| >= MAX_OPEN_PER_SENDER then Refused(TooManyPending)
    else if Get(st.balances, source) < coin.amount then Refused(InsufficientFunds)
    else
      var p := Pending(st.nextId, sender, recipient, coin, ExecuteAt(now, window));
      Accepted(
        st.(balances := Sub(st.balances, source, coin.amount),
            holding := Add(st.holding, coin.denom, coin.amount),
            nextId := WrapU64(st.nextId + 1),
            pending := st.pending[st.nextId := p],
            records := st.records[sender := BumpSent(GetRecord(st.records, sender))]),
        SendResponse(st.nextId, false),
        [SendDelayed(p.id, sender, recipient, coin, p.executeAt)])
  }

  /** The undo: the coins go back from holding to the sender. */
  function Cancel(env: Env, st: State, p: Pending, id: U64): Outcome
    requires env.decode(p.sender).Some?
  {
    if !CanReceive(env, p.sender) then Refused(PayoutRefused)
    else if Get(st.holding, p.amount.denom) < p.amount.amount then Refused(InsufficientFunds)
    else
      Accepted(
        PayOut(env, st, p.sender, p.amount)
          .(pending := st.pending - {id},
            records := st.records[p.sender := BumpCancelled(GetRecord(st.records, p.sender))]),
        Empty,
        [SendCancelled(id, p.sender, p.recipient, p.amount)])
  }

  // ---- End of block ----

  predicate Payable(env: Env, st: State, p: Pending) {
    CanReceive(env, p.recipient) && p.amount.amount <= Get(st.holding, p.amount.denom)
  }

  /** One payout; a payout that cannot be made changes nothing. */
  function Execute(env: Env, st: State, p: Pending): State {
    if Payable(env, st, p) then PayOut(env, st, p.recipient, p.amount).(pending := st.pending - {p.id}) else st
  }

  function ExecuteEvents(env: Env, st: State, p: Pending): seq<Event> {
    if Payable(env, st, p) then [SendFinal(p.id, p.sender, p.recipient, p.amount)] else []
  }

  /** The payouts of a list of entries, one after the other. */
  function PayAll(env: Env, st: State, order: seq<Pending>): State
    decreases |order|
  {
    if order == [] then st else PayAll(env, Execute(env, st, order[0]), order[1..])
  }

  function PayAllEvents(env: Env, st: State, order: seq<Pending>): seq<Event>
    decreases |order|
  {
    if order == [] then []
    else ExecuteEvents(env, st, order[0]) + PayAllEvents(env, Execute(env, st, order[0]), order[1..])
  }

  /** The entries of a table under the given keys, in that order. */
  function Entries<K(==), V>(table: map<K, V>, keys: seq<K>): (s: seq<V>)
    requires forall k :: k in keys ==> k in table
    ensures |s| == |keys| && forall i :: 0 <= i < |s| ==> s[i] == table[keys[i]]
  {
    seq(|keys|, i requires 0 <= i < |keys| => table[keys[i]])
  }

  function DueIds(pending: map<U64, Pending>, now: I64): set<U64> {
    set id | id in pending && now >= pending[id].executeAt
  }

  /** The due entries in the order the walk over the table meets them. */
  function Due(pending: map<U64, Pending>, now: I64): seq<Pending> {
    Entries(pending, Ascending(DueIds(pending, now), NatLess))
  }

  function EndBlock(env: Env, st: State, now: I64): State {
    PayAll(env, st, Due(st.pending, now))
  }

  // ---- Runs ----

  datatype Step = Message(now: I64, msg: Msg) | BlockEnd(now: I64)

  function Next(env: Env, st: State, step: Step): State {
    match step
    case Message(now, msg) =>
      var o := Deliver(env, st, now, msg);
      if o.Accepted? then o.state else st
    case BlockEnd(now) => EndBlock(env, st, now)
  }

  function Emitted(env: Env, st: State, step: Step): seq<Event> {
    match step
    case Message(now, msg) =>
      var o := Deliver(env, st, now, msg);
      if o.Accepted? then o.events else []
    case BlockEnd(now) => PayAllEvents(env, st, Due(st.pending, now))
  }

  predicate Succeeds(env: Env, st: State, step: Step) {
    step.Message? ==> Deliver(env, st, step.now, step.msg).Accepted?
  }

  /** The state after a run of steps. A refused message leaves the state as it was. */
  function Run(env: Env, st: State, steps: seq<Step>): State
    decreases |steps|
  {
    if steps == [] then st else Run(env, Next(env, st, steps[0]), steps[1..])
  }

  /** Everything emitted during a run. */
  function Log(env: Env, st: State, steps: seq<Step>): seq<Event>
    decreases |steps|
  {
    if steps == [] then []
    else Emitted(env, st, steps[0]) + Log(env, Next(env, st, steps[0]), steps[1..])
  }

  predicate AllSucceed(env: Env, st: State, steps: seq<Step>)
    decreases |steps|
  {
    steps == [] || (Succeeds(env, st, steps[0]) && AllSucceed(env, Next(env, st, steps[0]), steps[1..]))
  }

  lemma {:induction false} RunAppend(env: Env, st: State, a: seq<Step>, b: seq<Step>)
    ensures Run(env, st, a + b) == Run(env, Run(env, st, a), b)
    ensures Log(env, st, a + b) == Log(env, st, a) + Log(env, Run(env, st, a), b)
    ensures AllSucceed(env, st, a + b) <==> AllSucceed(env, st, a) && AllSucceed(env, Run(env, st, a), b)
    decreases |a|
  {
    hide Next, Emitted, Succeeds;
    if a == [] {
      assert a + b == b;
    } else {
      assert (a + b)[0] == a[0] && (a + b)[1..] == a[1..] + b;
      RunAppend(env, Next(env, st, a[0]), a[1..], b);
    }
  }
}
