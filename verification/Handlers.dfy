/** What every message and every payout does, written out over accounts, amounts and entries: which check
    refuses it, and what each part of the state is afterwards. */
module Handlers {
  import opened Words
  import opened Sums
  import opened Types
  import opened Ledger
  import opened Solvency
  import opened Genesis

  // ---- Checks ----

  datatype Check = Check(holds: bool, otherwise: Error)

  /** What the checks from the i-th on refuse with: the first of them that fails decides. */
  function Refusal(checks: seq<Check>, i: nat): Option<Error>
    requires i <= |checks|
    decreases |checks| - i
  {
    if i == |checks| then None else if !checks[i].holds then Some(checks[i].otherwise) else Refusal(checks, i + 1)
  }

  /** The checks are made in order: the first that fails refuses the message, and if none does it is accepted. */
  predicate Decides(checks: seq<Check>, o: Outcome) {
    match Refusal(checks, 0)
    case None => o.Accepted?
    case Some(e) => o == Refused(e)
  }

  lemma InOrderOfChecks(checks: seq<Check>)
    ensures Refusal(checks, |checks|) == None
    ensures forall i {:trigger Refusal(checks, i)} :: 0 <= i < |checks| ==>
      Refusal(checks, i) == if checks[i].holds then Refusal(checks, i + 1) else Some(checks[i].otherwise)
  {
  }

  ghost predicate FirstFailing(checks: seq<Check>, i: nat, k: nat) {
    i <= k < |checks| && !checks[k].holds && forall j :: i <= j < k ==> checks[j].holds
  }

  lemma {:induction false} FirstFails(checks: seq<Check>, i: nat)
    requires i <= |checks|
    ensures Refusal(checks, i) == None <==> forall j :: i <= j < |checks| ==> checks[j].holds
    ensures Refusal(checks, i).Some? ==>
      exists k: nat :: FirstFailing(checks, i, k) && Refusal(checks, i) == Some(checks[k].otherwise)
    decreases |checks| - i
  {
    if i < |checks| {
      if checks[i].holds {
        FirstFails(checks, i + 1);
        if Refusal(checks, i).Some? {
          var k: nat :| FirstFailing(checks, i + 1, k) && Refusal(checks, i + 1) == Some(checks[k].otherwise);
          assert FirstFailing(checks, i, k);
        }
      } else {
        assert FirstFailing(checks, i, i);
      }
    }
  }

  /** So a message is accepted exactly if every check holds, and refused for the first that does not. */
  lemma AcceptedExactly(checks: seq<Check>, o: Outcome)
    requires Decides(checks, o)
    ensures o.Accepted? <==> forall j :: 0 <= j < |checks| ==> checks[j].holds
    ensures o.Refused? ==> exists k: nat :: FirstFailing(checks, 0, k) && o.error == checks[k].otherwise
  {
    FirstFails(checks, 0);
  }

  predicate IsAddress(env: Env, a: Str) {
    env.decode(a).Some?
  }

  /** The slot of an address in one denomination; of no use for a string that is no address. */
  function OwnSlot(env: Env, a: Str, denom: Str): Slot {
    match env.decode(a)
    case Some(account) => Slot(account, denom)
    case None => Slot([], denom)
  }

  function Flag(st: State, a: Str): bool {
    a in st.records && st.records[a].finalOnly
  }

  function SentCount(st: State, a: Str): nat {
    if a in st.records then st.records[a].sent else 0
  }

  function CancelledCount(st: State, a: Str): nat {
    if a in st.records then st.records[a].cancelled else 0
  }

  // ---- What moves ----

  /** n coins left one slot and arrived in another. */
  ghost predicate Moved(before: Purse<Slot>, after: Purse<Slot>, from: Slot, to: Slot, n: nat) {
    forall s :: Get(after, s) + (if s == from then n else 0) == Get(before, s) + (if s == to then n else 0)
  }

  /** One amount went up by n, all others stayed. */
  ghost predicate Grew<K(!new)>(before: Purse<K>, after: Purse<K>, k: K, n: nat) {
    forall j :: Get(after, j) == Get(before, j) + if j == k then n else 0
  }

  /** Only one address's tally changed: to these counts and this flag. */
  ghost predicate TallyBecame(st: State, st': State, a: Str, sent: nat, cancelled: nat, flag: bool) {
    && SentCount(st', a) == sent % TWO_64 && CancelledCount(st', a) == cancelled % TWO_64 && Flag(st', a) == flag
    && a in st'.records && st'.records[a].index == (if a in st.records then st.records[a].index else a)
    && forall b :: b != a ==> (b in st'.records <==> b in st.records) && (b in st.records ==> st'.records[b] == st.records[b])
  }

  // ---- Sends ----

  function FinalSendChecks(env: Env, st: State, creator: Str, recipient: Str, denom: Str, amount: int, window: U64): seq<Check> {
    [Check(IsAddress(env, creator), InvalidSender),
     Check(IsAddress(env, recipient), InvalidRecipient),
     Check(creator != recipient, SendToSelf),
     Check(env.validDenom(denom) && amount > 0, InvalidAmount),
     Check(window == 0, FinalOnlyRecipient),
     Check(amount <= Get(st.balances, OwnSlot(env, creator, denom)), InsufficientFunds)]
  }

  function OpenBy(st: State, a: Str): set<U64> {
    set id | id in st.pending && st.pending[id].sender == a
  }

  /** The window asked for is the window given; 0 asks for the default. */
  function ParkChecks(env: Env, st: State, creator: Str, recipient: Str, denom: Str, amount: int, window: U64): seq<Check> {
    var w := if window == 0 then st.params.defaultWindow else window;
    [Check(IsAddress(env, creator), InvalidSender),
     Check(IsAddress(env, recipient), InvalidRecipient),
     Check(creator != recipient, SendToSelf),
     Check(env.validDenom(denom) && amount > 0, InvalidAmount),
     Check(st.params.minWindow <= w, WindowTooShort),
     Check(w <= st.params.maxWindow, WindowTooLong),
     Check(|OpenBy(st, creator)| < 20, TooManyPending),
     Check(amount <= Get(st.balances, OwnSlot(env, creator, denom)), InsufficientFunds)]
  }

  function CancelChecks(env: Env, st: State, creator: Str, id: U64): seq<Check> {
    var mine := id in st.pending && st.pending[id].sender == creator;
    [Check(IsAddress(env, creator), InvalidSender),
     Check(id in st.pending, NoSuchPending),
     Check(mine, NotSender),
     Check(OwnSlot(env, creator, []).account !in env.refuses, PayoutRefused),
     Check(mine ==> st.pending[id].amount.amount <= Get(st.holding, st.pending[id].amount.denom), InsufficientFunds)]
  }

  function DialChecks(env: Env, authority: Str, params: Params): seq<Check> {
    [Check(IsAddress(env, authority), InvalidSender),
     Check(env.decode(authority) == Some(env.authority), InvalidSigner),
     Check(InOrder(params), InvalidParams)]
  }

  /** A send to a final-only recipient. */
  lemma FinalSendRules(env: Env, st: State, now: I64, creator: Str, recipient: Str, denom: Str, amount: int, window: U64)
    requires Flag(st, recipient)
    ensures var o := Deliver(env, st, now, DelayedSend(creator, recipient, denom, amount, window));
      var mine, theirs := OwnSlot(env, creator, denom), OwnSlot(env, recipient, denom);
      && Decides(FinalSendChecks(env, st, creator, recipient, denom, amount, window), o)
      && (o.Accepted? ==>
            && Moved(st.balances, o.state.balances, mine, theirs, amount)
            && o.state == st.(balances := o.state.balances)
            && o.events == [FinalSend(creator, recipient, Coin(denom, amount))]
            && o.response == SendResponse(0, true))
  {
    InOrderOfChecks(FinalSendChecks(env, st, creator, recipient, denom, amount, window));
    hide Add, Sub, Get, Refusal;
  }

  /** Any other send. The window asked for is the window given, 0 asking for the default. */
  lemma ParkRules(env: Env, st: State, now: I64, creator: Str, recipient: Str, denom: Str, amount: int, window: U64)
    requires !Flag(st, recipient)
    ensures var o := Deliver(env, st, now, DelayedSend(creator, recipient, denom, amount, window));
      var mine := OwnSlot(env, creator, denom);
      var w := if window == 0 then st.params.defaultWindow else window;
      && Decides(ParkChecks(env, st, creator, recipient, denom, amount, window), o)
      && (o.Accepted? ==>
            && Grew(o.state.balances, st.balances, mine, amount)
            && Grew(st.holding, o.state.holding, denom, amount)
            && st.nextId in o.state.pending
            && var p := o.state.pending[st.nextId];
            && p == Pending(st.nextId, creator, recipient, Coin(denom, amount), p.executeAt)
            && (p.executeAt - now - w) % TWO_64 == 0
            && o.state.pending == st.pending[st.nextId := p]
            && o.state.nextId == (st.nextId + 1) % TWO_64
            && TallyBecame(st, o.state, creator, SentCount(st, creator) + 1, CancelledCount(st, creator), Flag(st, creator))
            && o.state.params == st.params
            && o.events == [SendDelayed(st.nextId, creator, recipient, Coin(denom, amount), p.executeAt)]
            && o.response == SendResponse(st.nextId, false))
  {
    hide Deliver, Park, Refusal, Decides, Moved, Grew, TallyBecame, Get;
    ParkDecides(env, st, now, creator, recipient, denom, amount, window);
    if Deliver(env, st, now, DelayedSend(creator, recipient, denom, amount, window)).Accepted? {
      ParkOpens(env, st, now, creator, recipient, denom, amount, window);
    }
  }

  lemma ParkDecides(env: Env, st: State, now: I64, creator: Str, recipient: Str, denom: Str, amount: int, window: U64)
    requires !Flag(st, recipient)
    ensures Decides(ParkChecks(env, st, creator, recipient, denom, amount, window),
                    Deliver(env, st, now, DelayedSend(creator, recipient, denom, amount, window)))
  {
    InOrderOfChecks(ParkChecks(env, st, creator, recipient, denom, amount, window));
    hide Add, Sub, Get, Refusal, BumpSent, ExecuteAt, WrapU64;
    assert OpenIds(st.pending, creator) == OpenBy(st, creator);
    hide OpenIds, OpenBy;
  }

  lemma ParkOpens(env: Env, st: State, now: I64, creator: Str, recipient: Str, denom: Str, amount: int, window: U64)
    requires !Flag(st, recipient)
    requires Deliver(env, st, now, DelayedSend(creator, recipient, denom, amount, window)).Accepted?
    ensures var o := Deliver(env, st, now, DelayedSend(creator, recipient, denom, amount, window));
      var w := if window == 0 then st.params.defaultWindow else window;
      && amount > 0
      && Grew(o.state.balances, st.balances, OwnSlot(env, creator, denom), amount)
      && Grew(st.holding, o.state.holding, denom, amount)
      && st.nextId in o.state.pending
      && var p := o.state.pending[st.nextId];
      && p == Pending(st.nextId, creator, recipient, Coin(denom, amount), p.executeAt)
      && (p.executeAt - now - w) % TWO_64 == 0
      && o.state.pending == st.pending[st.nextId := p]
      && o.state.nextId == (st.nextId + 1) % TWO_64
      && TallyBecame(st, o.state, creator, SentCount(st, creator) + 1, CancelledCount(st, creator), Flag(st, creator))
      && o.state.params == st.params
      && o.events == [SendDelayed(st.nextId, creator, recipient, Coin(denom, amount), p.executeAt)]
      && o.response == SendResponse(st.nextId, false)
  {
    hide Add, Sub, Get, OpenIds, BumpSent, ExecuteAt, TallyBecame;
    var o := Deliver(env, st, now, DelayedSend(creator, recipient, denom, amount, window));
    TimeIs(now, if window == 0 then st.params.defaultWindow else window);
    SentBumped(st, o.state, creator);
    hide GetRecord, SentCount, CancelledCount, Flag;
  }

  lemma SentBumped(st: State, st': State, a: Str)
    requires st'.records == st.records[a := BumpSent(GetRecord(st.records, a))]
    ensures TallyBecame(st, st', a, SentCount(st, a) + 1, CancelledCount(st, a), Flag(st, a))
  {
  }

  lemma CancelledBumped(st: State, st': State, a: Str)
    requires st'.records == st.records[a := BumpCancelled(GetRecord(st.records, a))]
    ensures TallyBecame(st, st', a, SentCount(st, a), CancelledCount(st, a) + 1, Flag(st, a))
  {
  }

  /** The stored time is now plus window, reduced to a signed 64-bit word. */
  lemma TimeIs(now: I64, w: U64)
    ensures (ExecuteAt(now, w) - now - w) % TWO_64 == 0
  {
  }

  // ---- The undo ----

  lemma CancelRules(env: Env, st: State, now: I64, creator: Str, id: U64)
    ensures var o := Deliver(env, st, now, CancelSend(creator, id));
      && Decides(CancelChecks(env, st, creator, id), o)
      && (o.Accepted? ==>
            && var p := st.pending[id];
            && Grew(st.balances, o.state.balances, OwnSlot(env, creator, p.amount.denom), p.amount.amount)
            && Grew(o.state.holding, st.holding, p.amount.denom, p.amount.amount)
            && o.state.pending == st.pending - {id}
            && TallyBecame(st, o.state, creator, SentCount(st, creator), CancelledCount(st, creator) + 1, Flag(st, creator))
            && o.state.nextId == st.nextId && o.state.params == st.params
            && o.events == [SendCancelled(id, creator, p.recipient, p.amount)]
            && o.response == Empty)
  {
    InOrderOfChecks(CancelChecks(env, st, creator, id));
    hide Add, Sub, Get, Refusal, BumpCancelled, TallyBecame;
    var o := Deliver(env, st, now, CancelSend(creator, id));
    if o.Accepted? { CancelledBumped(st, o.state, creator); }
    hide GetRecord, SentCount, CancelledCount, Flag;
  }

  // ---- The switch and the dials ----

  lemma SwitchRules(env: Env, st: State, now: I64, creator: Str, finalOnly: bool)
    ensures var o := Deliver(env, st, now, SetFinalOnly(creator, finalOnly));
      && Decides([Check(IsAddress(env, creator), InvalidSender)], o)
      && (o.Accepted? ==>
            && TallyBecame(st, o.state, creator, SentCount(st, creator), CancelledCount(st, creator), finalOnly)
            && o.state == st.(records := o.state.records)
            && o.events == [FinalOnlySet(creator, finalOnly)]
            && o.response == Empty)
  {
  }

  predicate InOrder(params: Params) {
    1 <= params.minWindow && params.minWindow <= params.defaultWindow && params.defaultWindow <= params.maxWindow
  }

  lemma DialRules(env: Env, st: State, now: I64, authority: Str, params: Params)
    ensures var o := Deliver(env, st, now, UpdateParams(authority, params));
      && Decides(DialChecks(env, authority, params), o)
      && (o.Accepted? ==> o.state == st.(params := params) && o.events == [] && o.response == Empty)
  {
    InOrderOfChecks(DialChecks(env, authority, params));
    hide Refusal;
  }

  /** On a chain that starts from the default genesis an undoable send gets any window from two minutes to a day,
      and ten minutes if it asks for none. */
  lemma FreshDials(env: Env, balances: Purse<Slot>, now: I64, creator: Str, recipient: Str, denom: Str, amount: int, window: U64)
    requires IsAddress(env, creator) && IsAddress(env, recipient) && creator != recipient
    requires env.validDenom(denom) && 0 < amount <= Get(balances, OwnSlot(env, creator, denom))
    ensures var st := Import(EmptyStore(balances, map[]), DEFAULT_GENESIS);
      var o := Deliver(env, st, now, DelayedSend(creator, recipient, denom, amount, window));
      && (o.Accepted? <==> window == 0 || 120 <= window <= 86400)
      && (o.Accepted? ==>
            && 0 in o.state.pending
            && (o.state.pending[0].executeAt - now - (if window == 0 then 600 else window)) % TWO_64 == 0)
  {
    var st := Import(EmptyStore(balances, map[]), DEFAULT_GENESIS);
    var checks := ParkChecks(env, st, creator, recipient, denom, amount, window);
    assert OpenBy(st, creator) == {};
    hide Deliver, Decides, Moved, Grew, TallyBecame;
    ParkRules(env, st, now, creator, recipient, denom, amount, window);
    AcceptedExactly(checks, Deliver(env, st, now, DelayedSend(creator, recipient, denom, amount, window)));
    assert checks[4].holds && checks[5].holds <==> window == 0 || 120 <= window <= 86400;
  }

  // ---- Payouts ----

  lemma PayoutRules(env: Env, st: State, p: Pending)
    ensures var st', log := Execute(env, st, p), ExecuteEvents(env, st, p);
      var paid := IsAddress(env, p.recipient) && OwnSlot(env, p.recipient, []).account !in env.refuses
                  && p.amount.amount <= Get(st.holding, p.amount.denom);
      && (!paid ==> st' == st && log == [])
      && (paid ==>
            && Grew(st.balances, st'.balances, OwnSlot(env, p.recipient, p.amount.denom), p.amount.amount)
            && Grew(st'.holding, st.holding, p.amount.denom, p.amount.amount)
            && st' == st.(balances := st'.balances, holding := st'.holding, pending := st.pending - {p.id})
            && log == [SendFinal(p.id, p.sender, p.recipient, p.amount)])
  {
    hide Add, Sub, Get;
  }

  // ---- Over runs ----

  /** A switch message of an address that goes through; whether it does depends on the address alone. */
  predicate Switches(env: Env, step: Step, a: Str) {
    step.Message? && step.msg.SetFinalOnly? && step.msg.creator == a && IsAddress(env, a)
  }

  /** A valid change of the dials, signed by the authority. */
  predicate Turns(env: Env, step: Step) {
    step.Message? && step.msg.UpdateParams? && env.decode(step.msg.authority) == Some(env.authority) && InOrder(step.msg.params)
  }

  lemma StepSwitch(env: Env, st: State, step: Step, a: Str)
    ensures Flag(Next(env, st, step), a) == if Switches(env, step, a) then step.msg.finalOnly else Flag(st, a)
  {
    match step
    case BlockEnd(now) =>
      PayAllFrame(env, st, Due(st.pending, now));
      hide PayAll, Due;
    case Message(now, msg) =>
      hide Deliver, Decides, FinalSendChecks, ParkChecks, CancelChecks, DialChecks;
      match msg
      case DelayedSend(creator, recipient, denom, amount, window) =>
        if Flag(st, recipient) {
          FinalSendRules(env, st, now, creator, recipient, denom, amount, window);
        } else {
          ParkRules(env, st, now, creator, recipient, denom, amount, window);
        }
        hide Moved, Grew;
      case CancelSend(creator, id) =>
        CancelRules(env, st, now, creator, id);
        hide Grew;
      case SetFinalOnly(creator, finalOnly) => SwitchAccepted(env, st, now, creator, finalOnly);
      case UpdateParams(authority, params) => DialRules(env, st, now, authority, params);
  }

  lemma SwitchAccepted(env: Env, st: State, now: I64, creator: Str, finalOnly: bool)
    ensures Deliver(env, st, now, SetFinalOnly(creator, finalOnly)).Accepted? <==> IsAddress(env, creator)
    ensures var o := Deliver(env, st, now, SetFinalOnly(creator, finalOnly));
      o.Accepted? ==> TallyBecame(st, o.state, creator, SentCount(st, creator), CancelledCount(st, creator), finalOnly)
  {
    SwitchRules(env, st, now, creator, finalOnly);
  }

  lemma StepDials(env: Env, st: State, step: Step)
    ensures Next(env, st, step).params == if Turns(env, step) then step.msg.params else st.params
  {
    hide PayAll, Due, OpenIds, Add, Sub, Get, ExecuteAt, WrapU64, GetRecord;
    if step.BlockEnd? {
      PayAllFrame(env, st, Due(st.pending, step.now));
    } else {
      match step.msg
      case DelayedSend(_, _, _, _, _) =>
      case CancelSend(_, _) =>
      case SetFinalOnly(_, _) =>
      case UpdateParams(_, _) =>
    }
  }

  /** After any run, from any state, the flag of an address is that of its last switch message, or as it was. */
  lemma {:induction false} FlagIsLastSwitch(env: Env, st: State, steps: seq<Step>, a: Str)
    ensures
      || (exists i :: 0 <= i < |steps| && Switches(env, steps[i], a) && Flag(Run(env, st, steps), a) == steps[i].msg.finalOnly
            && forall j :: i < j < |steps| ==> !Switches(env, steps[j], a))
      || ((forall j :: 0 <= j < |steps| ==> !Switches(env, steps[j], a)) && Flag(Run(env, st, steps), a) == Flag(st, a))
    decreases |steps|
  {
    if steps != [] {
      var n := |steps| - 1;
      var before, last := steps[..n], steps[n];
      assert steps == before + [last];
      RunLast(env, st, before, last);
      StepSwitch(env, Run(env, st, before), last, a);
      hide Run, Next, Switches, Flag;
      FlagIsLastSwitch(env, st, before, a);
      assert forall j :: 0 <= j < n ==> before[j] == steps[j];
    }
  }

  /** After any run, from any state, the dials are those of the last valid change signed by the authority, or as
      they were; nobody else's message moves them. */
  lemma {:induction false} DialsAreLastChange(env: Env, st: State, steps: seq<Step>)
    ensures
      || (exists i :: 0 <= i < |steps| && Turns(env, steps[i]) && Run(env, st, steps).params == steps[i].msg.params
            && forall j :: i < j < |steps| ==> !Turns(env, steps[j]))
      || ((forall j :: 0 <= j < |steps| ==> !Turns(env, steps[j])) && Run(env, st, steps).params == st.params)
    decreases |steps|
  {
    if steps != [] {
      var n := |steps| - 1;
      var before, last := steps[..n], steps[n];
      assert steps == before + [last];
      RunLast(env, st, before, last);
      StepDials(env, Run(env, st, before), last);
      hide Run, Next, Turns;
      DialsAreLastChange(env, st, before);
      assert forall j :: 0 <= j < n ==> before[j] == steps[j];
    }
  }

  lemma RunLast(env: Env, st: State, before: seq<Step>, last: Step)
    ensures Run(env, st, before + [last]) == Next(env, Run(env, st, before), last)
  {
    RunAppend(env, st, before, [last]);
    hide Next;
    assert [last][1..] == [];
  }
}
