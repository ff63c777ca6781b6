/** Solvency and conservation: the holding pot always holds exactly what is pending, no coins are made
    or lost, and the bounds checked on admission hold for ever. */
module Solvency {
  import opened Words
  import opened Sums
  import opened Types
  import opened Walks
  import opened Ledger

  // ---- What the invariant says ----

  ghost function BalancesIn(balances: Purse<Slot>, denom: Str): map<Slot, nat> {
    map s | s in balances && s.denom == denom :: balances[s]
  }

  /** All coins of a denomination: in accounts and in holding. */
  ghost function Supply(st: State, denom: Str): nat {
    Sum(BalancesIn(st.balances, denom)) + Get(st.holding, denom)
  }

  ghost function AmountsIn(pending: map<U64, Pending>, denom: Str): map<U64, nat> {
    map id | id in pending && pending[id].amount.denom == denom :: pending[id].amount.amount
  }

  /** What the pending entries add up to. */
  ghost function Owed(pending: map<U64, Pending>, denom: Str): nat {
    Sum(AmountsIn(pending, denom))
  }

  /** Every key is its entry's id, was handed out by the sequence, and stands for real coins. */
  ghost predicate Keyed(st: State) {
    forall id :: id in st.pending ==>
      st.pending[id].id == id && id < st.nextId && st.pending[id].amount.amount > 0
  }

  ghost predicate Backed(st: State) {
    forall d :: Get(st.holding, d) == Owed(st.pending, d)
  }

  ghost predicate Capped(st: State) {
    forall a :: |OpenIds(st.pending, a)| <= MAX_OPEN_PER_SENDER
  }

  ghost predicate Indexed(st: State) {
    forall a :: a in st.records ==> st.records[a].index == a
  }

  ghost predicate Inv(st: State) {
    Keyed(st) && Backed(st) && Capped(st) && Indexed(st) && st.params.Valid()
  }

  // ---- The bank's arithmetic ----

  lemma SupplyOfAdd(m: Purse<Slot>, s: Slot, n: nat, d: Str)
    ensures Sum(BalancesIn(Add(m, s, n), d)) == Sum(BalancesIn(m, d)) + if s.denom == d then n else 0
  {
    var m' := Add(m, s, n);
    if s.denom != d || n == 0 {
      assert BalancesIn(m', d) == BalancesIn(m, d);
    } else {
      assert BalancesIn(m', d) == BalancesIn(m, d)[s := Get(m', s)];
      SumPut(BalancesIn(m, d), s, Get(m', s));
    }
  }

  lemma SupplyOfSub(m: Purse<Slot>, s: Slot, n: nat, d: Str)
    requires n <= Get(m, s)
    ensures Sum(BalancesIn(Sub(m, s, n), d)) + (if s.denom == d then n else 0) == Sum(BalancesIn(m, d))
  {
    SupplyOfAdd(Sub(m, s, n), s, n, d);
    SamePurse(Add(Sub(m, s, n), s, n), m);
  }

  lemma OwedWithout(pending: map<U64, Pending>, id: U64, d: Str)
    requires id in pending
    ensures Owed(pending, d) ==
            Owed(pending - {id}, d) + if pending[id].amount.denom == d then pending[id].amount.amount else 0
  {
    assert AmountsIn(pending - {id}, d) == AmountsIn(pending, d) - {id};
    if pending[id].amount.denom == d {
      SumRemove(AmountsIn(pending, d), id);
    } else {
      assert AmountsIn(pending, d) - {id} == AmountsIn(pending, d);
    }
  }

  lemma OwedWith(pending: map<U64, Pending>, id: U64, p: Pending, d: Str)
    requires id !in pending
    ensures Owed(pending[id := p], d) == Owed(pending, d) + if p.amount.denom == d then p.amount.amount else 0
  {
    OwedWithout(pending[id := p], id, d);
    assert pending[id := p] - {id} == pending;
  }

  // ---- Conservation, from any state ----

  lemma PayOutConserves(env: Env, st: State, address: Str, coin: Coin, d: Str)
    requires CanReceive(env, address) && coin.amount <= Get(st.holding, coin.denom)
    ensures Supply(PayOut(env, st, address, coin), d) == Supply(st, d)
  {
    SupplyOfAdd(st.balances, SlotOf(env, address, coin.denom), coin.amount, d);
  }

  lemma {:induction false} PayAllConserves(env: Env, st: State, order: seq<Pending>, d: Str)
    ensures Supply(PayAll(env, st, order), d) == Supply(st, d)
    decreases |order|
  {
    if order != [] {
      var p := order[0];
      if Payable(env, st, p) { PayOutConserves(env, st, p.recipient, p.amount, d); }
      PayAllConserves(env, Execute(env, st, p), order[1..], d);
    }
  }

  lemma SameMoney(st: State, st': State, d: Str)
    requires st'.balances == st.balances && st'.holding == st.holding
    ensures Supply(st', d) == Supply(st, d)
  {
  }

  lemma SendNowConserves(env: Env, st: State, sender: Str, recipient: Str, coin: Coin, window: U64, d: Str)
    requires env.decode(sender).Some? && env.decode(recipient).Some?
    requires SendNow(env, st, sender, recipient, coin, window).Accepted?
    ensures Supply(SendNow(env, st, sender, recipient, coin, window).state, d) == Supply(st, d)
  {
    hide Add, Sub, Sum, BalancesIn;
    var source := SlotOf(env, sender, coin.denom);
    SupplyOfSub(st.balances, source, coin.amount, d);
    SupplyOfAdd(Sub(st.balances, source, coin.amount), SlotOf(env, recipient, coin.denom), coin.amount, d);
  }

  lemma ParkConserves(env: Env, st: State, now: I64, sender: Str, recipient: Str, coin: Coin, window: U64, d: Str)
    requires env.decode(sender).Some? && Park(env, st, now, sender, recipient, coin, window).Accepted?
    ensures Supply(Park(env, st, now, sender, recipient, coin, window).state, d) == Supply(st, d)
  {
    hide OpenIds, Sub, Sum, BalancesIn, BumpSent, GetRecord, ExecuteAt, WrapU64;
    SupplyOfSub(st.balances, SlotOf(env, sender, coin.denom), coin.amount, d);
  }

  lemma StepConserves(env: Env, st: State, step: Step, d: Str)
    ensures Supply(Next(env, st, step), d) == Supply(st, d)
  {
    match step
    case BlockEnd(now) => PayAllConserves(env, st, Due(st.pending, now), d);
    case Message(now, msg) =>
      if Deliver(env, st, now, msg).Accepted? {
        hide Supply, Park, SendNow, PayOut;
        match msg
        case DelayedSend(creator, recipient, denom, amount, window) =>
          if GetRecord(st.records, recipient).finalOnly {
            SendNowConserves(env, st, creator, recipient, Coin(denom, amount), window, d);
          } else {
            ParkConserves(env, st, now, creator, recipient, Coin(denom, amount), Window(st, window), d);
          }
        case CancelSend(creator, id) =>
          PayOutConserves(env, st, creator, st.pending[id].amount, d);
          SameMoney(PayOut(env, st, creator, st.pending[id].amount), Next(env, st, step), d);
        case _ => SameMoney(st, Next(env, st, step), d);
      }
  }

  /** No run of messages and blocks makes or loses a coin, whatever state it starts in. */
  lemma {:induction false} RunConserves(env: Env, st: State, steps: seq<Step>, d: Str)
    ensures Supply(Run(env, st, steps), d) == Supply(st, d)
    decreases |steps|
  {
    if steps != [] {
      StepConserves(env, st, steps[0], d);
      RunConserves(env, Next(env, st, steps[0]), steps[1..], d);
    }
  }

  // ---- The invariant ----

  /** Removing an entry and taking its amount out of holding keeps the invariant. */
  lemma ReleaseKeepsInv(st: State, st': State, id: U64)
    requires Inv(st) && id in st.pending
    requires Get(st.holding, st.pending[id].amount.denom) >= st.pending[id].amount.amount
    requires st'.holding == Sub(st.holding, st.pending[id].amount.denom, st.pending[id].amount.amount)
    requires st'.pending == st.pending - {id}
    requires st'.nextId == st.nextId && st'.params == st.params && Indexed(st')
    ensures Inv(st')
  {
    forall d ensures Get(st'.holding, d) == Owed(st'.pending, d) {
      OwedWithout(st.pending, id, d);
    }
    forall a ensures |OpenIds(st'.pending, a)| <= MAX_OPEN_PER_SENDER {
      FewerOpen(st'.pending, st.pending, a);
    }
  }

  lemma FewerOpen(fewer: map<U64, Pending>, pending: map<U64, Pending>, a: Str)
    requires forall id :: id in fewer ==> id in pending && fewer[id] == pending[id]
    ensures |OpenIds(fewer, a)| <= |OpenIds(pending, a)|
  {
    SubsetSize(OpenIds(fewer, a), OpenIds(pending, a));
  }

  lemma SubsetSize<T>(a: set<T>, b: set<T>)
    requires a <= b
    ensures |a| <= |b|
  {
    assert b == a + (b - a);
  }

  /** Under the invariant holding always covers an entry: a payout or a cancel never fails for lack of coins. */
  lemma Covered(st: State, id: U64)
    requires Backed(st) && id in st.pending
    ensures st.pending[id].amount.amount <= Get(st.holding, st.pending[id].amount.denom)
  {
    OwedWithout(st.pending, id, st.pending[id].amount.denom);
  }

  /** So a cancel is accepted exactly if the entry is there, the caller is its sender, and the bank will pay
      the caller. The time does not come into it. */
  lemma CancelAccepted(env: Env, st: State, now: I64, creator: Str, id: U64)
    requires Inv(st)
    ensures Deliver(env, st, now, CancelSend(creator, id)).Accepted? <==>
      id in st.pending && st.pending[id].sender == creator && CanReceive(env, creator)
  {
    if id in st.pending { Covered(st, id); }
  }

  lemma ExecuteKeepsInv(env: Env, st: State, p: Pending)
    requires Inv(st) && p.id in st.pending && st.pending[p.id] == p
    ensures Inv(Execute(env, st, p))
    ensures Payable(env, st, p) <==> CanReceive(env, p.recipient)
  {
    Covered(st, p.id);
    if Payable(env, st, p) { ReleaseKeepsInv(st, Execute(env, st, p), p.id); }
  }

  /** A list of distinct entries of the table. */
  ghost predicate Listed(pending: map<U64, Pending>, order: seq<Pending>) {
    && (forall i :: 0 <= i < |order| ==> order[i].id in pending && pending[order[i].id] == order[i])
    && (forall i, j :: 0 <= i < j < |order| ==> order[i].id != order[j].id)
  }

  lemma ListedTail(env: Env, st: State, order: seq<Pending>)
    requires Listed(st.pending, order) && order != []
    ensures Listed(Execute(env, st, order[0]).pending, order[1..])
  {
  }

  lemma {:induction false} PayAllKeepsInv(env: Env, st: State, order: seq<Pending>)
    requires Inv(st) && Listed(st.pending, order)
    ensures Inv(PayAll(env, st, order))
    decreases |order|
  {
    if order != [] {
      ExecuteKeepsInv(env, st, order[0]);
      ListedTail(env, st, order);
      PayAllKeepsInv(env, Execute(env, st, order[0]), order[1..]);
    }
  }

  lemma DueListed(st: State, now: I64)
    requires Keyed(st)
    ensures Listed(st.pending, Due(st.pending, now))
    ensures forall p :: p in Due(st.pending, now) <==> p.id in st.pending && st.pending[p.id] == p && now >= p.executeAt
  {
    var keys := Ascending(DueIds(st.pending, now), NatLess);
    forall i | 0 <= i < |keys| ensures keys[i] in DueIds(st.pending, now) {
      assert keys[i] in keys;
    }
    forall p: Pending | p.id in st.pending && st.pending[p.id] == p && now >= p.executeAt
      ensures p in Due(st.pending, now)
    {
      assert p.id in keys;
      var i :| 0 <= i < |keys| && keys[i] == p.id;
      assert Due(st.pending, now)[i] == p;
    }
  }

  /** The accepted DelayedSend that opens an entry, as opposed to one paid at once. */
  predicate Parks(env: Env, st: State, step: Step) {
    && step.Message? && step.msg.DelayedSend?
    && !GetRecord(st.records, step.msg.recipient).finalOnly
    && Succeeds(env, st, step)
  }

  /** Adding a fresh entry together with its amount keeps the invariant. */
  lemma AdmitKeepsInv(st: State, st': State, p: Pending)
    requires Inv(st) && p.id == st.nextId && st.nextId + 1 < TWO_64 && p.amount.amount > 0
    requires |OpenIds(st.pending, p.sender)| < MAX_OPEN_PER_SENDER
    requires st'.holding == Add(st.holding, p.amount.denom, p.amount.amount)
    requires st'.pending == st.pending[p.id := p]
    requires st'.nextId == st.nextId + 1 && st'.params == st.params && Indexed(st')
    ensures Inv(st')
  {
    assert p.id !in st.pending;
    forall d ensures Get(st'.holding, d) == Owed(st'.pending, d) {
      OwedWith(st.pending, p.id, p, d);
    }
    forall a ensures |OpenIds(st'.pending, a)| <= MAX_OPEN_PER_SENDER {
      OpenWith(st.pending, p, a);
    }
  }

  lemma OpenWith(pending: map<U64, Pending>, p: Pending, a: Str)
    requires p.id !in pending
    ensures OpenIds(pending[p.id := p], a) == OpenIds(pending, a) + if p.sender == a then {p.id} else {}
    ensures |OpenIds(pending[p.id := p], a)| == |OpenIds(pending, a)| + if p.sender == a then 1 else 0
  {
    assert OpenIds(pending[p.id := p], a) == OpenIds(pending, a) + if p.sender == a then {p.id} else {};
  }

  lemma ParkKeepsInv(env: Env, st: State, now: I64, sender: Str, recipient: Str, coin: Coin, window: U64)
    requires Inv(st) && env.decode(sender).Some? && coin.amount > 0
    requires Park(env, st, now, sender, recipient, coin, window).Accepted?
    ensures Inv(Park(env, st, now, sender, recipient, coin, window).state) <==> st.nextId + 1 < TWO_64
  {
    var st' := Park(env, st, now, sender, recipient, coin, window).state;
    if st.nextId + 1 < TWO_64 {
      AdmitKeepsInv(st, st', st'.pending[st.nextId]);
    } else {
      assert st.nextId in st'.pending && st'.nextId == 0;
    }
  }

  lemma CancelKeepsInv(env: Env, st: State, id: U64)
    requires Inv(st) && id in st.pending
    requires env.decode(st.pending[id].sender).Some?
    requires Cancel(env, st, st.pending[id], id).Accepted?
    ensures Inv(Cancel(env, st, st.pending[id], id).state)
  {
    ReleaseKeepsInv(st, Cancel(env, st, st.pending[id], id).state, id);
  }

  /** Every step keeps the invariant, except the one send that exhausts the 64-bit sequence. */
  lemma StepKeepsInv(env: Env, st: State, step: Step)
    requires Inv(st)
    ensures Inv(Next(env, st, step)) <==> (Parks(env, st, step) ==> st.nextId + 1 < TWO_64)
  {
    match step
    case BlockEnd(now) =>
      DueListed(st, now);
      PayAllKeepsInv(env, st, Due(st.pending, now));
    case Message(now, msg) =>
      if Deliver(env, st, now, msg).Accepted? {
        match msg
        case DelayedSend(creator, recipient, denom, amount, window) =>
          if !GetRecord(st.records, recipient).finalOnly {
            ParkKeepsInv(env, st, now, creator, recipient, Coin(denom, amount), Window(st, window));
          }
        case CancelSend(creator, id) =>
          CancelKeepsInv(env, st, id);
        case _ =>
      }
  }

  lemma StepNextId(env: Env, st: State, step: Step)
    ensures Next(env, st, step).nextId == if Parks(env, st, step) then WrapU64(st.nextId + 1) else st.nextId
  {
    hide WrapU64, PayAll, Due, OpenIds, Add, Sub;
    if step.BlockEnd? {
      PayAllFrame(env, st, Due(st.pending, step.now));
    } else {
      match step.msg
      case DelayedSend(_, _, _, _, _) =>
      case CancelSend(_, _) =>
      case SetFinalOnly(_, _) =>
      case UpdateParams(_, _) =>
    }
  }

  lemma {:induction false} PayAllFrame(env: Env, st: State, order: seq<Pending>)
    ensures var st' := PayAll(env, st, order);
      st'.nextId == st.nextId && st'.records == st.records && st'.params == st.params
    decreases |order|
  {
    if order != [] { PayAllFrame(env, Execute(env, st, order[0]), order[1..]); }
  }

  /** Solvency over every run: holding equals the sum of what is pending, in every denomination. */
  lemma {:induction false} RunKeepsInv(env: Env, st: State, steps: seq<Step>)
    requires Inv(st) && st.nextId + |steps| < TWO_64
    ensures Inv(Run(env, st, steps))
    ensures st.nextId <= Run(env, st, steps).nextId <= st.nextId + |steps|
    decreases |steps|
  {
    hide Next, Inv, Parks;
    if steps != [] {
      StepKeepsInv(env, st, steps[0]);
      StepNextId(env, st, steps[0]);
      RunKeepsInv(env, Next(env, st, steps[0]), steps[1..]);
    }
  }
}
