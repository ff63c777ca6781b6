/** Entries without coins behind them. Validate lets such a genesis through; this module says what becomes of
    it, over whole runs, and exactly when every entry can be paid. */
module Backing {
  import opened Words
  import opened Sums
  import opened Types
  import opened Walks
  import opened Ledger
  import opened Solvency
  import opened Tallies
  import opened Settlement
  import opened Admission
  import opened Genesis

  // ---- When everything can be paid ----

  lemma {:induction false} UnlistedStays(env: Env, st: State, order: seq<Pending>, id: U64)
    requires id in st.pending && forall p :: p in order ==> p.id != id
    ensures id in PayAll(env, st, order).pending
    decreases |order|
  {
    if order != [] { UnlistedStays(env, Execute(env, st, order[0]), order[1..], id); }
  }

  /** When no recipient is refused, paying all entries, in whatever order, leaves none exactly if holding
      covers their sum in every denomination. */
  lemma {:induction false} AllPaid(env: Env, st: State, order: seq<Pending>)
    requires Listed(st.pending, order)
    requires forall id :: id in st.pending ==> st.pending[id] in order && st.pending[id].id == id
    requires forall p :: p in order ==> CanReceive(env, p.recipient)
    ensures PayAll(env, st, order).pending == map[] <==>
      forall d :: Owed(st.pending, d) <= Get(st.holding, d)
    decreases |order|
  {
    hide Owed;
    if order == [] {
      assert st.pending == map[];
      forall d { EmptyTable(d, []); }
    } else {
      var p, rest := order[0], order[1..];
      var mid := Execute(env, st, p);
      ListedHead(st.pending, order);
      ListedTail(env, st, order);
      assert order == [p] + rest;
      forall d { OwedWithout(st.pending, p.id, d); }
      if Payable(env, st, p) {
        assert mid.pending == st.pending - {p.id};
        forall d ensures Owed(mid.pending, d) <= Get(mid.holding, d) <==> Owed(st.pending, d) <= Get(st.holding, d) {}
        hide PayAll, Execute, Listed;
        AllPaidTurn(env, st, order);
        AllPaid(env, mid, rest);
      } else {
        assert Owed(st.pending, p.amount.denom) > Get(st.holding, p.amount.denom);
        UnlistedStays(env, st, rest, p.id);
      }
    }
  }

  lemma AllPaidTurn(env: Env, st: State, order: seq<Pending>)
    requires order != []
    ensures PayAll(env, st, order) == PayAll(env, Execute(env, st, order[0]), order[1..])
  {
  }

  // ---- An entry holding does not cover ----

  /** The entry p is open and holding has fewer coins of its denomination than it stands for. */
  predicate Stuck(st: State, p: Pending) {
    p.id in st.pending && st.pending[p.id] == p && Get(st.holding, p.amount.denom) < p.amount.amount
  }

  ghost predicate Numbered(st: State) {
    forall id :: id in st.pending ==> st.pending[id].id == id && id < st.nextId
  }

  /** A message that can bring coins of a denomination into holding. */
  predicate Brings(step: Step, denom: Str) {
    step.Message? && step.msg.DelayedSend? && step.msg.denom == denom
  }

  lemma {:induction false} PayAllStuck(env: Env, st: State, order: seq<Pending>, p: Pending)
    requires Stuck(st, p) && forall q :: q in order && q.id == p.id ==> q == p
    ensures Stuck(PayAll(env, st, order), p)
    decreases |order|
  {
    if order != [] {
      var q := order[0];
      assert q in order;
      assert Stuck(Execute(env, st, q), p);
      hide Execute, Stuck;
      PayAllStuck(env, Execute(env, st, q), order[1..], p);
    }
  }

  lemma DueMember(pending: map<U64, Pending>, now: I64, q: Pending) returns (id: U64)
    requires q in Due(pending, now)
    ensures id in pending && pending[id] == q
  {
    var keys := Ascending(DueIds(pending, now), NatLess);
    var i :| 0 <= i < |Due(pending, now)| && Due(pending, now)[i] == q;
    id := keys[i];
    assert id in keys;
  }

  lemma BlockEndStuck(env: Env, st: State, now: I64, p: Pending)
    requires Numbered(st) && Stuck(st, p)
    ensures Numbered(EndBlock(env, st, now)) && Stuck(EndBlock(env, st, now), p)
  {
    var due := Due(st.pending, now);
    forall q | q in due && q.id == p.id ensures q == p {
      var id := DueMember(st.pending, now, q);
    }
    PayAllStuck(env, st, due, p);
    PayAllFrame(env, st, due);
    hide PayAll, Due, Stuck;
    forall id { PayAllShrinks(env, st, due, id); }
  }

  lemma SendNowStuck(env: Env, st: State, sender: Str, recipient: Str, coin: Coin, window: U64, p: Pending)
    requires Numbered(st) && Stuck(st, p) && env.decode(sender).Some? && env.decode(recipient).Some?
    requires SendNow(env, st, sender, recipient, coin, window).Accepted?
    ensures var st' := SendNow(env, st, sender, recipient, coin, window).state; Numbered(st') && Stuck(st', p)
  {
    hide Add, Sub, Get;
  }

  lemma ParkStuck(env: Env, st: State, now: I64, sender: Str, recipient: Str, coin: Coin, window: U64, p: Pending)
    requires Numbered(st) && Stuck(st, p) && st.nextId + 1 < TWO_64 && env.decode(sender).Some?
    requires coin.denom != p.amount.denom && Park(env, st, now, sender, recipient, coin, window).Accepted?
    ensures var st' := Park(env, st, now, sender, recipient, coin, window).state; Numbered(st') && Stuck(st', p)
  {
    hide OpenIds, BumpSent, ExecuteAt, GetRecord, Sub;
  }

  lemma CancelStuck(env: Env, st: State, id: U64, p: Pending)
    requires Numbered(st) && Stuck(st, p) && id in st.pending && env.decode(st.pending[id].sender).Some?
    requires Cancel(env, st, st.pending[id], id).Accepted?
    ensures var st' := Cancel(env, st, st.pending[id], id).state; Numbered(st') && Stuck(st', p)
  {
    hide BumpCancelled, GetRecord, Add;
  }

  lemma MessageStuck(env: Env, st: State, now: I64, msg: Msg, p: Pending)
    requires Numbered(st) && Stuck(st, p) && st.nextId + 1 < TWO_64 && !Brings(Message(now, msg), p.amount.denom)
    requires Deliver(env, st, now, msg).Accepted?
    ensures var st' := Deliver(env, st, now, msg).state; Numbered(st') && Stuck(st', p)
  {
    hide OpenIds, BumpSent, BumpCancelled, ExecuteAt, GetRecord, Park, SendNow, Cancel;
    match msg
    case DelayedSend(creator, recipient, denom, amount, window) =>
      if GetRecord(st.records, recipient).finalOnly {
        SendNowStuck(env, st, creator, recipient, Coin(denom, amount), window, p);
      } else {
        ParkStuck(env, st, now, creator, recipient, Coin(denom, amount), Window(st, window), p);
      }
    case CancelSend(_, id) => CancelStuck(env, st, id, p);
    case SetFinalOnly(_, _) =>
    case UpdateParams(_, _) =>
  }

  /** Such an entry stays as it is, and nobody can cancel it, over any run in which nobody sends coins of its
      denomination undoably. */
  lemma {:induction false} RunStuck(env: Env, st: State, steps: seq<Step>, p: Pending)
    requires Numbered(st) && Stuck(st, p) && st.nextId + |steps| < TWO_64
    requires forall s :: s in steps ==> !Brings(s, p.amount.denom)
    ensures Stuck(Run(env, st, steps), p)
    decreases |steps|
  {
    if steps != [] {
      var step, mid := steps[0], Next(env, st, steps[0]);
      assert step in steps;
      StepNextId(env, st, step);
      StepStuck(env, st, step, p);
      hide Next, Stuck, Numbered, Brings;
      RunStuck(env, mid, steps[1..], p);
    }
  }

  lemma StepStuck(env: Env, st: State, step: Step, p: Pending)
    requires Numbered(st) && Stuck(st, p) && st.nextId + 1 < TWO_64 && !Brings(step, p.amount.denom)
    ensures Numbered(Next(env, st, step)) && Stuck(Next(env, st, step), p)
  {
    hide Deliver, EndBlock, Stuck, Numbered, Brings;
    match step
    case BlockEnd(now) => BlockEndStuck(env, st, now, p);
    case Message(now, msg) =>
      if Deliver(env, st, now, msg).Accepted? { MessageStuck(env, st, now, msg, p); }
  }

  lemma StuckNotCancelled(env: Env, st: State, now: I64, creator: Str, p: Pending)
    requires Stuck(st, p)
    ensures Deliver(env, st, now, CancelSend(creator, p.id)).Refused?
  {
  }

  /** Once somebody does, its cancel goes through exactly if holding then has enough; what it pays is the other
      sender's coins, whose own cancel is then refused. */
  lemma RefundTakesAnothers(env: Env, st: State, p: Pending, now: I64, msg: Msg, later: I64)
    requires Numbered(st) && Stuck(st, p) && st.nextId + 1 < TWO_64
    requires Parks(env, st, Message(now, msg)) && msg.denom == p.amount.denom
    requires CanReceive(env, p.sender) && CanReceive(env, msg.creator)
    ensures var st1 := Next(env, st, Message(now, msg));
      var refund := Deliver(env, st1, later, CancelSend(p.sender, p.id));
      && (refund.Accepted? <==> p.amount.amount <= Get(st.holding, msg.denom) + msg.amount)
      && (refund.Accepted? ==>
           && Stuck(refund.state, st1.pending[st.nextId])
           && Deliver(env, refund.state, later, CancelSend(msg.creator, st.nextId)) == Refused(InsufficientFunds))
  {
    hide OpenIds, BumpSent, BumpCancelled, ExecuteAt;
    var st1 := Next(env, st, Message(now, msg));
    var q := st1.pending[st.nextId];
    assert q.id == st.nextId && q.sender == msg.creator && q.amount == Coin(msg.denom, msg.amount);
    assert p.id in st1.pending && st1.pending[p.id] == p;
  }

  // ---- Genesis states ----

  /** A block end that can pay nothing changes nothing. */
  lemma {:induction false} NothingPayable(env: Env, st: State, order: seq<Pending>)
    requires forall q :: q in order ==> !Payable(env, st, q)
    ensures PayAll(env, st, order) == st
    decreases |order|
  {
    if order != [] {
      assert order[0] in order;
      NothingPayable(env, st, order[1..]);
    }
  }

  lemma OnlyDue(pending: map<U64, Pending>, p: Pending, now: I64)
    requires pending == map[0 := p]
    ensures forall q :: q in Due(pending, now) ==> q == p
  {
    forall q | q in Due(pending, now) ensures q == p { var id := DueMember(pending, now, q); }
  }

  /** Validate accepts an entry with nothing behind it, and then that is what happens: the end of a block does
      not pay it, and until somebody sends coins of its denomination nobody can cancel it. */
  lemma UnbackedGenesisIsStuck(env: Env, balances: Purse<Slot>, p: Pending, steps: seq<Step>, now: I64, creator: Str)
    requires p.id == 0 && p.amount.amount > 0 && 1 + |steps| < TWO_64
    requires forall s :: s in steps ==> !Brings(s, p.amount.denom)
    ensures var gs := GenesisState(DEFAULT_PARAMS, [p], 1, []);
      var st := Import(EmptyStore(balances, map[]), gs);
      && Valid(gs) && !Inv(st) && EndBlock(env, st, now) == st
      && Stuck(Run(env, st, steps), p)
      && Deliver(env, Run(env, st, steps), now, CancelSend(creator, 0)).Refused?
  {
    var gs := GenesisState(DEFAULT_PARAMS, [p], 1, []);
    var store := EmptyStore(balances, map[]);
    var st := Import(store, gs);
    assert PutPending(map[], [p]) == map[0 := p];
    assert OwedIn(gs.pendingList, p.amount.denom) == p.amount.amount;
    hide OwedIn;
    ImportSound(store, gs);
    assert !Inv(st) by { assert Get(store.holding, p.amount.denom) != OwedIn(gs.pendingList, p.amount.denom); }
    assert st.pending == map[0 := p];
    OnlyDue(st.pending, p, now);
    NothingPayable(env, st, Due(st.pending, now));
    RunStuck(env, st, steps, p);
    StuckNotCancelled(env, Run(env, st, steps), now, creator, p);
  }

  /** A genesis can pay all its entries exactly if holding covers its list. */
  lemma GenesisPaysAll(env: Env, st: State, gs: GenesisState, order: seq<Pending>)
    requires st.pending == map[] && st.records == map[] && Valid(gs)
    requires Listed(Import(st, gs).pending, order) && forall p :: p in gs.pendingList ==> p in order
    requires forall p :: p in order ==> CanReceive(env, p.recipient)
    ensures PayAll(env, Import(st, gs), order).pending == map[] <==>
      forall d :: OwedIn(gs.pendingList, d) <= Get(st.holding, d)
  {
    var s := Import(st, gs);
    Imported(st, gs);
    ImportKeeps(st, gs);
    hide Import, PayAll, Listed, Owed, OwedIn;
    forall id | id in s.pending ensures s.pending[id] in order && s.pending[id].id == id {
      assert s.pending[id].id == id;
    }
    AllPaid(env, s, order);
    forall d { ImportAdds(st, gs, d, []); }
  }

  lemma SingleEntry(p: Pending)
    ensures forall d :: OwedIn([p], d) == if d == p.amount.denom then p.amount.amount else 0
    ensures forall a :: SentBy([p], a) == if a == p.sender then 1 else 0
  {
  }

  lemma SingleCancelled(env: Env, balances: Purse<Slot>, p: Pending, now: I64)
    requires p.id == 0 && p.amount.amount > 0 && CanReceive(env, p.sender)
    ensures var st := Import(EmptyStore(balances, map[p.amount.denom := p.amount.amount]), GenesisState(DEFAULT_PARAMS, [p], 1, []));
      var o := Deliver(env, st, now, CancelSend(p.sender, 0));
      && st.pending == map[0 := p]
      && o.Accepted? && Cancelled(o.state, p.sender) == 1 && Sent(o.state, p.sender) == 0
  {
    assert PutPending(map[], [p]) == map[0 := p];
  }

  /** A sound genesis whose tallies are wrong: the sender of its one entry, which is fully backed, can cancel
      it, and then has cancelled one send out of none. */
  lemma UntalliedGenesis(env: Env, balances: Purse<Slot>, p: Pending, now: I64)
    requires p.id == 0 && p.amount.amount > 0 && CanReceive(env, p.sender)
    ensures var gs := GenesisState(DEFAULT_PARAMS, [p], 1, []);
      var st := Import(EmptyStore(balances, map[p.amount.denom := p.amount.amount]), gs);
      var o := Deliver(env, st, now, CancelSend(p.sender, 0));
      && Valid(gs) && Inv(st) && !Tallied(st)
      && o.Accepted? && Cancelled(o.state, p.sender) == 1 && Sent(o.state, p.sender) == 0
  {
    var gs := GenesisState(DEFAULT_PARAMS, [p], 1, []);
    var store := EmptyStore(balances, map[p.amount.denom := p.amount.amount]);
    var st := Import(store, gs);
    assert PutPending(map[], [p]) == map[0 := p];
    SingleEntry(p);
    hide OwedIn, SentBy, Import, Deliver, PutPending, Inv, Tallied;
    assert Inv(st) by { ImportSound(store, gs); }
    assert !Tallied(st) by {
      ImportTallied(store, gs);
      assert p in gs.pendingList;
    }
    CancelAccepted(env, st, now, p.sender, 0);
    SingleCancelled(env, balances, p, now);
  }
}
