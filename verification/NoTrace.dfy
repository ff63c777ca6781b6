/** Undo leaves no trace: take any send and its later cancel out of a run, and what is left still succeeds
    step by step and ends with the same money everywhere. */
module NoTrace {
  import opened Words
  import opened Sums
  import opened Types
  import opened Ledger
  import opened Solvency
  import opened Settlement
  import opened Fates

  // ---- Renaming ids ----

  /** The id an entry gets when id k was never handed out. */
  function Down(k: U64, id: U64): U64 {
    if id > k then id - 1 else id
  }

  function Up(k: U64, id: U64): int {
    if id < k then id else id + 1
  }

  function Relabel(k: U64, p: Pending): Pending {
    p.(id := Down(k, p.id))
  }

  /** The same step, said about the new ids. */
  function Renamed(k: U64, step: Step): Step {
    if step.Message? && step.msg.CancelSend? then step.(msg := step.msg.(id := Down(k, step.msg.id))) else step
  }

  function RenamedAll(k: U64, steps: seq<Step>): (r: seq<Step>)
    ensures |r| == |steps|
  {
    if steps == [] then [] else [Renamed(k, steps[0])] + RenamedAll(k, steps[1..])
  }

  // ---- The run with the send shadows the run without it ----

  /** The two tables hold the same entries, apart from entry k and up to renaming. */
  ghost predicate Mirrors(k: U64, pending: map<U64, Pending>, pending': map<U64, Pending>) {
    && (forall id {:trigger Down(k, id)} :: id in pending && id != k ==>
         Down(k, id) in pending' && pending'[Down(k, id)] == Relabel(k, pending[id]))
    && (forall j {:trigger Up(k, j)} :: j in pending' ==> Up(k, j) in pending)
  }

  /** While the send p is open its coins are in holding instead of with its sender. */
  ghost predicate MoneyShadow(env: Env, p: Pending, open: bool, st: State, st': State) {
    && env.decode(p.sender).Some?
    && st'.balances == (if open then Add(st.balances, SlotOf(env, p.sender, p.amount.denom), p.amount.amount) else st.balances)
    && st.holding == (if open then Add(st'.holding, p.amount.denom, p.amount.amount) else st'.holding)
  }

  function Extra(r: Record, open: bool): Record {
    if open then BumpSent(r) else BumpCancelled(BumpSent(r))
  }

  /** Only the sender's two counts tell the runs apart. */
  ghost predicate TallyShadow(sender: Str, open: bool, records: map<Str, Record>, records': map<Str, Record>) {
    forall a :: GetRecord(records, a) ==
      if a == sender then Extra(GetRecord(records', a), open) else GetRecord(records', a)
  }

  ghost predicate Shadow(env: Env, p: Pending, open: bool, st: State, st': State) {
    && (if open then p.id in st.pending && st.pending[p.id] == p else p.id !in st.pending)
    && p.id < st.nextId && st'.nextId == st.nextId - 1
    && st'.params == st.params
    && MoneyShadow(env, p, open, st, st')
    && Mirrors(p.id, st.pending, st'.pending)
    && TallyShadow(p.sender, open, st.records, st'.records)
  }

  // ---- Money ----

  lemma MoneyDebit(env: Env, p: Pending, open: bool, st: State, st': State, s: Slot, n: nat)
    requires MoneyShadow(env, p, open, st, st') && n <= Get(st.balances, s)
    ensures n <= Get(st'.balances, s)
    ensures MoneyShadow(env, p, open, st.(balances := Sub(st.balances, s, n)), st'.(balances := Sub(st'.balances, s, n)))
  {
    if open {
      var mine := SlotOf(env, p.sender, p.amount.denom);
      SamePurse(Sub(st'.balances, s, n), Add(Sub(st.balances, s, n), mine, p.amount.amount));
    }
  }

  lemma MoneyCredit(env: Env, p: Pending, open: bool, st: State, st': State, s: Slot, n: nat)
    requires MoneyShadow(env, p, open, st, st')
    ensures MoneyShadow(env, p, open, st.(balances := Add(st.balances, s, n)), st'.(balances := Add(st'.balances, s, n)))
  {
    if open {
      var mine := SlotOf(env, p.sender, p.amount.denom);
      SamePurse(Add(st'.balances, s, n), Add(Add(st.balances, s, n), mine, p.amount.amount));
    }
  }

  lemma MoneyPark(env: Env, p: Pending, open: bool, st: State, st': State, d: Str, n: nat)
    requires MoneyShadow(env, p, open, st, st')
    ensures MoneyShadow(env, p, open, st.(holding := Add(st.holding, d, n)), st'.(holding := Add(st'.holding, d, n)))
  {
    if open {
      SamePurse(Add(st.holding, d, n), Add(Add(st'.holding, d, n), p.amount.denom, p.amount.amount));
    }
  }

  lemma MoneyRelease(env: Env, p: Pending, open: bool, st: State, st': State, d: Str, n: nat)
    requires MoneyShadow(env, p, open, st, st') && n <= Get(st.holding, d) && n <= Get(st'.holding, d)
    ensures MoneyShadow(env, p, open, st.(holding := Sub(st.holding, d, n)), st'.(holding := Sub(st'.holding, d, n)))
  {
    if open {
      SamePurse(Sub(st.holding, d, n), Add(Sub(st'.holding, d, n), p.amount.denom, p.amount.amount));
    }
  }

  lemma MoneyPayOut(env: Env, p: Pending, open: bool, st: State, st': State, address: Str, coin: Coin)
    requires MoneyShadow(env, p, open, st, st') && CanReceive(env, address)
    requires coin.amount <= Get(st.holding, coin.denom) && coin.amount <= Get(st'.holding, coin.denom)
    ensures MoneyShadow(env, p, open, PayOut(env, st, address, coin), PayOut(env, st', address, coin))
  {
    var slot := SlotOf(env, address, coin.denom);
    MoneyRelease(env, p, open, st, st', coin.denom, coin.amount);
    MoneyCredit(env, p, open, st.(holding := Sub(st.holding, coin.denom, coin.amount)),
                st'.(holding := Sub(st'.holding, coin.denom, coin.amount)), slot, coin.amount);
  }

  // ---- Tallies ----

  lemma TallyPut(p: Pending, open: bool, records: map<Str, Record>, records': map<Str, Record>, a: Str, r: Record, r': Record)
    requires TallyShadow(p.sender, open, records, records')
    requires r == if a == p.sender then Extra(r', open) else r'
    ensures TallyShadow(p.sender, open, records[a := r], records'[a := r'])
  {
    hide Extra;
    var recs, recs' := records[a := r], records'[a := r'];
    forall b ensures GetRecord(recs, b) == if b == p.sender then Extra(GetRecord(recs', b), open) else GetRecord(recs', b) {
      assert b != a ==> GetRecord(recs, b) == GetRecord(records, b) && GetRecord(recs', b) == GetRecord(records', b);
    }
  }

  lemma TallySent(p: Pending, open: bool, records: map<Str, Record>, records': map<Str, Record>, a: Str)
    requires TallyShadow(p.sender, open, records, records')
    ensures TallyShadow(p.sender, open, records[a := BumpSent(GetRecord(records, a))], records'[a := BumpSent(GetRecord(records', a))])
  {
    TallyPut(p, open, records, records', a, BumpSent(GetRecord(records, a)), BumpSent(GetRecord(records', a)));
  }

  lemma TallyCancelled(p: Pending, open: bool, records: map<Str, Record>, records': map<Str, Record>, a: Str)
    requires TallyShadow(p.sender, open, records, records')
    ensures TallyShadow(p.sender, open, records[a := BumpCancelled(GetRecord(records, a))],
                        records'[a := BumpCancelled(GetRecord(records', a))])
  {
    TallyPut(p, open, records, records', a, BumpCancelled(GetRecord(records, a)), BumpCancelled(GetRecord(records', a)));
  }

  // ---- Table ----

  lemma {:induction false} InjectionSize(k: U64, a: set<U64>, b: set<U64>)
    requires forall j :: j in a ==> Up(k, j) in b
    ensures |a| <= |b|
    decreases |a|
  {
    if a != {} {
      var j :| j in a;
      InjectionSize(k, a - {j}, b - {Up(k, j)});
    }
  }

  lemma MirrorsOpen(k: U64, pending: map<U64, Pending>, pending': map<U64, Pending>, a: Str)
    requires Mirrors(k, pending, pending')
    ensures |OpenIds(pending', a)| <= |OpenIds(pending, a)|
  {
    forall j | j in OpenIds(pending', a) ensures Up(k, j) in OpenIds(pending, a) {
      var id: U64 := Up(k, j);
      assert id in pending && id != k && Down(k, id) == j;
    }
    InjectionSize(k, OpenIds(pending', a), OpenIds(pending, a));
  }

  lemma MirrorsRemove(k: U64, pending: map<U64, Pending>, pending': map<U64, Pending>, id: U64)
    requires Mirrors(k, pending, pending') && id in pending && id != k
    ensures Mirrors(k, pending - {id}, pending' - {Down(k, id)})
  {
    var pend, pend' := pending - {id}, pending' - {Down(k, id)};
    forall i | i in pend && i != k ensures Down(k, i) in pend' && pend'[Down(k, i)] == Relabel(k, pend[i]) {
      assert i in pending && Down(k, i) != Down(k, id);
    }
    forall j | j in pend' ensures Up(k, j) in pend {
      assert j in pending' && j != Down(k, id);
    }
  }

  lemma MirrorsInsert(k: U64, pending: map<U64, Pending>, pending': map<U64, Pending>, p: Pending)
    requires Mirrors(k, pending, pending') && p.id > k
    ensures Mirrors(k, pending[p.id := p], pending'[Down(k, p.id) := Relabel(k, p)])
  {
    var pend, pend' := pending[p.id := p], pending'[Down(k, p.id) := Relabel(k, p)];
    forall id | id in pend && id != k ensures Down(k, id) in pend' && pend'[Down(k, id)] == Relabel(k, pend[id]) {
      if id != p.id { assert Down(k, id) != Down(k, p.id); }
    }
  }

  // ---- End of block ----

  function RelabelAll(k: U64, order: seq<Pending>): seq<Pending> {
    if order == [] then []
    else (if order[0].id == k then [] else [Relabel(k, order[0])]) + RelabelAll(k, order[1..])
  }

  lemma {:induction false} RelabelAllMembers(k: U64, order: seq<Pending>, q: Pending)
    ensures q in RelabelAll(k, order) <==> exists p :: p in order && p.id != k && q == Relabel(k, p)
  {
    if order != [] {
      RelabelAllMembers(k, order[1..], q);
      assert order == [order[0]] + order[1..];
    }
  }

  lemma {:induction false} RelabelAllListed(k: U64, pending: map<U64, Pending>, pending': map<U64, Pending>, order: seq<Pending>)
    requires Mirrors(k, pending, pending') && Listed(pending, order)
    ensures Listed(pending', RelabelAll(k, order))
  {
    hide Mirrors, Listed, RelabelAll;
    RelabelAllTurn(k, order);
    if order == [] {
      NoneListed(pending');
    } else {
      ListedHead(pending, order);
      ListedBehind(pending, order);
      RelabelAllListed(k, pending, pending', order[1..]);
      if order[0].id != k { RelabelledHead(k, pending, pending', order); }
    }
  }

  lemma RelabelAllTurn(k: U64, order: seq<Pending>)
    ensures order == [] ==> RelabelAll(k, order) == []
    ensures order != [] && order[0].id == k ==> RelabelAll(k, order) == RelabelAll(k, order[1..])
    ensures order != [] && order[0].id != k ==> RelabelAll(k, order) == [Relabel(k, order[0])] + RelabelAll(k, order[1..])
  {
  }

  lemma NoneListed(pending: map<U64, Pending>)
    ensures Listed(pending, [])
  {
  }

  lemma ListedBehind(pending: map<U64, Pending>, order: seq<Pending>)
    requires order != [] && Listed(pending, order)
    ensures Listed(pending, order[1..])
  {
  }

  lemma RelabelledHead(k: U64, pending: map<U64, Pending>, pending': map<U64, Pending>, order: seq<Pending>)
    requires Mirrors(k, pending, pending') && Listed(pending, order) && order != [] && order[0].id != k
    requires Listed(pending', RelabelAll(k, order[1..]))
    ensures Listed(pending', [Relabel(k, order[0])] + RelabelAll(k, order[1..]))
  {
    var q, rest := Relabel(k, order[0]), RelabelAll(k, order[1..]);
    assert q.id in pending' && pending'[q.id] == q;
    ListedHead(pending, order);
    hide RelabelAll, Mirrors;
    forall i | 0 <= i < |rest| ensures rest[i].id != q.id {
      RelabelAllMembers(k, order[1..], rest[i]);
    }
  }

  lemma ExecuteShadow(env: Env, p: Pending, open: bool, st: State, st': State, e: Pending)
    requires Inv(st) && Inv(st') && Shadow(env, p, open, st, st')
    requires e.id in st.pending && st.pending[e.id] == e && e.id != p.id
    ensures Shadow(env, p, open, Execute(env, st, e), Execute(env, st', Relabel(p.id, e)))
  {
    var e' := Relabel(p.id, e);
    Covered(st, e.id);
    Covered(st', e'.id);
    if CanReceive(env, e.recipient) {
      MoneyPayOut(env, p, open, st, st', e.recipient, e.amount);
      MirrorsRemove(p.id, st.pending, st'.pending, e.id);
    }
  }

  lemma {:induction false} PayAllRemoves(env: Env, st: State, order: seq<Pending>, id: U64)
    requires id !in st.pending
    ensures id !in PayAll(env, st, order).pending
    decreases |order|
  {
    if order != [] { PayAllRemoves(env, Execute(env, st, order[0]), order[1..], id); }
  }

  lemma {:induction false} PayAllShadow(env: Env, p: Pending, open: bool, st: State, st': State, order: seq<Pending>)
    requires Inv(st) && Inv(st') && Shadow(env, p, open, st, st') && Listed(st.pending, order)
    requires open ==> p.id in PayAll(env, st, order).pending
    ensures Shadow(env, p, open, PayAll(env, st, order), PayAll(env, st', RelabelAll(p.id, order)))
    decreases |order|
  {
    hide Inv, Shadow, Execute, Listed;
    if order != [] {
      var e, mid := order[0], Execute(env, st, order[0]);
      ListedHead(st.pending, order);
      ListedTail(env, st, order);
      ExecuteKeepsInv(env, st, e);
      if e.id == p.id {
        ShadowSelf(env, p, open, st, st');
        SelfUnpaid(env, st, order);
        assert RelabelAll(p.id, order) == RelabelAll(p.id, order[1..]);
        PayAllShadow(env, p, open, st, st', order[1..]);
      } else {
        var e' := Relabel(p.id, e);
        var order' := RelabelAll(p.id, order);
        assert order'[0] == e' && order'[1..] == RelabelAll(p.id, order[1..]);
        ShadowEntry(env, p, open, st, st', e);
        ExecuteShadow(env, p, open, st, st', e);
        ExecuteKeepsInv(env, st', e');
        PayAllShadow(env, p, open, mid, Execute(env, st', e'), order[1..]);
      }
    }
  }

  lemma ShadowSelf(env: Env, p: Pending, open: bool, st: State, st': State)
    requires Shadow(env, p, open, st, st')
    ensures open <==> p.id in st.pending
  {
  }

  lemma ShadowEntry(env: Env, p: Pending, open: bool, st: State, st': State, e: Pending)
    requires Shadow(env, p, open, st, st') && e.id in st.pending && st.pending[e.id] == e && e.id != p.id
    ensures var e' := Relabel(p.id, e); e'.id in st'.pending && st'.pending[e'.id] == e'
  {
  }

  /** An entry that survives the payouts was not payable itself. */
  lemma SelfUnpaid(env: Env, st: State, order: seq<Pending>)
    requires order != [] && order[0].id in PayAll(env, st, order).pending
    ensures Execute(env, st, order[0]) == st
  {
    if Payable(env, st, order[0]) {
      PayAllRemoves(env, Execute(env, st, order[0]), order[1..], order[0].id);
    }
  }

  /** Apart from entry k the same entries fall due in both runs. */
  lemma DueRelabelled(k: U64, st: State, st': State, now: I64)
    requires Mirrors(k, st.pending, st'.pending) && Keyed(st) && Keyed(st') && k < st.nextId
    ensures forall q :: q in RelabelAll(k, Due(st.pending, now)) <==> q in Due(st'.pending, now)
  {
    var due, due' := Due(st.pending, now), Due(st'.pending, now);
    DueListed(st, now);
    DueListed(st', now);
    hide Due, RelabelAll, Listed;
    forall q ensures q in RelabelAll(k, due) <==> q in due' {
      RelabelAllMembers(k, due, q);
      if q in due' {
        var id: U64 := Up(k, q.id);
        assert id in st.pending && Down(k, id) == q.id;
        assert st.pending[id] in due;
      }
    }
  }

  lemma BlockEndShadow(env: Env, p: Pending, open: bool, st: State, st': State, now: I64)
    requires Inv(st) && Inv(st') && Shadow(env, p, open, st, st')
    requires open ==> p.id in EndBlock(env, st, now).pending
    ensures Shadow(env, p, open, EndBlock(env, st, now), EndBlock(env, st', now))
  {
    var k, due, due' := p.id, Due(st.pending, now), Due(st'.pending, now);
    var order := RelabelAll(k, due);
    assert Mirrors(k, st.pending, st'.pending);
    DueListed(st, now);
    DueListed(st', now);
    hide Inv, Shadow, Mirrors, Listed, Due, PayAll;
    RelabelAllListed(k, st.pending, st'.pending, due);
    PayAllShadow(env, p, open, st, st', due);
    DueRelabelled(k, st, st', now);
    OrderIrrelevant(env, st', order, due');
  }

  // ---- Messages ----

  lemma ParkShadow(env: Env, p: Pending, open: bool, st: State, st': State,
                   now: I64, sender: Str, recipient: Str, coin: Coin, window: U64)
    requires Shadow(env, p, open, st, st') && st.nextId + 1 < TWO_64 && env.decode(sender).Some?
    requires Park(env, st, now, sender, recipient, coin, window).Accepted?
    requires p.id in st.pending ==> p.id < st.nextId
    ensures var o, o' := Park(env, st, now, sender, recipient, coin, window), Park(env, st', now, sender, recipient, coin, window);
      o'.Accepted? && Shadow(env, p, open, o.state, o'.state)
  {
    hide OpenIds, Sub, Add, Mirrors, TallyShadow, BumpSent, GetRecord, Extra;
    var source := SlotOf(env, sender, coin.denom);
    var e := Pending(st.nextId, sender, recipient, coin, ExecuteAt(now, window));
    MirrorsOpen(p.id, st.pending, st'.pending, sender);
    MoneyDebit(env, p, open, st, st', source, coin.amount);
    MoneyPark(env, p, open, st.(balances := Sub(st.balances, source, coin.amount)),
              st'.(balances := Sub(st'.balances, source, coin.amount)), coin.denom, coin.amount);
    MirrorsInsert(p.id, st.pending, st'.pending, e);
    TallySent(p, open, st.records, st'.records, sender);
  }

  lemma SendNowShadow(env: Env, p: Pending, open: bool, st: State, st': State,
                      sender: Str, recipient: Str, coin: Coin, window: U64)
    requires Shadow(env, p, open, st, st') && env.decode(sender).Some? && env.decode(recipient).Some?
    requires SendNow(env, st, sender, recipient, coin, window).Accepted?
    ensures var o, o' := SendNow(env, st, sender, recipient, coin, window), SendNow(env, st', sender, recipient, coin, window);
      o'.Accepted? && Shadow(env, p, open, o.state, o'.state)
  {
    var source := SlotOf(env, sender, coin.denom);
    MoneyDebit(env, p, open, st, st', source, coin.amount);
    MoneyCredit(env, p, open, st.(balances := Sub(st.balances, source, coin.amount)),
                st'.(balances := Sub(st'.balances, source, coin.amount)),
                SlotOf(env, recipient, coin.denom), coin.amount);
  }

  lemma CancelShadow(env: Env, p: Pending, open: bool, st: State, st': State, id: U64)
    requires Inv(st) && Inv(st') && Shadow(env, p, open, st, st') && id in st.pending && id != p.id
    requires env.decode(st.pending[id].sender).Some? && Cancel(env, st, st.pending[id], id).Accepted?
    ensures var id' := Down(p.id, id);
      && id' in st'.pending && st'.pending[id'].sender == st.pending[id].sender
      && var o, o' := Cancel(env, st, st.pending[id], id), Cancel(env, st', st'.pending[id'], id');
      o'.Accepted? && Shadow(env, p, open, o.state, o'.state)
  {
    var e := st.pending[id];
    hide Keyed, Capped, Indexed, Owed, Add, Sub, Mirrors, TallyShadow, BumpCancelled, GetRecord, Extra, MoneyShadow;
    ShadowEntry(env, p, open, st, st', e);
    Covered(st', Down(p.id, id));
    MoneyPayOut(env, p, open, st, st', e.sender, e.amount);
    CancelledShadow(env, p, open, st, st', id, e.sender,
                    PayOut(env, st, e.sender, e.amount), PayOut(env, st', e.sender, e.amount));
    hide Inv, Shadow, PayOut, Get;
  }

  /** An entry is taken out of both tables and booked as cancelled, whatever was paid for it. */
  lemma CancelledShadow(env: Env, p: Pending, open: bool, st: State, st': State, id: U64, a: Str, t: State, t': State)
    requires Shadow(env, p, open, st, st') && id in st.pending && id != p.id
    requires MoneyShadow(env, p, open, t, t') && t.params == st.params && t'.params == st'.params
    requires t.nextId == st.nextId && t'.nextId == st'.nextId
    ensures Shadow(env, p, open,
                   t.(pending := st.pending - {id}, records := st.records[a := BumpCancelled(GetRecord(st.records, a))]),
                   t'.(pending := st'.pending - {Down(p.id, id)},
                       records := st'.records[a := BumpCancelled(GetRecord(st'.records, a))]))
  {
    hide Add, Mirrors, TallyShadow, BumpCancelled, GetRecord, Extra;
    MirrorsRemove(p.id, st.pending, st'.pending, id);
    TallyCancelled(p, open, st.records, st'.records, a);
  }

  lemma ShadowSame(env: Env, p: Pending, open: bool, st: State, st': State, a: Str, asked: U64)
    requires Shadow(env, p, open, st, st')
    ensures GetRecord(st.records, a).finalOnly == GetRecord(st'.records, a).finalOnly
    ensures Window(st, asked) == Window(st', asked)
  {
  }

  lemma FlagShadow(env: Env, p: Pending, open: bool, st: State, st': State, a: Str, finalOnly: bool)
    requires Shadow(env, p, open, st, st')
    ensures Shadow(env, p, open,
                   st.(records := st.records[a := GetRecord(st.records, a).(finalOnly := finalOnly)]),
                   st'.(records := st'.records[a := GetRecord(st'.records, a).(finalOnly := finalOnly)]))
  {
    TallyPut(p, open, st.records, st'.records, a, GetRecord(st.records, a).(finalOnly := finalOnly),
             GetRecord(st'.records, a).(finalOnly := finalOnly));
    hide TallyShadow;
  }

  lemma ParamsShadow(env: Env, p: Pending, open: bool, st: State, st': State, params: Params)
    requires Shadow(env, p, open, st, st')
    ensures Shadow(env, p, open, st.(params := params), st'.(params := params))
  {
  }

  lemma MessageShadow(env: Env, p: Pending, open: bool, st: State, st': State, now: I64, msg: Msg)
    requires Inv(st) && Inv(st') && Shadow(env, p, open, st, st') && st.nextId + 1 < TWO_64
    requires Deliver(env, st, now, msg).Accepted?
    requires open ==> p.id in Deliver(env, st, now, msg).state.pending
    ensures var o, o' := Deliver(env, st, now, msg), Deliver(env, st', now, Renamed(p.id, Message(now, msg)).msg);
      o'.Accepted? && Shadow(env, p, open, o.state, o'.state)
  {
    ShadowSelf(env, p, open, st, st');
    hide Inv, Shadow, Park, SendNow, Cancel, GetRecord, CanReceive, WrapU64;
    match msg
    case DelayedSend(creator, recipient, denom, amount, window) =>
      ShadowSame(env, p, open, st, st', recipient, window);
      if GetRecord(st.records, recipient).finalOnly {
        SendNowShadow(env, p, open, st, st', creator, recipient, Coin(denom, amount), window);
      } else {
        ParkShadow(env, p, open, st, st', now, creator, recipient, Coin(denom, amount), Window(st, window));
      }
    case CancelSend(_, id) =>
      assert id != p.id;
      CancelShadow(env, p, open, st, st', id);
    case SetFinalOnly(creator, finalOnly) => FlagShadow(env, p, open, st, st', creator, finalOnly);
    case UpdateParams(_, params) => ParamsShadow(env, p, open, st, st', params);
  }

  lemma StepShadow(env: Env, p: Pending, open: bool, st: State, st': State, step: Step)
    requires Inv(st) && Inv(st') && Shadow(env, p, open, st, st') && st.nextId + 1 < TWO_64
    requires Succeeds(env, st, step)
    requires open ==> p.id in Next(env, st, step).pending
    ensures Succeeds(env, st', Renamed(p.id, step))
    ensures Shadow(env, p, open, Next(env, st, step), Next(env, st', Renamed(p.id, step)))
  {
    match step
    case BlockEnd(now) => BlockEndShadow(env, p, open, st, st', now);
    case Message(now, msg) => MessageShadow(env, p, open, st, st', now, msg);
  }

  // ---- Runs ----

  lemma {:induction false} RunShadow(env: Env, p: Pending, open: bool, st: State, st': State, steps: seq<Step>)
    requires Inv(st) && Inv(st') && Shadow(env, p, open, st, st') && st.nextId + |steps| < TWO_64
    requires AllSucceed(env, st, steps)
    requires open ==> p.id in Run(env, st, steps).pending
    ensures AllSucceed(env, st', RenamedAll(p.id, steps))
    ensures Shadow(env, p, open, Run(env, st, steps), Run(env, st', RenamedAll(p.id, steps)))
    ensures Inv(Run(env, st', RenamedAll(p.id, steps)))
    decreases |steps|
  {
    hide *;
    ShadowBounds(env, p, open, st, st');
    if steps == [] {
      RunNone(env, st);
      RunNone(env, st');
    } else {
      var step, rest := steps[0], steps[1..];
      var step', rest' := Renamed(p.id, step), RenamedAll(p.id, rest);
      assert steps == [step] + rest;
      RenamedFirst(p.id, step, rest);
      RunFirst(env, st, step, rest);
      RunFirst(env, st', step', rest');
      StepSound(env, st, step);
      NotReopened(env, Next(env, st, step), rest, p.id);
      StepShadow(env, p, open, st, st', step);
      StepSound(env, st', step');
      RunShadow(env, p, open, Next(env, st, step), Next(env, st', step'), rest);
    }
  }

  lemma RunNone(env: Env, st: State)
    ensures Run(env, st, []) == st && AllSucceed(env, st, [])
    ensures forall k :: RenamedAll(k, []) == []
  {
  }

  lemma RenamedFirst(k: U64, step: Step, rest: seq<Step>)
    ensures RenamedAll(k, [step] + rest) == [Renamed(k, step)] + RenamedAll(k, rest)
  {
  }

  lemma StepSound(env: Env, st: State, step: Step)
    requires Inv(st) && st.nextId + 1 < TWO_64
    ensures Inv(Next(env, st, step))
    ensures st.nextId <= Next(env, st, step).nextId <= st.nextId + 1
  {
    hide Inv, Next, Parks;
    StepKeepsInv(env, st, step);
    StepNextId(env, st, step);
  }

  lemma ShadowBounds(env: Env, p: Pending, open: bool, st: State, st': State)
    requires Shadow(env, p, open, st, st')
    ensures p.id < st.nextId && st'.nextId == st.nextId - 1
  {
  }

  lemma NotReopened(env: Env, st: State, steps: seq<Step>, id: U64)
    requires Inv(st) && st.nextId + |steps| < TWO_64
    ensures id < st.nextId && id in Run(env, st, steps).pending ==> id in st.pending
  {
    OneFate(env, st, steps, id);
  }

  /** A fresh send is the only difference from the state before it. */
  lemma SendShadow(env: Env, st: State, send: Step)
    requires Inv(st) && st.nextId + 1 < TWO_64 && Parks(env, st, send)
    ensures var st1 := Next(env, st, send);
      st.nextId in st1.pending && st1.pending[st.nextId].id == st.nextId && st1.pending[st.nextId].sender == send.msg.creator
      && Shadow(env, st1.pending[st.nextId], true, st1, st)
  {
    var k, st1 := st.nextId, Next(env, st, send);
    var source := SlotOf(env, send.msg.creator, send.msg.denom);
    SamePurse(Add(Sub(st.balances, source, send.msg.amount), source, send.msg.amount), st.balances);
    FreshMirror(st, st1.pending[k]);
    FreshTally(st.records, send.msg.creator);
    hide Inv, Mirrors, TallyShadow, GetRecord, Extra, BumpSent;
  }

  lemma FreshMirror(st: State, p: Pending)
    requires Keyed(st) && p.id == st.nextId
    ensures Mirrors(p.id, st.pending[p.id := p], st.pending)
  {
  }

  lemma FreshTally(records: map<Str, Record>, sender: Str)
    ensures TallyShadow(sender, true, records[sender := BumpSent(GetRecord(records, sender))], records)
  {
  }

  /** Its cancel gives the money back and leaves only the counts. */
  lemma CancelClosesShadow(env: Env, st: State, st': State, p: Pending, now: I64, creator: Str)
    requires Inv(st) && Shadow(env, p, true, st, st')
    requires Deliver(env, st, now, CancelSend(creator, p.id)).Accepted?
    ensures Shadow(env, p, false, Deliver(env, st, now, CancelSend(creator, p.id)).state, st')
  {
    var st1 := Deliver(env, st, now, CancelSend(creator, p.id)).state;
    SamePurse(st1.holding, st'.holding);
    ClosedMirror(p.id, st.pending, st'.pending);
    ClosedTally(p, st.records, st'.records);
    hide Inv, Mirrors, TallyShadow, GetRecord, Extra, BumpCancelled;
  }

  lemma ClosedMirror(k: U64, pending: map<U64, Pending>, pending': map<U64, Pending>)
    requires Mirrors(k, pending, pending')
    ensures Mirrors(k, pending - {k}, pending')
  {
  }

  lemma ClosedTally(p: Pending, records: map<Str, Record>, records': map<Str, Record>)
    requires TallyShadow(p.sender, true, records, records')
    ensures TallyShadow(p.sender, false, records[p.sender := BumpCancelled(GetRecord(records, p.sender))], records')
  {
  }

  /** What is left of a send k that was undone: nothing in the money or the table, only the sender's two
      counts and one number of the sequence. */
  ghost predicate NoTrace(k: U64, sender: Str, st: State, st': State) {
    && st'.balances == st.balances && st'.holding == st.holding && st'.params == st.params
    && k !in st.pending && Mirrors(k, st.pending, st'.pending)
    && st'.nextId == st.nextId - 1
    && forall a :: GetRecord(st.records, a) ==
         if a == sender then BumpCancelled(BumpSent(GetRecord(st'.records, a))) else GetRecord(st'.records, a)
  }

  /** From any sound state, take a send and its later cancel out of a run in which every step succeeds.
      The remaining steps, with the ids after k moved down by one, succeed as well, and no trace is left. */
  lemma UndoLeavesNoTrace(env: Env, st: State, pre: seq<Step>, send: Step, mid: seq<Step>, cancel: Step, post: seq<Step>)
    requires Inv(st) && st.nextId + |pre| + |mid| + |post| + 2 < TWO_64
    requires AllSucceed(env, st, pre + ([send] + (mid + ([cancel] + post))))
    requires Parks(env, Run(env, st, pre), send)
    requires cancel.Message? && cancel.msg.CancelSend? && cancel.msg.id == Run(env, st, pre).nextId
    ensures var k := Run(env, st, pre).nextId;
      var without := pre + (RenamedAll(k, mid) + RenamedAll(k, post));
      && AllSucceed(env, st, without)
      && NoTrace(k, send.msg.creator, Run(env, st, pre + ([send] + (mid + ([cancel] + post)))), Run(env, st, without))
  {
    hide Inv, Deliver, Shadow, Run, AllSucceed, Parks;
    var s0 := Run(env, st, pre);
    var k := s0.nextId;
    RunKeepsInv(env, st, pre);
    RunAppend(env, st, pre, [send] + (mid + ([cancel] + post)));
    RunAppend(env, st, pre, RenamedAll(k, mid) + RenamedAll(k, post));
    UndoFromHere(env, s0, send, mid, cancel, post);
  }

  lemma RunFirst(env: Env, st: State, step: Step, rest: seq<Step>)
    ensures Run(env, st, [step] + rest) == Run(env, Next(env, st, step), rest)
    ensures AllSucceed(env, st, [step] + rest) <==> Succeeds(env, st, step) && AllSucceed(env, Next(env, st, step), rest)
  {
    hide Next, Succeeds;
    assert ([step] + rest)[1..] == rest;
  }

  lemma UndoFromHere(env: Env, s0: State, send: Step, mid: seq<Step>, cancel: Step, post: seq<Step>)
    requires Inv(s0) && s0.nextId + |mid| + |post| + 2 < TWO_64
    requires AllSucceed(env, s0, [send] + (mid + ([cancel] + post)))
    requires Parks(env, s0, send)
    requires cancel.Message? && cancel.msg.CancelSend? && cancel.msg.id == s0.nextId
    ensures var k := s0.nextId;
      var without := RenamedAll(k, mid) + RenamedAll(k, post);
      && AllSucceed(env, s0, without)
      && NoTrace(k, send.msg.creator, Run(env, s0, [send] + (mid + ([cancel] + post))), Run(env, s0, without))
  {
    var k, s1 := s0.nextId, Next(env, s0, send);
    var s2 := Run(env, s1, mid);
    var s3 := Next(env, s2, cancel);
    SendShadow(env, s0, send);
    StepKeepsInv(env, s0, send);
    StepNextId(env, s0, send);
    hide Inv, Deliver, Shadow, Run, AllSucceed, Parks, RenamedAll;
    var p := s1.pending[k];
    RunFirst(env, s0, send, mid + ([cancel] + post));
    RunAppend(env, s1, mid, [cancel] + post);
    RunFirst(env, s2, cancel, post);
    RunKeepsInv(env, s1, mid);
    StepKeepsInv(env, s2, cancel);
    StepNextId(env, s2, cancel);
    CancelNeedsOpen(env, s2, cancel);
    RunShadow(env, p, true, s1, s0, mid);
    var t2 := Run(env, s0, RenamedAll(k, mid));
    CancelClosesShadow(env, s2, t2, p, cancel.now, cancel.msg.creator);
    RunShadow(env, p, false, s3, t2, post);
    RunAppend(env, s0, RenamedAll(k, mid), RenamedAll(k, post));
    ClosedShadowIsNoTrace(env, p, Run(env, s3, post), Run(env, t2, RenamedAll(k, post)));
  }

  lemma CancelNeedsOpen(env: Env, st: State, cancel: Step)
    requires cancel.Message? && cancel.msg.CancelSend? && Succeeds(env, st, cancel)
    ensures cancel.msg.id in st.pending
    ensures !Parks(env, st, cancel)
  {
  }

  lemma ClosedShadowIsNoTrace(env: Env, p: Pending, st: State, st': State)
    requires Shadow(env, p, false, st, st')
    ensures NoTrace(p.id, p.sender, st, st')
  {
  }
}
