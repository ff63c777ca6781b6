/** The end-of-block loop refines a one-shot settlement: which entries go, who is credited how much, and
    that nothing else changes, whatever the order of the payouts and however many blocks were skipped. */
module Settlement {
  import opened Words
  import opened Sums
  import opened Types
  import opened Ledger
  import opened Solvency

  /** The due entries whose recipient the bank accepts. */
  function PayableIds(env: Env, st: State, now: I64): set<U64> {
    set id | id in DueIds(st.pending, now) && CanReceive(env, st.pending[id].recipient)
  }

  function Only(pending: map<U64, Pending>, ids: set<U64>): map<U64, Pending> {
    map id | id in pending && id in ids :: pending[id]
  }

  predicate Lands(env: Env, p: Pending, slot: Slot) {
    env.decode(p.recipient).Some? && SlotOf(env, p.recipient, p.amount.denom) == slot
  }

  ghost function CreditsTo(env: Env, pending: map<U64, Pending>, ids: set<U64>, slot: Slot): map<U64, nat> {
    map id | id in pending && id in ids && Lands(env, pending[id], slot) :: pending[id].amount.amount
  }

  /** The one-shot specification: exactly the entries in ids are gone, holding is down by their sum in each
      denomination, each slot is up by the sum of what lands in it, and the rest is untouched. */
  ghost predicate Settled(env: Env, st: State, ids: set<U64>, st': State) {
    && st'.pending == st.pending - ids
    && (forall d :: Get(st'.holding, d) + Owed(Only(st.pending, ids), d) == Get(st.holding, d))
    && (forall s :: Get(st'.balances, s) == Get(st.balances, s) + Sum(CreditsTo(env, st.pending, ids, s)))
    && st'.nextId == st.nextId && st'.records == st.records && st'.params == st.params
  }

  /** The specification leaves no freedom. */
  lemma SettledUnique(env: Env, st: State, ids: set<U64>, a: State, b: State)
    requires Settled(env, st, ids, a) && Settled(env, st, ids, b)
    ensures a == b
  {
    SamePurse(a.balances, b.balances);
    SamePurse(a.holding, b.holding);
  }

  lemma SettledNone(env: Env, st: State)
    ensures Settled(env, st, {}, st)
  {
    assert Only(st.pending, {}) == map[];
    forall d ensures Owed(Only(st.pending, {}), d) == 0 {
      assert AmountsIn(map[], d) == map[];
    }
    forall s ensures Sum(CreditsTo(env, st.pending, {}, s)) == 0 {
      assert CreditsTo(env, st.pending, {}, s) == map[];
    }
    assert st.pending - {} == st.pending;
  }

  lemma OwedOne(pending: map<U64, Pending>, p: Pending, d: Str)
    requires p.id in pending && pending[p.id] == p
    ensures Owed(Only(pending, {p.id}), d) == if p.amount.denom == d then p.amount.amount else 0
  {
    assert Only(pending, {p.id}) == map[p.id := p];
    OwedWithout(map[p.id := p], p.id, d);
    assert map[p.id := p] - {p.id} == map[];
    assert AmountsIn(map[], d) == map[];
  }

  lemma CreditsOne(env: Env, pending: map<U64, Pending>, p: Pending, s: Slot)
    requires p.id in pending && pending[p.id] == p
    ensures Sum(CreditsTo(env, pending, {p.id}, s)) == if Lands(env, p, s) then p.amount.amount else 0
  {
    var credits := CreditsTo(env, pending, {p.id}, s);
    if Lands(env, p, s) {
      assert credits == map[p.id := p.amount.amount];
      SumRemove(credits, p.id);
      assert credits - {p.id} == map[];
    } else {
      assert credits == map[];
    }
  }

  lemma SettledOne(env: Env, st: State, p: Pending)
    requires p.id in st.pending && st.pending[p.id] == p && Payable(env, st, p)
    ensures Settled(env, st, {p.id}, Execute(env, st, p))
  {
    hide Sum, Owed;
    forall d { OwedOne(st.pending, p, d); }
    forall s { CreditsOne(env, st.pending, p, s); }
  }

  lemma OwedUnion(pending: map<U64, Pending>, a: set<U64>, b: set<U64>, d: Str)
    requires a !! b
    ensures Owed(Only(pending, a + b), d) == Owed(Only(pending, a), d) + Owed(Only(pending - a, b), d)
  {
    SumSplit(AmountsIn(Only(pending, a + b), d), AmountsIn(Only(pending, a), d), AmountsIn(Only(pending - a, b), d));
  }

  lemma CreditsUnion(env: Env, pending: map<U64, Pending>, a: set<U64>, b: set<U64>, s: Slot)
    requires a !! b
    ensures Sum(CreditsTo(env, pending, a + b, s)) ==
            Sum(CreditsTo(env, pending, a, s)) + Sum(CreditsTo(env, pending - a, b, s))
  {
    SumSplit(CreditsTo(env, pending, a + b, s), CreditsTo(env, pending, a, s), CreditsTo(env, pending - a, b, s));
  }

  /** Two settlements of disjoint sets of entries are one settlement of their union. */
  lemma SettledCompose(env: Env, st: State, a: set<U64>, mid: State, b: set<U64>, st': State)
    requires Settled(env, st, a, mid) && Settled(env, mid, b, st') && a !! b
    ensures Settled(env, st, a + b, st')
  {
    hide Sum, Owed, CreditsTo, Only;
    assert st.pending - a - b == st.pending - (a + b);
    forall d { OwedUnion(st.pending, a, b, d); }
    forall s { CreditsUnion(env, st.pending, a, b, s); }
  }

  /** The entries of a list that the bank will pay. */
  function AcceptedIds(env: Env, order: seq<Pending>): set<U64> {
    set p | p in order && CanReceive(env, p.recipient) :: p.id
  }

  lemma ListedHead(pending: map<U64, Pending>, order: seq<Pending>)
    requires Listed(pending, order) && order != []
    ensures order[0].id in pending && pending[order[0].id] == order[0]
    ensures forall q :: q in order[1..] ==> q.id != order[0].id
  {
  }

  lemma {:induction false} PayAllSettles(env: Env, st: State, order: seq<Pending>)
    requires Inv(st) && Listed(st.pending, order)
    ensures Settled(env, st, AcceptedIds(env, order), PayAll(env, st, order))
    decreases |order|
  {
    hide Inv, Settled, Listed;
    if order == [] {
      SettledNone(env, st);
      assert AcceptedIds(env, order) == {};
    } else {
      var p, rest := order[0], order[1..];
      var mid := Execute(env, st, p);
      ListedHead(st.pending, order);
      ExecuteKeepsInv(env, st, p);
      ListedTail(env, st, order);
      PayAllSettles(env, mid, rest);
      assert order == [p] + rest;
      if CanReceive(env, p.recipient) {
        SettledOne(env, st, p);
        SettledCompose(env, st, {p.id}, mid, AcceptedIds(env, rest), PayAll(env, mid, rest));
        assert AcceptedIds(env, order) == {p.id} + AcceptedIds(env, rest);
      } else {
        assert AcceptedIds(env, order) == AcceptedIds(env, rest);
      }
    }
  }

  /** The end of a block is the one-shot settlement of the due entries whose recipient the bank accepts;
      a payout that fails does not touch the others. */
  lemma EndBlockSettles(env: Env, st: State, now: I64)
    requires Inv(st)
    ensures Settled(env, st, PayableIds(env, st, now), EndBlock(env, st, now))
  {
    DueListed(st, now);
    var due := Due(st.pending, now);
    PayAllSettles(env, st, due);
    assert AcceptedIds(env, due) == PayableIds(env, st, now) by {
      forall id | id in PayableIds(env, st, now) ensures id in AcceptedIds(env, due) {
        assert st.pending[id] in due;
      }
    }
  }

  /** The order of the payouts does not matter. */
  lemma OrderIrrelevant(env: Env, st: State, a: seq<Pending>, b: seq<Pending>)
    requires Inv(st) && Listed(st.pending, a) && Listed(st.pending, b)
    requires forall p :: p in a <==> p in b
    ensures PayAll(env, st, a) == PayAll(env, st, b)
  {
    PayAllSettles(env, st, a);
    PayAllSettles(env, st, b);
    assert AcceptedIds(env, a) == AcceptedIds(env, b);
    SettledUnique(env, st, AcceptedIds(env, a), PayAll(env, st, a), PayAll(env, st, b));
  }

  lemma PayableLater(env: Env, st: State, t1: I64, mid: State, t2: I64)
    requires t1 <= t2 && Settled(env, st, PayableIds(env, st, t1), mid)
    ensures PayableIds(env, st, t1) !! PayableIds(env, mid, t2)
    ensures PayableIds(env, st, t1) + PayableIds(env, mid, t2) == PayableIds(env, st, t2)
  {
    assert mid.pending == st.pending - PayableIds(env, st, t1);
    hide Settled;
  }

  /** Ending a block at t1 and another at t2, with nothing in between, is ending one at t2. */
  lemma SkippedBlocks(env: Env, st: State, t1: I64, t2: I64)
    requires Inv(st) && t1 <= t2
    ensures EndBlock(env, EndBlock(env, st, t1), t2) == EndBlock(env, st, t2)
  {
    var mid := EndBlock(env, st, t1);
    StepKeepsInv(env, st, BlockEnd(t1));
    hide Inv, EndBlock, PayableIds, Settled;
    EndBlockSettles(env, st, t1);
    EndBlockSettles(env, mid, t2);
    var a, b := PayableIds(env, st, t1), PayableIds(env, mid, t2);
    PayableLater(env, st, t1, mid, t2);
    SettledCompose(env, st, a, mid, b, EndBlock(env, mid, t2));
    EndBlockSettles(env, st, t2);
    SettledUnique(env, st, a + b, EndBlock(env, mid, t2), EndBlock(env, st, t2));
  }
}
