/** What admission promises: windows within the dials, the shop switch, and no write on refusal. */
module Admission {
  import opened Words
  import opened Types
  import opened Ledger
  import opened Solvency

  /** While the parameters are in order, asking for the default window is never refused for its length. */
  lemma DefaultWindowAdmitted(env: Env, st: State, now: I64, msg: Msg)
    requires st.params.Valid() && msg.DelayedSend? && msg.window == 0
    ensures var o := Deliver(env, st, now, msg);
      o.Refused? ==> o.error != WindowTooShort && o.error != WindowTooLong && o.error != FinalOnlyRecipient
  {
  }

  /** Every entry was admitted with the window its sender asked for, or the default, between the dials of its
      moment, for a recipient that had not
      opted out, and its sender stays within the cap. */
  lemma AdmittedWithinDials(env: Env, st: State, now: I64, msg: Msg)
    requires Inv(st) && st.nextId + 1 < TWO_64 && Parks(env, st, Message(now, msg))
    ensures var st' := Next(env, st, Message(now, msg));
      var p := st'.pending[st.nextId];
      var w := if msg.window == 0 then st.params.defaultWindow else msg.window;
      && st'.pending == st.pending[st.nextId := p] && st.nextId !in st.pending
      && p == Pending(st.nextId, msg.creator, msg.recipient, Coin(msg.denom, msg.amount), p.executeAt)
      && !GetRecord(st.records, p.recipient).finalOnly && p.sender != p.recipient
      && |OpenIds(st'.pending, p.sender)| == |OpenIds(st.pending, p.sender)| + 1 <= MAX_OPEN_PER_SENDER
      && st.params.minWindow <= w <= st.params.maxWindow && p.executeAt == ExecuteAt(now, w)
  {
    var st' := Next(env, st, Message(now, msg));
    var p := st'.pending[st.nextId];
    OpenWith(st.pending, p, p.sender);
  }

  /** Whether a step flips the switch of an address. */
  predicate Flips(step: Step, address: Str) {
    step.Message? && step.msg.SetFinalOnly? && step.msg.creator == address
  }

  lemma StepKeepsShopClear(env: Env, st: State, step: Step, shop: Str, id: U64)
    requires GetRecord(st.records, shop).finalOnly && !Flips(step, shop)
    ensures var st' := Next(env, st, step);
      && GetRecord(st'.records, shop).finalOnly
      && (id in st'.pending && st'.pending[id].recipient == shop ==> id in st.pending && st.pending[id] == st'.pending[id])
  {
    if step.BlockEnd? {
      PayAllFrame(env, st, Due(st.pending, step.now));
      PayAllShrinks(env, st, Due(st.pending, step.now), id);
    } else if Succeeds(env, st, step) {
      MessageKeepsShopClear(env, st, step.now, step.msg, shop, id);
    }
  }

  lemma MessageKeepsShopClear(env: Env, st: State, now: I64, msg: Msg, shop: Str, id: U64)
    requires GetRecord(st.records, shop).finalOnly && !Flips(Message(now, msg), shop)
    requires Deliver(env, st, now, msg).Accepted?
    ensures var st' := Deliver(env, st, now, msg).state;
      && GetRecord(st'.records, shop).finalOnly
      && (id in st'.pending && st'.pending[id].recipient == shop ==> id in st.pending && st.pending[id] == st'.pending[id])
  {
    hide OpenIds;
    match msg
    case DelayedSend(_, _, _, _, _) =>
    case CancelSend(_, _) =>
    case SetFinalOnly(_, _) =>
    case UpdateParams(_, _) =>
  }

  lemma {:induction false} PayAllShrinks(env: Env, st: State, order: seq<Pending>, id: U64)
    ensures var st' := PayAll(env, st, order); id in st'.pending ==> id in st.pending && st'.pending[id] == st.pending[id]
    decreases |order|
  {
    if order != [] { PayAllShrinks(env, Execute(env, st, order[0]), order[1..], id); }
  }

  /** While an address is marked final-only, over any run in which it does not flip its switch, nothing new
      becomes pending for it: what is pending at the end was pending, unchanged, at the start. */
  lemma {:induction false} ShopStaysClear(env: Env, st: State, steps: seq<Step>, shop: Str, id: U64)
    requires GetRecord(st.records, shop).finalOnly
    requires forall s :: s in steps ==> !Flips(s, shop)
    requires id in Run(env, st, steps).pending && Run(env, st, steps).pending[id].recipient == shop
    ensures id in st.pending && st.pending[id] == Run(env, st, steps).pending[id]
    decreases |steps|
  {
    if steps != [] {
      var mid := Next(env, st, steps[0]);
      StepKeepsShopClear(env, st, steps[0], shop, id);
      hide Next, GetRecord;
      ShopStaysClear(env, mid, steps[1..], shop, id);
    }
  }
}
