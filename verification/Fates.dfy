/** One fate per id: ids are never reused, an entry never changes while it is open, and it is closed at most
    once, either by a refund to its sender or by a payment to its recipient. */
module Fates {
  import opened Words
  import opened Types
  import Sums
  import opened Ledger
  import opened Solvency
  import opened Settlement

  predicate Closes(e: Event, id: U64) {
    (e.SendCancelled? || e.SendFinal?) && e.id == id
  }

  predicate Opens(e: Event, id: U64) {
    e.SendDelayed? && e.id == id
  }

  /** How often a log opens an id. */
  function Openings(log: seq<Event>, id: U64): nat {
    if log == [] then 0 else (if Opens(log[0], id) then 1 else 0) + Openings(log[1..], id)
  }

  /** How often a log closes an id. */
  function Closings(log: seq<Event>, id: U64): nat {
    if log == [] then 0 else (if Closes(log[0], id) then 1 else 0) + Closings(log[1..], id)
  }

  function IsOpen(st: State, id: U64): nat {
    if id in st.pending then 1 else 0
  }

  /** What may be said when an entry is closed: its own sender, recipient and coin. */
  predicate ClosesAs(e: Event, p: Pending) {
    || e == SendCancelled(p.id, p.sender, p.recipient, p.amount)
    || e == SendFinal(p.id, p.sender, p.recipient, p.amount)
  }

  lemma {:induction false} ClosingsAppend(a: seq<Event>, b: seq<Event>, id: U64)
    ensures Closings(a + b, id) == Closings(a, id) + Closings(b, id)
  {
    if a == [] {
      assert a + b == b;
    } else {
      assert (a + b)[1..] == a[1..] + b;
      ClosingsAppend(a[1..], b, id);
    }
  }

  lemma {:induction false} NoClosings(log: seq<Event>, id: U64)
    ensures Closings(log, id) == 0 <==> forall e :: e in log ==> !Closes(e, id)
  {
    if log != [] {
      NoClosings(log[1..], id);
      assert log == [log[0]] + log[1..];
    }
  }

  lemma {:induction false} PayAllFate(env: Env, st: State, order: seq<Pending>, id: U64)
    requires Listed(st.pending, order)
    ensures Closings(PayAllEvents(env, st, order), id) + IsOpen(PayAll(env, st, order), id) == IsOpen(st, id)
    ensures id in PayAll(env, st, order).pending ==> PayAll(env, st, order).pending[id] == st.pending[id]
    ensures id in st.pending ==> forall e :: e in PayAllEvents(env, st, order) && Closes(e, id) ==>
      e == SendFinal(id, st.pending[id].sender, st.pending[id].recipient, st.pending[id].amount)
    decreases |order|
  {
    if order != [] {
      var p, mid := order[0], Execute(env, st, order[0]);
      ListedHead(st.pending, order);
      ListedTail(env, st, order);
      PayAllFate(env, mid, order[1..], id);
      ClosingsAppend(ExecuteEvents(env, st, p), PayAllEvents(env, mid, order[1..]), id);
      NoClosings(PayAllEvents(env, mid, order[1..]), id);
    }
  }

  /** What happens to an id in one step. */
  ghost predicate StepFate(st: State, events: seq<Event>, st': State, id: U64) {
    && Closings(events, id) + IsOpen(st', id) == IsOpen(st, id) + (if st.nextId <= id < st'.nextId then 1 else 0)
    && (id in st.pending && id in st'.pending ==> st'.pending[id] == st.pending[id])
    && (id in st.pending ==> forall e :: e in events && Closes(e, id) ==> ClosesAs(e, st.pending[id]))
  }

  lemma OneEvent(log: seq<Event>, id: U64)
    requires |log| == 1
    ensures Closings(log, id) == if Closes(log[0], id) then 1 else 0
    ensures forall e :: e in log <==> e == log[0]
  {
    assert log[1..] == [];
  }

  lemma MessageHasFate(env: Env, st: State, now: I64, msg: Msg, id: U64)
    requires Inv(st) && st.nextId + 1 < TWO_64 && Deliver(env, st, now, msg).Accepted?
    ensures var o := Deliver(env, st, now, msg); StepFate(st, o.events, o.state, id)
  {
    hide Backed, Capped, Park, SendNow, Cancel;
    match msg
    case DelayedSend(creator, recipient, denom, amount, window) =>
      if GetRecord(st.records, recipient).finalOnly {
        SendNowFate(env, st, creator, recipient, Coin(denom, amount), window, id);
      } else {
        ParkFate(env, st, now, creator, recipient, Coin(denom, amount), Window(st, window), id);
      }
    case CancelSend(_, cancelled) => CancelFate(env, st, cancelled, id);
    case SetFinalOnly(_, _) =>
      OneEvent(Deliver(env, st, now, msg).events, id);
    case UpdateParams(_, _) =>
  }

  lemma SendNowFate(env: Env, st: State, sender: Str, recipient: Str, coin: Coin, window: U64, id: U64)
    requires env.decode(sender).Some? && env.decode(recipient).Some?
    requires SendNow(env, st, sender, recipient, coin, window).Accepted?
    ensures var o := SendNow(env, st, sender, recipient, coin, window); StepFate(st, o.events, o.state, id)
  {
    OneEvent(SendNow(env, st, sender, recipient, coin, window).events, id);
  }

  lemma OpenedFate(st: State, st': State, e: Event, p: Pending, id: U64)
    requires Keyed(st) && e.SendDelayed?
    requires st'.nextId == st.nextId + 1 && st'.pending == st.pending[st.nextId := p]
    ensures StepFate(st, [e], st', id)
  {
    OneEvent([e], id);
    assert st.nextId !in st.pending;
  }

  lemma WordNext(n: U64)
    requires n + 1 < TWO_64
    ensures WrapU64(n + 1) == n + 1
  {
  }

  lemma ParkFate(env: Env, st: State, now: I64, sender: Str, recipient: Str, coin: Coin, window: U64, id: U64)
    requires Keyed(st) && st.nextId + 1 < TWO_64 && env.decode(sender).Some?
    requires Park(env, st, now, sender, recipient, coin, window).Accepted?
    ensures var o := Park(env, st, now, sender, recipient, coin, window); StepFate(st, o.events, o.state, id)
  {
    hide OpenIds, Keyed, StepFate, WrapU64, GetRecord, BumpSent, ExecuteAt, Sums.Add, Sums.Sub, Sums.Get;
    WordNext(st.nextId);
    var o := Park(env, st, now, sender, recipient, coin, window);
    OpenedFate(st, o.state, o.events[0], Pending(st.nextId, sender, recipient, coin, ExecuteAt(now, window)), id);
  }

  lemma CancelFate(env: Env, st: State, cancelled: U64, id: U64)
    requires Keyed(st) && cancelled in st.pending && env.decode(st.pending[cancelled].sender).Some?
    requires Cancel(env, st, st.pending[cancelled], cancelled).Accepted?
    ensures var o := Cancel(env, st, st.pending[cancelled], cancelled); StepFate(st, o.events, o.state, id)
  {
    OneEvent(Cancel(env, st, st.pending[cancelled], cancelled).events, id);
  }

  lemma StepHasFate(env: Env, st: State, step: Step, id: U64)
    requires Inv(st) && st.nextId + 1 < TWO_64
    ensures StepFate(st, Emitted(env, st, step), Next(env, st, step), id)
    ensures st.nextId <= Next(env, st, step).nextId <= st.nextId + 1
  {
    StepNextId(env, st, step);
    assert Keyed(st);
    hide Inv, Keyed, StepFate, PayAll, Due, Listed;
    match step
    case BlockEnd(now) =>
      DueListed(st, now);
      PaymentsFate(env, st, Due(st.pending, now), id);
    case Message(now, msg) =>
      if Deliver(env, st, now, msg).Accepted? { MessageHasFate(env, st, now, msg, id); } else { QuietFate(st, id); }
  }

  lemma QuietFate(st: State, id: U64)
    ensures StepFate(st, [], st, id)
  {
  }

  lemma PaymentsFate(env: Env, st: State, order: seq<Pending>, id: U64)
    requires Keyed(st) && Listed(st.pending, order)
    ensures StepFate(st, PayAllEvents(env, st, order), PayAll(env, st, order), id)
  {
    hide PayAll, Listed;
    PayAllFate(env, st, order, id);
    PayAllFrame(env, st, order);
  }

  // ---- Ids handed out on the way ----

  /** The life of the entry p, opened by its send, as a log and the table behind it tell it. */
  ghost predicate LivesAs(log: seq<Event>, st': State, p: Pending) {
    && SendDelayed(p.id, p.sender, p.recipient, p.amount, p.executeAt) in log
    && (p.id in st'.pending ==> st'.pending[p.id] == p)
    && (forall e :: e in log && Closes(e, p.id) ==> ClosesAs(e, p))
  }

  /** Exactly the ids taken off the sequence are opened, each by one send, and what is open under such an id
      or closes it is the entry of that send. */
  ghost predicate NewFate(st: State, log: seq<Event>, st': State, id: U64) {
    && Openings(log, id) == (if st.nextId <= id < st'.nextId then 1 else 0)
    && (st.nextId <= id < st'.nextId ==> exists p: Pending :: p.id == id && LivesAs(log, st', p))
  }

  lemma {:induction false} OpeningsAppend(a: seq<Event>, b: seq<Event>, id: U64)
    ensures Openings(a + b, id) == Openings(a, id) + Openings(b, id)
  {
    if a == [] {
      assert a + b == b;
    } else {
      assert (a + b)[1..] == a[1..] + b;
      OpeningsAppend(a[1..], b, id);
    }
  }

  lemma {:induction false} NoOpenings(log: seq<Event>, id: U64)
    requires forall e :: e in log ==> !e.SendDelayed?
    ensures Openings(log, id) == 0
  {
    if log != [] { NoOpenings(log[1..], id); }
  }

  lemma {:induction false} PayAllOpensNothing(env: Env, st: State, order: seq<Pending>)
    ensures forall e :: e in PayAllEvents(env, st, order) ==> !e.SendDelayed?
    decreases |order|
  {
    if order != [] { PayAllOpensNothing(env, Execute(env, st, order[0]), order[1..]); }
  }

  lemma StepOpensNothing(env: Env, st: State, step: Step)
    requires !Parks(env, st, step)
    ensures forall e :: e in Emitted(env, st, step) ==> !e.SendDelayed?
  {
    if step.BlockEnd? { PayAllOpensNothing(env, st, Due(st.pending, step.now)); }
  }

  lemma StepNewFate(env: Env, st: State, step: Step, id: U64)
    requires st.nextId + 1 < TWO_64
    ensures NewFate(st, Emitted(env, st, step), Next(env, st, step), id)
  {
    StepNextId(env, st, step);
    if Parks(env, st, step) {
      ParkOpens(env, st, step, id);
    } else {
      StepOpensNothing(env, st, step);
      NoOpenings(Emitted(env, st, step), id);
    }
  }

  lemma ParkOpens(env: Env, st: State, step: Step, id: U64)
    requires st.nextId + 1 < TWO_64 && Parks(env, st, step)
    ensures NewFate(st, Emitted(env, st, step), Next(env, st, step), id)
  {
    WordNext(st.nextId);
    hide NewFate, OpenIds, BumpSent, ExecuteAt, WrapU64, Sums.Add, Sums.Sub, Sums.Get;
    var st' := Next(env, st, step);
    assert st'.nextId == st.nextId + 1 && st.nextId in st'.pending;
    OpenedIsNew(st, st', st'.pending[st.nextId], id);
  }

  lemma OpenedIsNew(st: State, st': State, p: Pending, id: U64)
    requires p.id == st.nextId && st'.nextId == st.nextId + 1 && p.id in st'.pending && st'.pending[p.id] == p
    ensures NewFate(st, [SendDelayed(p.id, p.sender, p.recipient, p.amount, p.executeAt)], st', id)
  {
    var log := [SendDelayed(p.id, p.sender, p.recipient, p.amount, p.executeAt)];
    assert log[1..] == [];
    assert LivesAs(log, st', p);
  }

  lemma NewFateComposes(st: State, a: seq<Event>, mid: State, b: seq<Event>, st': State, id: U64)
    requires NewFate(st, a, mid, id) && NewFate(mid, b, st', id)
    requires StepFate(st, a, mid, id) && StepFate(mid, b, st', id) && Keyed(st)
    requires st.nextId <= mid.nextId <= st'.nextId
    ensures NewFate(st, a + b, st', id)
  {
    OpeningsAppend(a, b, id);
    NoClosings(a, id);
    NoClosings(b, id);
    if st.nextId <= id < mid.nextId {
      var p: Pending :| p.id == id && LivesAs(a, mid, p);
      assert LivesAs(a + b, st', p);
    } else if mid.nextId <= id < st'.nextId {
      var p: Pending :| p.id == id && LivesAs(b, st', p);
      assert LivesAs(a + b, st', p);
    }
  }

  /** Over a whole run: every id handed out during it, and every id open before it, is either still open,
      with the entry it had, or was closed exactly once, for the coin and the parties of that entry. The entry
      of an id handed out during the run is that of the one send that opened it. */
  lemma {:induction false} OneFate(env: Env, st: State, steps: seq<Step>, id: U64)
    requires Inv(st) && st.nextId + |steps| < TWO_64
    ensures StepFate(st, Log(env, st, steps), Run(env, st, steps), id)
    ensures NewFate(st, Log(env, st, steps), Run(env, st, steps), id)
    decreases |steps|
  {
    if steps != [] {
      var mid, rest := Next(env, st, steps[0]), steps[1..];
      hide StepFate, NewFate, Next, Emitted;
      StepHasFate(env, st, steps[0], id);
      StepNewFate(env, st, steps[0], id);
      StepKeepsInv(env, st, steps[0]);
      OneFate(env, mid, rest, id);
      RunKeepsInv(env, mid, rest);
      FateComposes(st, Emitted(env, st, steps[0]), mid, Log(env, mid, rest), Run(env, mid, rest), id);
      NewFateComposes(st, Emitted(env, st, steps[0]), mid, Log(env, mid, rest), Run(env, mid, rest), id);
    }
  }

  lemma FateComposes(st: State, a: seq<Event>, mid: State, b: seq<Event>, st': State, id: U64)
    requires StepFate(st, a, mid, id) && StepFate(mid, b, st', id) && Keyed(st) && Keyed(st')
    requires st.nextId <= mid.nextId <= st'.nextId
    ensures StepFate(st, a + b, st', id)
  {
    ClosingsAppend(a, b, id);
    NoClosings(a, id);
    NoClosings(b, id);
  }

  /** An entry seen open after a run was open, unchanged, all along; an id once closed stays closed. */
  lemma OpenThroughout(env: Env, st: State, a: seq<Step>, b: seq<Step>, id: U64)
    requires Inv(st) && st.nextId + |a| + |b| < TWO_64
    requires id < Run(env, st, a).nextId && id in Run(env, st, a + b).pending
    ensures id in Run(env, st, a).pending && Run(env, st, a).pending[id] == Run(env, st, a + b).pending[id]
  {
    RunAppend(env, st, a, b);
    RunKeepsInv(env, st, a);
    OneFate(env, Run(env, st, a), b, id);
  }
}
