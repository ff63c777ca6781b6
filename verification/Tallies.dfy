/** The public tally agrees with history: what an address has sent is what it cancelled, what is still open
    and what was paid out, and all the sent counts together are the sequence. */
module Tallies {
  import opened Words
  import opened Sums
  import opened Types
  import opened Ledger
  import opened Solvency
  import opened Settlement

  function Sent(st: State, a: Str): U64 {
    GetRecord(st.records, a).sent
  }

  function Cancelled(st: State, a: Str): U64 {
    GetRecord(st.records, a).cancelled
  }

  /** How many payouts of an address's sends a log reports. */
  function PaidOut(log: seq<Event>, a: Str): nat {
    if log == [] then 0
    else (if log[0].SendFinal? && log[0].sender == a then 1 else 0) + PaidOut(log[1..], a)
  }

  function SentCounts(records: map<Str, Record>): map<Str, nat> {
    map a | a in records :: records[a].sent
  }

  /** Sends that are neither cancelled nor open any more. */
  function Gone(st: State, a: Str): int {
    Sent(st, a) - Cancelled(st, a) - |OpenIds(st.pending, a)|
  }

  ghost predicate Tallied(st: State) {
    && (forall a :: 0 <= Gone(st, a))
    && Sum(SentCounts(st.records)) == st.nextId
  }

  lemma {:induction false} PaidOutAppend(x: seq<Event>, y: seq<Event>, a: Str)
    ensures PaidOut(x + y, a) == PaidOut(x, a) + PaidOut(y, a)
  {
    if x == [] {
      assert x + y == y;
    } else {
      assert (x + y)[1..] == x[1..] + y;
      PaidOutAppend(x[1..], y, a);
    }
  }

  lemma SentBounded(records: map<Str, Record>, a: Str)
    ensures GetRecord(records, a).sent <= Sum(SentCounts(records))
  {
    if a in records { SumRemove(SentCounts(records), a); }
  }

  lemma SentCountsPut(records: map<Str, Record>, a: Str, r: Record)
    ensures Sum(SentCounts(records[a := r])) + GetRecord(records, a).sent == Sum(SentCounts(records)) + r.sent
  {
    assert SentCounts(records[a := r]) == SentCounts(records)[a := r.sent];
    SumPut(SentCounts(records), a, r.sent);
  }

  lemma OpenWithout(pending: map<U64, Pending>, id: U64, a: Str)
    requires id in pending
    ensures |OpenIds(pending - {id}, a)| == |OpenIds(pending, a)| - if pending[id].sender == a then 1 else 0
  {
    assert OpenIds(pending - {id}, a) == OpenIds(pending, a) - {id};
  }

  lemma {:induction false} PayAllTally(env: Env, st: State, order: seq<Pending>, a: Str)
    requires Listed(st.pending, order)
    ensures Gone(PayAll(env, st, order), a) == Gone(st, a) + PaidOut(PayAllEvents(env, st, order), a)
    decreases |order|
  {
    if order != [] {
      var p, mid := order[0], Execute(env, st, order[0]);
      ListedHead(st.pending, order);
      ListedTail(env, st, order);
      ExecuteTally(env, st, p, a);
      PaidOutAppend(ExecuteEvents(env, st, p), PayAllEvents(env, mid, order[1..]), a);
      hide Execute, ExecuteEvents, Gone;
      PayAllTally(env, mid, order[1..], a);
    }
  }

  lemma ExecuteTally(env: Env, st: State, p: Pending, a: Str)
    requires p.id in st.pending && st.pending[p.id] == p
    ensures Gone(Execute(env, st, p), a) == Gone(st, a) + PaidOut(ExecuteEvents(env, st, p), a)
  {
    OpenWithout(st.pending, p.id, a);
  }

  /** One step: the books move by exactly the payouts it reports, and no count goes down or wraps. */
  ghost predicate Moves(st: State, log: seq<Event>, st': State) {
    forall a :: Gone(st', a) == Gone(st, a) + PaidOut(log, a)
      && Sent(st', a) >= Sent(st, a) && Cancelled(st', a) >= Cancelled(st, a)
  }

  /** A new entry and one more sent. */
  lemma AdmitTally(st: State, st': State, p: Pending, a: Str)
    requires Tallied(st) && p.id !in st.pending && st'.pending == st.pending[p.id := p]
    requires st.nextId + 1 < TWO_64 && st'.nextId == st.nextId + 1
    requires st'.records == st.records[p.sender := BumpSent(GetRecord(st.records, p.sender))]
    ensures Gone(st', a) == Gone(st, a) && Sent(st', a) >= Sent(st, a) && Cancelled(st', a) == Cancelled(st, a)
    ensures Sum(SentCounts(st'.records)) == st'.nextId
  {
    hide Sum, OpenIds, SentCounts;
    SentBounded(st.records, p.sender);
    SentCountsPut(st.records, p.sender, st'.records[p.sender]);
    OpenWith(st.pending, p, a);
  }

  /** One entry less and one more cancelled. */
  lemma ReleaseTally(st: State, st': State, id: U64, a: Str)
    requires Tallied(st) && id in st.pending && st'.pending == st.pending - {id} && st'.nextId == st.nextId
    requires var s := st.pending[id].sender; st'.records == st.records[s := BumpCancelled(GetRecord(st.records, s))]
    ensures Gone(st', a) == Gone(st, a) && Sent(st', a) == Sent(st, a) && Cancelled(st', a) >= Cancelled(st, a)
    ensures Sum(SentCounts(st'.records)) == st'.nextId
  {
    var sender := st.pending[id].sender;
    assert id in OpenIds(st.pending, sender);
    hide Sum, OpenIds, SentCounts;
    assert 0 <= Gone(st, sender);
    SentCountsPut(st.records, sender, st'.records[sender]);
    OpenWithout(st.pending, id, a);
  }

  lemma QuietLog(log: seq<Event>, a: Str)
    requires |log| <= 1 && forall e :: e in log ==> !e.SendFinal?
    ensures PaidOut(log, a) == 0
  {
  }

  /** Every address keeps its books, and the sum of the sent counts is still the sequence. */
  lemma BooksKept(st: State, log: seq<Event>, st': State)
    requires Tallied(st) && |log| <= 1 && forall e :: e in log ==> !e.SendFinal?
    requires forall a :: Gone(st', a) == Gone(st, a) && Sent(st', a) >= Sent(st, a) && Cancelled(st', a) >= Cancelled(st, a)
    requires Sum(SentCounts(st'.records)) == st'.nextId
    ensures Tallied(st') && Moves(st, log, st')
  {
    hide Gone, Sent, Cancelled, Sum;
    forall a { QuietLog(log, a); }
    assert forall a :: Gone(st', a) == Gone(st, a);
  }

  lemma ParkTally(env: Env, st: State, now: I64, sender: Str, recipient: Str, coin: Coin, window: U64)
    requires Keyed(st) && Tallied(st) && st.nextId + 1 < TWO_64 && env.decode(sender).Some?
    requires Park(env, st, now, sender, recipient, coin, window).Accepted?
    ensures var o := Park(env, st, now, sender, recipient, coin, window);
      Tallied(o.state) && Moves(st, o.events, o.state)
  {
    var o := Park(env, st, now, sender, recipient, coin, window);
    hide Sum, OpenIds, Tallied, Moves, Gone, BumpSent;
    var p := o.state.pending[st.nextId];
    AdmitTally(st, o.state, p, sender);
    forall a { AdmitTally(st, o.state, p, a); }
    BooksKept(st, o.events, o.state);
  }

  lemma CancelTally(env: Env, st: State, id: U64)
    requires Tallied(st) && id in st.pending && env.decode(st.pending[id].sender).Some?
    requires Cancel(env, st, st.pending[id], id).Accepted?
    ensures var o := Cancel(env, st, st.pending[id], id); Tallied(o.state) && Moves(st, o.events, o.state)
  {
    var o := Cancel(env, st, st.pending[id], id);
    hide Sum, OpenIds, Tallied, Moves, Gone, BumpCancelled;
    ReleaseTally(st, o.state, id, st.pending[id].sender);
    forall a { ReleaseTally(st, o.state, id, a); }
    BooksKept(st, o.events, o.state);
  }

  lemma FlagTally(st: State, st': State, a: Str, finalOnly: bool)
    requires Tallied(st)
    requires st' == st.(records := st.records[a := GetRecord(st.records, a).(finalOnly := finalOnly)])
    ensures Tallied(st') && Moves(st, [FinalOnlySet(a, finalOnly)], st')
  {
    hide Sum, OpenIds, Moves;
    SentCountsKept(st, st);
    SentCountsPut(st.records, a, st'.records[a]);
    BooksKept(st, [FinalOnlySet(a, finalOnly)], st');
  }

  lemma MessageTally(env: Env, st: State, now: I64, msg: Msg)
    requires Keyed(st) && Tallied(st) && st.nextId + 1 < TWO_64 && Deliver(env, st, now, msg).Accepted?
    ensures var o := Deliver(env, st, now, msg); Tallied(o.state) && Moves(st, o.events, o.state)
  {
    hide Sum, OpenIds, Tallied, Moves, Park, Cancel;
    var o := Deliver(env, st, now, msg);
    match msg
    case DelayedSend(creator, recipient, denom, amount, window) =>
      if GetRecord(st.records, recipient).finalOnly {
        SentCountsKept(st, o.state);
        BooksKept(st, o.events, o.state);
      } else {
        ParkTally(env, st, now, creator, recipient, Coin(denom, amount), Window(st, window));
      }
    case CancelSend(_, id) => CancelTally(env, st, id);
    case SetFinalOnly(creator, finalOnly) => FlagTally(st, o.state, creator, finalOnly);
    case UpdateParams(_, _) =>
      SentCountsKept(st, o.state);
      BooksKept(st, o.events, o.state);
  }

  lemma SentCountsKept(st: State, st': State)
    requires Tallied(st) && st'.records == st.records && st'.nextId == st.nextId
    ensures Sum(SentCounts(st'.records)) == st'.nextId
  {
  }

  lemma BlockEndTally(env: Env, st: State, now: I64)
    requires Inv(st) && Tallied(st)
    ensures Tallied(EndBlock(env, st, now))
    ensures Moves(st, PayAllEvents(env, st, Due(st.pending, now)), EndBlock(env, st, now))
  {
    var due := Due(st.pending, now);
    DueListed(st, now);
    PayAllFrame(env, st, due);
    hide PayAll, PayAllEvents, Due, Sum, OpenIds, Inv;
    forall a { PayAllTally(env, st, due, a); }
  }

  lemma StepTally(env: Env, st: State, step: Step)
    requires Inv(st) && Tallied(st) && st.nextId + 1 < TWO_64
    ensures Tallied(Next(env, st, step)) && Moves(st, Emitted(env, st, step), Next(env, st, step))
  {
    match step
    case BlockEnd(now) => BlockEndTally(env, st, now);
    case Message(now, msg) =>
      if Deliver(env, st, now, msg).Accepted? { MessageTally(env, st, now, msg); }
  }

  /** Over every run the tallies and the reported payouts account for every send; in particular nobody has
      cancelled more than they sent, and no counter wraps before the sequence does. */
  lemma {:induction false} TallyAgrees(env: Env, st: State, steps: seq<Step>)
    requires Inv(st) && Tallied(st) && st.nextId + |steps| < TWO_64
    ensures Tallied(Run(env, st, steps)) && Moves(st, Log(env, st, steps), Run(env, st, steps))
    decreases |steps|
  {
    hide Next, Emitted, Inv, Tallied, Parks;
    if steps != [] {
      var mid, rest := Next(env, st, steps[0]), steps[1..];
      StepTally(env, st, steps[0]);
      StepKeepsInv(env, st, steps[0]);
      StepNextId(env, st, steps[0]);
      TallyAgrees(env, mid, rest);
      MovesCompose(st, Emitted(env, st, steps[0]), mid, Log(env, mid, rest), Run(env, mid, rest));
    }
  }

  lemma MovesCompose(st: State, x: seq<Event>, mid: State, y: seq<Event>, st': State)
    requires Moves(st, x, mid) && Moves(mid, y, st')
    ensures Moves(st, x + y, st')
  {
    forall a { PaidOutAppend(x, y, a); }
  }
}
