/** Timing over runs of blocks: nothing is paid early, everything payable is paid in the first block at or
    after its time, and exactly which windows give the sender any time at all. */
module Timing {
  import opened Words
  import opened Types
  import opened Ledger
  import opened Solvency
  import opened Settlement
  import opened Fates
  import opened Admission

  /** A block: its messages, then its end, all at one time. */
  datatype Block = Block(now: I64, msgs: seq<Msg>)

  function MessageSteps(now: I64, msgs: seq<Msg>): (steps: seq<Step>)
    ensures |steps| == |msgs|
    ensures forall i :: 0 <= i < |msgs| ==> steps[i] == Message(now, msgs[i])
  {
    seq(|msgs|, i requires 0 <= i < |msgs| => Message(now, msgs[i]))
  }

  function Chain(blocks: seq<Block>): seq<Step> {
    if blocks == [] then []
    else MessageSteps(blocks[0].now, blocks[0].msgs) + [BlockEnd(blocks[0].now)] + Chain(blocks[1..])
  }

  predicate CancelledIn(log: seq<Event>, id: U64) {
    exists e :: e in log && e.SendCancelled? && e.id == id
  }

  /** Between blocks nothing payable is overdue. */
  lemma NothingOverdue(env: Env, st: State, now: I64, id: U64)
    requires Inv(st)
    requires id in EndBlock(env, st, now).pending && CanReceive(env, EndBlock(env, st, now).pending[id].recipient)
    ensures now < EndBlock(env, st, now).pending[id].executeAt
  {
    EndBlockSettles(env, st, now);
  }

  /** Step i of a run is a block end that pays an entry open at that moment, at or after its time; the event
      names that entry's parties and coin. */
  ghost predicate PaidAt(env: Env, st: State, steps: seq<Step>, i: nat, e: Event)
    requires i < |steps|
  {
    var at := Run(env, st, steps[..i]);
    && e in Emitted(env, at, steps[i]) && e.SendFinal? && e.id in at.pending && ClosesAs(e, at.pending[e.id])
    && steps[i].BlockEnd? && steps[i].now >= at.pending[e.id].executeAt
  }

  /** No recipient is paid before the time of the entry, whenever it was opened: every payment in the log was
      made by a block end at or after it. */
  lemma {:induction false} NeverEarly(env: Env, st: State, steps: seq<Step>, e: Event)
    requires Inv(st) && st.nextId + |steps| < TWO_64
    requires e in Log(env, st, steps) && e.SendFinal?
    ensures exists i :: 0 <= i < |steps| && PaidAt(env, st, steps, i, e)
    decreases |steps|
  {
    hide Next, Inv, Emitted, Parks, PaidAt, Run, Log;
    LogStarts(env, st, steps, e);
    var mid, rest := Next(env, st, steps[0]), steps[1..];
    if e in Emitted(env, st, steps[0]) {
      PaidFirst(env, st, steps, e);
    } else {
      StepKeepsInv(env, st, steps[0]);
      StepNextId(env, st, steps[0]);
      NeverEarly(env, mid, rest, e);
      var i :| 0 <= i < |rest| && PaidAt(env, mid, rest, i, e);
      PaidLater(env, st, steps, i, e);
    }
  }

  lemma LogStarts(env: Env, st: State, steps: seq<Step>, e: Event)
    requires e in Log(env, st, steps)
    ensures steps != [] && (e in Emitted(env, st, steps[0]) || e in Log(env, Next(env, st, steps[0]), steps[1..]))
  {
    hide Next, Emitted;
  }

  lemma PaidFirst(env: Env, st: State, steps: seq<Step>, e: Event)
    requires Inv(st) && steps != [] && e in Emitted(env, st, steps[0]) && e.SendFinal?
    ensures PaidAt(env, st, steps, 0, e)
  {
    assert steps[..0] == [];
    PaidWhenDue(env, st, steps[0], e);
  }

  lemma PaidLater(env: Env, st: State, steps: seq<Step>, i: nat, e: Event)
    requires i + 1 < |steps| && PaidAt(env, Next(env, st, steps[0]), steps[1..], i, e)
    ensures PaidAt(env, st, steps, i + 1, e)
  {
    hide Next, Emitted;
    assert steps[..i + 1][0] == steps[0] && steps[..i + 1][1..] == steps[1..][..i];
  }

  lemma PaidWhenDue(env: Env, st: State, step: Step, e: Event)
    requires Inv(st) && e in Emitted(env, st, step) && e.SendFinal?
    ensures step.BlockEnd? && e.id in st.pending && ClosesAs(e, st.pending[e.id]) && step.now >= st.pending[e.id].executeAt
  {
    if step.BlockEnd? {
      DueListed(st, step.now);
      PaidAreListed(env, st, Due(st.pending, step.now), e);
    } else {
      MessagePaysNothing(env, st, step, e);
    }
  }

  lemma MessagePaysNothing(env: Env, st: State, step: Step, e: Event)
    requires step.Message? && e in Emitted(env, st, step)
    ensures !e.SendFinal?
  {
  }

  lemma {:induction false} PaidAreListed(env: Env, st: State, order: seq<Pending>, e: Event)
    requires e in PayAllEvents(env, st, order)
    ensures exists p :: p in order && e == SendFinal(p.id, p.sender, p.recipient, p.amount)
    decreases |order|
  {
    if e in ExecuteEvents(env, st, order[0]) {
      assert order[0] in order;
    } else {
      PaidAreListed(env, Execute(env, st, order[0]), order[1..], e);
    }
  }

  /** The event of a payment of an entry. */
  function Paid(p: Pending): Event {
    SendFinal(p.id, p.sender, p.recipient, p.amount)
  }

  /** An open entry that is not cancelled is gone after a run exactly if the run paid it. */
  lemma PaidIfGone(env: Env, st: State, steps: seq<Step>, id: U64)
    requires Inv(st) && st.nextId + |steps| < TWO_64 && id in st.pending
    requires !CancelledIn(Log(env, st, steps), id)
    ensures id !in Run(env, st, steps).pending <==> Paid(st.pending[id]) in Log(env, st, steps)
  {
    var log := Log(env, st, steps);
    OneFate(env, st, steps, id);
    NoClosings(log, id);
    hide Run, Log;
    assert Closes(Paid(st.pending[id]), id);
    if id !in Run(env, st, steps).pending {
      var e :| e in log && Closes(e, id);
      assert ClosesAs(e, st.pending[id]);
    }
  }

  lemma {:induction false} OpenBeforeTime(env: Env, st: State, blocks: seq<Block>, id: U64)
    requires Inv(st) && st.nextId + |Chain(blocks)| < TWO_64
    requires id in st.pending && CanReceive(env, st.pending[id].recipient)
    requires !CancelledIn(Log(env, st, Chain(blocks)), id)
    ensures id in Run(env, st, Chain(blocks)).pending <==>
      forall b :: b in blocks ==> b.now < st.pending[id].executeAt
    decreases |blocks|
  {
    assert id < st.nextId;
    hide Inv, EndBlock, Next, Emitted, CanReceive;
    if blocks != [] {
      var b, later := blocks[0], blocks[1..];
      var msgs, rest := MessageSteps(b.now, b.msgs), Chain(later);
      ChainSplit(env, st, blocks);
      var before := Run(env, st, msgs);
      var after := EndBlock(env, before, b.now);
      RunKeepsInv(env, st, msgs);
      MessagesKeepOpen(env, st, b.now, b.msgs, id);
      BlockEndPays(env, before, b.now, id);
      assert blocks == [b] + later;
      hide Run, Log, Chain;
      if b.now < st.pending[id].executeAt {
        OpenBeforeTime(env, after, later, id);
      } else {
        OneFate(env, after, rest, id);
      }
    }
  }

  /** As long as its sender does not cancel it, an entry the bank will pay is still open after a chain of
      blocks exactly if every block was before its time, and otherwise was paid: so it is paid in the first
      block at or after it. */
  lemma PaidOnTime(env: Env, st: State, blocks: seq<Block>, id: U64)
    requires Inv(st) && st.nextId + |Chain(blocks)| < TWO_64
    requires id in st.pending && CanReceive(env, st.pending[id].recipient)
    requires !CancelledIn(Log(env, st, Chain(blocks)), id)
    ensures id in Run(env, st, Chain(blocks)).pending <==>
      forall b :: b in blocks ==> b.now < st.pending[id].executeAt
    ensures id !in Run(env, st, Chain(blocks)).pending <==> Paid(st.pending[id]) in Log(env, st, Chain(blocks))
  {
    hide *;
    OpenBeforeTime(env, st, blocks, id);
    PaidIfGone(env, st, Chain(blocks), id);
  }

  /** A chain is its first block's messages, that block's end, and the rest. */
  lemma ChainSplit(env: Env, st: State, blocks: seq<Block>)
    requires blocks != []
    ensures var b := blocks[0];
      var msgs, rest := MessageSteps(b.now, b.msgs), Chain(blocks[1..]);
      var before := Run(env, st, msgs);
      var after := EndBlock(env, before, b.now);
      && |Chain(blocks)| == |msgs| + 1 + |rest|
      && Run(env, st, Chain(blocks)) == Run(env, after, rest)
      && Log(env, st, Chain(blocks)) ==
         Log(env, st, msgs) + (Emitted(env, before, BlockEnd(b.now)) + Log(env, after, rest))
  {
    hide EndBlock, Emitted;
    var b := blocks[0];
    var msgs, rest := MessageSteps(b.now, b.msgs), Chain(blocks[1..]);
    assert Chain(blocks) == msgs + ([BlockEnd(b.now)] + rest);
    RunAppend(env, st, msgs, [BlockEnd(b.now)] + rest);
    assert ([BlockEnd(b.now)] + rest)[1..] == rest;
  }

  lemma BlockEndPays(env: Env, st: State, now: I64, id: U64)
    requires Inv(st) && id in st.pending && CanReceive(env, st.pending[id].recipient)
    ensures var st' := EndBlock(env, st, now);
      && Inv(st') && st'.nextId == st.nextId
      && (id in st'.pending <==> now < st.pending[id].executeAt)
      && (id in st'.pending ==> st'.pending[id] == st.pending[id])
  {
    StepKeepsInv(env, st, BlockEnd(now));
    EndBlockSettles(env, st, now);
  }

  /** Messages alone close an entry only by cancelling it. */
  lemma MessagesKeepOpen(env: Env, st: State, now: I64, msgs: seq<Msg>, id: U64)
    requires Inv(st) && st.nextId + |msgs| < TWO_64 && id in st.pending
    requires !CancelledIn(Log(env, st, MessageSteps(now, msgs)), id)
    ensures var st' := Run(env, st, MessageSteps(now, msgs));
      id in st'.pending && st'.pending[id] == st.pending[id]
  {
    var steps := MessageSteps(now, msgs);
    OneFate(env, st, steps, id);
    NoClosings(Log(env, st, steps), id);
    forall e | e in Log(env, st, steps) ensures !Closes(e, id) {
      if e.SendFinal? { MessagesPayNothing(env, st, steps, e); }
    }
  }

  lemma {:induction false} MessagesPayNothing(env: Env, st: State, steps: seq<Step>, e: Event)
    requires forall s :: s in steps ==> s.Message?
    requires e in Log(env, st, steps)
    ensures !e.SendFinal?
    decreases |steps|
  {
    assert steps[0] in steps;
    if e in Emitted(env, st, steps[0]) {
      MessagePaysNothing(env, st, steps[0], e);
    } else {
      MessagesPayNothing(env, Next(env, st, steps[0]), steps[1..], e);
    }
  }

  /** A cancel can only succeed while no block has reached the time of the entry: after a chain of blocks, and
      anywhere among the messages of the next, the sender's cancel is accepted only if every block of the chain
      was before it. */
  lemma CancelInTime(env: Env, st: State, blocks: seq<Block>, now: I64, msgs: seq<Msg>, creator: Str, id: U64)
    requires Inv(st) && st.nextId + |Chain(blocks)| + |msgs| < TWO_64
    requires id in st.pending && CanReceive(env, st.pending[id].recipient)
    requires Deliver(env, Run(env, st, Chain(blocks) + MessageSteps(now, msgs)), now, CancelSend(creator, id)).Accepted?
    ensures forall b :: b in blocks ==> b.now < st.pending[id].executeAt
  {
    var log := Log(env, st, Chain(blocks));
    RunKeepsInv(env, st, Chain(blocks));
    OpenThroughout(env, st, Chain(blocks), MessageSteps(now, msgs), id);
    OneFate(env, st, Chain(blocks), id);
    NoClosings(log, id);
    forall e | e in log ensures !Closes(e, id) {}
    PaidOnTime(env, st, blocks, id);
  }

  // ---- How long a window really lasts ----

  /** The stored time is the block time plus the window exactly if that fits in 64 signed bits.
      Otherwise it lies in the past. */
  lemma ExecuteAtExact(now: I64, window: U64)
    requires now >= 0 && window > 0
    ensures ExecuteAt(now, window) == now + window <==> now + window < TWO_63
    ensures ExecuteAt(now, window) > now <==> now + window < TWO_63
  {
  }

  /** So an accepted undoable send outlives the block it is in (when the bank would pay its recipient)
      exactly if block time plus window fits. */
  lemma WindowLasts(env: Env, st: State, now: I64, msg: Msg)
    requires Inv(st) && st.nextId + 1 < TWO_64 && now >= 0
    requires Parks(env, st, Message(now, msg)) && CanReceive(env, msg.recipient)
    ensures st.nextId in EndBlock(env, Next(env, st, Message(now, msg)), now).pending <==>
      now + (if msg.window == 0 then st.params.defaultWindow else msg.window) < TWO_63
  {
    var st' := Next(env, st, Message(now, msg));
    StepKeepsInv(env, st, Message(now, msg));
    ExecuteAtExact(now, Window(st, msg.window));
    EndBlockSettles(env, st', now);
  }

  /** Parameters that governance may set, and a send that the chain then accepts, for which it does not fit:
      the entry's time is in the past, and the end of the same block pays it. */
  lemma LongWindowWraps(env: Env, sender: Str, recipient: Str, denom: Str)
    requires env.decode(sender).Some? && CanReceive(env, recipient) && sender != recipient && env.validDenom(denom)
    ensures Params(1, 1, TWO_63).Valid()
    ensures ExecuteAt(1_000_000, TWO_63) < 1_000_000
    ensures var st := State(map[SlotOf(env, sender, denom) := 1], map[], map[], 0, map[], Params(1, 1, TWO_63));
      var send := Message(1_000_000, DelayedSend(sender, recipient, denom, 1, TWO_63));
      && Inv(st) && Parks(env, st, send)
      && Next(env, st, send).pending == map[0 := Pending(0, sender, recipient, Coin(denom, 1), 1_000_000 - TWO_63)]
      && EndBlock(env, Next(env, st, send), 1_000_000).pending == map[]
  {
    var st := State(map[SlotOf(env, sender, denom) := 1], map[], map[], 0, map[], Params(1, 1, TWO_63));
    var send := Message(1_000_000, DelayedSend(sender, recipient, denom, 1, TWO_63));
    forall d, a ensures Owed(st.pending, d) == 0 && OpenIds(st.pending, a) == {} {
      assert AmountsIn(st.pending, d) == map[];
    }
    assert Inv(st);
    var p := Pending(0, sender, recipient, Coin(denom, 1), 1_000_000 - TWO_63);
    LongWindowParks(env, st, sender, recipient, denom);
    hide Inv, Parks, Next, EndBlock;
    WindowLasts(env, st, 1_000_000, send.msg);
    OnlyEntryLeft(env, Next(env, st, send), p, 1_000_000);
  }

  lemma LongWindowParks(env: Env, st: State, sender: Str, recipient: Str, denom: Str)
    requires env.decode(sender).Some? && env.decode(recipient).Some? && sender != recipient && env.validDenom(denom)
    requires st == State(map[SlotOf(env, sender, denom) := 1], map[], map[], 0, map[], Params(1, 1, TWO_63))
    ensures var send := Message(1_000_000, DelayedSend(sender, recipient, denom, 1, TWO_63));
      && Parks(env, st, send)
      && Next(env, st, send).pending == map[0 := Pending(0, sender, recipient, Coin(denom, 1), 1_000_000 - TWO_63)]
  {
    assert OpenIds(st.pending, sender) == {};
    hide OpenIds;
  }

  lemma OnlyEntryLeft(env: Env, st: State, p: Pending, now: I64)
    requires st.pending == map[0 := p] && 0 !in EndBlock(env, st, now).pending
    ensures EndBlock(env, st, now).pending == map[]
  {
    hide PayAll, Due;
    forall id { PayAllShrinks(env, st, Due(st.pending, now), id); }
  }
}
