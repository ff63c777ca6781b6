/** The event log is complete: a reader who sees only the emitted events, and never runs a handler,
    rebuilds balances, holding, pending table, sequence and tallies. Parameters are not in the log:
    UpdateParams emits nothing. */
module EventLog {
  import opened Words
  import opened Sums
  import opened Types
  import opened Ledger

  function Take<K(!new)>(m: Purse<K>, k: K, n: nat): Purse<K> {
    if n <= Get(m, k) then Sub(m, k, n) else m
  }

  function Debit(env: Env, balances: Purse<Slot>, address: Str, coin: Coin): Purse<Slot> {
    if env.decode(address).Some? then Take(balances, SlotOf(env, address, coin.denom), coin.amount) else balances
  }

  function Credit(env: Env, balances: Purse<Slot>, address: Str, coin: Coin): Purse<Slot> {
    if env.decode(address).Some? then Add(balances, SlotOf(env, address, coin.denom), coin.amount) else balances
  }

  /** What an observer books on seeing one event. */
  function Book(env: Env, st: State, e: Event): State {
    match e
    case SendDelayed(id, sender, recipient, coin, executeAt) =>
      st.(balances := Debit(env, st.balances, sender, coin),
          holding := Add(st.holding, coin.denom, coin.amount),
          pending := st.pending[id := Pending(id, sender, recipient, coin, executeAt)],
          nextId := WrapU64(id + 1),
          records := st.records[sender := BumpSent(GetRecord(st.records, sender))])
    case FinalSend(sender, recipient, coin) =>
      st.(balances := Credit(env, Debit(env, st.balances, sender, coin), recipient, coin))
    case SendCancelled(id, sender, _, coin) =>
      st.(balances := Credit(env, st.balances, sender, coin),
          holding := Take(st.holding, coin.denom, coin.amount),
          pending := st.pending - {id},
          records := st.records[sender := BumpCancelled(GetRecord(st.records, sender))])
    case SendFinal(id, _, recipient, coin) =>
      st.(balances := Credit(env, st.balances, recipient, coin),
          holding := Take(st.holding, coin.denom, coin.amount),
          pending := st.pending - {id})
    case FinalOnlySet(address, finalOnly) =>
      st.(records := st.records[address := GetRecord(st.records, address).(finalOnly := finalOnly)])
  }

  function Replay(env: Env, st: State, log: seq<Event>): State
    decreases |log|
  {
    if log == [] then st else Replay(env, Book(env, st, log[0]), log[1..])
  }

  lemma {:induction false} ReplayAppend(env: Env, st: State, a: seq<Event>, b: seq<Event>)
    ensures Replay(env, st, a + b) == Replay(env, Replay(env, st, a), b)
    decreases |a|
  {
    hide Book;
    if a == [] {
      assert a + b == b;
    } else {
      assert (a + b)[1..] == a[1..] + b;
      ReplayAppend(env, Book(env, st, a[0]), a[1..], b);
    }
  }

  lemma {:induction false} ReplayKeepsParams(env: Env, st: State, log: seq<Event>, params: Params)
    ensures Replay(env, st.(params := params), log) == Replay(env, st, log).(params := params)
    decreases |log|
  {
    if log != [] {
      BookKeepsParams(env, st, log[0], params);
      hide Book;
      ReplayKeepsParams(env, Book(env, st, log[0]), log[1..], params);
    }
  }

  lemma BookKeepsParams(env: Env, st: State, e: Event, params: Params)
    ensures Book(env, st.(params := params), e) == Book(env, st, e).(params := params)
  {
  }

  lemma {:induction false} PayAllReplays(env: Env, st: State, order: seq<Pending>)
    ensures Replay(env, st, PayAllEvents(env, st, order)) == PayAll(env, st, order)
    decreases |order|
  {
    if order != [] {
      var p, mid := order[0], Execute(env, st, order[0]);
      ExecuteReplays(env, st, p);
      ReplayAppend(env, st, ExecuteEvents(env, st, p), PayAllEvents(env, mid, order[1..]));
      hide Execute, ExecuteEvents;
      PayAllReplays(env, mid, order[1..]);
    }
  }

  lemma ExecuteReplays(env: Env, st: State, p: Pending)
    ensures Replay(env, st, ExecuteEvents(env, st, p)) == Execute(env, st, p)
  {
    if Payable(env, st, p) { ReplayOne(env, st, ExecuteEvents(env, st, p)[0]); }
  }

  lemma ReplayOne(env: Env, st: State, e: Event)
    ensures Replay(env, st, [e]) == Book(env, st, e)
  {
  }

  lemma MessageReplays(env: Env, st: State, now: I64, msg: Msg)
    requires Deliver(env, st, now, msg).Accepted?
    ensures var o := Deliver(env, st, now, msg); Replay(env, st, o.events).(params := o.state.params) == o.state
  {
    hide Replay, Park, SendNow, Cancel, Add, Sub;
    var o := Deliver(env, st, now, msg);
    match msg
    case DelayedSend(creator, recipient, denom, amount, window) =>
      if GetRecord(st.records, recipient).finalOnly {
        SendNowReplays(env, st, creator, recipient, Coin(denom, amount), window);
      } else {
        ParkReplays(env, st, now, creator, recipient, Coin(denom, amount), Window(st, window));
      }
    case CancelSend(_, id) => CancelReplays(env, st, id);
    case SetFinalOnly(creator, finalOnly) => ReplayOne(env, st, FinalOnlySet(creator, finalOnly));
    case UpdateParams(_, _) => ReplayNone(env, st);
  }

  lemma ReplayNone(env: Env, st: State)
    ensures Replay(env, st, []) == st
  {
  }

  lemma SendNowReplays(env: Env, st: State, sender: Str, recipient: Str, coin: Coin, window: U64)
    requires env.decode(sender).Some? && env.decode(recipient).Some?
    requires SendNow(env, st, sender, recipient, coin, window).Accepted?
    ensures var o := SendNow(env, st, sender, recipient, coin, window); Replay(env, st, o.events) == o.state
  {
    hide Add, Sub, Replay;
    ReplayOne(env, st, FinalSend(sender, recipient, coin));
  }

  lemma ParkReplays(env: Env, st: State, now: I64, sender: Str, recipient: Str, coin: Coin, window: U64)
    requires env.decode(sender).Some?
    requires Park(env, st, now, sender, recipient, coin, window).Accepted?
    ensures var o := Park(env, st, now, sender, recipient, coin, window); Replay(env, st, o.events) == o.state
  {
    hide Add, Sub, Replay, OpenIds, BumpSent, WrapU64, ExecuteAt;
    ReplayOne(env, st, SendDelayed(st.nextId, sender, recipient, coin, ExecuteAt(now, window)));
  }

  lemma CancelReplays(env: Env, st: State, id: U64)
    requires id in st.pending && env.decode(st.pending[id].sender).Some?
    requires Cancel(env, st, st.pending[id], id).Accepted?
    ensures var o := Cancel(env, st, st.pending[id], id); Replay(env, st, o.events) == o.state
  {
    hide Add, Sub, Replay, BumpCancelled;
    var p := st.pending[id];
    ReplayOne(env, st, SendCancelled(id, p.sender, p.recipient, p.amount));
  }

  lemma StepReplays(env: Env, st: State, step: Step)
    ensures Replay(env, st, Emitted(env, st, step)).(params := Next(env, st, step).params) == Next(env, st, step)
  {
    match step
    case BlockEnd(now) => PayAllReplays(env, st, Due(st.pending, now));
    case Message(now, msg) => if Deliver(env, st, now, msg).Accepted? { MessageReplays(env, st, now, msg); }
  }

  /** For every run, from any state: the log alone rebuilds the final state, all but the parameters. */
  lemma {:induction false} LogIsComplete(env: Env, st: State, steps: seq<Step>)
    ensures Replay(env, st, Log(env, st, steps)).(params := Run(env, st, steps).params) == Run(env, st, steps)
    decreases |steps|
  {
    if steps != [] {
      var mid, rest := Next(env, st, steps[0]), steps[1..];
      var replayed := Replay(env, st, Emitted(env, st, steps[0]));
      StepReplays(env, st, steps[0]);
      ReplayAppend(env, st, Emitted(env, st, steps[0]), Log(env, mid, rest));
      LogIsComplete(env, mid, rest);
      ReplayKeepsParams(env, replayed, Log(env, mid, rest), mid.params);
      hide Next, Emitted, Replay;
    }
  }
}
