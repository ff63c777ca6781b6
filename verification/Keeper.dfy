/** The keeper as the program has it: an object whose handlers check, move coins and write tables in place.
    Each method is proved against the ledger functions, refusals included. */
module Keepers {
  import opened Words
  import opened Sums
  import opened Types
  import opened Walks
  import opened Ledger
  import opened Solvency
  import opened Settlement
  import opened Genesis

  datatype Result<+T> = Ok(value: T) | Err(error: Error)

  // ---- What the walks compute, one key at a time ----

  function OpenAmong(pending: map<U64, Pending>, keys: seq<U64>, sender: Str): set<U64> {
    set id | id in keys && id in pending && pending[id].sender == sender
  }

  lemma NoneOpen(pending: map<U64, Pending>, keys: seq<U64>, sender: Str)
    requires forall k :: k in keys <==> k in pending
    ensures OpenAmong(pending, keys[..0], sender) == {} && OpenAmong(pending, keys, sender) == OpenIds(pending, sender)
  {
  }

  lemma OpenAmongNext(pending: map<U64, Pending>, keys: seq<U64>, i: nat, sender: Str)
    requires Sorted(keys, NatLess) && i < |keys| && forall k :: k in keys ==> k in pending
    ensures keys[i] in pending
    ensures |OpenAmong(pending, keys[..i + 1], sender)| ==
            |OpenAmong(pending, keys[..i], sender)| + if pending[keys[i]].sender == sender then 1 else 0
  {
    assert keys[i] in keys;
    assert keys[i] !in keys[..i] by {
      forall j | 0 <= j < i ensures keys[j] != keys[i] { assert NatLess(keys[j], keys[i]); }
    }
    assert keys[..i + 1] == keys[..i] + [keys[i]];
    assert OpenAmong(pending, keys[..i + 1], sender) ==
           OpenAmong(pending, keys[..i], sender) + if pending[keys[i]].sender == sender then {keys[i]} else {};
  }

  function DueAmong(pending: map<U64, Pending>, keys: seq<U64>, now: I64): (due: seq<U64>)
    ensures forall k :: k in due <==> k in keys && k in pending && now >= pending[k].executeAt
  {
    if keys == [] then []
    else
      var k, before := keys[|keys| - 1], keys[..|keys| - 1];
      assert keys == before + [k];
      DueAmong(pending, before, now) + if k in pending && now >= pending[k].executeAt then [k] else []
  }

  lemma DueAmongNext(pending: map<U64, Pending>, keys: seq<U64>, i: nat, now: I64)
    requires i < |keys| && keys[i] in pending
    ensures DueAmong(pending, keys[..i + 1], now) ==
            DueAmong(pending, keys[..i], now) + if now >= pending[keys[i]].executeAt then [keys[i]] else []
  {
    assert keys[..i + 1][..i] == keys[..i];
  }

  lemma EntriesNext(table: map<U64, Pending>, keys: seq<U64>, k: U64)
    requires k in table && forall j :: j in keys ==> j in table
    ensures Entries(table, keys + [k]) == Entries(table, keys) + [table[k]]
    ensures Entries(table, keys + []) == Entries(table, keys)
  {
    assert keys + [] == keys;
  }

  lemma {:induction false} DueAmongSorted(pending: map<U64, Pending>, keys: seq<U64>, now: I64)
    requires Sorted(keys, NatLess)
    ensures Sorted(DueAmong(pending, keys, now), NatLess)
  {
    if keys != [] {
      var k, before := keys[|keys| - 1], keys[..|keys| - 1];
      DueAmongSorted(pending, before, now);
      var due := DueAmong(pending, before, now);
      forall j | 0 <= j < |due| ensures due[j] < k {
        assert due[j] in due;
        var m :| 0 <= m < |before| && before[m] == due[j];
        assert NatLess(keys[m], k);
      }
    }
  }

  lemma DueAmongAll(pending: map<U64, Pending>, keys: seq<U64>, now: I64)
    requires Sorted(keys, NatLess) && forall k :: k in keys <==> k in pending
    ensures keys[..|keys|] == keys
    ensures Entries(pending, DueAmong(pending, keys, now)) == Due(pending, now)
  {
    DueAmongSorted(pending, keys, now);
    SortedUnique(DueAmong(pending, keys, now), Ascending(DueIds(pending, now), NatLess), NatLess);
  }

  lemma PayAllFirst(env: Env, st: State, order: seq<Pending>, i: nat)
    requires i < |order|
    ensures PayAll(env, st, order[i..]) == PayAll(env, Execute(env, st, order[i]), order[i + 1..])
    ensures PayAllEvents(env, st, order[i..]) ==
            ExecuteEvents(env, st, order[i]) + PayAllEvents(env, Execute(env, st, order[i]), order[i + 1..])
  {
    hide Execute, ExecuteEvents;
    assert order[i..][0] == order[i] && order[i..][1..] == order[i + 1..];
  }

  lemma PayAllNone(env: Env, st: State, order: seq<Pending>)
    ensures PayAll(env, st, order[|order|..]) == st && PayAllEvents(env, st, order[|order|..]) == []
  {
  }

  lemma EndBlockSound(env: Env, st: State, now: I64)
    ensures PayAll(env, st, Due(st.pending, now)) == EndBlock(env, st, now)
    ensures Inv(st) ==> Inv(EndBlock(env, st, now)) && Settled(env, st, PayableIds(env, st, now), EndBlock(env, st, now))
  {
    hide Inv, Settled, PayAll;
    if Inv(st) {
      EndBlockSettles(env, st, now);
      StepKeepsInv(env, st, BlockEnd(now));
    }
  }

  class Keeper {
    const env: Env
    var balances: Purse<Slot>
    var holding: Purse<Str>
    var pending: map<U64, Pending>
    var nextId: U64
    var records: map<Str, Record>
    var params: Params
    var events: seq<Event>

    constructor (env: Env, balances: Purse<Slot>, holding: Purse<Str>)
      ensures this.env == env && Snapshot() == EmptyStore(balances, holding) && events == []
    {
      this.env, this.balances, this.holding := env, balances, holding;
      pending, nextId, records, params, events := map[], 0, map[], DEFAULT_PARAMS, [];
    }

    ghost function Snapshot(): State
      reads this
    {
      State(balances, holding, pending, nextId, records, params)
    }

    // ---- Bank ----

    method SendCoins(from: Account, to: Account, coin: Coin) returns (ok: bool)
      modifies `balances
      ensures ok <==> coin.amount <= Get(old(balances), Slot(from, coin.denom))
      ensures !ok ==> balances == old(balances)
      ensures ok ==>
        balances == Add(Sub(old(balances), Slot(from, coin.denom), coin.amount), Slot(to, coin.denom), coin.amount)
    {
      var source := Slot(from, coin.denom);
      if Get(balances, source) < coin.amount { return false; }
      balances := Sub(balances, source, coin.amount);
      balances := Add(balances, Slot(to, coin.denom), coin.amount);
      return true;
    }

    method SendCoinsFromAccountToModule(from: Account, coin: Coin) returns (ok: bool)
      modifies `balances, `holding
      ensures ok <==> coin.amount <= Get(old(balances), Slot(from, coin.denom))
      ensures !ok ==> balances == old(balances) && holding == old(holding)
      ensures ok ==> balances == Sub(old(balances), Slot(from, coin.denom), coin.amount)
      ensures ok ==> holding == Add(old(holding), coin.denom, coin.amount)
    {
      var source := Slot(from, coin.denom);
      if Get(balances, source) < coin.amount { return false; }
      balances := Sub(balances, source, coin.amount);
      holding := Add(holding, coin.denom, coin.amount);
      return true;
    }

    method SendCoinsFromModuleToAccount(to: Account, coin: Coin) returns (error: Option<Error>)
      modifies `balances, `holding
      ensures to in env.refuses ==> error == Some(PayoutRefused)
      ensures to !in env.refuses && Get(old(holding), coin.denom) < coin.amount ==> error == Some(InsufficientFunds)
      ensures to !in env.refuses && Get(old(holding), coin.denom) >= coin.amount ==> error == None
      ensures error.Some? ==> balances == old(balances) && holding == old(holding)
      ensures error.None? ==> holding == Sub(old(holding), coin.denom, coin.amount)
      ensures error.None? ==> balances == Add(old(balances), Slot(to, coin.denom), coin.amount)
    {
      if to in env.refuses { return Some(PayoutRefused); }
      if Get(holding, coin.denom) < coin.amount { return Some(InsufficientFunds); }
      holding := Sub(holding, coin.denom, coin.amount);
      balances := Add(balances, Slot(to, coin.denom), coin.amount);
      return None;
    }

    // ---- Helpers ----

    method Bump(address: Str, change: Record -> Record)
      modifies `records
      ensures records == old(records)[address := change(GetRecord(old(records), address))]
    {
      var r := GetRecord(records, address);
      records := records[address := change(r)];
    }

    method Emit(e: Event)
      modifies `events
      ensures events == old(events) + [e]
    {
      events := events + [e];
    }

    /** Counts by walking the whole table. */
    method CountOpen(sender: Str) returns (n: nat)
      ensures n == |OpenIds(pending, sender)|
    {
      var keys := Ascending(pending.Keys, NatLess);
      NoneOpen(pending, keys, sender);
      hide OpenAmong, OpenIds;
      n := 0;
      for i := 0 to |keys|
        invariant n == |OpenAmong(pending, keys[..i], sender)|
      {
        OpenAmongNext(pending, keys, i, sender);
        if pending[keys[i]].sender == sender { n := n + 1; }
      }
      assert keys[..|keys|] == keys;
    }

    // ---- Messages ----

    /** The handler did what the ledger says: all of it, or, when refused, nothing at all. */
    twostate predicate Became(o: Outcome, new r: Result<Response>)
      reads this
    {
      match o
      case Accepted(state, response, emitted) =>
        r == Ok(response) && Snapshot() == state && events == old(events) + emitted
      case Refused(error) =>
        r == Err(error) && Snapshot() == old(Snapshot()) && events == old(events)
    }

    /** The final-only branch of DelayedSend. */
    method PayNow(creator: Str, recipient: Str, coin: Coin, window: U64) returns (r: Result<Response>)
      requires env.decode(creator).Some? && env.decode(recipient).Some?
      modifies this
      ensures Became(SendNow(env, old(Snapshot()), creator, recipient, coin, window), r)
    {
      if window != 0 { return Err(FinalOnlyRecipient); }
      var paid := SendCoins(env.decode(creator).value, env.decode(recipient).value, coin);
      if !paid { return Err(InsufficientFunds); }
      Emit(FinalSend(creator, recipient, coin));
      return Ok(SendResponse(0, true));
    }

    /** Writes the pending entry under the next id and counts it as sent. */
    method OpenEntry(now: I64, creator: Str, recipient: Str, coin: Coin, window: U64) returns (id: U64)
      modifies `nextId, `pending, `records, `events
      ensures id == old(nextId) && nextId == WrapU64(old(nextId) + 1)
      ensures pending == old(pending)[id := Pending(id, creator, recipient, coin, ExecuteAt(now, window))]
      ensures records == old(records)[creator := BumpSent(GetRecord(old(records), creator))]
      ensures events == old(events) + [SendDelayed(id, creator, recipient, coin, ExecuteAt(now, window))]
    {
      id := nextId;
      nextId := WrapU64(nextId + 1);
      var p := Pending(id, creator, recipient, coin, WrapI64(now + ToI64(window)));
      pending := pending[id := p];
      Bump(creator, BumpSent);
      Emit(SendDelayed(id, creator, recipient, coin, p.executeAt));
    }

    /** The undoable branch of DelayedSend. */
    method ParkCoins(now: I64, creator: Str, recipient: Str, coin: Coin, asked: U64) returns (r: Result<Response>)
      requires env.decode(creator).Some?
      modifies this
      ensures Became(Park(env, old(Snapshot()), now, creator, recipient, coin, Window(old(Snapshot()), asked)), r)
    {
      hide Sub, Add, Get, OpenIds, BumpSent, WrapU64, ExecuteAt;
      var window := asked;
      if window == 0 { window := params.defaultWindow; }
      if window < params.minWindow { return Err(WindowTooShort); }
      if window > params.maxWindow { return Err(WindowTooLong); }

      var open := CountOpen(creator);
      if open >= MAX_OPEN_PER_SENDER { return Err(TooManyPending); }

      var parked := SendCoinsFromAccountToModule(env.decode(creator).value, coin);
      if !parked { return Err(InsufficientFunds); }

      var id := OpenEntry(now, creator, recipient, coin, window);
      return Ok(SendResponse(id, false));
    }

    method DelayedSend(now: I64, creator: Str, recipient: Str, denom: Str, amount: int, window: U64)
      returns (r: Result<Response>)
      modifies this
      ensures Became(Deliver(env, old(Snapshot()), now, Msg.DelayedSend(creator, recipient, denom, amount, window)), r)
    {
      if env.decode(creator).None? { return Err(InvalidSender); }
      if env.decode(recipient).None? { return Err(InvalidRecipient); }
      if creator == recipient { return Err(SendToSelf); }
      if !env.validDenom(denom) || amount <= 0 { return Err(InvalidAmount); }
      if GetRecord(records, recipient).finalOnly {
        r := PayNow(creator, recipient, Coin(denom, amount), window);
      } else {
        r := ParkCoins(now, creator, recipient, Coin(denom, amount), window);
      }
    }

    method CancelSend(now: I64, creator: Str, id: U64) returns (r: Result<Response>)
      modifies this
      ensures Became(Deliver(env, old(Snapshot()), now, Msg.CancelSend(creator, id)), r)
    {
      hide Sub, Add, Get, GetRecord, BumpCancelled, Park, SendNow;
      var sender := env.decode(creator);
      if sender.None? { return Err(InvalidSender); }
      if id !in pending { return Err(NoSuchPending); }
      var p := pending[id];
      if p.sender != creator { return Err(NotSender); }
      var error := SendCoinsFromModuleToAccount(sender.value, p.amount);
      if error.Some? { return Err(error.value); }
      pending := pending - {id};
      Bump(creator, BumpCancelled);
      Emit(SendCancelled(id, p.sender, p.recipient, p.amount));
      return Ok(Empty);
    }

    method SetFinalOnly(now: I64, creator: Str, finalOnly: bool) returns (r: Result<Response>)
      modifies this
      ensures Became(Deliver(env, old(Snapshot()), now, Msg.SetFinalOnly(creator, finalOnly)), r)
    {
      if env.decode(creator).None? { return Err(InvalidSender); }
      Bump(creator, (rec: Record) => rec.(finalOnly := finalOnly));
      Emit(FinalOnlySet(creator, finalOnly));
      return Ok(Empty);
    }

    method UpdateParams(now: I64, authority: Str, newParams: Params) returns (r: Result<Response>)
      modifies this
      ensures Became(Deliver(env, old(Snapshot()), now, Msg.UpdateParams(authority, newParams)), r)
    {
      var signer := env.decode(authority);
      if signer.None? { return Err(InvalidSender); }
      if signer.value != env.authority { return Err(InvalidSigner); }
      if !newParams.Valid() { return Err(InvalidParams); }
      params := newParams;
      return Ok(Empty);
    }

    // ---- End of block ----

    method Execute(p: Pending) returns (ok: bool)
      modifies this
      ensures ok <==> Payable(env, old(Snapshot()), p)
      ensures Snapshot() == Ledger.Execute(env, old(Snapshot()), p)
      ensures events == old(events) + ExecuteEvents(env, old(Snapshot()), p)
    {
      var to := env.decode(p.recipient);
      if to.None? { return false; }
      var error := SendCoinsFromModuleToAccount(to.value, p.amount);
      if error.Some? { return false; }
      pending := pending - {p.id};
      Emit(SendFinal(p.id, p.sender, p.recipient, p.amount));
      return true;
    }

    /** The walk that collects what is due, before anything is changed. */
    method CollectDue(now: I64) returns (due: seq<Pending>)
      ensures due == Due(pending, now)
    {
      var keys := Ascending(pending.Keys, NatLess);
      due := [];
      hide Due, DueAmong, Entries, Sorted;
      for i := 0 to |keys|
        invariant due == Entries(pending, DueAmong(pending, keys[..i], now))
      {
        assert keys[i] in keys;
        DueAmongNext(pending, keys, i, now);
        EntriesNext(pending, DueAmong(pending, keys[..i], now), keys[i]);
        if now >= pending[keys[i]].executeAt { due := due + [pending[keys[i]]]; }
      }
      DueAmongAll(pending, keys, now);
    }

    method EndBlocker(now: I64)
      modifies this
      ensures Snapshot() == EndBlock(env, old(Snapshot()), now)
      ensures events == old(events) + PayAllEvents(env, old(Snapshot()), Due(old(pending), now))
      ensures Inv(old(Snapshot())) ==> Inv(Snapshot()) && Settled(env, old(Snapshot()), PayableIds(env, old(Snapshot()), now), Snapshot())
    {
      hide PayAll, PayAllEvents, Due, EndBlock, Inv, Settled, Ledger.Execute, ExecuteEvents, PayableIds;
      ghost var start := Snapshot();
      var due := CollectDue(now);
      assert due[0..] == due;
      for i := 0 to |due|
        invariant PayAll(env, Snapshot(), due[i..]) == PayAll(env, start, due)
        invariant events + PayAllEvents(env, Snapshot(), due[i..]) == old(events) + PayAllEvents(env, start, due)
      {
        PayAllFirst(env, Snapshot(), due, i);
        var _ := Execute(due[i]);
      }
      PayAllNone(env, Snapshot(), due);
      EndBlockSound(env, start, now);
    }

    // ---- Genesis ----

    method InitGenesis(gs: GenesisState)
      modifies `pending, `nextId, `records, `params
      ensures Snapshot() == Import(old(Snapshot()), gs)
    {
      assert gs.pendingList[0..] == gs.pendingList && gs.recordMap[0..] == gs.recordMap;
      for i := 0 to |gs.pendingList|
        invariant PutPending(pending, gs.pendingList[i..]) == PutPending(old(pending), gs.pendingList)
        invariant records == old(records)
      {
        assert gs.pendingList[i..][1..] == gs.pendingList[i + 1..];
        pending := pending[gs.pendingList[i].id := gs.pendingList[i]];
      }
      ghost var imported := pending;
      nextId := gs.pendingCount;
      for i := 0 to |gs.recordMap|
        invariant PutRecords(records, gs.recordMap[i..]) == PutRecords(old(records), gs.recordMap)
        invariant pending == imported && nextId == gs.pendingCount
      {
        assert gs.recordMap[i..][1..] == gs.recordMap[i + 1..];
        records := records[gs.recordMap[i].index := gs.recordMap[i]];
      }
      params := gs.params;
    }

    /** The pending table in a walk's order. */
    method ListPending() returns (list: seq<Pending>)
      ensures list == Entries(pending, PendingIds(Snapshot()))
    {
      var ids := Ascending(pending.Keys, NatLess);
      hide NatLess, Sorted;
      list := [];
      for i := 0 to |ids|
        invariant |list| == i
        invariant forall j :: 0 <= j < i ==> ids[j] in pending && list[j] == pending[ids[j]]
      {
        assert ids[i] in ids;
        list := list + [pending[ids[i]]];
      }
    }

    /** The tallies in a walk's order. */
    method ListRecords() returns (list: seq<Record>)
      ensures list == Entries(records, RecordIndexes(Snapshot()))
    {
      LexOrder();
      var indexes := Ascending(records.Keys, LexLess);
      hide LexLess, Sorted;
      list := [];
      for i := 0 to |indexes|
        invariant |list| == i
        invariant forall j :: 0 <= j < i ==> indexes[j] in records && list[j] == records[indexes[j]]
      {
        assert indexes[i] in indexes;
        list := list + [records[indexes[i]]];
      }
    }

    method ExportGenesis() returns (gs: GenesisState)
      ensures gs == Export(Snapshot())
    {
      var pendingList := ListPending();
      var recordMap := ListRecords();
      gs := GenesisState(params, pendingList, nextId, recordMap);
    }
  }

  /** Validate, with the two sets it fills as it goes. */
  method Validate(gs: GenesisState) returns (ok: bool)
    ensures ok <==> Valid(gs)
  {
    var seenIds: set<U64> := {};
    for i := 0 to |gs.pendingList|
      invariant seenIds == set j | 0 <= j < i :: gs.pendingList[j].id
      invariant DistinctIds(gs.pendingList[..i])
      invariant forall j :: 0 <= j < i ==> gs.pendingList[j].id < gs.pendingCount
    {
      var p := gs.pendingList[i];
      if p.id in seenIds {
        var j :| 0 <= j < i && gs.pendingList[j].id == p.id;
        return false;
      }
      if p.id >= gs.pendingCount {
        assert p in gs.pendingList;
        return false;
      }
      seenIds := seenIds + {p.id};
    }
    assert gs.pendingList[..|gs.pendingList|] == gs.pendingList;
    var seenIndexes: set<Str> := {};
    for i := 0 to |gs.recordMap|
      invariant seenIndexes == set j | 0 <= j < i :: gs.recordMap[j].index
      invariant DistinctIndexes(gs.recordMap[..i])
    {
      var r := gs.recordMap[i];
      if r.index in seenIndexes {
        var j :| 0 <= j < i && gs.recordMap[j].index == r.index;
        return false;
      }
      seenIndexes := seenIndexes + {r.index};
    }
    assert gs.recordMap[..|gs.recordMap|] == gs.recordMap;
    ok := gs.params.Valid();
  }
}
