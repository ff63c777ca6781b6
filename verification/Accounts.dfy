/** What admission gives per account. The source compares address strings; its promises hold for accounts
    exactly if no account has two spellings. */
module Accounts {
  import opened Words
  import opened Sums
  import opened Types
  import opened Ledger
  import opened Solvency
  import Fates
  import opened Genesis
  import opened Admission

  /** The source compares address strings. What it promises per account holds if no account has two. */
  ghost predicate OneSpelling(env: Env) {
    forall a, b :: env.decode(a).Some? && env.decode(a) == env.decode(b) ==> a == b
  }

  /** The ids an account has in flight, under whatever spelling. */
  function OpenOf(env: Env, pending: map<U64, Pending>, account: Account): set<U64> {
    set id | id in pending && env.decode(pending[id].sender) == Some(account)
  }

  /** The cap holds per account. */
  lemma CapPerAccount(env: Env, st: State, account: Account)
    requires Capped(st) && OneSpelling(env)
    ensures |OpenOf(env, st.pending, account)| <= MAX_OPEN_PER_SENDER
  {
    var ids := OpenOf(env, st.pending, account);
    if id :| id in ids {
      var a := st.pending[id].sender;
      assert |OpenIds(st.pending, a)| <= MAX_OPEN_PER_SENDER;
      SubsetSize(ids, OpenIds(st.pending, a));
    }
  }

  /** With two spellings it does not: a full account opens one more entry under the other. */
  lemma TwoSpellingsPassCap(env: Env, st: State, now: I64, msg: Msg, other: Str)
    requires Inv(st) && st.nextId + 1 < TWO_64 && Parks(env, st, Message(now, msg))
    requires other != msg.creator && env.decode(other) == env.decode(msg.creator)
    requires |OpenIds(st.pending, other)| == MAX_OPEN_PER_SENDER
    ensures |OpenOf(env, Next(env, st, Message(now, msg)).pending, env.decode(other).value)| > MAX_OPEN_PER_SENDER
  {
    AdmittedWithinDials(env, st, now, msg);
    var st' := Next(env, st, Message(now, msg));
    hide Next;
    assert st.nextId !in OpenIds(st.pending, other);
    SubsetSize(OpenIds(st.pending, other) + {st.nextId}, OpenOf(env, st'.pending, env.decode(other).value));
  }

  /** Nothing new becomes pending for the account of a final-only address. */
  lemma ShopStaysClearPerAccount(env: Env, st: State, steps: seq<Step>, shop: Str, id: U64)
    requires OneSpelling(env) && env.decode(shop).Some? && GetRecord(st.records, shop).finalOnly
    requires forall s :: s in steps ==> !Flips(s, shop)
    requires id in Run(env, st, steps).pending && env.decode(Run(env, st, steps).pending[id].recipient) == env.decode(shop)
    ensures id in st.pending && st.pending[id] == Run(env, st, steps).pending[id]
  {
    ShopStaysClear(env, st, steps, shop, id);
  }

  /** No account sends to itself, in any state, exactly if no account has two spellings. */
  lemma SelfSendExactly(env: Env, denom: Str)
    requires env.validDenom(denom)
    ensures OneSpelling(env) <==>
      forall st, now, msg: Msg :: msg.DelayedSend? && Deliver(env, st, now, msg).Accepted? ==>
        env.decode(msg.creator) != env.decode(msg.recipient)
  {
    if !OneSpelling(env) {
      var a, b :| env.decode(a).Some? && env.decode(a) == env.decode(b) && a != b;
      var st := State(map[SlotOf(env, a, denom) := 1], map[], map[], 0, map[], DEFAULT_PARAMS);
      assert OpenIds(st.pending, a) == {};
      var msg := Msg.DelayedSend(a, b, denom, 1, 0);
      assert Deliver(env, st, 0, msg).Accepted?;
    }
  }

  // ---- On a chain that starts from the default genesis ----

  function Start(balances: Purse<Slot>): State {
    Import(EmptyStore(balances, map[]), DEFAULT_GENESIS)
  }

  lemma StartSound(balances: Purse<Slot>)
    ensures Inv(Start(balances)) && Start(balances) == State(balances, map[], map[], 0, map[], DEFAULT_PARAMS)
  {
    DefaultSound(balances);
  }

  /** One account with the spellings a and b, and money for n more sends from one to the other. */
  ghost predicate Ready(env: Env, st: State, a: Str, b: Str, denom: Str, n: nat) {
    && Inv(st) && st.params == DEFAULT_PARAMS && st.nextId + n < TWO_64
    && a != b && env.decode(a).Some? && env.decode(a) == env.decode(b) && env.validDenom(denom)
    && !GetRecord(st.records, a).finalOnly && !GetRecord(st.records, b).finalOnly
    && Get(st.balances, SlotOf(env, a, denom)) >= n
  }

  function OneCoin(a: Str, b: Str, denom: Str): Step {
    Message(0, DelayedSend(a, b, denom, 1, 0))
  }

  function Times(step: Step, k: nat): seq<Step> {
    if k == 0 then [] else [step] + Times(step, k - 1)
  }

  /** Such a send goes through. */
  lemma OneCoinParks(env: Env, st: State, a: Str, b: Str, denom: Str, n: nat)
    requires Ready(env, st, a, b, denom, n) && n > 0 && |OpenIds(st.pending, a)| < MAX_OPEN_PER_SENDER
    ensures Parks(env, st, OneCoin(a, b, denom))
    ensures var st' := Next(env, st, OneCoin(a, b, denom));
      && st'.params == st.params && st'.records == st.records[a := BumpSent(GetRecord(st.records, a))]
      && Get(st'.balances, SlotOf(env, a, denom)) == Get(st.balances, SlotOf(env, a, denom)) - 1
  {
    hide Inv, OpenIds, ExecuteAt, BumpSent, WrapU64;
  }

  lemma SendOne(env: Env, st: State, a: Str, b: Str, denom: Str, n: nat)
    requires Ready(env, st, a, b, denom, n) && n > 0 && |OpenIds(st.pending, a)| < MAX_OPEN_PER_SENDER
    ensures var st' := Next(env, st, OneCoin(a, b, denom));
      && Parks(env, st, OneCoin(a, b, denom)) && Ready(env, st', a, b, denom, n - 1)
      && |OpenIds(st'.pending, a)| == |OpenIds(st.pending, a)| + 1 && OpenIds(st'.pending, b) == OpenIds(st.pending, b)
  {
    var step := OneCoin(a, b, denom);
    OneCoinParks(env, st, a, b, denom, n);
    hide Next, Inv, OpenIds, Parks, WrapU64, ExecuteAt;
    var st' := Next(env, st, step);
    StepKeepsInv(env, st, step);
    StepNextId(env, st, step);
    Fates.WordNext(st.nextId);
    AdmittedWithinDials(env, st, step.now, step.msg);
    OpenWith(st.pending, st'.pending[st.nextId], b);
  }

  lemma {:induction false} SendTimes(env: Env, st: State, a: Str, b: Str, denom: Str, n: nat, k: nat)
    requires Ready(env, st, a, b, denom, n) && k <= n && |OpenIds(st.pending, a)| + k <= MAX_OPEN_PER_SENDER
    ensures var st' := Run(env, st, Times(OneCoin(a, b, denom), k));
      && Ready(env, st', a, b, denom, n - k)
      && |OpenIds(st'.pending, a)| == |OpenIds(st.pending, a)| + k && OpenIds(st'.pending, b) == OpenIds(st.pending, b)
    ensures |Times(OneCoin(a, b, denom), k)| == k
    decreases k
  {
    var step := OneCoin(a, b, denom);
    RunTimes(env, st, step, k);
    hide Run, Next, Ready, OpenIds, Times, OneCoin, Parks;
    if k > 0 {
      SendOne(env, st, a, b, denom, n);
      SendTimes(env, Next(env, st, step), a, b, denom, n - 1, k - 1);
    }
  }

  lemma RunTimes(env: Env, st: State, step: Step, k: nat)
    ensures k == 0 ==> Times(step, k) == [] && Run(env, st, Times(step, k)) == st
    ensures k > 0 ==> Run(env, st, Times(step, k)) == Run(env, Next(env, st, step), Times(step, k - 1))
    ensures k > 0 ==> |Times(step, k)| == 1 + |Times(step, k - 1)|
  {
    hide Next;
    if k > 0 { assert Times(step, k)[1..] == Times(step, k - 1); }
  }

  /** An account with two spellings, and enough money, gets past the cap: twenty sends under one spelling and
      one more under the other. */
  lemma FillAndPass(env: Env, a: Str, b: Str, denom: Str) returns (balances: Purse<Slot>, steps: seq<Step>)
    requires a != b && env.decode(a).Some? && env.decode(a) == env.decode(b) && env.validDenom(denom)
    ensures |steps| == MAX_OPEN_PER_SENDER + 1
    ensures |OpenOf(env, Run(env, Start(balances), steps).pending, env.decode(a).value)| > MAX_OPEN_PER_SENDER
  {
    balances := map[SlotOf(env, a, denom) := 21];
    var st := Start(balances);
    StartSound(balances);
    assert OpenIds(st.pending, a) == {} && OpenIds(st.pending, b) == {};
    assert Ready(env, st, a, b, denom, 21);
    var fill, last := Times(OneCoin(a, b, denom), 20), OneCoin(b, a, denom);
    SendTimes(env, st, a, b, denom, 21, 20);
    var full := Run(env, st, fill);
    assert Ready(env, full, b, a, denom, 1);
    hide Run, Next, Start, Times, OpenOf;
    SendOne(env, full, b, a, denom, 1);
    TwoSpellingsPassCap(env, full, last.now, last.msg, a);
    steps := fill + [last];
    RunAppend(env, st, fill, [last]);
    RunOne(env, full, last);
  }

  lemma RunOne(env: Env, st: State, step: Step)
    ensures Run(env, st, [step]) == Next(env, st, step)
  {
    hide Next;
    assert [step][1..] == [];
  }

  /** The cap of 20 holds for every account, over every run from the default genesis, exactly if no account has
      two spellings. */
  lemma CapExactly(env: Env, denom: Str)
    requires env.validDenom(denom)
    ensures OneSpelling(env) <==>
      forall balances: Purse<Slot>, steps, account :: |steps| < TWO_64 ==>
        |OpenOf(env, Run(env, Start(balances), steps).pending, account)| <= MAX_OPEN_PER_SENDER
  {
    hide Run, Start, OpenOf;
    if OneSpelling(env) {
      forall balances: Purse<Slot>, steps, account | |steps| < TWO_64
        ensures |OpenOf(env, Run(env, Start(balances), steps).pending, account)| <= MAX_OPEN_PER_SENDER
      {
        StartSound(balances);
        RunKeepsInv(env, Start(balances), steps);
        CapPerAccount(env, Run(env, Start(balances), steps), account);
      }
    } else {
      var a, b :| env.decode(a).Some? && env.decode(a) == env.decode(b) && a != b;
      var balances, steps := FillAndPass(env, a, b, denom);
    }
  }

  /** A send that opens an entry for the account of a final-only address. */
  ghost predicate OpensForShop(env: Env, st: State, now: I64, msg: Msg, shop: Str) {
    && env.decode(shop).Some? && GetRecord(st.records, shop).finalOnly
    && Parks(env, st, Message(now, msg)) && env.decode(msg.recipient) == env.decode(shop)
  }

  lemma NotForShop(env: Env, st: State, now: I64, msg: Msg, shop: Str)
    requires OneSpelling(env)
    ensures !OpensForShop(env, st, now, msg, shop)
  {
    hide Succeeds;
  }

  lemma SwitchAndPark(env: Env, a: Str, b: Str, denom: Str) returns (balances: Purse<Slot>, steps: seq<Step>)
    requires a != b && env.decode(a).Some? && env.decode(a) == env.decode(b) && env.validDenom(denom)
    ensures OpensForShop(env, Run(env, Start(balances), steps), 0, OneCoin(a, b, denom).msg, a)
  {
    balances := map[SlotOf(env, a, denom) := 1];
    var switch := Message(0, SetFinalOnly(a, true));
    steps := [switch];
    StartSound(balances);
    RunOne(env, Start(balances), switch);
    var st := Next(env, Start(balances), switch);
    assert st == State(balances, map[], map[], 0, map[a := Record(a, 0, 0, true)], DEFAULT_PARAMS);
    assert OpenIds(st.pending, a) == {};
  }

  /** The shop switch keeps its promise for every account, in every state that can be reached from the default
      genesis, exactly if no account has two spellings. */
  lemma ShopExactly(env: Env, denom: Str)
    requires env.validDenom(denom)
    ensures OneSpelling(env) <==>
      forall balances: Purse<Slot>, steps, now, msg, shop ::
        !OpensForShop(env, Run(env, Start(balances), steps), now, msg, shop)
  {
    hide Run, Start, OpensForShop;
    if OneSpelling(env) {
      forall balances: Purse<Slot>, steps, now, msg, shop
        ensures !OpensForShop(env, Run(env, Start(balances), steps), now, msg, shop)
      {
        NotForShop(env, Run(env, Start(balances), steps), now, msg, shop);
      }
    } else {
      var a, b :| env.decode(a).Some? && env.decode(a) == env.decode(b) && a != b;
      var balances, steps := SwitchAndPark(env, a, b, denom);
      var msg := OneCoin(a, b, denom).msg;
      assert OpensForShop(env, Run(env, Start(balances), steps), 0, msg, a);
    }
  }
}
