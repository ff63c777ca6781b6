/** Genesis: what Validate accepts, what importing and exporting do, and that they undo each other. */
module Genesis {
  import opened Words
  import opened Sums
  import opened Types
  import opened Walks
  import opened Ledger
  import opened Solvency
  import opened Tallies

  const DEFAULT_GENESIS := GenesisState(DEFAULT_PARAMS, [], 0, [])

  predicate DistinctIds(list: seq<Pending>) {
    forall i, j :: 0 <= i < j < |list| ==> list[i].id != list[j].id
  }

  predicate DistinctIndexes(list: seq<Record>) {
    forall i, j :: 0 <= i < j < |list| ==> list[i].index != list[j].index
  }

  /** What Validate checks, and all it checks. */
  predicate Valid(gs: GenesisState) {
    && DistinctIds(gs.pendingList)
    && (forall p :: p in gs.pendingList ==> p.id < gs.pendingCount)
    && DistinctIndexes(gs.recordMap)
    && gs.params.Valid()
  }

  // ---- Import and export ----

  function PutPending(table: map<U64, Pending>, list: seq<Pending>): map<U64, Pending>
    decreases |list|
  {
    if list == [] then table else PutPending(table[list[0].id := list[0]], list[1..])
  }

  function PutRecords(table: map<Str, Record>, list: seq<Record>): map<Str, Record>
    decreases |list|
  {
    if list == [] then table else PutRecords(table[list[0].index := list[0]], list[1..])
  }

  /** Importing writes over whatever the store holds; the bank is not touched. */
  function Import(st: State, gs: GenesisState): State {
    st.(pending := PutPending(st.pending, gs.pendingList),
        nextId := gs.pendingCount,
        records := PutRecords(st.records, gs.recordMap),
        params := gs.params)
  }

  /** A chain whose undo module has an empty store. */
  function EmptyStore(balances: Purse<Slot>, holding: Purse<Str>): State {
    State(balances, holding, map[], 0, map[], DEFAULT_PARAMS)
  }

  function PendingIds(st: State): seq<U64> {
    Ascending(st.pending.Keys, NatLess)
  }

  function RecordIndexes(st: State): seq<Str> {
    LexOrder();
    Ascending(st.records.Keys, LexLess)
  }

  function Export(st: State): GenesisState {
    GenesisState(st.params, Entries(st.pending, PendingIds(st)), st.nextId, Entries(st.records, RecordIndexes(st)))
  }

  // ---- Lists and tables ----

  lemma {:induction false} PutPendingGets(table: map<U64, Pending>, list: seq<Pending>)
    requires DistinctIds(list)
    ensures var t := PutPending(table, list);
      && (forall p :: p in list ==> p.id in t && t[p.id] == p)
      && (forall id :: id in t ==> (exists p :: p in list && p.id == id) || (id in table && t[id] == table[id]))
      && (forall id :: id in table ==> id in t)
    decreases |list|
  {
    if list != [] {
      var t1 := table[list[0].id := list[0]];
      PutPendingGets(t1, list[1..]);
      var t := PutPending(t1, list[1..]);
      assert list == [list[0]] + list[1..];
      assert list[0].id in t && t[list[0].id] == list[0] by {
        forall p | p in list[1..] ensures p.id != list[0].id {}
      }
      forall id | id in t ensures (exists p :: p in list && p.id == id) || (id in table && t[id] == table[id]) {
        if id == list[0].id { assert list[0] in list; }
      }
    }
  }

  lemma {:induction false} PutRecordsGets(table: map<Str, Record>, list: seq<Record>)
    requires DistinctIndexes(list)
    ensures var t := PutRecords(table, list);
      && (forall r :: r in list ==> r.index in t && t[r.index] == r)
      && (forall a :: a in t ==> (exists r :: r in list && r.index == a) || (a in table && t[a] == table[a]))
      && (forall a :: a in table ==> a in t)
    decreases |list|
  {
    if list != [] {
      var t1 := table[list[0].index := list[0]];
      PutRecordsGets(t1, list[1..]);
      var t := PutRecords(t1, list[1..]);
      assert list == [list[0]] + list[1..];
      assert list[0].index in t && t[list[0].index] == list[0] by {
        forall r | r in list[1..] ensures r.index != list[0].index {}
      }
      forall a | a in t ensures (exists r :: r in list && r.index == a) || (a in table && t[a] == table[a]) {
        if a == list[0].index { assert list[0] in list; }
      }
    }
  }

  lemma EntriesMembers<K, V>(table: map<K, V>, keys: seq<K>, v: V)
    requires forall k :: k in keys ==> k in table
    ensures v in Entries(table, keys) <==> exists k :: k in keys && table[k] == v
  {
    if k :| k in keys && table[k] == v {
      var i :| 0 <= i < |keys| && keys[i] == k;
      assert Entries(table, keys)[i] == v;
    }
    if v in Entries(table, keys) {
      var i :| 0 <= i < |keys| && Entries(table, keys)[i] == v;
      assert keys[i] in keys;
    }
  }

  // ---- Export, then import ----

  lemma ExportedLists(st: State)
    requires Keyed(st) && Indexed(st)
    ensures DistinctIds(Export(st).pendingList) && DistinctIndexes(Export(st).recordMap)
    ensures forall p :: p in Export(st).pendingList <==> p.id in st.pending && st.pending[p.id] == p
    ensures forall r :: r in Export(st).recordMap <==> r.index in st.records && st.records[r.index] == r
  {
    LexOrder();
    var ids, indexes := PendingIds(st), RecordIndexes(st);
    forall i | 0 <= i < |ids| ensures ids[i] in st.pending { assert ids[i] in ids; }
    forall i | 0 <= i < |indexes| ensures indexes[i] in st.records { assert indexes[i] in indexes; }
    forall p { EntriesMembers(st.pending, ids, p); }
    forall r { EntriesMembers(st.records, indexes, r); }
  }

  /** Every sound state exports a genesis that Validate accepts, and importing that into an empty store
      gives the same state again. */
  lemma ExportImport(st: State)
    requires Keyed(st) && Indexed(st) && st.params.Valid()
    ensures Valid(Export(st))
    ensures Import(EmptyStore(st.balances, st.holding), Export(st)) == st
  {
    ExportedLists(st);
    SameTable(st.pending, Export(st).pendingList);
    SameRecords(st.records, Export(st).recordMap);
    hide Keyed, PutPending, PutRecords, Entries;
  }

  lemma SameTable(pending: map<U64, Pending>, list: seq<Pending>)
    requires DistinctIds(list)
    requires forall id :: id in pending ==> pending[id].id == id
    requires forall p :: p in list <==> p.id in pending && pending[p.id] == p
    ensures PutPending(map[], list) == pending
  {
    PutPendingGets(map[], list);
    forall id | id in pending ensures id in PutPending(map[], list) && PutPending(map[], list)[id] == pending[id] {
      assert pending[id] in list;
    }
  }

  lemma SameRecords(records: map<Str, Record>, list: seq<Record>)
    requires DistinctIndexes(list)
    requires forall a :: a in records ==> records[a].index == a
    requires forall r :: r in list <==> r.index in records && records[r.index] == r
    ensures PutRecords(map[], list) == records
  {
    PutRecordsGets(map[], list);
    forall a | a in records ensures a in PutRecords(map[], list) && PutRecords(map[], list)[a] == records[a] {
      assert records[a] in list;
    }
  }

  // ---- Import, then export ----

  predicate SortedGenesis(gs: GenesisState) {
    && (forall i, j :: 0 <= i < j < |gs.pendingList| ==> gs.pendingList[i].id < gs.pendingList[j].id)
    && (forall i, j :: 0 <= i < j < |gs.recordMap| ==> LexLess(gs.recordMap[i].index, gs.recordMap[j].index))
  }

  lemma {:induction false} SameElements<T>(a: seq<T>, b: seq<T>)
    requires forall i, j :: 0 <= i < j < |a| ==> a[i] != a[j]
    requires forall i, j :: 0 <= i < j < |b| ==> b[i] != b[j]
    requires forall x :: x in a <==> x in b
    ensures multiset(a) == multiset(b)
  {
    forall x ensures multiset(a)[x] == multiset(b)[x] {
      CountOnce(a, x);
      CountOnce(b, x);
    }
  }

  lemma {:induction false} CountOnce<T>(a: seq<T>, x: T)
    requires forall i, j :: 0 <= i < j < |a| ==> a[i] != a[j]
    ensures multiset(a)[x] == if x in a then 1 else 0
  {
    if a != [] {
      assert a == [a[0]] + a[1..];
      CountOnce(a[1..], x);
    }
  }

  lemma Imported(st: State, gs: GenesisState)
    requires st.pending == map[] && st.records == map[] && Valid(gs)
    ensures Indexed(Import(st, gs)) && Import(st, gs).params.Valid()
    ensures forall id :: id in Import(st, gs).pending ==> Import(st, gs).pending[id].id == id && id < gs.pendingCount
    ensures forall p :: p in gs.pendingList <==> p.id in Import(st, gs).pending && Import(st, gs).pending[p.id] == p
    ensures forall r :: r in gs.recordMap <==> r.index in Import(st, gs).records && Import(st, gs).records[r.index] == r
  {
    PutPendingGets(map[], gs.pendingList);
    PutRecordsGets(map[], gs.recordMap);
  }

  /** Importing a valid genesis into an empty store and exporting again changes nothing but the order of the
      two lists, which come out sorted by key. */
  lemma ImportExport(st: State, gs: GenesisState)
    requires st.pending == map[] && st.records == map[] && Valid(gs)
    ensures var again := Export(Import(st, gs));
      && again.params == gs.params && again.pendingCount == gs.pendingCount && SortedGenesis(again)
      && multiset(again.pendingList) == multiset(gs.pendingList)
      && multiset(again.recordMap) == multiset(gs.recordMap)
  {
    LexOrder();
    var s := Import(st, gs);
    var again := Export(s);
    Imported(st, gs);
    var ids, indexes := PendingIds(s), RecordIndexes(s);
    forall i | 0 <= i < |ids| ensures ids[i] in s.pending { assert ids[i] in ids; }
    forall i | 0 <= i < |indexes| ensures indexes[i] in s.records { assert indexes[i] in indexes; }
    forall p { EntriesMembers(s.pending, ids, p); }
    forall r { EntriesMembers(s.records, indexes, r); }
    SameElements(again.pendingList, gs.pendingList);
    SameElements(again.recordMap, gs.recordMap);
  }

  // ---- Where runs may start ----

  /** What a list of entries adds up to in one denomination. */
  function OwedIn(list: seq<Pending>, denom: Str): nat {
    if list == [] then 0 else (if list[0].amount.denom == denom then list[0].amount.amount else 0) + OwedIn(list[1..], denom)
  }

  /** How many entries of a list an address has sent. */
  function SentBy(list: seq<Pending>, a: Str): nat {
    if list == [] then 0 else (if list[0].sender == a then 1 else 0) + SentBy(list[1..], a)
  }

  function SentTotal(list: seq<Record>): nat {
    if list == [] then 0 else list[0].sent + SentTotal(list[1..])
  }

  lemma {:induction false} PutPendingAdds(table: map<U64, Pending>, list: seq<Pending>, d: Str, a: Str)
    requires DistinctIds(list) && forall p :: p in list ==> p.id !in table
    ensures Owed(PutPending(table, list), d) == Owed(table, d) + OwedIn(list, d)
    ensures |OpenIds(PutPending(table, list), a)| == |OpenIds(table, a)| + SentBy(list, a)
    decreases |list|
  {
    hide Owed, OpenIds;
    if list != [] {
      var p, rest := list[0], list[1..];
      assert p in list;
      OwedWith(table, p.id, p, d);
      OpenWith(table, p, a);
      assert forall q :: q in rest ==> q.id != p.id && q in list;
      PutPendingAdds(table[p.id := p], rest, d, a);
    }
  }

  lemma {:induction false} PutRecordsAdds(table: map<Str, Record>, list: seq<Record>)
    requires DistinctIndexes(list) && forall r :: r in list ==> r.index !in table
    ensures Sum(SentCounts(PutRecords(table, list))) == Sum(SentCounts(table)) + SentTotal(list)
    decreases |list|
  {
    hide Sum, SentCounts;
    if list != [] {
      var r, rest := list[0], list[1..];
      assert r in list;
      SentCountsPut(table, r.index, r);
      assert forall q :: q in rest ==> q.index != r.index && q in list;
      PutRecordsAdds(table[r.index := r], rest);
    }
  }

  lemma {:induction false} SentByNobody(list: seq<Pending>, a: Str)
    ensures SentBy(list, a) == 0 <==> forall p :: p in list ==> p.sender != a
  {
    if list != [] {
      assert list == [list[0]] + list[1..];
      SentByNobody(list[1..], a);
    }
  }

  lemma EmptyTable(d: Str, a: Str)
    ensures Owed(map[], d) == 0 && OpenIds(map[], a) == {} && Sum(SentCounts(map[])) == 0
  {
    assert AmountsIn(map[], d) == map[];
    assert SentCounts(map[]) == map[];
  }

  /** The imported table owes and counts what the list does. */
  lemma ImportAdds(st: State, gs: GenesisState, d: Str, a: Str)
    requires st.pending == map[] && st.records == map[] && Valid(gs)
    ensures Owed(Import(st, gs).pending, d) == OwedIn(gs.pendingList, d)
    ensures |OpenIds(Import(st, gs).pending, a)| == SentBy(gs.pendingList, a)
    ensures Sum(SentCounts(Import(st, gs).records)) == SentTotal(gs.recordMap)
  {
    hide Owed, OpenIds, Sum, SentCounts, OwedIn, SentBy, SentTotal;
    EmptyTable(d, a);
    PutPendingAdds(map[], gs.pendingList, d, a);
    PutRecordsAdds(map[], gs.recordMap);
  }

  /** An imported genesis is sound exactly if, beyond what Validate checks, its amounts are positive, holding
      equals the sum of the listed entries in every denomination, and nobody sent more than 20 of them. */
  lemma ImportSound(st: State, gs: GenesisState)
    requires st.pending == map[] && st.records == map[] && Valid(gs)
    ensures Inv(Import(st, gs)) <==>
      && (forall p :: p in gs.pendingList ==> p.amount.amount > 0)
      && (forall d :: Get(st.holding, d) == OwedIn(gs.pendingList, d))
      && (forall a :: SentBy(gs.pendingList, a) <= MAX_OPEN_PER_SENDER)
  {
    Imported(st, gs);
    ImportKeeps(st, gs);
    var s := Import(st, gs);
    hide Import, Valid;
    ImportKeyed(st, gs);
    ImportBacked(st, gs);
    ImportCapped(st, gs);
    hide Keyed, Backed, Capped, OwedIn, SentBy;
  }

  lemma ImportKeyed(st: State, gs: GenesisState)
    requires st.pending == map[] && st.records == map[] && Valid(gs)
    ensures Keyed(Import(st, gs)) <==> forall p :: p in gs.pendingList ==> p.amount.amount > 0
  {
    Imported(st, gs);
    ImportKeeps(st, gs);
    var s := Import(st, gs);
    hide Import, Valid;
    forall id | id in s.pending ensures s.pending[id] in gs.pendingList {
      assert s.pending[id].id == id;
    }
    forall p | p in gs.pendingList ensures p.id in s.pending && s.pending[p.id] == p {}
  }

  lemma ImportBacked(st: State, gs: GenesisState)
    requires st.pending == map[] && st.records == map[] && Valid(gs)
    ensures Backed(Import(st, gs)) <==> forall d :: Get(st.holding, d) == OwedIn(gs.pendingList, d)
  {
    ImportKeeps(st, gs);
    var s := Import(st, gs);
    forall d ensures Owed(s.pending, d) == OwedIn(gs.pendingList, d) { ImportAdds(st, gs, d, []); }
    hide Import, Owed, OwedIn;
  }

  lemma ImportCapped(st: State, gs: GenesisState)
    requires st.pending == map[] && st.records == map[] && Valid(gs)
    ensures Capped(Import(st, gs)) <==> forall a :: SentBy(gs.pendingList, a) <= MAX_OPEN_PER_SENDER
  {
    var s := Import(st, gs);
    forall a ensures |OpenIds(s.pending, a)| == SentBy(gs.pendingList, a) { ImportAdds(st, gs, [], a); }
    SameCounts(s, gs.pendingList);
  }

  lemma SameCounts(st: State, list: seq<Pending>)
    requires forall a :: |OpenIds(st.pending, a)| == SentBy(list, a)
    ensures Capped(st) <==> forall a :: SentBy(list, a) <= MAX_OPEN_PER_SENDER
  {
    if Capped(st) {
      forall a ensures SentBy(list, a) <= MAX_OPEN_PER_SENDER { assert |OpenIds(st.pending, a)| == SentBy(list, a); }
    } else {
      var a :| |OpenIds(st.pending, a)| > MAX_OPEN_PER_SENDER;
      assert SentBy(list, a) > MAX_OPEN_PER_SENDER;
    }
  }

  lemma ImportKeeps(st: State, gs: GenesisState)
    ensures var s := Import(st, gs); s.holding == st.holding && s.balances == st.balances && s.nextId == gs.pendingCount
  {
  }

  /** Its tallies agree with its entries exactly if every sender has a tally, each tally has sent enough for
      what it cancelled and has open, and the sent counts add up to the sequence. Validate checks none of it. */
  lemma ImportTallied(st: State, gs: GenesisState)
    requires st.pending == map[] && st.records == map[] && Valid(gs)
    ensures Tallied(Import(st, gs)) <==>
      && (forall p :: p in gs.pendingList ==> exists r :: r in gs.recordMap && r.index == p.sender)
      && (forall r :: r in gs.recordMap ==> r.cancelled + SentBy(gs.pendingList, r.index) <= r.sent)
      && SentTotal(gs.recordMap) == gs.pendingCount
  {
    Imported(st, gs);
    ImportKeeps(st, gs);
    var s := Import(st, gs);
    hide Import, Owed, OpenIds, Sum, SentCounts, OwedIn, SentBy, SentTotal;
    forall a ensures |OpenIds(s.pending, a)| == SentBy(gs.pendingList, a) { ImportAdds(st, gs, [], a); }
    assert s.nextId == gs.pendingCount && Sum(SentCounts(s.records)) == SentTotal(gs.recordMap) by { ImportAdds(st, gs, [], []); }
    forall a ensures SentBy(gs.pendingList, a) == 0 <==> forall p :: p in gs.pendingList ==> p.sender != a {
      SentByNobody(gs.pendingList, a);
    }
    forall a ensures 0 <= Gone(s, a) <==>
      if a in s.records then s.records[a].cancelled + SentBy(gs.pendingList, a) <= s.records[a].sent
      else SentBy(gs.pendingList, a) == 0
    {}
    forall a | a in s.records ensures s.records[a] in gs.recordMap && s.records[a].index == a {}
    forall r | r in gs.recordMap ensures r.index in s.records && s.records[r.index] == r {}
    if Tallied(s) {
      forall p | p in gs.pendingList ensures exists r :: r in gs.recordMap && r.index == p.sender {
        assert 0 <= Gone(s, p.sender);
        assert p.sender in s.records;
        assert s.records[p.sender] in gs.recordMap;
      }
      forall r | r in gs.recordMap ensures r.cancelled + SentBy(gs.pendingList, r.index) <= r.sent {
        assert 0 <= Gone(s, r.index);
      }
    }
  }

  /** The default genesis is sound on any chain whose holding pot is empty. */
  lemma DefaultSound(balances: Purse<Slot>)
    ensures Valid(DEFAULT_GENESIS)
    ensures var st := Import(EmptyStore(balances, map[]), DEFAULT_GENESIS); Inv(st) && Tallied(st)
  {
    var st := Import(EmptyStore(balances, map[]), DEFAULT_GENESIS);
    forall d ensures Get(st.holding, d) == Owed(st.pending, d) {
      assert AmountsIn(st.pending, d) == map[];
    }
    forall a ensures OpenIds(st.pending, a) == {} {}
    assert SentCounts(st.records) == map[];
  }

  /** Whatever run a chain that started from the default genesis has been through, its export is valid, and
      importing it into an empty store continues exactly where the chain stood. */
  lemma ReachableRestored(env: Env, balances: Purse<Slot>, steps: seq<Step>)
    requires |steps| < TWO_64
    ensures var st := Run(env, Import(EmptyStore(balances, map[]), DEFAULT_GENESIS), steps);
      Valid(Export(st)) && Import(EmptyStore(st.balances, st.holding), Export(st)) == st
  {
    var start := Import(EmptyStore(balances, map[]), DEFAULT_GENESIS);
    DefaultSound(balances);
    RunKeepsInv(env, start, steps);
    var st := Run(env, start, steps);
    hide Run, Import, Export;
    ExportImport(st);
  }
}
