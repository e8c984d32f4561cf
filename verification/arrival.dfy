/**
 * Arrival order in general: a spender `s` with any number of inputs, some of which spend
 * owned outputs of a funding transaction `f`. Whichever of the two arrives first, the ledger
 * ends up the same, except that the spends filed under `txi[s]` may be listed in another
 * order: funding first lists them in input order, spend first lists the spends that waited
 * on `f` after the others, in `f`'s output order.
 */
module Arrival {
  import opened Wrappers
  import opened TxModel
  import opened Ledger
  import opened AddrIo
  import opened Reconcile
  import ODict

  /** `m[b]`, or the empty list when `b` has none. */
  function Get(m: AddrLists<TxiEntry>, b: Addr): seq<TxiEntry> {
    if b in m then m[b] else []
  }

  /** The placeholders of `puts` that do not wait on an output of `f`. */
  function NotOn(puts: map<Outpoint, Hash>, f: Hash): map<Outpoint, Hash> {
    map p | p in puts && p.hash != f :: puts[p]
  }

  /**
   * The spends that resolving the placeholders of `pruned` on outputs `k..` of `f` files
   * under owned address `b`: one per placeholder, with the value of the output it names.
   */
  ghost function Filed(pruned: map<Outpoint, Hash>, f: Hash, outs: seq<TxOut>, k: nat, b: Addr): set<TxiEntry> {
    set p | p in pruned && p.hash == f && k <= p.n < |outs| && outs[p.n].dest == PayTo(b) :: TxiEntry(p, outs[p.n].value)
  }

  /** An input spending an output of `f` that the inputs phase acts on: its address is owned or unparsed. */
  predicate WaitsOn(mine: set<Addr>, f: Hash, i: TxIn) {
    i.kind == Regular && i.prevHash == f && (i.address.None? || i.address.value in mine)
  }

  /** An input the inputs phase acts on names an owned output of `f`, and its owner when it names one. */
  predicate SpendsOwnedOutput(mine: set<Addr>, f: Hash, outs: seq<TxOut>, i: TxIn) {
    WaitsOn(mine, f, i) ==>
      && i.prevN < |outs| && IsMineDest(mine, outs[i.prevN].dest)
      && (i.address.Some? ==> i.address.value == outs[i.prevN].dest.addr)
  }

  /** No two inputs of `ins` spend the same output of `f`. */
  predicate DistinctSpendsOf(ins: seq<TxIn>, f: Hash) {
    forall i, j :: 0 <= i < j < |ins| && ins[i].prevHash == f && ins[j].prevHash == f ==> ins[i].prevN != ins[j].prevN
  }

  /**
   * The inputs phase of `s` over `txo` (`f` unknown) and over `txo` with `f` stored agree
   * except on the inputs that spend `f`: the former parks them, the latter files them.
   */
  ghost predicate Related(mine: set<Addr>, f: Hash, outs: seq<TxOut>, acc0: InputsDelta, acc1: InputsDelta) {
    && acc1.puts == NotOn(acc0.puts, f)
    && (forall p :: p in acc0.puts && p.hash == f ==> p.n < |outs| && IsMineDest(mine, outs[p.n].dest))
    && acc1.invalidated + MineAddrs(mine, outs, 0) == acc0.invalidated + MineAddrs(mine, outs, 0)
    && (forall b :: multiset(Get(acc1.spent, b)) == multiset(Get(acc0.spent, b)) + multiset(Filed(acc0.puts, f, outs, 0, b)))
    && (forall b :: b in acc0.spent ==> acc0.spent[b] != [])
    && (forall b :: b in acc1.spent ==> acc1.spent[b] != [])
  }

  // ---------------------------------------------------------------------------
  // Looking up an output of `f` before and after `f` is stored
  // ---------------------------------------------------------------------------

  /** Once `f` is stored, the lookups of an owned output of `f` find its owner and value. */
  lemma StoredLookup(txo0: map<Hash, AddrLists<TxoEntry>>, mine: set<Addr>, f: Hash, outs: seq<TxOut>, cb: bool, n: nat)
    requires n < |outs| && IsMineDest(mine, outs[n].dest)
    ensures var txo1 := StoreTxo(txo0, f, TxoOf(mine, outs, cb));
      && FindValue(txo1, f, outs[n].dest.addr, n) == Some(outs[n].value)
      && FindInTxo(txo1, f, n) == Some((outs[n].dest.addr, outs[n].value))
  {
    var d := TxoOf(mine, outs, cb);
    var owner := outs[n].dest.addr;
    var txo1 := StoreTxo(txo0, f, d);
    assert owner in d && TxoEntry(n, outs[n].value, cb) in d[owner];
    assert TxoAt(txo1, f) == d;
    var r := FindN(d[owner], n);
    assert r.Some?;
    var i :| 0 <= i < |d[owner]| && d[owner][i].n == n && d[owner][i].value == r.value;
    assert outs[d[owner][i].n] == TxOut(PayTo(owner), d[owner][i].value);
    assert DictHoldsN(d, owner, n);
    var found := FindInDict(d, n);
    var x := found.value.0;
    var rx := FindN(d[x], n);
    var j :| 0 <= j < |d[x]| && d[x][j].n == n && d[x][j].value == rx.value;
    assert outs[d[x][j].n] == TxOut(PayTo(x), d[x][j].value);
  }

  /** Before `f` is stored, neither lookup finds an output of `f`. */
  lemma UnstoredLookup(txo0: map<Hash, AddrLists<TxoEntry>>, f: Hash, a: Addr, n: nat)
    requires f !in txo0
    ensures FindValue(txo0, f, a, n) == None && FindInTxo(txo0, f, n) == None
  {
    assert TxoAt(txo0, f) == map[];
  }

  // ---------------------------------------------------------------------------
  // One input, both ways
  // ---------------------------------------------------------------------------

  /** Adding entry `e` under address `x` on both sides keeps one address's spends related. */
  lemma AppendOne(acc0: AddrLists<TxiEntry>, acc1: AddrLists<TxiEntry>, x: Addr, e: TxiEntry, b: Addr, m: multiset<TxiEntry>)
    requires multiset(Get(acc1, b)) == multiset(Get(acc0, b)) + m
    ensures multiset(Get(AppendTo(acc1, x, e), b)) == multiset(Get(AppendTo(acc0, x, e), b)) + m
  {
    if b == x {
      assert Get(AppendTo(acc1, x, e), b) == Get(acc1, b) + [e];
      assert Get(AppendTo(acc0, x, e), b) == Get(acc0, b) + [e];
      assert multiset(Get(acc1, b) + [e]) == multiset(Get(acc1, b)) + multiset{e};
      assert multiset(Get(acc0, b) + [e]) == multiset(Get(acc0, b)) + multiset{e};
    } else {
      assert Get(AppendTo(acc1, x, e), b) == Get(acc1, b);
      assert Get(AppendTo(acc0, x, e), b) == Get(acc0, b);
    }
  }

  /** Adding entry `e` under address `x` on both sides keeps the spends related. */
  lemma AppendBoth(acc0: AddrLists<TxiEntry>, acc1: AddrLists<TxiEntry>, x: Addr, e: TxiEntry, extra: Addr -> multiset<TxiEntry>)
    requires forall b :: multiset(Get(acc1, b)) == multiset(Get(acc0, b)) + extra(b)
    ensures forall b :: multiset(Get(AppendTo(acc1, x, e), b)) == multiset(Get(AppendTo(acc0, x, e), b)) + extra(b)
  {
    forall b ensures multiset(Get(AppendTo(acc1, x, e), b)) == multiset(Get(AppendTo(acc0, x, e), b)) + extra(b) {
      AppendOne(acc0, acc1, x, e, b, extra(b));
    }
  }

  /** Filing the same spend on both sides, and invalidating the same address, keeps them related. */
  lemma FileBoth(mine: set<Addr>, f: Hash, outs: seq<TxOut>, acc0: InputsDelta, acc1: InputsDelta, x: Addr, e: TxiEntry)
    requires Related(mine, f, outs, acc0, acc1)
    ensures Related(mine, f, outs, acc0.(spent := AppendTo(acc0.spent, x, e), invalidated := acc0.invalidated + {x}),
                                   acc1.(spent := AppendTo(acc1.spent, x, e), invalidated := acc1.invalidated + {x}))
  {
    AppendBoth(acc0.spent, acc1.spent, x, e, b => multiset(Filed(acc0.puts, f, outs, 0, b)));
  }

  /** Parking the same spend of an output of another transaction on both sides keeps them related. */
  lemma ParkBoth(mine: set<Addr>, f: Hash, outs: seq<TxOut>, acc0: InputsDelta, acc1: InputsDelta, ser: Outpoint, s: Hash,
                 x: set<Addr>)
    requires Related(mine, f, outs, acc0, acc1)
    requires ser.hash != f
    ensures Related(mine, f, outs, acc0.(puts := acc0.puts[ser := s], invalidated := acc0.invalidated + x),
                                   acc1.(puts := acc1.puts[ser := s], invalidated := acc1.invalidated + x))
  {
    assert NotOn(acc0.puts[ser := s], f) == NotOn(acc0.puts, f)[ser := s];
    forall b ensures Filed(acc0.puts[ser := s], f, outs, 0, b) == Filed(acc0.puts, f, outs, 0, b) {
    }
  }

  /** An input that does not spend an output of `f` reads the same outputs either way. */
  lemma StepElsewhere(txo0: map<Hash, AddrLists<TxoEntry>>, mine: set<Addr>, f: Hash, outs: seq<TxOut>, cb: bool, s: Hash,
                      acc0: InputsDelta, acc1: InputsDelta, i: TxIn)
    requires Related(mine, f, outs, acc0, acc1)
    requires i.prevHash != f
    ensures Related(mine, f, outs, InputStep(txo0, mine, s, acc0, i),
                    InputStep(StoreTxo(txo0, f, TxoOf(mine, outs, cb)), mine, s, acc1, i))
  {
    var txo1 := StoreTxo(txo0, f, TxoOf(mine, outs, cb));
    assert TxoAt(txo1, i.prevHash) == TxoAt(txo0, i.prevHash);
    if i.kind == Coinbase {
    } else if IsMineOpt(mine, i.address) {
      StepElsewhereNamed(txo0, txo1, mine, f, outs, s, acc0, acc1, i);
    } else if i.address.None? {
      StepElsewhereUnnamed(txo0, txo1, mine, f, outs, s, acc0, acc1, i);
    }
  }

  /** StepElsewhere for an input that names its owned address. */
  lemma StepElsewhereNamed(txo0: map<Hash, AddrLists<TxoEntry>>, txo1: map<Hash, AddrLists<TxoEntry>>, mine: set<Addr>,
                           f: Hash, outs: seq<TxOut>, s: Hash, acc0: InputsDelta, acc1: InputsDelta, i: TxIn)
    requires Related(mine, f, outs, acc0, acc1)
    requires i.prevHash != f && TxoAt(txo1, i.prevHash) == TxoAt(txo0, i.prevHash)
    requires i.kind == Regular && IsMineOpt(mine, i.address)
    ensures Related(mine, f, outs, InputStep(txo0, mine, s, acc0, i), InputStep(txo1, mine, s, acc1, i))
  {
    var ser := Outpoint(i.prevHash, i.prevN);
    var a := i.address.value;
    assert FindValue(txo1, i.prevHash, a, i.prevN) == FindValue(txo0, i.prevHash, a, i.prevN);
    match FindValue(txo0, i.prevHash, a, i.prevN)
    case Some(v) => FileBoth(mine, f, outs, acc0, acc1, a, TxiEntry(ser, v));
    case None => ParkBoth(mine, f, outs, acc0, acc1, ser, s, {a});
  }

  /** StepElsewhere for an input whose address did not parse. */
  lemma StepElsewhereUnnamed(txo0: map<Hash, AddrLists<TxoEntry>>, txo1: map<Hash, AddrLists<TxoEntry>>, mine: set<Addr>,
                             f: Hash, outs: seq<TxOut>, s: Hash, acc0: InputsDelta, acc1: InputsDelta, i: TxIn)
    requires Related(mine, f, outs, acc0, acc1)
    requires i.prevHash != f && TxoAt(txo1, i.prevHash) == TxoAt(txo0, i.prevHash)
    requires i.kind == Regular && i.address.None?
    ensures Related(mine, f, outs, InputStep(txo0, mine, s, acc0, i), InputStep(txo1, mine, s, acc1, i))
  {
    var ser := Outpoint(i.prevHash, i.prevN);
    assert FindInTxo(txo1, i.prevHash, i.prevN) == FindInTxo(txo0, i.prevHash, i.prevN);
    match FindInTxo(txo0, i.prevHash, i.prevN)
    case Some(found) =>
      if found.0 in mine {
        FileBoth(mine, f, outs, acc0, acc1, found.0, TxiEntry(ser, found.1));
      } else {
        ParkBoth(mine, f, outs, acc0, acc1, ser, s, {});
        assert acc0.invalidated + {} == acc0.invalidated && acc1.invalidated + {} == acc1.invalidated;
      }
    case None =>
      ParkBoth(mine, f, outs, acc0, acc1, ser, s, {});
      assert acc0.invalidated + {} == acc0.invalidated && acc1.invalidated + {} == acc1.invalidated;
  }

  /**
   * An input spending owned output `n` of `f`: without `f` it is parked as "f:n", with `f`
   * stored it is filed under the output's owner; either way the owner's entry is dropped.
   */
  lemma StepOnFunding(txo0: map<Hash, AddrLists<TxoEntry>>, mine: set<Addr>, f: Hash, outs: seq<TxOut>, cb: bool, s: Hash,
                      acc0: InputsDelta, acc1: InputsDelta, i: TxIn)
    requires Related(mine, f, outs, acc0, acc1)
    requires f !in txo0
    requires i.prevHash == f && SpendsOwnedOutput(mine, f, outs, i)
    requires Outpoint(f, i.prevN) !in acc0.puts
    ensures Related(mine, f, outs, InputStep(txo0, mine, s, acc0, i),
                    InputStep(StoreTxo(txo0, f, TxoOf(mine, outs, cb)), mine, s, acc1, i))
  {
    if i.kind == Coinbase {
    } else if IsMineOpt(mine, i.address) {
      StepOnFundingNamed(txo0, mine, f, outs, cb, s, acc0, acc1, i);
    } else if i.address.None? {
      StepOnFundingUnnamed(txo0, mine, f, outs, cb, s, acc0, acc1, i);
    }
  }

  /** StepOnFunding for an input that names its owned address. */
  lemma StepOnFundingNamed(txo0: map<Hash, AddrLists<TxoEntry>>, mine: set<Addr>, f: Hash, outs: seq<TxOut>, cb: bool, s: Hash,
                           acc0: InputsDelta, acc1: InputsDelta, i: TxIn)
    requires Related(mine, f, outs, acc0, acc1)
    requires f !in txo0
    requires i.prevHash == f && SpendsOwnedOutput(mine, f, outs, i)
    requires Outpoint(f, i.prevN) !in acc0.puts
    requires i.kind == Regular && IsMineOpt(mine, i.address)
    ensures Related(mine, f, outs, InputStep(txo0, mine, s, acc0, i),
                    InputStep(StoreTxo(txo0, f, TxoOf(mine, outs, cb)), mine, s, acc1, i))
  {
    var txo1 := StoreTxo(txo0, f, TxoOf(mine, outs, cb));
    var n := i.prevN;
    var ser := Outpoint(f, n);
    var owner := outs[n].dest.addr;
    assert i.address == Some(owner);
    StoredLookup(txo0, mine, f, outs, cb, n);
    UnstoredLookup(txo0, f, owner, n);
    assert InputStep(txo0, mine, s, acc0, i) == acc0.(puts := acc0.puts[ser := s], invalidated := acc0.invalidated + {owner});
    assert InputStep(txo1, mine, s, acc1, i)
        == acc1.(spent := AppendTo(acc1.spent, owner, TxiEntry(ser, outs[n].value)), invalidated := acc1.invalidated + {owner});
    ParkedIsFiled(mine, f, outs, acc0, acc1, n, s, {owner});
  }

  /** StepOnFunding for an input whose address did not parse. */
  lemma StepOnFundingUnnamed(txo0: map<Hash, AddrLists<TxoEntry>>, mine: set<Addr>, f: Hash, outs: seq<TxOut>, cb: bool, s: Hash,
                             acc0: InputsDelta, acc1: InputsDelta, i: TxIn)
    requires Related(mine, f, outs, acc0, acc1)
    requires f !in txo0
    requires i.prevHash == f && SpendsOwnedOutput(mine, f, outs, i)
    requires Outpoint(f, i.prevN) !in acc0.puts
    requires i.kind == Regular && i.address.None?
    ensures Related(mine, f, outs, InputStep(txo0, mine, s, acc0, i),
                    InputStep(StoreTxo(txo0, f, TxoOf(mine, outs, cb)), mine, s, acc1, i))
  {
    var txo1 := StoreTxo(txo0, f, TxoOf(mine, outs, cb));
    var n := i.prevN;
    var ser := Outpoint(f, n);
    var owner := outs[n].dest.addr;
    StoredLookup(txo0, mine, f, outs, cb, n);
    UnstoredLookup(txo0, f, owner, n);
    assert FindInTxo(txo1, f, n) == Some((owner, outs[n].value)) && owner in mine;
    assert InputStep(txo0, mine, s, acc0, i) == acc0.(puts := acc0.puts[ser := s], invalidated := acc0.invalidated + {}) by {
      assert acc0.invalidated + {} == acc0.invalidated;
    }
    assert InputStep(txo1, mine, s, acc1, i)
        == acc1.(spent := AppendTo(acc1.spent, owner, TxiEntry(ser, outs[n].value)), invalidated := acc1.invalidated + {owner});
    ParkedIsFiled(mine, f, outs, acc0, acc1, n, s, {});
  }

  lemma FiledAdd(puts: map<Outpoint, Hash>, f: Hash, outs: seq<TxOut>, n: nat, s: Hash, b: Addr)
    requires n < |outs| && Outpoint(f, n) !in puts
    ensures Filed(puts[Outpoint(f, n) := s], f, outs, 0, b)
         == Filed(puts, f, outs, 0, b) + (if outs[n].dest == PayTo(b) then {TxiEntry(Outpoint(f, n), outs[n].value)} else {})
    ensures TxiEntry(Outpoint(f, n), outs[n].value) !in Filed(puts, f, outs, 0, b)
  {
  }

  lemma MultisetAddNew<T>(xs: set<T>, x: T)
    requires x !in xs
    ensures multiset(xs + {x}) == multiset(xs) + multiset{x}
  {
  }

  /**
   * Parking "f:n" on one side (invalidating `x0`) and filing it under the output's owner on
   * the other (invalidating the owner) keeps the two related.
   */
  lemma ParkedIsFiled(mine: set<Addr>, f: Hash, outs: seq<TxOut>, acc0: InputsDelta, acc1: InputsDelta, n: nat, s: Hash,
                      x0: set<Addr>)
    requires Related(mine, f, outs, acc0, acc1)
    requires n < |outs| && IsMineDest(mine, outs[n].dest)
    requires Outpoint(f, n) !in acc0.puts
    requires x0 <= {outs[n].dest.addr}
    ensures var ser := Outpoint(f, n);
            var owner := outs[n].dest.addr;
            Related(mine, f, outs, acc0.(puts := acc0.puts[ser := s], invalidated := acc0.invalidated + x0),
                                   acc1.(spent := AppendTo(acc1.spent, owner, TxiEntry(ser, outs[n].value)),
                                         invalidated := acc1.invalidated + {owner}))
  {
    var ser := Outpoint(f, n);
    var owner := outs[n].dest.addr;
    var e := TxiEntry(ser, outs[n].value);
    assert NotOn(acc0.puts[ser := s], f) == NotOn(acc0.puts, f);
    ParkedSpends(f, outs, acc0.spent, acc1.spent, acc0.puts, n, s);
    assert owner in MineAddrs(mine, outs, 0);
  }

  /** The spend lists after filing "f:n" on one side match the other side's lists plus its parked spends. */
  lemma ParkedSpends(f: Hash, outs: seq<TxOut>, spent0: AddrLists<TxiEntry>, spent1: AddrLists<TxiEntry>,
                     puts: map<Outpoint, Hash>, n: nat, s: Hash)
    requires n < |outs| && outs[n].dest.PayTo? && Outpoint(f, n) !in puts
    requires forall b :: multiset(Get(spent1, b)) == multiset(Get(spent0, b)) + multiset(Filed(puts, f, outs, 0, b))
    ensures forall b :: multiset(Get(AppendTo(spent1, outs[n].dest.addr, TxiEntry(Outpoint(f, n), outs[n].value)), b))
                        == multiset(Get(spent0, b)) + multiset(Filed(puts[Outpoint(f, n) := s], f, outs, 0, b))
  {
    forall b ensures multiset(Get(AppendTo(spent1, outs[n].dest.addr, TxiEntry(Outpoint(f, n), outs[n].value)), b))
                     == multiset(Get(spent0, b)) + multiset(Filed(puts[Outpoint(f, n) := s], f, outs, 0, b)) {
      ParkedSpendsOne(f, outs, spent0, spent1, puts, n, s, b);
    }
  }

  /** `ParkedSpends` for one address. */
  lemma ParkedSpendsOne(f: Hash, outs: seq<TxOut>, spent0: AddrLists<TxiEntry>, spent1: AddrLists<TxiEntry>,
                        puts: map<Outpoint, Hash>, n: nat, s: Hash, b: Addr)
    requires n < |outs| && outs[n].dest.PayTo? && Outpoint(f, n) !in puts
    requires multiset(Get(spent1, b)) == multiset(Get(spent0, b)) + multiset(Filed(puts, f, outs, 0, b))
    ensures multiset(Get(AppendTo(spent1, outs[n].dest.addr, TxiEntry(Outpoint(f, n), outs[n].value)), b))
            == multiset(Get(spent0, b)) + multiset(Filed(puts[Outpoint(f, n) := s], f, outs, 0, b))
  {
    var owner := outs[n].dest.addr;
    var e := TxiEntry(Outpoint(f, n), outs[n].value);
    var spent' := AppendTo(spent1, owner, e);
    FiledAdd(puts, f, outs, n, s, b);
    assert b == owner ==> Get(spent', b) == Get(spent1, b) + [e];
    assert b != owner ==> Get(spent', b) == Get(spent1, b);
    FiledStep(Get(spent0, b), Get(spent1, b), Get(spent', b), Filed(puts, f, outs, 0, b),
              Filed(puts[Outpoint(f, n) := s], f, outs, 0, b), e, b == owner);
  }

  /** Appending a newly filed entry to one list keeps it a permutation of the old list plus the filed set. */
  lemma FiledStep(g0: seq<TxiEntry>, g1: seq<TxiEntry>, g2: seq<TxiEntry>, filed: set<TxiEntry>, filed2: set<TxiEntry>,
                  e: TxiEntry, here: bool)
    requires multiset(g1) == multiset(g0) + multiset(filed)
    requires e !in filed
    requires here ==> g2 == g1 + [e] && filed2 == filed + {e}
    requires !here ==> g2 == g1 && filed2 == filed
    ensures multiset(g2) == multiset(g0) + multiset(filed2)
  {
    if here {
      MultisetAddNew(filed, e);
      assert multiset(g1 + [e]) == multiset(g1) + multiset{e};
    }
  }

  // ---------------------------------------------------------------------------
  // The whole inputs phase, both ways
  // ---------------------------------------------------------------------------

  /** Every placeholder the inputs phase puts is keyed by the output one of the inputs spends. */
  lemma {:induction false} InputsFoldPutKeys(txo: map<Hash, AddrLists<TxoEntry>>, mine: set<Addr>, h: Hash,
                                             acc: InputsDelta, ins: seq<TxIn>)
    ensures forall p :: p in InputsFold(txo, mine, h, acc, ins).puts ==>
              p in acc.puts || exists i :: 0 <= i < |ins| && Outpoint(ins[i].prevHash, ins[i].prevN) == p
    decreases |ins|
  {
    if |ins| > 0 {
      var acc1 := InputStep(txo, mine, h, acc, ins[0]);
      InputsFoldPutKeys(txo, mine, h, acc1, ins[1..]);
      forall p | p in InputsFold(txo, mine, h, acc, ins).puts
        ensures p in acc.puts || exists i :: 0 <= i < |ins| && Outpoint(ins[i].prevHash, ins[i].prevN) == p
      {
        if p !in acc1.puts {
          var i :| 0 <= i < |ins[1..]| && Outpoint(ins[1..][i].prevHash, ins[1..][i].prevN) == p;
          assert Outpoint(ins[i + 1].prevHash, ins[i + 1].prevN) == p;
        } else if p !in acc.puts {
          assert Outpoint(ins[0].prevHash, ins[0].prevN) == p;
        }
      }
    }
  }

  /**
   * While `f` is unknown, the inputs phase parks a spend on an output of `f` exactly for the
   * inputs that wait on `f`.
   */
  lemma {:induction false} FoldParksOnFunding(txo: map<Hash, AddrLists<TxoEntry>>, mine: set<Addr>, f: Hash, h: Hash,
                                              acc: InputsDelta, ins: seq<TxIn>)
    requires f !in txo
    ensures (forall p :: p in InputsFold(txo, mine, h, acc, ins).puts ==> p.hash != f) <==>
            (forall p :: p in acc.puts ==> p.hash != f) && (forall i :: 0 <= i < |ins| ==> !WaitsOn(mine, f, ins[i]))
    decreases |ins|
  {
    if |ins| > 0 {
      var i0 := ins[0];
      var acc1 := InputStep(txo, mine, h, acc, i0);
      UnstoredLookup(txo, f, if i0.address.Some? then i0.address.value else "", i0.prevN);
      assert (forall p :: p in acc1.puts ==> p.hash != f) <==>
             (forall p :: p in acc.puts ==> p.hash != f) && !WaitsOn(mine, f, i0);
      FoldParksOnFunding(txo, mine, f, h, acc1, ins[1..]);
      assert forall i :: 0 < i < |ins| ==> ins[i] == ins[1..][i - 1];
    }
  }

  lemma StepPutKeys(txo: map<Hash, AddrLists<TxoEntry>>, mine: set<Addr>, h: Hash, acc: InputsDelta, i: TxIn)
    ensures forall p :: p in InputStep(txo, mine, h, acc, i).puts ==> p in acc.puts || p == Outpoint(i.prevHash, i.prevN)
  {
  }

  lemma DistinctSpendsOfTail(ins: seq<TxIn>, f: Hash)
    requires |ins| > 0 && DistinctSpendsOf(ins, f)
    ensures DistinctSpendsOf(ins[1..], f)
  {
    forall i, j | 0 <= i < j < |ins| - 1 && ins[1..][i].prevHash == f && ins[1..][j].prevHash == f
      ensures ins[1..][i].prevN != ins[1..][j].prevN
    {
      assert ins[1..][i] == ins[i + 1] && ins[1..][j] == ins[j + 1];
    }
  }

  /**
   * Folding the inputs of `s` without `f` and with `f` stored, from related starting points,
   * gives related deltas.
   */
  lemma {:induction false} FoldRelated(txo0: map<Hash, AddrLists<TxoEntry>>, mine: set<Addr>, f: Hash, outs: seq<TxOut>,
                                       cb: bool, s: Hash, acc0: InputsDelta, acc1: InputsDelta, ins: seq<TxIn>)
    requires Related(mine, f, outs, acc0, acc1)
    requires f !in txo0
    requires forall i :: 0 <= i < |ins| ==> SpendsOwnedOutput(mine, f, outs, ins[i])
    requires DistinctSpendsOf(ins, f)
    requires forall i :: 0 <= i < |ins| && ins[i].prevHash == f ==> Outpoint(f, ins[i].prevN) !in acc0.puts
    ensures Related(mine, f, outs, InputsFold(txo0, mine, s, acc0, ins),
                    InputsFold(StoreTxo(txo0, f, TxoOf(mine, outs, cb)), mine, s, acc1, ins))
    decreases |ins|
  {
    if |ins| > 0 {
      var txo1 := StoreTxo(txo0, f, TxoOf(mine, outs, cb));
      var i := ins[0];
      var r0 := InputStep(txo0, mine, s, acc0, i);
      var r1 := InputStep(txo1, mine, s, acc1, i);
      if i.prevHash == f {
        StepOnFunding(txo0, mine, f, outs, cb, s, acc0, acc1, i);
      } else {
        StepElsewhere(txo0, mine, f, outs, cb, s, acc0, acc1, i);
      }
      var rest := ins[1..];
      StepPutKeys(txo0, mine, s, acc0, i);
      forall j | 0 <= j < |rest| && rest[j].prevHash == f ensures Outpoint(f, rest[j].prevN) !in r0.puts {
        assert rest[j] == ins[j + 1];
        assert Outpoint(f, rest[j].prevN) !in acc0.puts;
        assert i.prevHash == f ==> i.prevN != rest[j].prevN;
      }
      DistinctSpendsOfTail(ins, f);
      assert forall j :: 0 <= j < |rest| ==> SpendsOwnedOutput(mine, f, outs, rest[j]) by {
        assert forall j :: 0 <= j < |rest| ==> rest[j] == ins[j + 1];
      }
      FoldRelated(txo0, mine, f, outs, cb, s, r0, r1, rest);
      assert InputsFold(txo0, mine, s, acc0, ins) == InputsFold(txo0, mine, s, r0, rest);
      assert InputsFold(txo1, mine, s, acc1, ins) == InputsFold(txo1, mine, s, r1, rest);
    }
  }

  // ---------------------------------------------------------------------------
  // Resolving every parked spend of `s` on the outputs of `h`
  // ---------------------------------------------------------------------------

  /** `txi[s]`, when present, holds some address and no empty list. */
  ghost predicate WellFiled(txi: map<Hash, AddrLists<TxiEntry>>, s: Hash) {
    s in txi ==> txi[s] != map[] && forall b :: b in txi[s] ==> txi[s][b] != []
  }

  /** Every placeholder on outputs `k..` of `h` names `s` and an owned output. */
  ghost predicate ParkedBy(l: Ledger, mine: set<Addr>, h: Hash, outs: seq<TxOut>, k: nat, s: Hash) {
    forall p :: p in l.pruned && p.hash == h && k <= p.n < |outs| ==> l.pruned[p] == s && IsMineDest(mine, outs[p.n].dest)
  }

  /** Resolution drops exactly the cache entries of the owned output addresses. */
  lemma {:induction false} ResolveAllCache(l: Ledger, mine: set<Addr>, h: Hash, outs: seq<TxOut>, k: nat)
    ensures ResolveFrom(l, mine, h, outs, k).cache == l.cache - MineAddrs(mine, outs, k)
    decreases |outs| - k
  {
    if k >= |outs| {
      MineAddrsEnd(mine, outs, k);
      assert l.cache - {} == l.cache;
    } else {
      var l1 := ResolveOutput(l, mine, h, k, outs[k]);
      var x: set<Addr> := if IsMineDest(mine, outs[k].dest) then {outs[k].dest.addr} else {};
      assert l1.cache == l.cache - x;
      ResolveAllCache(l1, mine, h, outs, k + 1);
      MineAddrsStep(mine, outs, k);
      ODict.MinusTwice(l.cache, x, MineAddrs(mine, outs, k + 1));
    }
  }

  /** Resolution drops exactly the placeholders on outputs `k..` of `h`. */
  lemma ResolveAllPruned(l: Ledger, mine: set<Addr>, h: Hash, outs: seq<TxOut>, k: nat)
    ensures ResolveFrom(l, mine, h, outs, k).pruned
         == map p | p in l.pruned && !(p.hash == h && k <= p.n < |outs|) :: l.pruned[p]
  {
    ResolveFromMeaning(l, mine, h, outs, k);
  }

  /**
   * Resolving parked spends of `s` on outputs `k..` of `h`: as written, `s` loses its flag as
   * soon as one of them is resolved, and no other flag changes.
   */
  lemma ResolveAllFlags(l: Ledger, mine: set<Addr>, h: Hash, outs: seq<TxOut>, k: nat, s: Hash)
    requires s != ""
    requires ParkedBy(l, mine, h, outs, k, s)
    ensures var r := ResolveFrom(l, mine, h, outs, k);
      && (forall t :: t != s ==> (t in r.prunedValues <==> t in l.prunedValues))
      && (s in r.prunedValues <==> s in l.prunedValues && !exists p :: p in l.pruned && p.hash == h && k <= p.n < |outs|)
  {
    ResolveFromFlags(l, mine, h, outs, k);
    var names := PoppedNames(l.pruned, h, |outs|, k);
    assert names <= {s};
    if exists p :: p in l.pruned && p.hash == h && k <= p.n < |outs| {
      var p :| p in l.pruned && p.hash == h && k <= p.n < |outs|;
      assert s in names;
    }
  }

  /** With "h:k" not parked, the spends still to be filed from outputs `k..` are those from `k + 1..`. */
  lemma FiledSkip(pruned: map<Outpoint, Hash>, h: Hash, outs: seq<TxOut>, k: nat, b: Addr)
    requires Outpoint(h, k) !in pruned
    ensures Filed(pruned, h, outs, k, b) == Filed(pruned, h, outs, k + 1, b)
  {
  }

  /** Resolving "h:k" files its spend, which is new, and leaves the spends of outputs `k + 1..`. */
  lemma FiledTake(pruned: map<Outpoint, Hash>, h: Hash, outs: seq<TxOut>, k: nat, b: Addr)
    requires Outpoint(h, k) in pruned && k < |outs|
    ensures var e := TxiEntry(Outpoint(h, k), outs[k].value);
            && Filed(pruned, h, outs, k, b)
               == Filed(pruned - {Outpoint(h, k)}, h, outs, k + 1, b) + (if outs[k].dest == PayTo(b) then {e} else {})
            && e !in Filed(pruned - {Outpoint(h, k)}, h, outs, k + 1, b)
  {
    var e := TxiEntry(Outpoint(h, k), outs[k].value);
    var rest := pruned - {Outpoint(h, k)};
    assert Filed(pruned, h, outs, k + 1, b) == Filed(rest, h, outs, k + 1, b);
  }

  /** One resolution step on `txi`: only `txi[s]` changes, by the spend of "h:k" when it was parked. */
  lemma ResolveStepTxi(l: Ledger, mine: set<Addr>, h: Hash, outs: seq<TxOut>, k: nat, s: Hash)
    requires k < |outs|
    requires ParkedBy(l, mine, h, outs, k, s)
    requires WellFiled(l.txi, s)
    ensures var l1 := ResolveOutput(l, mine, h, k, outs[k]);
      && ParkedBy(l1, mine, h, outs, k + 1, s)
      && WellFiled(l1.txi, s)
      && (forall t :: t != s ==> (t in l1.txi <==> t in l.txi))
      && (forall t :: t in l.txi && t != s ==> l1.txi[t] == l.txi[t])
      && (forall b :: multiset(TxiList(l1.txi, s, b)) + multiset(Filed(l1.pruned, h, outs, k + 1, b))
                      == multiset(TxiList(l.txi, s, b)) + multiset(Filed(l.pruned, h, outs, k, b)))
  {
    if Outpoint(h, k) in l.pruned {
      ResolveStepTxiParked(l, mine, h, outs, k, s);
    } else {
      ResolveStepTxiNotParked(l, mine, h, outs, k, s);
    }
  }

  /** `ResolveStepTxi` when "h:k" is parked. */
  lemma ResolveStepTxiParked(l: Ledger, mine: set<Addr>, h: Hash, outs: seq<TxOut>, k: nat, s: Hash)
    requires k < |outs|
    requires ParkedBy(l, mine, h, outs, k, s)
    requires WellFiled(l.txi, s)
    requires Outpoint(h, k) in l.pruned
    ensures var l1 := ResolveOutput(l, mine, h, k, outs[k]);
      && ParkedBy(l1, mine, h, outs, k + 1, s)
      && WellFiled(l1.txi, s)
      && (forall t :: t != s ==> (t in l1.txi <==> t in l.txi))
      && (forall t :: t in l.txi && t != s ==> l1.txi[t] == l.txi[t])
      && (forall b :: multiset(TxiList(l1.txi, s, b)) + multiset(Filed(l1.pruned, h, outs, k + 1, b))
                      == multiset(TxiList(l.txi, s, b)) + multiset(Filed(l.pruned, h, outs, k, b)))
  {
    var ser := Outpoint(h, k);
    var l1 := ResolveOutput(l, mine, h, k, outs[k]);
    var owner := outs[k].dest.addr;
    assert l1.txi == AddToTxi(l.txi, s, owner, ser, outs[k].value);
    assert l1.pruned == l.pruned - {ser};
    TakeStepSpends(l.txi, l.pruned, h, outs, k, s);
  }

  /** `ResolveStepTxi` when "h:k" is not parked: nothing changes. */
  lemma ResolveStepTxiNotParked(l: Ledger, mine: set<Addr>, h: Hash, outs: seq<TxOut>, k: nat, s: Hash)
    requires k < |outs|
    requires ParkedBy(l, mine, h, outs, k, s)
    requires WellFiled(l.txi, s)
    requires Outpoint(h, k) !in l.pruned
    ensures var l1 := ResolveOutput(l, mine, h, k, outs[k]);
      && ParkedBy(l1, mine, h, outs, k + 1, s)
      && WellFiled(l1.txi, s)
      && (forall t :: t != s ==> (t in l1.txi <==> t in l.txi))
      && (forall t :: t in l.txi && t != s ==> l1.txi[t] == l.txi[t])
      && (forall b :: multiset(TxiList(l1.txi, s, b)) + multiset(Filed(l1.pruned, h, outs, k + 1, b))
                      == multiset(TxiList(l.txi, s, b)) + multiset(Filed(l.pruned, h, outs, k, b)))
  {
    var l1 := ResolveOutput(l, mine, h, k, outs[k]);
    assert l1.txi == l.txi && l1.pruned == l.pruned;
    forall b ensures Filed(l1.pruned, h, outs, k + 1, b) == Filed(l.pruned, h, outs, k, b) {
      FiledSkip(l.pruned, h, outs, k, b);
    }
  }

  /** Filing the spend of parked "h:k" under its owner moves it from the parked spends to `txi[s]`. */
  lemma TakeStepSpends(txi: map<Hash, AddrLists<TxiEntry>>, pruned: map<Outpoint, Hash>, h: Hash, outs: seq<TxOut>, k: nat, s: Hash)
    requires k < |outs| && Outpoint(h, k) in pruned && outs[k].dest.PayTo?
    ensures var ser := Outpoint(h, k);
            var txi1 := AddToTxi(txi, s, outs[k].dest.addr, ser, outs[k].value);
            forall b :: multiset(TxiList(txi1, s, b)) + multiset(Filed(pruned - {ser}, h, outs, k + 1, b))
                        == multiset(TxiList(txi, s, b)) + multiset(Filed(pruned, h, outs, k, b))
  {
    var ser := Outpoint(h, k);
    var owner := outs[k].dest.addr;
    var e := TxiEntry(ser, outs[k].value);
    var txi1 := AddToTxi(txi, s, owner, ser, outs[k].value);
    forall b ensures multiset(TxiList(txi1, s, b)) + multiset(Filed(pruned - {ser}, h, outs, k + 1, b))
                     == multiset(TxiList(txi, s, b)) + multiset(Filed(pruned, h, outs, k, b))
    {
      FiledTake(pruned, h, outs, k, b);
      if b == owner {
        MultisetAddNew(Filed(pruned - {ser}, h, outs, k + 1, b), e);
        assert TxiList(txi1, s, b) == TxiList(txi, s, b) + [e];
      } else {
        assert TxiList(txi1, s, b) == TxiList(txi, s, b);
      }
    }
  }

  /**
   * Resolving parked spends of `s` on outputs `k..` of `h` files each under its owner in
   * `txi[s]` and changes no other transaction's spends.
   */
  lemma {:induction false} ResolveAllTxi(l: Ledger, mine: set<Addr>, h: Hash, outs: seq<TxOut>, k: nat, s: Hash)
    requires ParkedBy(l, mine, h, outs, k, s)
    requires WellFiled(l.txi, s)
    ensures var r := ResolveFrom(l, mine, h, outs, k);
      && WellFiled(r.txi, s)
      && (forall t :: t != s ==> (t in r.txi <==> t in l.txi))
      && (forall t :: t in l.txi && t != s ==> r.txi[t] == l.txi[t])
      && (forall b :: multiset(TxiList(r.txi, s, b)) == multiset(TxiList(l.txi, s, b)) + multiset(Filed(l.pruned, h, outs, k, b)))
    decreases |outs| - k
  {
    if k < |outs| {
      var l1 := ResolveOutput(l, mine, h, k, outs[k]);
      ResolveStepTxi(l, mine, h, outs, k, s);
      ResolveAllTxi(l1, mine, h, outs, k + 1, s);
    } else {
      forall b ensures Filed(l.pruned, h, outs, k, b) == {} {
      }
    }
  }

  // ---------------------------------------------------------------------------
  // The two orders
  // ---------------------------------------------------------------------------

  /**
   * The setting: `f` is not yet stored and no placeholder waits on an output of `f` or `s`
   * or names `s`; neither transaction spends an output of `s`, `f` does not spend its own
   * outputs, the two spend no common output, and `s` spends each output of `f` at most once,
   * each one it acts on being an owned output of `f` (under its owner's address when the
   * input names one).
   */
  ghost predicate Reorderable(l0: Ledger, mine: set<Addr>, f: Hash, txF: Transaction, s: Hash, txS: Transaction) {
    && f != s && s != ""
    && |txF.inputs| > 0
    && f !in l0.txo
    && (forall p :: p in l0.pruned ==> p.hash != f && p.hash != s && l0.pruned[p] != s)
    && s !in l0.prunedValues
    && (forall i :: 0 <= i < |txF.inputs| ==> txF.inputs[i].prevHash != f && txF.inputs[i].prevHash != s)
    && (forall i :: 0 <= i < |txS.inputs| ==> txS.inputs[i].prevHash != s && SpendsOwnedOutput(mine, f, txF.outputs, txS.inputs[i]))
    && DistinctSpendsOf(txS.inputs, f)
    && (forall i, j :: 0 <= i < |txF.inputs| && 0 <= j < |txS.inputs| ==>
          Outpoint(txF.inputs[i].prevHash, txF.inputs[i].prevN) != Outpoint(txS.inputs[j].prevHash, txS.inputs[j].prevN))
  }

  /** The received lists `txo[h]` that the outputs phase stores for `tx`. */
  function OwnTxo(mine: set<Addr>, tx: Transaction): AddrLists<TxoEntry>
    requires |tx.inputs| > 0
  {
    TxoOf(mine, tx.outputs, tx.inputs[0].kind == Coinbase)
  }

  /**
   * add_transaction of `h` short of its placeholder resolution: the inputs phase `d`
   * applied, `txo[h]` set to `t` and the cache entries `m` of its owned output addresses dropped.
   */
  function Stored(l: Ledger, h: Hash, d: InputsDelta, t: AddrLists<TxoEntry>, m: set<Addr>): Ledger {
    var a := ApplyInputs(l, h, d);
    a.(txo := StoreTxo(a.txo, h, t), cache := a.cache - m)
  }

  /** The inputs phase of `f`. */
  ghost function FundDelta(l0: Ledger, mine: set<Addr>, f: Hash, txF: Transaction): InputsDelta {
    InputsFold(l0.txo, mine, f, NoDelta, txF.inputs)
  }

  /** The inputs phase of `s` before `f` is stored. */
  ghost function EarlyDelta(l0: Ledger, mine: set<Addr>, s: Hash, txS: Transaction): InputsDelta {
    InputsFold(l0.txo, mine, s, NoDelta, txS.inputs)
  }

  /** The inputs phase of `s` once `f` is stored. */
  ghost function LateDelta(l0: Ledger, mine: set<Addr>, f: Hash, txF: Transaction, s: Hash, txS: Transaction): InputsDelta
    requires |txF.inputs| > 0
  {
    InputsFold(StoreTxo(l0.txo, f, OwnTxo(mine, txF)), mine, s, NoDelta, txS.inputs)
  }

  /** The ledger when `f` comes first, in closed form. */
  ghost function FundFirst(l0: Ledger, mine: set<Addr>, f: Hash, txF: Transaction, s: Hash, txS: Transaction): Ledger
    requires |txF.inputs| > 0 && |txS.inputs| > 0
  {
    Stored(Stored(l0, f, FundDelta(l0, mine, f, txF), OwnTxo(mine, txF), MineAddrs(mine, txF.outputs, 0)),
           s, LateDelta(l0, mine, f, txF, s, txS), OwnTxo(mine, txS), MineAddrs(mine, txS.outputs, 0))
  }

  /** The ledger when `s` comes first, just before `f`'s outputs resolve the parked spends. */
  ghost function SpendFirstParked(l0: Ledger, mine: set<Addr>, f: Hash, txF: Transaction, s: Hash, txS: Transaction): Ledger
    requires |txF.inputs| > 0 && |txS.inputs| > 0
  {
    Stored(Stored(l0, s, EarlyDelta(l0, mine, s, txS), OwnTxo(mine, txS), MineAddrs(mine, txS.outputs, 0)),
           f, FundDelta(l0, mine, f, txF), OwnTxo(mine, txF), {})
  }

  /** add_transaction of `h` when no placeholder waits on one of its outputs is `Stored`. */
  lemma StoredWhenNothingParked(l: Ledger, mine: set<Addr>, h: Hash, tx: Transaction)
    requires |tx.inputs| > 0
    requires forall p :: p in l.pruned + InputsFold(l.txo, mine, h, NoDelta, tx.inputs).puts ==> p.hash != h
    ensures AddTransaction(l, mine, h, tx)
         == Stored(l, h, InputsFold(l.txo, mine, h, NoDelta, tx.inputs), OwnTxo(mine, tx), MineAddrs(mine, tx.outputs, 0))
  {
    var d := InputsFold(l.txo, mine, h, NoDelta, tx.inputs);
    var lb := StoreOutputs(ApplyInputs(l, h, d), mine, h, tx);
    assert lb.pruned == l.pruned + d.puts;
    ResolveWithoutPlaceholders(lb, mine, h, tx.outputs, 0);
  }

  /** The puts of both inputs phases avoid the outputs of `f` and `s`, and each phase's puts name it. */
  lemma DeltaPuts(l0: Ledger, mine: set<Addr>, f: Hash, txF: Transaction, s: Hash, txS: Transaction)
    requires Reorderable(l0, mine, f, txF, s, txS)
    ensures forall p :: p in FundDelta(l0, mine, f, txF).puts ==>
              p.hash != f && p.hash != s && FundDelta(l0, mine, f, txF).puts[p] == f && p !in EarlyDelta(l0, mine, s, txS).puts
    ensures forall p :: p in EarlyDelta(l0, mine, s, txS).puts ==> p.hash != s && EarlyDelta(l0, mine, s, txS).puts[p] == s
  {
    var dF := FundDelta(l0, mine, f, txF);
    var dS0 := EarlyDelta(l0, mine, s, txS);
    InputsFoldPutKeys(l0.txo, mine, f, NoDelta, txF.inputs);
    InputsFoldPutKeys(l0.txo, mine, s, NoDelta, txS.inputs);
    InputsFoldPutsName(l0.txo, mine, f, NoDelta, txF.inputs);
    InputsFoldPutsName(l0.txo, mine, s, NoDelta, txS.inputs);
  }

  /** The early and late inputs phases of `s` are related. */
  lemma DeltasRelated(l0: Ledger, mine: set<Addr>, f: Hash, txF: Transaction, s: Hash, txS: Transaction)
    requires Reorderable(l0, mine, f, txF, s, txS)
    ensures Related(mine, f, txF.outputs, EarlyDelta(l0, mine, s, txS), LateDelta(l0, mine, f, txF, s, txS))
  {
    var cb := txF.inputs[0].kind == Coinbase;
    forall b ensures Filed(NoDelta.puts, f, txF.outputs, 0, b) == {} {
    }
    assert NotOn(NoDelta.puts, f) == NoDelta.puts;
    assert Related(mine, f, txF.outputs, NoDelta, NoDelta);
    FoldRelated(l0.txo, mine, f, txF.outputs, cb, s, NoDelta, NoDelta, txS.inputs);
  }

  /** Funding first: `f` resolves nothing, then `s` finds the outputs of `f` stored. */
  lemma FundFirstIs(l0: Ledger, mine: set<Addr>, f: Hash, txF: Transaction, s: Hash, txS: Transaction)
    requires Reorderable(l0, mine, f, txF, s, txS) && |txS.inputs| > 0
    ensures AddTransaction(AddTransaction(l0, mine, f, txF), mine, s, txS) == FundFirst(l0, mine, f, txF, s, txS)
  {
    DeltaPuts(l0, mine, f, txF, s, txS);
    StoredWhenNothingParked(l0, mine, f, txF);
    var l1 := Stored(l0, f, FundDelta(l0, mine, f, txF), OwnTxo(mine, txF), MineAddrs(mine, txF.outputs, 0));
    assert l1.txo == StoreTxo(l0.txo, f, OwnTxo(mine, txF));
    InputsFoldPutKeys(l1.txo, mine, s, NoDelta, txS.inputs);
    StoredWhenNothingParked(l1, mine, s, txS);
  }

  /** add_transaction of `h` is the resolution of its outputs over `Stored`, before any cache drop. */
  lemma AddIsResolveStored(l: Ledger, mine: set<Addr>, h: Hash, tx: Transaction)
    requires |tx.inputs| > 0
    ensures AddTransaction(l, mine, h, tx)
         == ResolveFrom(Stored(l, h, InputsFold(l.txo, mine, h, NoDelta, tx.inputs), OwnTxo(mine, tx), {}), mine, h, tx.outputs, 0)
  {
    var a := ApplyInputs(l, h, InputsFold(l.txo, mine, h, NoDelta, tx.inputs));
    assert a.cache - {} == a.cache;
  }

  /** Spend first: `s` parks its spends of `f`, and `f` reads the same outputs as it would have. */
  lemma SpendFirstIs(l0: Ledger, mine: set<Addr>, f: Hash, txF: Transaction, s: Hash, txS: Transaction)
    requires Reorderable(l0, mine, f, txF, s, txS) && |txS.inputs| > 0
    ensures AddTransaction(AddTransaction(l0, mine, s, txS), mine, f, txF)
         == ResolveFrom(SpendFirstParked(l0, mine, f, txF, s, txS), mine, f, txF.outputs, 0)
  {
    DeltaPuts(l0, mine, f, txF, s, txS);
    StoredWhenNothingParked(l0, mine, s, txS);
    var m1 := Stored(l0, s, EarlyDelta(l0, mine, s, txS), OwnTxo(mine, txS), MineAddrs(mine, txS.outputs, 0));
    StoredFields(l0, s, EarlyDelta(l0, mine, s, txS), OwnTxo(mine, txS), MineAddrs(mine, txS.outputs, 0));
    StoreTxoElsewhere(l0.txo, s, OwnTxo(mine, txS), txF.inputs);
    InputsFoldCongruent(m1.txo, l0.txo, mine, f, NoDelta, txF.inputs);
    AddIsResolveStored(m1, mine, f, txF);
  }

  /** The parked ledger meets the preconditions of the resolution lemmas. */
  lemma ParkedReady(l0: Ledger, mine: set<Addr>, f: Hash, txF: Transaction, s: Hash, txS: Transaction)
    requires Reorderable(l0, mine, f, txF, s, txS) && |txS.inputs| > 0
    ensures var p := SpendFirstParked(l0, mine, f, txF, s, txS);
            && ParkedBy(p, mine, f, txF.outputs, 0, s)
            && WellFiled(p.txi, s)
  {
    var dF := FundDelta(l0, mine, f, txF);
    var dS0 := EarlyDelta(l0, mine, s, txS);
    DeltaPuts(l0, mine, f, txF, s, txS);
    DeltasRelated(l0, mine, f, txF, s, txS);
    var pl := SpendFirstParked(l0, mine, f, txF, s, txS);
    assert pl.pruned == (l0.pruned + dS0.puts) + dF.puts;
  }

  // ---------------------------------------------------------------------------
  // The two orders field by field, over the inputs phases as parameters
  // ---------------------------------------------------------------------------

  lemma OrdersTxo(l0: Ledger, mine: set<Addr>, f: Hash, outs: seq<TxOut>, s: Hash, dF: InputsDelta, dS0: InputsDelta,
                  dS1: InputsDelta, tF: AddrLists<TxoEntry>, tS: AddrLists<TxoEntry>, mF: set<Addr>, mS: set<Addr>)
    requires f != s
    ensures ResolveFrom(Stored(Stored(l0, s, dS0, tS, mS), f, dF, tF, {}), mine, f, outs, 0).txo
         == Stored(Stored(l0, f, dF, tF, mF), s, dS1, tS, mS).txo
  {
    ResolveKeepsTxo(Stored(Stored(l0, s, dS0, tS, mS), f, dF, tF, {}), mine, f, outs, 0);
    StoreTxoCommute(l0.txo, f, tF, s, tS);
  }

  lemma OrdersPruned(l0: Ledger, mine: set<Addr>, f: Hash, outs: seq<TxOut>, s: Hash, dF: InputsDelta, dS0: InputsDelta,
                     dS1: InputsDelta, tF: AddrLists<TxoEntry>, tS: AddrLists<TxoEntry>, mF: set<Addr>, mS: set<Addr>)
    requires forall p :: p in l0.pruned ==> p.hash != f
    requires forall p :: p in dF.puts ==> p.hash != f && p !in dS0.puts
    requires forall p :: p in dS0.puts && p.hash == f ==> p.n < |outs|
    requires dS1.puts == NotOn(dS0.puts, f)
    ensures ResolveFrom(Stored(Stored(l0, s, dS0, tS, mS), f, dF, tF, {}), mine, f, outs, 0).pruned
         == Stored(Stored(l0, f, dF, tF, mF), s, dS1, tS, mS).pruned
  {
    var pl := Stored(Stored(l0, s, dS0, tS, mS), f, dF, tF, {});
    StoredFields(l0, s, dS0, tS, mS);
    StoredFields(Stored(l0, s, dS0, tS, mS), f, dF, tF, {});
    StoredFields(l0, f, dF, tF, mF);
    StoredFields(Stored(l0, f, dF, tF, mF), s, dS1, tS, mS);
    ResolveAllPruned(pl, mine, f, outs, 0);
    DropOutputsOf(l0.pruned, dS0.puts, dF.puts, f, |outs|);
  }

  /** Dropping the placeholders on the first `n` outputs of `f` leaves those not on `f` at all. */
  lemma DropOutputsOf(base: map<Outpoint, Hash>, x: map<Outpoint, Hash>, y: map<Outpoint, Hash>, f: Hash, n: nat)
    requires forall p :: p in base ==> p.hash != f
    requires forall p :: p in y ==> p.hash != f && p !in x
    requires forall p :: p in x && p.hash == f ==> p.n < n
    ensures (map p | p in (base + x) + y && !(p.hash == f && 0 <= p.n < n) :: ((base + x) + y)[p])
         == (base + y) + NotOn(x, f)
  {
    var all := (base + x) + y;
    var r := map p | p in all && !(p.hash == f && 0 <= p.n < n) :: all[p];
    var q := (base + y) + NotOn(x, f);
    forall p ensures (p in r <==> p in q) && (p in r ==> r[p] == q[p]) {
    }
  }

  lemma OrdersCache(l0: Ledger, mine: set<Addr>, f: Hash, outs: seq<TxOut>, s: Hash, dF: InputsDelta, dS0: InputsDelta,
                    dS1: InputsDelta, tF: AddrLists<TxoEntry>, tS: AddrLists<TxoEntry>, mF: set<Addr>, mS: set<Addr>)
    requires mF == MineAddrs(mine, outs, 0)
    requires dS1.invalidated + mF == dS0.invalidated + mF
    ensures ResolveFrom(Stored(Stored(l0, s, dS0, tS, mS), f, dF, tF, {}), mine, f, outs, 0).cache
         == Stored(Stored(l0, f, dF, tF, mF), s, dS1, tS, mS).cache
  {
    var pl := Stored(Stored(l0, s, dS0, tS, mS), f, dF, tF, {});
    StoredFields(l0, s, dS0, tS, mS);
    StoredFields(Stored(l0, s, dS0, tS, mS), f, dF, tF, {});
    StoredFields(l0, f, dF, tF, mF);
    StoredFields(Stored(l0, f, dF, tF, mF), s, dS1, tS, mS);
    ResolveAllCache(pl, mine, f, outs, 0);
    CacheAgree(l0.cache, dS0.invalidated, dS1.invalidated, dF.invalidated, mF, mS);
  }

  /** The cache entries both orders drop are the same once `f`'s owned addresses are dropped too. */
  lemma CacheAgree(c: map<Addr, Balance>, i0: set<Addr>, i1: set<Addr>, iF: set<Addr>, mF: set<Addr>, mS: set<Addr>)
    requires i1 + mF == i0 + mF
    ensures (((c - i0) - mS) - iF - {}) - mF == ((c - iF) - mF) - i1 - mS
  {
    assert (((c - i0) - mS) - iF - {}) - mF == c - (i0 + mF + mS + iF);
    assert ((c - iF) - mF) - i1 - mS == c - (i1 + mF + mS + iF);
  }

  /**
   * `r` stands for the spend-first ledger after resolution, through what `ResolveAllFlags`
   * says of it. Funding first keeps `s` flagged exactly while a placeholder names it; spend
   * first agrees on every other flag, and on `s` only when `s` parked nothing on `f`.
   */
  lemma OrdersFlags(l0: Ledger, f: Hash, outs: seq<TxOut>, s: Hash, dF: InputsDelta, dS0: InputsDelta, dS1: InputsDelta,
                    tF: AddrLists<TxoEntry>, tS: AddrLists<TxoEntry>, mF: set<Addr>, mS: set<Addr>, r: Ledger)
    requires f != s
    requires var pl := Stored(Stored(l0, s, dS0, tS, mS), f, dF, tF, {});
      && (forall t :: t != s ==> (t in r.prunedValues <==> t in pl.prunedValues))
      && (s in r.prunedValues <==> s in pl.prunedValues && !exists p :: p in pl.pruned && p.hash == f && 0 <= p.n < |outs|)
    requires s !in l0.prunedValues && forall p :: p in l0.pruned ==> p.hash != f && l0.pruned[p] != s
    requires forall p :: p in dF.puts ==> p.hash != f && dF.puts[p] == f
    requires forall p :: p in dS1.puts ==> dS1.puts[p] == s
    requires dS1.puts == NotOn(dS0.puts, f)
    requires forall p :: p in dS0.puts && p.hash == f ==> p.n < |outs|
    ensures var y := Stored(Stored(l0, f, dF, tF, mF), s, dS1, tS, mS);
      && r.prunedValues - {s} == y.prunedValues - {s}
      && (s in y.prunedValues <==> exists p :: p in y.pruned && y.pruned[p] == s)
      && (s in r.prunedValues <==> s in y.prunedValues && forall p :: p in dS0.puts ==> p.hash != f)
  {
    StoredFields(l0, s, dS0, tS, mS);
    StoredFields(Stored(l0, s, dS0, tS, mS), f, dF, tF, {});
    StoredFields(l0, f, dF, tF, mF);
    StoredFields(Stored(l0, f, dF, tF, mF), s, dS1, tS, mS);
    FlagsUpToSpender(l0.prunedValues, l0.pruned, dS0.puts, dF.puts, dS1.puts, f, s, |outs|, r.prunedValues);
  }

  /** `OrdersFlags` over the flags and placeholders alone. */
  lemma FlagsUpToSpender(v0: set<Hash>, base: map<Outpoint, Hash>, x0: map<Outpoint, Hash>, xF: map<Outpoint, Hash>,
                         x1: map<Outpoint, Hash>, f: Hash, s: Hash, n: nat, rv: set<Hash>)
    requires f != s && s !in v0
    requires forall p :: p in base ==> p.hash != f && base[p] != s
    requires forall p :: p in xF ==> p.hash != f && xF[p] == f
    requires forall p :: p in x1 ==> x1[p] == s
    requires x1 == NotOn(x0, f)
    requires forall p :: p in x0 && p.hash == f ==> p.n < n
    requires forall t :: t != s ==> (t in rv <==> t in Flag(Flag(v0, x0, s), xF, f))
    requires s in rv <==> s in Flag(Flag(v0, x0, s), xF, f) && !exists p :: p in (base + x0) + xF && p.hash == f && 0 <= p.n < n
    ensures rv - {s} == Flag(Flag(v0, xF, f), x1, s) - {s}
    ensures s in Flag(Flag(v0, xF, f), x1, s) <==> exists p :: p in (base + xF) + x1 && ((base + xF) + x1)[p] == s
    ensures s in rv <==> s in Flag(Flag(v0, xF, f), x1, s) && forall p :: p in x0 ==> p.hash != f
  {
    FlagOfSpender(base, xF, x1, f, s);
    assert s in Flag(Flag(v0, xF, f), x1, s) <==> x1 != map[];
    assert s in Flag(Flag(v0, x0, s), xF, f) <==> x0 != map[];
    if exists p :: p in x0 && p.hash == f {
      var p :| p in x0 && p.hash == f;
      assert p in (base + x0) + xF && 0 <= p.n < n;
    } else {
      assert x1 == x0;
      assert !exists p :: p in (base + x0) + xF && p.hash == f && 0 <= p.n < n;
    }
  }

  /** `h` added to the flags `v` when its inputs phase parked something. */
  function Flag(v: set<Hash>, puts: map<Outpoint, Hash>, h: Hash): set<Hash> {
    if puts == map[] then v else v + {h}
  }

  /** After both, some placeholder names `s` exactly when the late inputs phase of `s` parked one. */
  lemma FlagOfSpender(base: map<Outpoint, Hash>, x: map<Outpoint, Hash>, y: map<Outpoint, Hash>, f: Hash, s: Hash)
    requires f != s
    requires forall p :: p in base ==> base[p] != s
    requires forall p :: p in x ==> x[p] == f
    requires forall p :: p in y ==> y[p] == s
    ensures (exists p :: p in (base + x) + y && ((base + x) + y)[p] == s) <==> y != map[]
  {
    var all := (base + x) + y;
    if y != map[] {
      var q :| q in y;
      assert q in all && all[q] == s;
    }
  }

  /** The placeholders the resolution of `f` files are those on `f`'s outputs, whatever else is parked. */
  lemma FiledSameOn(p1: map<Outpoint, Hash>, p2: map<Outpoint, Hash>, f: Hash, outs: seq<TxOut>, k: nat, b: Addr)
    requires forall p: Outpoint :: p.hash == f ==> (p in p1 <==> p in p2)
    ensures Filed(p1, f, outs, k, b) == Filed(p2, f, outs, k, b)
  {
  }

  /** Outside `txi[s]` the two orders store the same spends. */
  lemma OrdersTxiOthers(l0: Ledger, mine: set<Addr>, f: Hash, outs: seq<TxOut>, s: Hash, dF: InputsDelta, dS0: InputsDelta,
                        dS1: InputsDelta, tF: AddrLists<TxoEntry>, tS: AddrLists<TxoEntry>, mF: set<Addr>, mS: set<Addr>)
    requires f != s
    requires ParkedBy(Stored(Stored(l0, s, dS0, tS, mS), f, dF, tF, {}), mine, f, outs, 0, s)
    requires WellFiled(Stored(Stored(l0, s, dS0, tS, mS), f, dF, tF, {}).txi, s)
    ensures var x := ResolveFrom(Stored(Stored(l0, s, dS0, tS, mS), f, dF, tF, {}), mine, f, outs, 0).txi;
            var y := Stored(Stored(l0, f, dF, tF, mF), s, dS1, tS, mS).txi;
            && (forall t :: t != s ==> (t in x <==> t in y))
            && (forall t :: t in x && t != s ==> x[t] == y[t])
  {
    var pl := Stored(Stored(l0, s, dS0, tS, mS), f, dF, tF, {});
    StoredTxi(l0, s, dS0, tS, mS);
    StoredTxi(Stored(l0, s, dS0, tS, mS), f, dF, tF, {});
    StoredTxi(l0, f, dF, tF, mF);
    StoredTxi(Stored(l0, f, dF, tF, mF), s, dS1, tS, mS);
    ResolveAllTxi(pl, mine, f, outs, 0, s);
    SetOrDropOthers(l0.txi, f, dF.spent, s, dS0.spent, dS1.spent);
  }

  /** `txi[h]` set to `v`, or dropped when `v` is empty, as the inputs phase of `h` leaves it. */
  function SetOrDrop(txi: map<Hash, AddrLists<TxiEntry>>, h: Hash, v: AddrLists<TxiEntry>): map<Hash, AddrLists<TxiEntry>> {
    if v == map[] then txi - {h} else txi[h := v]
  }

  /** The placeholders, flags and cache after `Stored`. */
  lemma StoredFields(l: Ledger, h: Hash, d: InputsDelta, t: AddrLists<TxoEntry>, m: set<Addr>)
    ensures Stored(l, h, d, t, m).pruned == l.pruned + d.puts
    ensures Stored(l, h, d, t, m).prunedValues == Flag(l.prunedValues, d.puts, h)
    ensures Stored(l, h, d, t, m).cache == l.cache - d.invalidated - m
    ensures Stored(l, h, d, t, m).txo == StoreTxo(l.txo, h, t)
  {
  }

  /** Storing outputs under `h` leaves what inputs spending other transactions read. */
  lemma StoreTxoElsewhere(txo: map<Hash, AddrLists<TxoEntry>>, h: Hash, t: AddrLists<TxoEntry>, ins: seq<TxIn>)
    requires forall i :: 0 <= i < |ins| ==> ins[i].prevHash != h
    ensures forall i :: 0 <= i < |ins| ==> TxoAt(StoreTxo(txo, h, t), ins[i].prevHash) == TxoAt(txo, ins[i].prevHash)
  {
  }

  lemma StoredTxi(l: Ledger, h: Hash, d: InputsDelta, t: AddrLists<TxoEntry>, m: set<Addr>)
    ensures Stored(l, h, d, t, m).txi == SetOrDrop(l.txi, h, d.spent)
  {
  }

  /** Away from `s`, storing `f` and `s` in either order gives the same spends. */
  lemma SetOrDropOthers(txi: map<Hash, AddrLists<TxiEntry>>, f: Hash, vf: AddrLists<TxiEntry>, s: Hash,
                        v0: AddrLists<TxiEntry>, v1: AddrLists<TxiEntry>)
    requires f != s
    ensures var x := SetOrDrop(SetOrDrop(txi, s, v0), f, vf);
            var y := SetOrDrop(SetOrDrop(txi, f, vf), s, v1);
            && (forall t :: t != s ==> (t in x <==> t in y))
            && (forall t :: t in x && t != s ==> x[t] == y[t])
  {
  }

  /**
   * Within `txi[s]` the two orders file the same spends under the same addresses; `x` stands
   * for the spend-first `txi` after resolution, through what `ResolveAllTxi` says of it.
   */
  lemma OrdersTxiSpender(l0: Ledger, f: Hash, outs: seq<TxOut>, s: Hash, dF: InputsDelta, dS0: InputsDelta,
                         dS1: InputsDelta, tF: AddrLists<TxoEntry>, tS: AddrLists<TxoEntry>, mF: set<Addr>, mS: set<Addr>,
                         x: map<Hash, AddrLists<TxiEntry>>)
    requires f != s
    requires WellFiled(x, s)
    requires forall b :: multiset(TxiList(x, s, b))
                      == multiset(TxiList(Stored(Stored(l0, s, dS0, tS, mS), f, dF, tF, {}).txi, s, b))
                         + multiset(Filed(Stored(Stored(l0, s, dS0, tS, mS), f, dF, tF, {}).pruned, f, outs, 0, b))
    requires forall p :: p in l0.pruned + dF.puts ==> p.hash != f
    requires forall b :: b in dS1.spent ==> dS1.spent[b] != []
    requires forall b :: multiset(Get(dS1.spent, b)) == multiset(Get(dS0.spent, b)) + multiset(Filed(dS0.puts, f, outs, 0, b))
    ensures var y := Stored(Stored(l0, f, dF, tF, mF), s, dS1, tS, mS).txi;
            && (forall b :: multiset(TxiList(x, s, b)) == multiset(TxiList(y, s, b)))
            && (s in x <==> s in y)
            && (s in x ==> x[s].Keys == y[s].Keys)
  {
    var y := Stored(Stored(l0, f, dF, tF, mF), s, dS1, tS, mS).txi;
    forall b ensures multiset(TxiList(x, s, b)) == multiset(Get(dS1.spent, b)) {
      ParkedSpendsOf(l0, f, outs, s, dF, dS0, dS1, tF, tS, mS, x, b);
    }
    assert (s in y <==> dS1.spent != map[]) && (s in y ==> y[s] == dS1.spent);
    SpenderAgree(x, y, s, dS1.spent);
  }

  /** Under one address, the resolved spends of `s` are those the late inputs phase files. */
  lemma ParkedSpendsOf(l0: Ledger, f: Hash, outs: seq<TxOut>, s: Hash, dF: InputsDelta, dS0: InputsDelta,
                       dS1: InputsDelta, tF: AddrLists<TxoEntry>, tS: AddrLists<TxoEntry>, mS: set<Addr>,
                       x: map<Hash, AddrLists<TxiEntry>>, b: Addr)
    requires f != s
    requires multiset(TxiList(x, s, b))
          == multiset(TxiList(Stored(Stored(l0, s, dS0, tS, mS), f, dF, tF, {}).txi, s, b))
             + multiset(Filed(Stored(Stored(l0, s, dS0, tS, mS), f, dF, tF, {}).pruned, f, outs, 0, b))
    requires forall p :: p in l0.pruned + dF.puts ==> p.hash != f
    requires multiset(Get(dS1.spent, b)) == multiset(Get(dS0.spent, b)) + multiset(Filed(dS0.puts, f, outs, 0, b))
    ensures multiset(TxiList(x, s, b)) == multiset(Get(dS1.spent, b))
  {
    var pl := Stored(Stored(l0, s, dS0, tS, mS), f, dF, tF, {});
    assert Filed(pl.pruned, f, outs, 0, b) == Filed(dS0.puts, f, outs, 0, b) by {
      assert pl.pruned == (l0.pruned + dS0.puts) + dF.puts;
      FiledSameOn(pl.pruned, dS0.puts, f, outs, 0, b);
    }
    assert TxiList(pl.txi, s, b) == Get(dS0.spent, b);
  }

  /** `txi[s]` in `x` holds, address by address, the spends of `g` in some order, as `y` holds them in order. */
  lemma SpenderAgree(x: map<Hash, AddrLists<TxiEntry>>, y: map<Hash, AddrLists<TxiEntry>>, s: Hash, g: AddrLists<TxiEntry>)
    requires WellFiled(x, s)
    requires forall b :: b in g ==> g[b] != []
    requires forall b :: multiset(TxiList(x, s, b)) == multiset(Get(g, b))
    requires (s in y <==> g != map[]) && (s in y ==> y[s] == g)
    ensures forall b :: multiset(TxiList(x, s, b)) == multiset(TxiList(y, s, b))
    ensures s in x <==> s in y
    ensures s in x ==> x[s].Keys == y[s].Keys
  {
    forall b ensures TxiList(y, s, b) == Get(g, b) {
    }
    if s in x {
      var b :| b in x[s];
      assert TxiList(x, s, b) != [];
      assert multiset(Get(g, b)) != multiset{};
    }
    if s in y {
      var b :| b in g;
      assert multiset(TxiList(x, s, b)) != multiset{};
    }
    if s in x {
      forall b ensures b in x[s] <==> b in y[s] {
        assert b in x[s] <==> TxiList(x, s, b) != [];
        assert b in y[s] <==> Get(g, b) != [];
      }
    }
  }

  // ---------------------------------------------------------------------------
  // Arrival order
  // ---------------------------------------------------------------------------

  /**
   * Two ledgers agree on everything except possibly the order of the spends filed under
   * `txi[s]` and the flag of `s`: the same outputs, placeholders, cache entries and flags of
   * every other transaction, the same spends of every other transaction, and under each
   * address of `s` the same spends as a multiset.
   */
  ghost predicate SameUpToSpendOrder(x: Ledger, y: Ledger, s: Hash) {
    && x.txo == y.txo && x.pruned == y.pruned && x.prunedValues - {s} == y.prunedValues - {s} && x.cache == y.cache
    && x.txi.Keys == y.txi.Keys
    && (forall t :: t in x.txi && t != s ==> x.txi[t] == y.txi[t])
    && (s in x.txi ==> x.txi[s].Keys == y.txi[s].Keys)
    && (forall b :: multiset(TxiList(x.txi, s, b)) == multiset(TxiList(y.txi, s, b)))
  }

  /**
   * A spender `s` and a transaction `f` it spends from, added in either order: the ledgers
   * agree up to the order of `s`'s spends and the flag of `s`, and no placeholder is left on
   * an output of `f`. Funding first, `s` is flagged exactly while a placeholder names it;
   * spending first, the pop as written also clears that flag as soon as `f` resolves a
   * spend `s` parked on it.
   */
  lemma ArrivalOrderUpToSpendOrder(l0: Ledger, mine: set<Addr>, f: Hash, txF: Transaction, s: Hash, txS: Transaction)
    requires Reorderable(l0, mine, f, txF, s, txS)
    ensures var x := AddTransaction(AddTransaction(l0, mine, s, txS), mine, f, txF);
            var y := AddTransaction(AddTransaction(l0, mine, f, txF), mine, s, txS);
            && SameUpToSpendOrder(x, y, s)
            && (forall p :: p in x.pruned ==> p.hash != f)
            && (s in y.prunedValues <==> exists p :: p in y.pruned && y.pruned[p] == s)
            && (s in x.prunedValues <==> s in y.prunedValues && forall i :: 0 <= i < |txS.inputs| ==> !WaitsOn(mine, f, txS.inputs[i]))
  {
    if |txS.inputs| == 0 {
      SpenderWithoutInputs(l0, mine, f, txF, s, txS);
    } else {
      DeltaPuts(l0, mine, f, txF, s, txS);
      FoldParksOnFunding(l0.txo, mine, f, s, NoDelta, txS.inputs);
      SpendFirstIs(l0, mine, f, txF, s, txS);
      FundFirstIs(l0, mine, f, txF, s, txS);
      ParkedReady(l0, mine, f, txF, s, txS);
      DeltasRelated(l0, mine, f, txF, s, txS);
      OrdersByParts(l0, mine, f, txF.outputs, s, FundDelta(l0, mine, f, txF), EarlyDelta(l0, mine, s, txS),
                    LateDelta(l0, mine, f, txF, s, txS), OwnTxo(mine, txF), OwnTxo(mine, txS),
                    MineAddrs(mine, txF.outputs, 0), MineAddrs(mine, txS.outputs, 0));
    }
  }

  /** A spender without inputs is ignored, so both orders are the ledger after `f`, where nothing names `s`. */
  lemma SpenderWithoutInputs(l0: Ledger, mine: set<Addr>, f: Hash, txF: Transaction, s: Hash, txS: Transaction)
    requires Reorderable(l0, mine, f, txF, s, txS) && |txS.inputs| == 0
    ensures var y := AddTransaction(l0, mine, f, txF);
            && AddTransaction(y, mine, s, txS) == y && AddTransaction(l0, mine, s, txS) == l0
            && s !in y.prunedValues && !(exists p :: p in y.pruned && y.pruned[p] == s)
            && (forall p :: p in y.pruned ==> p.hash != f)
  {
    DeltaPuts(l0, mine, f, txF, s, txS);
    StoredWhenNothingParked(l0, mine, f, txF);
    StoredFields(l0, f, FundDelta(l0, mine, f, txF), OwnTxo(mine, txF), MineAddrs(mine, txF.outputs, 0));
  }

  /** The field lemmas together, over the inputs phases as parameters. */
  lemma OrdersByParts(l0: Ledger, mine: set<Addr>, f: Hash, outs: seq<TxOut>, s: Hash, dF: InputsDelta, dS0: InputsDelta,
                      dS1: InputsDelta, tF: AddrLists<TxoEntry>, tS: AddrLists<TxoEntry>, mF: set<Addr>, mS: set<Addr>)
    requires f != s && s != ""
    requires mF == MineAddrs(mine, outs, 0)
    requires Related(mine, f, outs, dS0, dS1)
    requires s !in l0.prunedValues
    requires forall p :: p in l0.pruned ==> p.hash != f && l0.pruned[p] != s
    requires forall p :: p in dF.puts ==> p.hash != f && dF.puts[p] == f && p !in dS0.puts
    requires forall p :: p in dS0.puts ==> dS0.puts[p] == s
    requires ParkedBy(Stored(Stored(l0, s, dS0, tS, mS), f, dF, tF, {}), mine, f, outs, 0, s)
    requires WellFiled(Stored(Stored(l0, s, dS0, tS, mS), f, dF, tF, {}).txi, s)
    ensures var x := ResolveFrom(Stored(Stored(l0, s, dS0, tS, mS), f, dF, tF, {}), mine, f, outs, 0);
            var y := Stored(Stored(l0, f, dF, tF, mF), s, dS1, tS, mS);
            && SameUpToSpendOrder(x, y, s) && (forall p :: p in x.pruned ==> p.hash != f)
            && (s in y.prunedValues <==> exists p :: p in y.pruned && y.pruned[p] == s)
            && (s in x.prunedValues <==> s in y.prunedValues && forall p :: p in dS0.puts ==> p.hash != f)
  {
    OrdersFields(l0, mine, f, outs, s, dF, dS0, dS1, tF, tS, mF, mS);
    OrdersResolvedFlags(l0, mine, f, outs, s, dF, dS0, dS1, tF, tS, mF, mS);
    OrdersTxi(l0, mine, f, outs, s, dF, dS0, dS1, tF, tS, mF, mS);
  }

  /** Outputs, placeholders, flags and cache of the two orders agree. */
  lemma OrdersFields(l0: Ledger, mine: set<Addr>, f: Hash, outs: seq<TxOut>, s: Hash, dF: InputsDelta, dS0: InputsDelta,
                     dS1: InputsDelta, tF: AddrLists<TxoEntry>, tS: AddrLists<TxoEntry>, mF: set<Addr>, mS: set<Addr>)
    requires f != s && s != ""
    requires mF == MineAddrs(mine, outs, 0)
    requires Related(mine, f, outs, dS0, dS1)
    requires s !in l0.prunedValues
    requires forall p :: p in l0.pruned ==> p.hash != f && l0.pruned[p] != s
    requires forall p :: p in dF.puts ==> p.hash != f && dF.puts[p] == f && p !in dS0.puts
    requires forall p :: p in dS0.puts ==> dS0.puts[p] == s
    requires ParkedBy(Stored(Stored(l0, s, dS0, tS, mS), f, dF, tF, {}), mine, f, outs, 0, s)
    ensures var x := ResolveFrom(Stored(Stored(l0, s, dS0, tS, mS), f, dF, tF, {}), mine, f, outs, 0);
            var y := Stored(Stored(l0, f, dF, tF, mF), s, dS1, tS, mS);
            && x.txo == y.txo && x.pruned == y.pruned && x.cache == y.cache
            && (forall p :: p in x.pruned ==> p.hash != f)
  {
    OrdersTxo(l0, mine, f, outs, s, dF, dS0, dS1, tF, tS, mF, mS);
    OrdersPruned(l0, mine, f, outs, s, dF, dS0, dS1, tF, tS, mF, mS);
    OrdersCache(l0, mine, f, outs, s, dF, dS0, dS1, tF, tS, mF, mS);
  }

  /** The flags of the two orders: equal but for `s`, and for `s` as `OrdersFlags` says. */
  lemma OrdersResolvedFlags(l0: Ledger, mine: set<Addr>, f: Hash, outs: seq<TxOut>, s: Hash, dF: InputsDelta, dS0: InputsDelta,
                            dS1: InputsDelta, tF: AddrLists<TxoEntry>, tS: AddrLists<TxoEntry>, mF: set<Addr>, mS: set<Addr>)
    requires f != s && s != ""
    requires Related(mine, f, outs, dS0, dS1)
    requires s !in l0.prunedValues
    requires forall p :: p in l0.pruned ==> p.hash != f && l0.pruned[p] != s
    requires forall p :: p in dF.puts ==> p.hash != f && dF.puts[p] == f
    requires forall p :: p in dS0.puts ==> dS0.puts[p] == s
    requires ParkedBy(Stored(Stored(l0, s, dS0, tS, mS), f, dF, tF, {}), mine, f, outs, 0, s)
    ensures var x := ResolveFrom(Stored(Stored(l0, s, dS0, tS, mS), f, dF, tF, {}), mine, f, outs, 0);
            var y := Stored(Stored(l0, f, dF, tF, mF), s, dS1, tS, mS);
            && x.prunedValues - {s} == y.prunedValues - {s}
            && (s in y.prunedValues <==> exists p :: p in y.pruned && y.pruned[p] == s)
            && (s in x.prunedValues <==> s in y.prunedValues && forall p :: p in dS0.puts ==> p.hash != f)
  {
    var pl := Stored(Stored(l0, s, dS0, tS, mS), f, dF, tF, {});
    ResolveAllFlags(pl, mine, f, outs, 0, s);
    OrdersFlags(l0, f, outs, s, dF, dS0, dS1, tF, tS, mF, mS, ResolveFrom(pl, mine, f, outs, 0));
  }

  /** The spends of the two orders: equal outside `txi[s]`, equal as multisets per address inside it. */
  lemma OrdersTxi(l0: Ledger, mine: set<Addr>, f: Hash, outs: seq<TxOut>, s: Hash, dF: InputsDelta, dS0: InputsDelta,
                  dS1: InputsDelta, tF: AddrLists<TxoEntry>, tS: AddrLists<TxoEntry>, mF: set<Addr>, mS: set<Addr>)
    requires f != s
    requires Related(mine, f, outs, dS0, dS1)
    requires forall p :: p in l0.pruned ==> p.hash != f
    requires forall p :: p in dF.puts ==> p.hash != f
    requires ParkedBy(Stored(Stored(l0, s, dS0, tS, mS), f, dF, tF, {}), mine, f, outs, 0, s)
    requires WellFiled(Stored(Stored(l0, s, dS0, tS, mS), f, dF, tF, {}).txi, s)
    ensures var x := ResolveFrom(Stored(Stored(l0, s, dS0, tS, mS), f, dF, tF, {}), mine, f, outs, 0).txi;
            var y := Stored(Stored(l0, f, dF, tF, mF), s, dS1, tS, mS).txi;
            && x.Keys == y.Keys
            && (forall t :: t in x && t != s ==> x[t] == y[t])
            && (s in x ==> x[s].Keys == y[s].Keys)
            && (forall b :: multiset(TxiList(x, s, b)) == multiset(TxiList(y, s, b)))
  {
    var pl := Stored(Stored(l0, s, dS0, tS, mS), f, dF, tF, {});
    var x := ResolveFrom(pl, mine, f, outs, 0).txi;
    var y := Stored(Stored(l0, f, dF, tF, mF), s, dS1, tS, mS).txi;
    OrdersTxiOthers(l0, mine, f, outs, s, dF, dS0, dS1, tF, tS, mF, mS);
    assert forall p :: p in l0.pruned + dF.puts ==> p.hash != f;
    ResolveAllTxi(pl, mine, f, outs, 0, s);
    OrdersTxiSpender(l0, f, outs, s, dF, dS0, dS1, tF, tS, mF, mS, x);
    SameKeys(x, y, s);
  }

  /** Two maps with the same keys apart from `s`, and both or neither holding `s`, have the same keys. */
  lemma SameKeys(x: map<Hash, AddrLists<TxiEntry>>, y: map<Hash, AddrLists<TxiEntry>>, s: Hash)
    requires forall t :: t != s ==> (t in x <==> t in y)
    requires s in x <==> s in y
    ensures x.Keys == y.Keys
  {
  }

  // ---------------------------------------------------------------------------
  // The list order does depend on arrival
  // ---------------------------------------------------------------------------

  /** A wallet owning "a", with one stored coin: output 0 of "g", worth 7. */
  const OrderLedger := Ledger(map[], map["g" := map["a" := [TxoEntry(0, 7, false)]]], map[], {}, map[])

  /** "f": a coinbase paying "a" the value 5 in output 0. */
  const OrderFund := Transaction([TxIn(Coinbase, None, "", 0)], [TxOut(PayTo("a"), 5)], SlpMessage.ParseError)

  /** "s": spends output 0 of "f", then output 0 of "g", both under "a"; pays nothing owned. */
  const OrderSpend := Transaction([TxIn(Regular, Some("a"), "f", 0), TxIn(Regular, Some("a"), "g", 0)], [], SlpMessage.ParseError)

  lemma OrderSettingReorderable()
    ensures Reorderable(OrderLedger, {"a"}, "f", OrderFund, "s", OrderSpend)
  {
    assert "f" != "s" && "s" != "" by {
      assert "f"[0] != "s"[0];
      assert |""| == 0;
    }
    assert "f" != "g" && "s" != "g" by {
      assert "f"[0] != "g"[0] && "s"[0] != "g"[0];
    }
    assert "" != "f" && "" != "s";
  }

  /** The received lists "f" stores: its one output, under "a". */
  lemma OrderFundTxo()
    ensures OwnTxo({"a"}, OrderFund) == map["a" := [TxoEntry(0, 5, true)]]
  {
    var outs := OrderFund.outputs;
    assert outs[..0] == [];
    assert TxoOf({"a"}, outs[..0], true) == map[];
    assert [] + [TxoEntry(0, 5, true)] == [TxoEntry(0, 5, true)];
  }

  /** With "f" stored, the inputs phase of "s" files both coins, in input order. */
  lemma OrderLateDelta()
    ensures LateDelta(OrderLedger, {"a"}, "f", OrderFund, "s", OrderSpend).spent
         == map["a" := [TxiEntry(Outpoint("f", 0), 5), TxiEntry(Outpoint("g", 0), 7)]]
  {
    var mine: set<Addr> := {"a"};
    OrderFundTxo();
    var txo1 := StoreTxo(OrderLedger.txo, "f", OwnTxo(mine, OrderFund));
    assert "f" != "g" by { assert "f"[0] != "g"[0]; }
    assert txo1 == map["g" := map["a" := [TxoEntry(0, 7, false)]], "f" := map["a" := [TxoEntry(0, 5, true)]]];
    assert FindValue(txo1, "f", "a", 0) == Some(5);
    assert FindValue(txo1, "g", "a", 0) == Some(7);
    var ins := OrderSpend.inputs;
    var e1 := TxiEntry(Outpoint("f", 0), 5);
    var e2 := TxiEntry(Outpoint("g", 0), 7);
    var d1 := InputStep(txo1, mine, "s", NoDelta, ins[0]);
    assert [] + [e1] == [e1] && [e1] + [e2] == [e1, e2];
    assert d1.spent == map["a" := [e1]];
    var d2 := InputStep(txo1, mine, "s", d1, ins[1]);
    assert d2.spent == map["a" := [e1, e2]];
    assert InputsFold(txo1, mine, "s", NoDelta, ins) == InputsFold(txo1, mine, "s", d1, ins[1..]);
    assert InputsFold(txo1, mine, "s", d1, ins[1..]) == InputsFold(txo1, mine, "s", d2, ins[2..]);
  }

  /** Funding first, "s" finds both coins stored and files them in input order. */
  lemma OrderFundFirst()
    ensures TxiList(AddTransaction(AddTransaction(OrderLedger, {"a"}, "f", OrderFund), {"a"}, "s", OrderSpend).txi, "s", "a")
         == [TxiEntry(Outpoint("f", 0), 5), TxiEntry(Outpoint("g", 0), 7)]
  {
    OrderSettingReorderable();
    FundFirstIs(OrderLedger, {"a"}, "f", OrderFund, "s", OrderSpend);
    OrderLateDelta();
  }

  /** Before "f" arrives, the inputs phase of "s" parks the spend of "f" and files the coin of "g". */
  lemma OrderEarlyDelta()
    ensures EarlyDelta(OrderLedger, {"a"}, "s", OrderSpend).spent == map["a" := [TxiEntry(Outpoint("g", 0), 7)]]
    ensures EarlyDelta(OrderLedger, {"a"}, "s", OrderSpend).puts == map[Outpoint("f", 0) := "s"]
  {
    var mine: set<Addr> := {"a"};
    var txo0 := OrderLedger.txo;
    assert "f" != "g" by { assert "f"[0] != "g"[0]; }
    assert FindValue(txo0, "f", "a", 0) == None;
    assert FindValue(txo0, "g", "a", 0) == Some(7);
    var ins := OrderSpend.inputs;
    var e2 := TxiEntry(Outpoint("g", 0), 7);
    var d1 := InputStep(txo0, mine, "s", NoDelta, ins[0]);
    assert [] + [e2] == [e2];
    assert d1.spent == map[] && d1.puts == map[Outpoint("f", 0) := "s"];
    var d2 := InputStep(txo0, mine, "s", d1, ins[1]);
    assert d2.spent == map["a" := [e2]] && d2.puts == d1.puts;
    assert InputsFold(txo0, mine, "s", NoDelta, ins) == InputsFold(txo0, mine, "s", d1, ins[1..]);
    assert InputsFold(txo0, mine, "s", d1, ins[1..]) == InputsFold(txo0, mine, "s", d2, ins[2..]);
  }

  /** The parked ledger of the example: the coin of "g" filed, output 0 of "f" waited on. */
  lemma OrderParked()
    ensures TxiList(SpendFirstParked(OrderLedger, {"a"}, "f", OrderFund, "s", OrderSpend).txi, "s", "a")
         == [TxiEntry(Outpoint("g", 0), 7)]
    ensures SpendFirstParked(OrderLedger, {"a"}, "f", OrderFund, "s", OrderSpend).pruned == map[Outpoint("f", 0) := "s"]
  {
    var mine: set<Addr> := {"a"};
    OrderEarlyDelta();
    assert FundDelta(OrderLedger, mine, "f", OrderFund) == NoDelta by {
      var ins := OrderFund.inputs;
      assert InputsFold(OrderLedger.txo, mine, "f", NoDelta, ins) == InputsFold(OrderLedger.txo, mine, "f", NoDelta, ins[1..]);
    }
    OrderParkedShape(OrderLedger, EarlyDelta(OrderLedger, mine, "s", OrderSpend), OwnTxo(mine, OrderSpend),
                     MineAddrs(mine, OrderSpend.outputs, 0), OwnTxo(mine, OrderFund));
  }

  /** Storing "s" with the early delta, then "f" with no delta, leaves the spend of "g" filed and "f:0" parked. */
  lemma OrderParkedShape(l0: Ledger, d: InputsDelta, tS: AddrLists<TxoEntry>, mS: set<Addr>, tF: AddrLists<TxoEntry>)
    requires l0.txi == map[] && l0.pruned == map[]
    requires d.spent == map["a" := [TxiEntry(Outpoint("g", 0), 7)]] && d.puts == map[Outpoint("f", 0) := "s"]
    ensures TxiList(Stored(Stored(l0, "s", d, tS, mS), "f", NoDelta, tF, {}).txi, "s", "a") == [TxiEntry(Outpoint("g", 0), 7)]
    ensures Stored(Stored(l0, "s", d, tS, mS), "f", NoDelta, tF, {}).pruned == map[Outpoint("f", 0) := "s"]
  {
    var p1 := Stored(l0, "s", d, tS, mS);
    assert d.spent != map[] by { assert "a" in d.spent; }
    StoredTxi(l0, "s", d, tS, mS);
    StoredFields(l0, "s", d, tS, mS);
    assert p1.txi == map["s" := d.spent] && p1.pruned == d.puts;
    assert "f" != "s" by { assert "f"[0] != "s"[0]; }
    var p2 := Stored(p1, "f", NoDelta, tF, {});
    StoredTxi(p1, "f", NoDelta, tF, {});
    StoredFields(p1, "f", NoDelta, tF, {});
    assert p2.txi == p1.txi - {"f"} && p2.pruned == p1.pruned + map[];
    assert p2.txi["s"] == d.spent;
  }

  /** Output 0 of "f" resolves the waiting spend, after the coin of "g". */
  lemma OrderResolve(pl: Ledger)
    requires TxiList(pl.txi, "s", "a") == [TxiEntry(Outpoint("g", 0), 7)]
    requires pl.pruned == map[Outpoint("f", 0) := "s"]
    ensures TxiList(ResolveFrom(pl, {"a"}, "f", OrderFund.outputs, 0).txi, "s", "a")
         == [TxiEntry(Outpoint("g", 0), 7), TxiEntry(Outpoint("f", 0), 5)]
  {
    var outs := OrderFund.outputs;
    var r1 := ResolveOutput(pl, {"a"}, "f", 0, outs[0]);
    assert r1.txi["s"]["a"] == [TxiEntry(Outpoint("g", 0), 7), TxiEntry(Outpoint("f", 0), 5)];
    assert ResolveFrom(pl, {"a"}, "f", outs, 0) == ResolveFrom(r1, {"a"}, "f", outs, 1) == r1;
  }

  /** Spend first, "s" files the coin of "g" at once and the coin of "f" only when "f" arrives. */
  lemma OrderSpendFirst()
    ensures TxiList(AddTransaction(AddTransaction(OrderLedger, {"a"}, "s", OrderSpend), {"a"}, "f", OrderFund).txi, "s", "a")
         == [TxiEntry(Outpoint("g", 0), 7), TxiEntry(Outpoint("f", 0), 5)]
  {
    OrderSettingReorderable();
    SpendFirstIs(OrderLedger, {"a"}, "f", OrderFund, "s", OrderSpend);
    OrderParked();
    OrderResolve(SpendFirstParked(OrderLedger, {"a"}, "f", OrderFund, "s", OrderSpend));
  }

  /**
   * So the ledgers of the two orders can differ in the order of a spend list: the guarantee
   * of `ArrivalOrderUpToSpendOrder` is as much as holds.
   */
  lemma SpendOrderDependsOnArrival()
    ensures Reorderable(OrderLedger, {"a"}, "f", OrderFund, "s", OrderSpend)
    ensures AddTransaction(AddTransaction(OrderLedger, {"a"}, "s", OrderSpend), {"a"}, "f", OrderFund)
         != AddTransaction(AddTransaction(OrderLedger, {"a"}, "f", OrderFund), {"a"}, "s", OrderSpend)
  {
    OrderSettingReorderable();
    OrderFundFirst();
    OrderSpendFirst();
    var e1 := TxiEntry(Outpoint("f", 0), 5);
    var e2 := TxiEntry(Outpoint("g", 0), 7);
    assert [e2, e1] != [e1, e2] by {
      assert [e2, e1][0] != [e1, e2][0];
    }
  }

  // ---------------------------------------------------------------------------
  // The flag of the spender depends on arrival
  // ---------------------------------------------------------------------------

  /** A wallet owning "a" that knows nothing yet: "g" is as unknown as "f". */
  const FlagLedger := Ledger(map[], map[], map[], {}, map[])

  lemma FlagSettingReorderable()
    ensures Reorderable(FlagLedger, {"a"}, "f", OrderFund, "s", OrderSpend)
  {
    assert "f" != "s" && "s" != "" by {
      assert "f"[0] != "s"[0];
      assert |""| == 0;
    }
    assert "f" != "g" && "s" != "g" by {
      assert "f"[0] != "g"[0] && "s"[0] != "g"[0];
    }
    assert "" != "f" && "" != "s";
  }

  /** With "f" stored and "g" unknown, the inputs phase of "s" files "f:0" and parks "g:0". */
  lemma FlagLateDelta()
    ensures LateDelta(FlagLedger, {"a"}, "f", OrderFund, "s", OrderSpend).puts == map[Outpoint("g", 0) := "s"]
  {
    var mine: set<Addr> := {"a"};
    OrderFundTxo();
    var txo1 := StoreTxo(FlagLedger.txo, "f", OwnTxo(mine, OrderFund));
    assert "f" != "g" by { assert "f"[0] != "g"[0]; }
    assert txo1 == map["f" := map["a" := [TxoEntry(0, 5, true)]]];
    assert FindValue(txo1, "f", "a", 0) == Some(5);
    assert FindValue(txo1, "g", "a", 0) == None;
    var ins := OrderSpend.inputs;
    var d1 := InputStep(txo1, mine, "s", NoDelta, ins[0]);
    assert d1.puts == map[];
    var d2 := InputStep(txo1, mine, "s", d1, ins[1]);
    assert d2.puts == map[Outpoint("g", 0) := "s"];
    assert InputsFold(txo1, mine, "s", NoDelta, ins) == InputsFold(txo1, mine, "s", d1, ins[1..]);
    assert InputsFold(txo1, mine, "s", d1, ins[1..]) == InputsFold(txo1, mine, "s", d2, ins[2..]);
  }

  /** Funding first, "g:0" is left waiting on "s", and "s" is flagged. */
  lemma FlagFundFirst()
    ensures var y := AddTransaction(AddTransaction(FlagLedger, {"a"}, "f", OrderFund), {"a"}, "s", OrderSpend);
            y.pruned == map[Outpoint("g", 0) := "s"] && "s" in y.prunedValues
  {
    var mine: set<Addr> := {"a"};
    FlagSettingReorderable();
    FundFirstIs(FlagLedger, mine, "f", OrderFund, "s", OrderSpend);
    FlagLateDelta();
    assert FundDelta(FlagLedger, mine, "f", OrderFund) == NoDelta by {
      var ins := OrderFund.inputs;
      assert InputsFold(FlagLedger.txo, mine, "f", NoDelta, ins) == InputsFold(FlagLedger.txo, mine, "f", NoDelta, ins[1..]);
    }
    FlagFundShape(FlagLedger, OwnTxo(mine, OrderFund), MineAddrs(mine, OrderFund.outputs, 0),
                  LateDelta(FlagLedger, mine, "f", OrderFund, "s", OrderSpend), OwnTxo(mine, OrderSpend),
                  MineAddrs(mine, OrderSpend.outputs, 0));
  }

  /** Storing "f" with no delta, then "s" parking "g:0", leaves exactly that placeholder and flags "s". */
  lemma FlagFundShape(l0: Ledger, tF: AddrLists<TxoEntry>, mF: set<Addr>, d: InputsDelta, tS: AddrLists<TxoEntry>, mS: set<Addr>)
    requires l0.pruned == map[]
    requires d.puts == map[Outpoint("g", 0) := "s"]
    ensures Stored(Stored(l0, "f", NoDelta, tF, mF), "s", d, tS, mS).pruned == map[Outpoint("g", 0) := "s"]
    ensures "s" in Stored(Stored(l0, "f", NoDelta, tF, mF), "s", d, tS, mS).prunedValues
  {
    var l1 := Stored(l0, "f", NoDelta, tF, mF);
    StoredFields(l0, "f", NoDelta, tF, mF);
    StoredFields(l1, "s", d, tS, mS);
    assert l1.pruned == map[];
    assert d.puts != map[] by { assert Outpoint("g", 0) in d.puts; }
  }

  /**
   * Spending both "f:0" and the unknown "g:0": funding first, "s" stays flagged while "g:0"
   * waits; spending first, resolving "f:0" clears the flag although "g:0" still names "s",
   * so get_tx_delta would then answer for "s".
   */
  lemma FlagDependsOnArrival()
    ensures Reorderable(FlagLedger, {"a"}, "f", OrderFund, "s", OrderSpend)
    ensures var x := AddTransaction(AddTransaction(FlagLedger, {"a"}, "s", OrderSpend), {"a"}, "f", OrderFund);
            var y := AddTransaction(AddTransaction(FlagLedger, {"a"}, "f", OrderFund), {"a"}, "s", OrderSpend);
            && Outpoint("g", 0) in x.pruned && x.pruned[Outpoint("g", 0)] == "s"
            && "s" !in x.prunedValues && "s" in y.prunedValues
  {
    var mine: set<Addr> := {"a"};
    FlagSettingReorderable();
    ArrivalOrderUpToSpendOrder(FlagLedger, mine, "f", OrderFund, "s", OrderSpend);
    assert WaitsOn(mine, "f", OrderSpend.inputs[0]);
    FlagFundFirst();
  }
}
