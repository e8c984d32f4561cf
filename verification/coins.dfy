/**
 * Coins: the unspent outputs of an address (get_addr_utxo), the spendable coins of a set of
 * addresses (get_utxos), and address- and coin-level freezing.
 */
module Coins {
  import opened Wrappers
  import opened TxModel
  import opened Ledger
  import opened ODict
  import opened AddrIo
  import opened Seqs
  import opened Slp
  import opened Balance

  /** A coin as get_addr_utxo reports it. */
  datatype Coin = Coin(address: Addr, value: int, prevout: Outpoint, height: int, coinbase: bool, isFrozenCoin: bool)

  /** The received coins left after popping the spent ones, and the frozen-coin set as that loop leaves it. */
  datatype Unspent = Unspent(coins: Result<ODict<Outpoint, Received>, string>, frozen: set<Outpoint>)

  /**
   * The spent loop: pop each spent outpoint from the received coins (a KeyError when it is not
   * there) and discard it from the frozen coins.
   */
  function RemoveSpent(coins: ODict<Outpoint, Received>, spent: seq<Outpoint>, frozen: set<Outpoint>): (r: Unspent)
    requires Valid(coins)
    ensures r.coins.Success? ==> Valid(r.coins.value)
    ensures r.frozen <= frozen
    decreases |spent|
  {
    if |spent| == 0 then Unspent(Success(coins), frozen)
    else if spent[0] !in coins.vals then Unspent(Failure("KeyError"), frozen)
    else RemoveSpent(Pop(coins, spent[0]), spent[1..], frozen - {spent[0]})
  }

  /** The elements of `xs` as a set. */
  function Elems<T>(xs: seq<T>): set<T> {
    set x | x in xs
  }

  lemma TailDistinct<T>(xs: seq<T>)
    requires Distinct(xs) && |xs| > 0
    ensures Distinct(xs[1..])
    ensures forall i :: 0 < i < |xs| ==> xs[i] != xs[0] && xs[1..][i - 1] == xs[i]
  {
    forall i, j | 0 <= i < j < |xs[1..]| ensures xs[1..][i] != xs[1..][j] {
      assert xs[1..][i] == xs[i + 1] && xs[1..][j] == xs[j + 1];
    }
  }

  lemma ElemsCons<T>(xs: seq<T>)
    requires |xs| > 0
    ensures Elems(xs) == {xs[0]} + Elems(xs[1..])
  {
    forall x | x in Elems(xs) ensures x in {xs[0]} + Elems(xs[1..]) {
      var i :| 0 <= i < |xs| && xs[i] == x;
      if i > 0 {
        assert xs[1..][i - 1] == x;
      }
    }
  }

  /** With distinct spent outpoints, the loop fails exactly when one of them was never received. */
  lemma {:induction false} RemoveSpentFails(coins: ODict<Outpoint, Received>, spent: seq<Outpoint>, frozen: set<Outpoint>)
    requires Valid(coins) && Distinct(spent)
    ensures RemoveSpent(coins, spent, frozen).coins.Success? <==> forall i :: 0 <= i < |spent| ==> spent[i] in coins.vals
    decreases |spent|
  {
    if |spent| > 0 && spent[0] in coins.vals {
      var s0 := spent[0];
      TailDistinct(spent);
      RemoveSpentFails(Pop(coins, s0), spent[1..], frozen - {s0});
      assert (forall i :: 0 <= i < |spent[1..]| ==> spent[1..][i] in Pop(coins, s0).vals)
         <==> (forall i :: 0 <= i < |spent| ==> spent[i] in coins.vals) by {
        if forall i :: 0 <= i < |spent| ==> spent[i] in coins.vals {
          forall i | 0 <= i < |spent[1..]| ensures spent[1..][i] in Pop(coins, s0).vals {
            assert spent[1..][i] == spent[i + 1];
          }
        }
      }
    }
  }

  /**
   * When it succeeds, the loop drops every spent outpoint from the coins, the rest keeping
   * their order, and unfreezes them.
   */
  lemma {:induction false} RemoveSpentDrops(coins: ODict<Outpoint, Received>, spent: seq<Outpoint>, frozen: set<Outpoint>)
    requires Valid(coins) && Distinct(spent)
    requires RemoveSpent(coins, spent, frozen).coins.Success?
    ensures var r := RemoveSpent(coins, spent, frozen);
            r.coins.value == DropKeys(coins, Elems(spent)) && r.frozen == frozen - Elems(spent)
    decreases |spent|
  {
    if |spent| == 0 {
      DropNothing(coins);
      assert Elems(spent) == {};
    } else {
      var s0 := spent[0];
      TailDistinct(spent);
      RemoveSpentDrops(Pop(coins, s0), spent[1..], frozen - {s0});
      DropTwice(coins, {s0}, Elems(spent[1..]));
      ElemsCons(spent);
    }
  }

  /** The outpoints tagged for address `a` by the token bookkeeping. */
  function Tagged(slpTxo: SlpTxos, a: Addr): set<Outpoint> {
    set k | k in slpTxo && k.addr == a :: Outpoint(k.txHash, k.n)
  }

  /** The result dictionary of get_addr_utxo: each remaining coin, with its frozen flag. */
  function ToCoins(a: Addr, d: ODict<Outpoint, Received>, frozen: set<Outpoint>): (r: ODict<Outpoint, Coin>)
    requires Valid(d)
    ensures Valid(r) && r.keys == d.keys
    ensures forall k :: k in r.vals ==> r.vals[k].address == a && r.vals[k].prevout == k
  {
    ODict(d.keys, map k | k in d.vals :: Coin(a, d.vals[k].value, k, d.vals[k].height, d.vals[k].isCoinbase, k in frozen))
  }

  /** The coins of one address, and the frozen-coin set as the call leaves it. */
  datatype AddrUtxo = AddrUtxo(coins: Result<ODict<Outpoint, Coin>, string>, frozen: set<Outpoint>)

  /**
   * get_addr_utxo: the received coins of `a` minus the spent ones (spent coins also leave the
   * frozen-coin set), minus, when `excludeSlp`, every coin carrying a token tag for `a`.
   */
  function GetAddrUtxo(txi: map<Hash, AddrLists<TxiEntry>>, txo: map<Hash, AddrLists<TxoEntry>>, hist: seq<HistItem>,
                       slpTxo: SlpTxos, frozen: set<Outpoint>, a: Addr, excludeSlp: bool): (r: AddrUtxo)
    ensures r.frozen <= frozen
    ensures r.coins.Success? ==> Valid(r.coins.value)
    ensures r.coins.Success? ==> forall k :: k in r.coins.value.vals ==> r.coins.value.vals[k].address == a
  {
    var io := GetAddrIo(txi, txo, hist, a);
    var u := RemoveSpent(io.received, io.sent.keys, frozen);
    match u.coins
    case Failure(e) => AddrUtxo(Failure(e), u.frozen)
    case Success(c) =>
      var kept := if excludeSlp then DropKeys(c, Tagged(slpTxo, a)) else c;
      AddrUtxo(Success(ToCoins(a, kept, u.frozen)), u.frozen)
  }

  /** Coin `k` of address `a` is received, not spent, and (when excluded) not token-tagged. */
  ghost predicate IsUnspent(io: AddrIo, slpTxo: SlpTxos, a: Addr, k: Outpoint, excludeSlp: bool) {
    k in io.received.vals && k !in io.sent.vals && !(excludeSlp && k in Tagged(slpTxo, a))
  }

  /**
   * What get_addr_utxo reports: it fails exactly when a spent outpoint was never received;
   * otherwise it returns the unspent coins with the value, height and coinbase flag they were
   * received with, flagged frozen when they are in the frozen set, which loses the spent ones.
   */
  lemma GetAddrUtxoMeaning(txi: map<Hash, AddrLists<TxiEntry>>, txo: map<Hash, AddrLists<TxoEntry>>, hist: seq<HistItem>,
                           slpTxo: SlpTxos, frozen: set<Outpoint>, a: Addr, excludeSlp: bool)
    ensures var io := GetAddrIo(txi, txo, hist, a);
            var r := GetAddrUtxo(txi, txo, hist, slpTxo, frozen, a, excludeSlp);
            && (r.coins.Success? <==> io.sent.vals.Keys <= io.received.vals.Keys)
            && (r.coins.Success? ==> r.frozen == frozen - io.sent.vals.Keys)
            && (r.coins.Success? ==> forall k :: k in r.coins.value.vals <==> IsUnspent(io, slpTxo, a, k, excludeSlp))
            && (r.coins.Success? ==> forall k :: k in r.coins.value.vals ==>
                  var rc := io.received.vals[k];
                  r.coins.value.vals[k] == Coin(a, rc.value, k, rc.height, rc.isCoinbase, k in r.frozen))
  {
    var io := GetAddrIo(txi, txo, hist, a);
    var spent := io.sent.keys;
    SpentLoop(io, frozen);
    var u := RemoveSpent(io.received, spent, frozen);
    if u.coins.Success? && excludeSlp {
      DropTwice(io.received, Elems(spent), Tagged(slpTxo, a));
    }
  }

  /**
   * The spent loop over an address's history: it fails exactly when a spent outpoint was never
   * received, and otherwise leaves the received coins and the frozen set without the spent ones.
   */
  lemma SpentLoop(io: AddrIo, frozen: set<Outpoint>)
    requires Valid(io.received) && Valid(io.sent)
    ensures var u := RemoveSpent(io.received, io.sent.keys, frozen);
            && (u.coins.Success? <==> io.sent.vals.Keys <= io.received.vals.Keys)
            && (u.coins.Success? ==> u.coins.value == DropKeys(io.received, io.sent.vals.Keys))
            && (u.coins.Success? ==> u.frozen == frozen - io.sent.vals.Keys)
  {
    var spent := io.sent.keys;
    assert Distinct(spent);
    RemoveSpentFails(io.received, spent, frozen);
    assert Elems(spent) == io.sent.vals.Keys;
    var u := RemoveSpent(io.received, spent, frozen);
    assert u.coins.Success? <==> io.sent.vals.Keys <= io.received.vals.Keys by {
      if io.sent.vals.Keys <= io.received.vals.Keys {
        assert forall i :: 0 <= i < |spent| ==> spent[i] in io.received.vals;
      }
      if u.coins.Success? {
        forall k | k in io.sent.vals ensures k in io.received.vals {
          var i :| 0 <= i < |spent| && spent[i] == k;
        }
      }
    }
    if u.coins.Success? {
      RemoveSpentDrops(io.received, spent, frozen);
    }
  }

  /** The total value of the coins of `d` listed in `ks`. */
  function CoinsValue(d: ODict<Outpoint, Coin>, ks: seq<Outpoint>): int
    requires forall k :: k in ks ==> k in d.vals
  {
    if |ks| == 0 then 0 else CoinsValue(d, ks[..|ks| - 1]) + d.vals[ks[|ks| - 1]].value
  }

  lemma {:induction false} FilterAppend(xs: seq<Outpoint>, x: Outpoint, s: set<Outpoint>)
    ensures Filter(xs + [x], s) == Filter(xs, s) + (if x in s then [] else [x])
  {
    if |xs| > 0 {
      assert (xs + [x])[1..] == xs[1..] + [x];
      FilterAppend(xs[1..], x, s);
    } else {
      assert xs + [x] == [x];
    }
  }

  lemma {:induction false} CoinsValueOfFilter(d: ODict<Outpoint, Coin>, io: AddrIo, ks: seq<Outpoint>)
    requires forall k :: k in ks ==> k in io.received.vals
    requires forall k :: k in io.received.vals && k !in io.sent.vals ==> k in d.vals && d.vals[k].value == io.received.vals[k].value
    ensures forall k :: k in Filter(ks, io.sent.vals.Keys) ==> k in d.vals
    ensures CoinsValue(d, Filter(ks, io.sent.vals.Keys)) == UnspentValue(io, {}, false, ks)
  {
    if |ks| > 0 {
      var init := ks[..|ks| - 1];
      var x := ks[|ks| - 1];
      var sk := io.sent.vals.Keys;
      assert ks == init + [x];
      assert forall k :: k in init ==> k in ks;
      CoinsValueOfFilter(d, io, init);
      FilterAppend(init, x, sk);
      var fi := Filter(init, sk);
      assert UnspentValue(io, {}, false, ks)
             == UnspentValue(io, {}, false, init) + (if x !in io.sent.vals then io.received.vals[x].value else 0);
      if x !in sk {
        assert Filter(ks, sk) == fi + [x];
        assert (fi + [x])[..|fi|] == fi;
        assert CoinsValue(d, fi + [x]) == CoinsValue(d, fi) + d.vals[x].value;
      } else {
        assert Filter(ks, sk) == fi;
      }
    }
  }

  /**
   * The coins get_addr_utxo returns (token coins included) add up to the total of the
   * address's balance, whenever the balance cache is sound.
   */
  lemma UtxoValueIsBalance(l: Ledger, histMap: map<Addr, seq<HistItem>>, slpTxo: SlpTxos, frozen: set<Outpoint>,
                           a: Addr, ch: Chain)
    requires CacheSound(l, histMap, ch)
    requires GetAddrUtxo(l.txi, l.txo, HistOf(histMap, a), slpTxo, frozen, a, false).coins.Success?
    ensures var d := GetAddrUtxo(l.txi, l.txo, HistOf(histMap, a), slpTxo, frozen, a, false).coins.value;
            CoinsValue(d, d.keys) == Total(GetAddrBalance(l, HistOf(histMap, a), frozen, a, false, ch).bal)
  {
    var hist := HistOf(histMap, a);
    var io := GetAddrIo(l.txi, l.txo, hist, a);
    var d := GetAddrUtxo(l.txi, l.txo, hist, slpTxo, frozen, a, false).coins.value;
    GetAddrUtxoMeaning(l.txi, l.txo, hist, slpTxo, frozen, a, false);
    var spent := io.sent.keys;
    RemoveSpentDrops(io.received, spent, frozen);
    assert Elems(spent) == io.sent.vals.Keys;
    assert d.keys == Filter(io.received.keys, io.sent.vals.Keys);
    CoinsValueOfFilter(d, io, io.received.keys);
    GetAddrBalanceSound(l, histMap, frozen, a, false, ch);
    TallyMeaning(io, {}, false, ch, io.received.keys);
  }

  // ---------------------------------------------------------------------------
  // get_utxos
  // ---------------------------------------------------------------------------

  /** The filters of get_utxos. */
  datatype UtxoFilter = UtxoFilter(excludeFrozen: bool, mature: bool, confirmedOnly: bool)

  /** Whether get_utxos keeps a coin: not a frozen coin, confirmed, mature, as requested. */
  predicate Selected(c: Coin, f: UtxoFilter, ch: Chain) {
    && !(f.excludeFrozen && c.isFrozenCoin)
    && !(f.confirmedOnly && c.height <= 0)
    && !(f.mature && c.coinbase && c.height + ch.maturity > ch.localHeight)
  }

  /** The coins of one address that pass the filters, in the dictionary's order. */
  function Pick(d: ODict<Outpoint, Coin>, ks: seq<Outpoint>, f: UtxoFilter, ch: Chain): (r: seq<Coin>)
    requires forall k :: k in ks ==> k in d.vals
    ensures forall c :: c in r <==> exists k :: k in ks && c == d.vals[k] && Selected(c, f, ch)
  {
    if |ks| == 0 then []
    else
      var rest := Pick(d, ks[1..], f, ch);
      assert forall k :: k in ks <==> k == ks[0] || k in ks[1..];
      if Selected(d.vals[ks[0]], f, ch) then [d.vals[ks[0]]] + rest else rest
  }

  /** The coins get_utxos collects, and the frozen-coin set as it leaves it. */
  datatype UtxoList = UtxoList(coins: Result<seq<Coin>, string>, frozen: set<Outpoint>)

  /** The address loop of get_utxos; the first failing address aborts the loop. */
  function UtxoFold(txi: map<Hash, AddrLists<TxiEntry>>, txo: map<Hash, AddrLists<TxoEntry>>,
                    histMap: map<Addr, seq<HistItem>>, slpTxo: SlpTxos, frozen: set<Outpoint>, dom: seq<Addr>,
                    f: UtxoFilter, excludeSlp: bool, ch: Chain): (r: UtxoList)
    ensures r.frozen <= frozen
    ensures r.coins.Success? ==> forall c :: c in r.coins.value ==> c.address in dom && Selected(c, f, ch)
    decreases |dom|
  {
    if |dom| == 0 then UtxoList(Success([]), frozen)
    else
      var u := GetAddrUtxo(txi, txo, HistOf(histMap, dom[0]), slpTxo, frozen, dom[0], excludeSlp);
      match u.coins
      case Failure(e) => UtxoList(Failure(e), u.frozen)
      case Success(d) =>
        var here := Pick(d, d.keys, f, ch);
        var rest := UtxoFold(txi, txo, histMap, slpTxo, u.frozen, dom[1..], f, excludeSlp, ch);
        assert forall x :: x in dom[1..] ==> x in dom;
        match rest.coins
        case Failure(e) => UtxoList(Failure(e), rest.frozen)
        case Success(cs) => UtxoList(Success(here + cs), rest.frozen)
  }

  /** The coin get_addr_utxo reports for received coin `k` of `a`, frozen flag aside. */
  function ReceivedCoin(io: AddrIo, a: Addr, k: Outpoint, frozenFlag: bool): Coin
    requires k in io.received.vals
  {
    Coin(a, io.received.vals[k].value, k, io.received.vals[k].height, io.received.vals[k].isCoinbase, frozenFlag)
  }

  /** The received and spent coins of `a` as get_addr_io reports them from its history. */
  function IoOf(txi: map<Hash, AddrLists<TxiEntry>>, txo: map<Hash, AddrLists<TxoEntry>>,
                histMap: map<Addr, seq<HistItem>>, a: Addr): AddrIo {
    GetAddrIo(txi, txo, HistOf(histMap, a), a)
  }

  /** Every coin the address spent is one it received: get_addr_utxo raises no KeyError. */
  predicate SpendsReceived(io: AddrIo) {
    io.sent.vals.Keys <= io.received.vals.Keys
  }

  /** No address of `dom` records a spend of `k`, so no call of the loop unfreezes it. */
  ghost predicate NoneSpends(txi: map<Hash, AddrLists<TxiEntry>>, txo: map<Hash, AddrLists<TxoEntry>>,
                             histMap: map<Addr, seq<HistItem>>, dom: seq<Addr>, k: Outpoint) {
    forall b :: b in dom ==> k !in IoOf(txi, txo, histMap, b).sent.vals
  }

  /**
   * `c` is an unspent coin of its address (untagged when token coins are excluded) with the
   * value, height and coinbase flag it was received with.
   */
  ghost predicate PlainCoin(txi: map<Hash, AddrLists<TxiEntry>>, txo: map<Hash, AddrLists<TxoEntry>>,
                            histMap: map<Addr, seq<HistItem>>, slpTxo: SlpTxos, excludeSlp: bool, c: Coin) {
    var io := IoOf(txi, txo, histMap, c.address);
    IsUnspent(io, slpTxo, c.address, c.prevout, excludeSlp) && c == ReceivedCoin(io, c.address, c.prevout, c.isFrozenCoin)
  }

  /**
   * The frozen flag of a coin the loop reports over `dom`: set only for coins frozen when the
   * call starts, and set for every such coin that no address of `dom` spends.
   */
  ghost predicate FlagAsFrozen(txi: map<Hash, AddrLists<TxiEntry>>, txo: map<Hash, AddrLists<TxoEntry>>,
                               histMap: map<Addr, seq<HistItem>>, frozen: set<Outpoint>, dom: seq<Addr>, c: Coin) {
    && (c.isFrozenCoin ==> c.prevout in frozen)
    && (c.prevout in frozen && NoneSpends(txi, txo, histMap, dom, c.prevout) ==> c.isFrozenCoin)
  }

  /** The address loop of get_utxos fails exactly when some address spent a coin it never received. */
  lemma {:induction false} UtxoFoldFails(txi: map<Hash, AddrLists<TxiEntry>>, txo: map<Hash, AddrLists<TxoEntry>>,
                                         histMap: map<Addr, seq<HistItem>>, slpTxo: SlpTxos, frozen: set<Outpoint>,
                                         dom: seq<Addr>, f: UtxoFilter, excludeSlp: bool, ch: Chain)
    ensures UtxoFold(txi, txo, histMap, slpTxo, frozen, dom, f, excludeSlp, ch).coins.Success?
        <==> forall b :: b in dom ==> SpendsReceived(IoOf(txi, txo, histMap, b))
    decreases |dom|
  {
    if |dom| > 0 {
      var u := GetAddrUtxo(txi, txo, HistOf(histMap, dom[0]), slpTxo, frozen, dom[0], excludeSlp);
      GetAddrUtxoMeaning(txi, txo, HistOf(histMap, dom[0]), slpTxo, frozen, dom[0], excludeSlp);
      UtxoFoldFails(txi, txo, histMap, slpTxo, u.frozen, dom[1..], f, excludeSlp, ch);
      assert forall b :: b in dom <==> b == dom[0] || b in dom[1..];
      assert u.coins.Success? <==> SpendsReceived(IoOf(txi, txo, histMap, dom[0]));
      var r := UtxoFold(txi, txo, histMap, slpTxo, frozen, dom, f, excludeSlp, ch);
      var rest := UtxoFold(txi, txo, histMap, slpTxo, u.frozen, dom[1..], f, excludeSlp, ch);
      assert r.coins.Success? <==> u.coins.Success? && rest.coins.Success?;
    }
  }

  /**
   * Every coin the address loop of get_utxos returns is an unspent coin of a domain address
   * that passes the filters, reported with its received value and height and flagged frozen
   * as the frozen-coin set says.
   */
  lemma {:induction false} UtxoFoldSound(txi: map<Hash, AddrLists<TxiEntry>>, txo: map<Hash, AddrLists<TxoEntry>>,
                                         histMap: map<Addr, seq<HistItem>>, slpTxo: SlpTxos, frozen: set<Outpoint>,
                                         dom: seq<Addr>, f: UtxoFilter, excludeSlp: bool, ch: Chain)
    ensures UtxoFold(txi, txo, histMap, slpTxo, frozen, dom, f, excludeSlp, ch).coins.Success? ==>
              forall c :: c in UtxoFold(txi, txo, histMap, slpTxo, frozen, dom, f, excludeSlp, ch).coins.value ==>
                && c.address in dom && Selected(c, f, ch)
                && PlainCoin(txi, txo, histMap, slpTxo, excludeSlp, c)
                && FlagAsFrozen(txi, txo, histMap, frozen, dom, c)
    decreases |dom|
  {
    var r := UtxoFold(txi, txo, histMap, slpTxo, frozen, dom, f, excludeSlp, ch);
    if |dom| > 0 && r.coins.Success? {
      var a := dom[0];
      var io := IoOf(txi, txo, histMap, a);
      var u := GetAddrUtxo(txi, txo, HistOf(histMap, a), slpTxo, frozen, a, excludeSlp);
      GetAddrUtxoMeaning(txi, txo, HistOf(histMap, a), slpTxo, frozen, a, excludeSlp);
      var d := u.coins.value;
      var rest := UtxoFold(txi, txo, histMap, slpTxo, u.frozen, dom[1..], f, excludeSlp, ch);
      UtxoFoldSound(txi, txo, histMap, slpTxo, u.frozen, dom[1..], f, excludeSlp, ch);
      assert r.coins.value == Pick(d, d.keys, f, ch) + rest.coins.value;
      forall c | c in r.coins.value
        ensures c.address in dom && Selected(c, f, ch) && PlainCoin(txi, txo, histMap, slpTxo, excludeSlp, c)
                && FlagAsFrozen(txi, txo, histMap, frozen, dom, c)
      {
        if c in Pick(d, d.keys, f, ch) {
          var k :| k in d.keys && c == d.vals[k] && Selected(c, f, ch);
          assert c == ReceivedCoin(io, a, k, k in u.frozen);
        } else {
          assert c in rest.coins.value;
          assert forall b :: b in dom[1..] ==> b in dom;
        }
      }
    }
  }

  /**
   * Every unspent coin of a domain address that passes the filters is returned, flagged as
   * the frozen-coin set says; a coin frozen when the call starts keeps its flag unless some
   * domain address spends it (spending unfreezes a coin).
   */
  lemma {:induction false} UtxoFoldComplete(txi: map<Hash, AddrLists<TxiEntry>>, txo: map<Hash, AddrLists<TxoEntry>>,
                                            histMap: map<Addr, seq<HistItem>>, slpTxo: SlpTxos, frozen: set<Outpoint>,
                                            dom: seq<Addr>, f: UtxoFilter, excludeSlp: bool, ch: Chain,
                                            a: Addr, k: Outpoint)
    requires a in dom
    requires k in frozen ==> NoneSpends(txi, txo, histMap, dom, k)
    requires var io := IoOf(txi, txo, histMap, a);
             IsUnspent(io, slpTxo, a, k, excludeSlp) && Selected(ReceivedCoin(io, a, k, k in frozen), f, ch)
    ensures UtxoFold(txi, txo, histMap, slpTxo, frozen, dom, f, excludeSlp, ch).coins.Success? ==>
              ReceivedCoin(IoOf(txi, txo, histMap, a), a, k, k in frozen)
                in UtxoFold(txi, txo, histMap, slpTxo, frozen, dom, f, excludeSlp, ch).coins.value
    decreases |dom|
  {
    var r := UtxoFold(txi, txo, histMap, slpTxo, frozen, dom, f, excludeSlp, ch);
    var u := GetAddrUtxo(txi, txo, HistOf(histMap, dom[0]), slpTxo, frozen, dom[0], excludeSlp);
    if r.coins.Success? {
      var d := u.coins.value;
      GetAddrUtxoMeaning(txi, txo, HistOf(histMap, dom[0]), slpTxo, frozen, dom[0], excludeSlp);
      var rest := UtxoFold(txi, txo, histMap, slpTxo, u.frozen, dom[1..], f, excludeSlp, ch);
      assert r.coins.value == Pick(d, d.keys, f, ch) + rest.coins.value;
      assert (k in u.frozen) == (k in frozen) by {
        if k in frozen {
          assert k !in IoOf(txi, txo, histMap, dom[0]).sent.vals;
        }
      }
      if dom[0] == a {
        assert k in d.vals;
        assert d.vals[k] == ReceivedCoin(IoOf(txi, txo, histMap, a), a, k, k in frozen);
        assert d.vals[k] in Pick(d, d.keys, f, ch);
      } else {
        assert a in dom[1..];
        assert forall b :: b in dom[1..] ==> b in dom;
        UtxoFoldComplete(txi, txo, histMap, slpTxo, u.frozen, dom[1..], f, excludeSlp, ch, a, k);
      }
    }
  }

  /** The addresses get_utxos visits: the given ones or all, minus the frozen addresses when excluding frozen. */
  ghost function UtxoDomain(domain: Option<seq<Addr>>, addresses: seq<Addr>, frozenAddrs: set<Addr>, excludeFrozen: bool)
    : (r: seq<Addr>)
    ensures excludeFrozen ==> forall a :: a in r <==> a in domain.GetOr(addresses) && a !in frozenAddrs
    ensures !excludeFrozen ==> r == domain.GetOr(addresses)
  {
    var d := domain.GetOr(addresses);
    if excludeFrozen then Enumerate((set a | a in d) - frozenAddrs) else d
  }

  /**
   * get_utxos: the coins of the domain's addresses that pass the filters; excluding frozen
   * coins drops frozen addresses and frozen coins alike.
   */
  ghost function GetUtxos(txi: map<Hash, AddrLists<TxiEntry>>, txo: map<Hash, AddrLists<TxoEntry>>,
                          histMap: map<Addr, seq<HistItem>>, slpTxo: SlpTxos, frozen: set<Outpoint>, frozenAddrs: set<Addr>,
                          addresses: seq<Addr>, domain: Option<seq<Addr>>, f: UtxoFilter, excludeSlp: bool, ch: Chain)
    : (r: UtxoList)
    ensures r.frozen <= frozen
    ensures r.coins.Success? ==> forall c :: c in r.coins.value ==>
              && c.address in domain.GetOr(addresses) && Selected(c, f, ch)
              && (f.excludeFrozen ==> c.address !in frozenAddrs && !c.isFrozenCoin)
  {
    UtxoFold(txi, txo, histMap, slpTxo, frozen, UtxoDomain(domain, addresses, frozenAddrs, f.excludeFrozen), f, excludeSlp, ch)
  }

  /** The addresses get_utxos visits, as a condition on one address. */
  predicate Visited(domain: Option<seq<Addr>>, addresses: seq<Addr>, frozenAddrs: set<Addr>, excludeFrozen: bool, b: Addr) {
    b in domain.GetOr(addresses) && !(excludeFrozen && b in frozenAddrs)
  }

  /**
   * What get_utxos returns: it fails exactly when a visited address spent a coin it never
   * received; otherwise every coin is an unspent coin of a visited address that passes the
   * filters, with its received value and height and its frozen flag.
   */
  lemma GetUtxosSound(txi: map<Hash, AddrLists<TxiEntry>>, txo: map<Hash, AddrLists<TxoEntry>>,
                      histMap: map<Addr, seq<HistItem>>, slpTxo: SlpTxos, frozen: set<Outpoint>, frozenAddrs: set<Addr>,
                      addresses: seq<Addr>, domain: Option<seq<Addr>>, f: UtxoFilter, excludeSlp: bool, ch: Chain)
    ensures var r := GetUtxos(txi, txo, histMap, slpTxo, frozen, frozenAddrs, addresses, domain, f, excludeSlp, ch);
            && (r.coins.Success? <==> forall b :: Visited(domain, addresses, frozenAddrs, f.excludeFrozen, b) ==>
                                                  SpendsReceived(IoOf(txi, txo, histMap, b)))
            && (r.coins.Success? ==> forall c :: c in r.coins.value ==>
                  && Visited(domain, addresses, frozenAddrs, f.excludeFrozen, c.address) && Selected(c, f, ch)
                  && PlainCoin(txi, txo, histMap, slpTxo, excludeSlp, c)
                  && FlagAsFrozen(txi, txo, histMap, frozen, domain.GetOr(addresses), c))
  {
    var dom := UtxoDomain(domain, addresses, frozenAddrs, f.excludeFrozen);
    assert forall b :: b in dom <==> Visited(domain, addresses, frozenAddrs, f.excludeFrozen, b);
    UtxoFoldFails(txi, txo, histMap, slpTxo, frozen, dom, f, excludeSlp, ch);
    UtxoFoldSound(txi, txo, histMap, slpTxo, frozen, dom, f, excludeSlp, ch);
    forall k | NoneSpends(txi, txo, histMap, domain.GetOr(addresses), k) ensures NoneSpends(txi, txo, histMap, dom, k) {
    }
  }

  /**
   * Every unspent coin of a visited address that passes the filters is among the coins
   * get_utxos returns, flagged frozen as the frozen-coin set says.
   */
  lemma GetUtxosComplete(txi: map<Hash, AddrLists<TxiEntry>>, txo: map<Hash, AddrLists<TxoEntry>>,
                         histMap: map<Addr, seq<HistItem>>, slpTxo: SlpTxos, frozen: set<Outpoint>, frozenAddrs: set<Addr>,
                         addresses: seq<Addr>, domain: Option<seq<Addr>>, f: UtxoFilter, excludeSlp: bool, ch: Chain,
                         a: Addr, k: Outpoint)
    requires Visited(domain, addresses, frozenAddrs, f.excludeFrozen, a)
    requires k in frozen ==> NoneSpends(txi, txo, histMap, domain.GetOr(addresses), k)
    requires var io := IoOf(txi, txo, histMap, a);
             IsUnspent(io, slpTxo, a, k, excludeSlp) && Selected(ReceivedCoin(io, a, k, k in frozen), f, ch)
    ensures var r := GetUtxos(txi, txo, histMap, slpTxo, frozen, frozenAddrs, addresses, domain, f, excludeSlp, ch);
            r.coins.Success? ==> ReceivedCoin(IoOf(txi, txo, histMap, a), a, k, k in frozen) in r.coins.value
  {
    var dom := UtxoDomain(domain, addresses, frozenAddrs, f.excludeFrozen);
    assert a in dom;
    UtxoFoldComplete(txi, txo, histMap, slpTxo, frozen, dom, f, excludeSlp, ch, a, k);
  }

  // ---------------------------------------------------------------------------
  // Freezing
  // ---------------------------------------------------------------------------

  /** A coin named for freezing: a "prevout:n" string, or a coin dictionary as get_utxos returns it. */
  datatype CoinRef = ByName(prevout: Outpoint) | ByCoin(coin: Coin)

  function RefPrevout(u: CoinRef): Outpoint {
    match u
    case ByName(p) => p
    case ByCoin(c) => c.prevout
  }

  /** The outcome of set_frozen_state: the frozen addresses and whether anything was done. */
  datatype FreezeAddrs = FreezeAddrs(frozenAddrs: set<Addr>, ok: bool)

  /** set_frozen_state: only when every address is the wallet's, freeze or unfreeze all of them. */
  function SetFrozenState(frozenAddrs: set<Addr>, mine: set<Addr>, addrs: seq<Addr>, freeze: bool): (r: FreezeAddrs)
    ensures r.ok <==> forall a :: a in addrs ==> a in mine
    ensures !r.ok ==> r.frozenAddrs == frozenAddrs
    ensures r.ok ==> forall a :: a in addrs ==> (a in r.frozenAddrs <==> freeze)
    ensures forall a :: a !in addrs ==> (a in r.frozenAddrs <==> a in frozenAddrs)
  {
    if forall a :: a in addrs ==> a in mine then
      FreezeAddrs(if freeze then frozenAddrs + Elems(addrs) else frozenAddrs - Elems(addrs), true)
    else FreezeAddrs(frozenAddrs, false)
  }

  /** Whether set_frozen_coin_state acts on a reference: names always, coin dictionaries of the wallet's addresses. */
  predicate Applies(u: CoinRef, mine: set<Addr>) {
    u.ByName? || u.coin.address in mine
  }

  /** The positions of the references set_frozen_coin_state acts on. */
  function AppliedIndices(refs: seq<CoinRef>, mine: set<Addr>): set<int> {
    set i | 0 <= i < |refs| && Applies(refs[i], mine)
  }

  lemma {:induction false} ShiftCard(s: set<int>)
    ensures |set i | i in s :: i + 1| == |s|
    decreases |s|
  {
    if s != {} {
      assert exists x :: x in s by {
        if forall x :: x !in s {
          assert false;
        }
      }
      var x :| x in s;
      ShiftCard(s - {x});
      var whole := set i | i in s :: i + 1;
      var rest := set i | i in s - {x} :: i + 1;
      forall j | j in whole ensures j in rest + {x + 1} {
        var i :| i in s && j == i + 1;
        if i != x {
          assert i in s - {x};
        }
      }
      assert whole == rest + {x + 1};
      assert x + 1 !in rest;
    }
  }

  lemma AppliedIndicesCons(refs: seq<CoinRef>, mine: set<Addr>)
    requires |refs| > 0
    ensures |AppliedIndices(refs, mine)| == |AppliedIndices(refs[1..], mine)| + (if Applies(refs[0], mine) then 1 else 0)
  {
    var tail := AppliedIndices(refs[1..], mine);
    var shifted := set i | i in tail :: i + 1;
    ShiftCard(tail);
    assert forall i :: 0 < i < |refs| ==> refs[1..][i - 1] == refs[i];
    forall i | i in AppliedIndices(refs, mine) && i > 0 ensures i in shifted {
      assert i - 1 in tail;
    }
    assert AppliedIndices(refs, mine) == shifted + (if Applies(refs[0], mine) then {0} else {});
  }

  /** The outcome of set_frozen_coin_state: the frozen coins, the references as updated, and how many were applied. */
  datatype FreezeCoins = FreezeCoins(frozen: set<Outpoint>, refs: seq<CoinRef>, count: nat)

  /**
   * set_frozen_coin_state: freeze or unfreeze every applicable reference, set the flag of each
   * applicable coin dictionary, and count them.
   */
  function SetFrozenCoinState(frozen: set<Outpoint>, mine: set<Addr>, refs: seq<CoinRef>, freeze: bool): (r: FreezeCoins)
    ensures |r.refs| == |refs| && r.count == |AppliedIndices(refs, mine)|
    ensures forall p :: (p in r.frozen <==>
              if exists i :: 0 <= i < |refs| && Applies(refs[i], mine) && RefPrevout(refs[i]) == p then freeze
              else p in frozen)
    ensures forall i :: 0 <= i < |refs| ==>
              r.refs[i] == (if refs[i].ByCoin? && Applies(refs[i], mine) then ByCoin(refs[i].coin.(isFrozenCoin := freeze)) else refs[i])
    decreases |refs|
  {
    if |refs| == 0 then FreezeCoins(frozen, [], 0)
    else
      var u := refs[0];
      var f1 := if !Applies(u, mine) then frozen else if freeze then frozen + {RefPrevout(u)} else frozen - {RefPrevout(u)};
      var rest := SetFrozenCoinState(f1, mine, refs[1..], freeze);
      var u1 := if u.ByCoin? && Applies(u, mine) then ByCoin(u.coin.(isFrozenCoin := freeze)) else u;
      assert forall i :: 0 < i < |refs| ==> refs[1..][i - 1] == refs[i];
      AppliedIndicesCons(refs, mine);
      FrozenStep(frozen, mine, refs, freeze, f1, rest.frozen);
      FreezeCoins(rest.frozen, [u1] + rest.refs, rest.count + if Applies(u, mine) then 1 else 0)
  }

  /** The first reference applied, then the rest: the last applicable reference to an outpoint decides it. */
  lemma FrozenStep(frozen: set<Outpoint>, mine: set<Addr>, refs: seq<CoinRef>, freeze: bool, f1: set<Outpoint>, rf: set<Outpoint>)
    requires |refs| > 0
    requires f1 == if !Applies(refs[0], mine) then frozen
                   else if freeze then frozen + {RefPrevout(refs[0])} else frozen - {RefPrevout(refs[0])}
    requires forall p :: (p in rf <==>
               if exists i :: 0 <= i < |refs[1..]| && Applies(refs[1..][i], mine) && RefPrevout(refs[1..][i]) == p then freeze
               else p in f1)
    ensures forall p :: (p in rf <==>
              if exists i :: 0 <= i < |refs| && Applies(refs[i], mine) && RefPrevout(refs[i]) == p then freeze
              else p in frozen)
  {
    forall p ensures (p in rf <==>
                if exists i :: 0 <= i < |refs| && Applies(refs[i], mine) && RefPrevout(refs[i]) == p then freeze
                else p in frozen)
    {
      if exists i :: 0 <= i < |refs| && Applies(refs[i], mine) && RefPrevout(refs[i]) == p {
        var i :| 0 <= i < |refs| && Applies(refs[i], mine) && RefPrevout(refs[i]) == p;
        if i > 0 {
          assert refs[1..][i - 1] == refs[i];
        }
      }
    }
  }

  /**
   * is_frozen_coin: membership of the reference's outpoint in the frozen coins; a coin
   * dictionary with a stale flag is corrected.
   */
  function IsFrozenCoin(frozen: set<Outpoint>, u: CoinRef): (r: (bool, CoinRef))
    ensures r.0 <==> RefPrevout(u) in frozen
    ensures RefPrevout(r.1) == RefPrevout(u)
    ensures r.1.ByCoin? ==> r.1.coin.isFrozenCoin == r.0
    ensures u.ByName? ==> r.1 == u
  {
    match u
    case ByName(p) => (p in frozen, u)
    case ByCoin(c) => (c.prevout in frozen, ByCoin(c.(isFrozenCoin := c.prevout in frozen)))
  }

  /** After freezing (unfreezing) a coin of the wallet, is_frozen_coin reports it frozen (not frozen). */
  lemma FreezeThenQuery(frozen: set<Outpoint>, mine: set<Addr>, refs: seq<CoinRef>, freeze: bool, i: nat)
    requires i < |refs| && Applies(refs[i], mine)
    ensures var r := SetFrozenCoinState(frozen, mine, refs, freeze);
            IsFrozenCoin(r.frozen, refs[i]).0 == freeze && IsFrozenCoin(r.frozen, r.refs[i]) == (freeze, r.refs[i])
  {
  }
}
