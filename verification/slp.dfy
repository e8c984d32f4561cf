/**
 * Token (SLP) bookkeeping: the per-output token tags (`_slp_txo`), the per-transaction token
 * info (`tx_tokinfo`), the known token types, the classifier that fills them from a parsed
 * token message, the gate that decides whether a validation job is submitted, and the
 * token-id format check of `add_token_type`.
 */
module Slp {
  import opened Wrappers
  import opened TxModel
  import opened SlpMessage

  /** The `qty` of a tag: a token amount, the minting baton, or nothing (unsupported type). */
  datatype Qty = Amount(amount: int) | MintBaton | NoQty

  /** One tag of `_slp_txo[addr][tx_hash][n]`: token type, token id (none for unsupported types) and qty. */
  datatype SlpTxo = SlpTxo(tokenType: int, tokenId: Option<string>, qty: Qty)

  /**
   * The address of a tag, with the output it tags. The source nests the tags as
   * addr -> tx -> n; the model keys them by the triple.
   */
  datatype SlpKey = SlpKey(addr: Addr, txHash: Hash, n: nat)

  type SlpTxos = map<SlpKey, SlpTxo>

  datatype TxKind = GenesisTx | MintTx | SendTx

  /**
   * `tx_tokinfo[h]`: cleared (an empty dict, after the transaction was removed) or the token
   * type, message kind, token id and validity (0 unknown, 1 valid, 2..4 invalid).
   */
  datatype TokInfo = Cleared | Info(tokenType: int, kind: TxKind, tokenId: string, validity: int)

  /** Decimals of a token type: `"?"` until the user or a lookup supplies them. */
  datatype Decimals = Pending | Known(digits: int)

  datatype TokenType = TokenType(tokenClass: int, name: string, decimals: Decimals, groupId: Option<string>)

  datatype SlpState = SlpState(slpTxo: SlpTxos, tokinfo: map<Hash, TokInfo>, tokenTypes: map<string, TokenType>)

  const EmptySlp := SlpState(map[], map[], map[])

  /** The two validators a job can be submitted to: fungible tokens (type 1) and NFT types (65, 129). */
  datatype Job = FungibleJob | NftJob(nftType: int)

  // ---------------------------------------------------------------------------
  // The tags one message writes.
  // ---------------------------------------------------------------------------

  /** Unsupported token type: every owned address output is tagged with no token id and no qty. */
  function UnsupportedTags(mine: set<Addr>, h: Hash, t: int, outs: seq<TxOut>): (w: SlpTxos)
    ensures forall k :: k in w <==>
              k.txHash == h && k.n < |outs| && outs[k.n].dest == PayTo(k.addr) && k.addr in mine
    ensures forall k :: k in w ==> w[k] == SlpTxo(t, None, NoQty)
  {
    map i | 0 <= i < |outs| && IsMineDest(mine, outs[i].dest) :: SlpKey(outs[i].dest.addr, h, i) := SlpTxo(t, None, NoQty)
  }

  /** SEND: amounts truncated to the outputs; owned address outputs with a positive amount. */
  function SendTags(mine: set<Addr>, h: Hash, t: int, outs: seq<TxOut>, id: string, amounts: seq<int>): (w: SlpTxos)
    ensures forall k :: k in w <==>
              k.txHash == h && k.n < |outs| && k.n < |amounts| && outs[k.n].dest == PayTo(k.addr)
              && amounts[k.n] > 0 && k.addr in mine
    ensures forall k :: k in w ==> w[k] == SlpTxo(t, Some(id), Amount(amounts[k.n]))
  {
    map i | 0 <= i < |outs| && i < |amounts| && IsMineDest(mine, outs[i].dest) && amounts[i] > 0
      :: SlpKey(outs[i].dest.addr, h, i) := SlpTxo(t, Some(id), Amount(amounts[i]))
  }

  /**
   * GENESIS and MINT: nothing unless output 1 exists and pays an address. Then output 1 gets
   * the new quantity when it is positive and the address is owned, and the baton output, when
   * named and present, gets the baton if it pays an address (owned or not); the baton is
   * written second.
   */
  function MintTags(mine: set<Addr>, h: Hash, t: int, outs: seq<TxOut>, id: string, qty: int, baton: Option<nat>)
    : (w: SlpTxos)
    ensures |outs| < 2 || !outs[1].dest.PayTo? ==> w == map[]
    ensures forall k :: k in w ==> k.txHash == h && k.n < |outs| && outs[k.n].dest == PayTo(k.addr)
    ensures forall k :: k in w ==> w[k].tokenType == t && w[k].tokenId == Some(id)
    ensures forall k :: k in w && w[k].qty != MintBaton ==> k.n == 1 && k.addr in mine && qty > 0 && w[k].qty == Amount(qty)
    ensures forall k :: k in w && w[k].qty == MintBaton ==> baton == Some(k.n)
    ensures |outs| >= 2 && outs[1].dest.PayTo? && baton.Some? && baton.value < |outs| && outs[baton.value].dest.PayTo? ==>
              SlpKey(outs[baton.value].dest.addr, h, baton.value) in w
              && w[SlpKey(outs[baton.value].dest.addr, h, baton.value)].qty == MintBaton
    ensures |outs| >= 2 && outs[1].dest.PayTo? && qty > 0 && outs[1].dest.addr in mine && baton != Some(1) ==>
              SlpKey(outs[1].dest.addr, h, 1) in w && w[SlpKey(outs[1].dest.addr, h, 1)].qty == Amount(qty)
  {
    if |outs| < 2 || !outs[1].dest.PayTo? then map[]
    else
      var a1 := outs[1].dest.addr;
      var w1: SlpTxos := if qty > 0 && a1 in mine then map[SlpKey(a1, h, 1) := SlpTxo(t, Some(id), Amount(qty))] else map[];
      match baton
      case None => w1
      case Some(i) =>
        if i < |outs| && outs[i].dest.PayTo? then w1[SlpKey(outs[i].dest.addr, h, i) := SlpTxo(t, Some(id), MintBaton)]
        else w1
  }

  // ---------------------------------------------------------------------------
  // The validation gate (slp_check_validation).
  // ---------------------------------------------------------------------------

  /**
   * The submit decision of slp_check_validation for the info of one transaction: only an
   * unvalidated transaction of a token whose type entry exists and has known decimals, and
   * only for token types 1, 65 and 129; type 1 goes to the fungible validator, the others to
   * the NFT validator.
   */
  function ValidationJob(tti: TokInfo, tokenTypes: map<string, TokenType>): (r: Option<Job>)
    requires tti.Info?
    ensures r.Some? <==> && tti.validity == 0 && tti.tokenId in tokenTypes
                         && tokenTypes[tti.tokenId].decimals != Pending
                         && tti.tokenType in {1, 65, 129}
    ensures r == Some(FungibleJob) <==> r.Some? && tti.tokenType == 1
    ensures r.Some? && r != Some(FungibleJob) ==> r == Some(NftJob(tti.tokenType))
  {
    var isNew := tti.tokenId in tokenTypes && tokenTypes[tti.tokenId].decimals == Pending;
    if tti.validity == 0 && tti.tokenId in tokenTypes && !isNew && tti.tokenType in {1, 65, 129} then
      if tti.tokenType == 1 then Some(FungibleJob) else Some(NftJob(tti.tokenType))
    else None
  }

  /** slp_check_validation for transaction `h`: a missing or cleared info entry raises KeyError. */
  function SlpCheckValidation(s: SlpState, h: Hash): (r: Result<Option<Job>, string>)
    ensures r.Failure? <==> h !in s.tokinfo || s.tokinfo[h].Cleared?
    ensures r.Success? ==> r.value == ValidationJob(s.tokinfo[h], s.tokenTypes)
  {
    if h !in s.tokinfo || s.tokinfo[h].Cleared? then Failure("KeyError")
    else Success(ValidationJob(s.tokinfo[h], s.tokenTypes))
  }

  // ---------------------------------------------------------------------------
  // handleSlpTransaction
  // ---------------------------------------------------------------------------

  /** Whether some recorded transaction info already names token `id`. */
  predicate TokenSeen(tokinfo: map<Hash, TokInfo>, id: string) {
    exists t :: t in tokinfo && tokinfo[t].Info? && tokinfo[t].tokenId == id
  }

  /** The placeholder type entry for a token id seen for the first time: `unknown-` and the first six characters. */
  function Placeholder(id: string, t: int): (r: TokenType)
    ensures r.decimals == Pending && r.tokenClass == t
    ensures r.name == "unknown-" + (if |id| <= 6 then id else id[..6])
    ensures r.groupId.Some? <==> t == 65
  {
    TokenType(t, "unknown-" + (if |id| <= 6 then id else id[..6]), Pending, if t == 65 then Some("?") else None)
  }

  /** What handleSlpTransaction leaves behind, and the validation job it submitted, if any. */
  datatype SlpOutcome = SlpOutcome(state: SlpState, job: Option<Job>)

  /**
   * Record a classified message: its tags, a placeholder type for an unseen token id, a fresh
   * info entry with validity 0, and the gate's decision when token support is enabled.
   */
  function Record(s: SlpState, h: Hash, t: int, kind: TxKind, id: string, w: SlpTxos, isSlp: bool): (r: SlpOutcome)
    ensures r.state.slpTxo == s.slpTxo + w
    ensures r.state.tokinfo == s.tokinfo[h := Info(t, kind, id, 0)]
    ensures !TokenSeen(s.tokinfo, id) && id !in s.tokenTypes ==> r.state.tokenTypes == s.tokenTypes[id := Placeholder(id, t)]
    ensures TokenSeen(s.tokinfo, id) || id in s.tokenTypes ==> r.state.tokenTypes == s.tokenTypes
    ensures r.job.Some? ==> isSlp && id in s.tokenTypes && s.tokenTypes[id].decimals != Pending
    ensures r.job == (if isSlp then ValidationJob(Info(t, kind, id, 0), r.state.tokenTypes) else None)
  {
    var newToken := !TokenSeen(s.tokinfo, id);
    var types := if newToken && id !in s.tokenTypes then s.tokenTypes[id := Placeholder(id, t)] else s.tokenTypes;
    var s1 := SlpState(s.slpTxo + w, s.tokinfo[h := Info(t, kind, id, 0)], types);
    SlpOutcome(s1, if isSlp then ValidationJob(s1.tokinfo[h], s1.tokenTypes) else None)
  }

  /**
   * handleSlpTransaction: classify the token message of transaction `h` (outputs `outs`, parse
   * result `p`). A transaction without outputs or whose script does not parse changes nothing;
   * an unsupported token type only tags owned outputs; COMMIT changes nothing; an unknown
   * message type raises.
   */
  function HandleSlpTransaction(s: SlpState, mine: set<Addr>, h: Hash, outs: seq<TxOut>, p: SlpParse, isSlp: bool)
    : (r: Result<SlpOutcome, string>)
    ensures r.Failure? <==> |outs| > 0 && p.Msg? && p.body.OtherType?
    ensures |outs| == 0 || p.ParseError? || (p.Msg? && p.body.Commit?) ==> r == Success(SlpOutcome(s, None))
    ensures |outs| > 0 && p.Unsupported? ==>
              r == Success(SlpOutcome(s.(slpTxo := s.slpTxo + UnsupportedTags(mine, h, p.unsupportedType, outs)), None))
    ensures r.Success? ==> forall k :: k in r.value.state.slpTxo && k.txHash != h ==> k in s.slpTxo && r.value.state.slpTxo[k] == s.slpTxo[k]
    ensures r.Success? ==> s.slpTxo.Keys <= r.value.state.slpTxo.Keys
    ensures r.Success? && |outs| > 0 && p.Msg? && !p.body.Commit? ==>
              r.value.state.tokinfo == s.tokinfo[h := Info(p.tokenType, KindOf(p.body), MsgTokenId(h, p.body), 0)]
    ensures r.Success? && !(|outs| > 0 && p.Msg? && !p.body.Commit?) ==> r.value.state.tokinfo == s.tokinfo
  {
    if |outs| == 0 then Success(SlpOutcome(s, None))
    else match p
      case ParseError => Success(SlpOutcome(s, None))
      case Unsupported(t) => Success(SlpOutcome(s.(slpTxo := s.slpTxo + UnsupportedTags(mine, h, t, outs)), None))
      case Msg(t, body) =>
        match body
        case Send(id, amounts) => Success(Record(s, h, t, SendTx, id, SendTags(mine, h, t, outs, id, amounts), isSlp))
        case Genesis(qty, baton) => Success(Record(s, h, t, GenesisTx, h, MintTags(mine, h, t, outs, h, qty, baton), isSlp))
        case Mint(id, qty, baton) => Success(Record(s, h, t, MintTx, id, MintTags(mine, h, t, outs, id, qty, baton), isSlp))
        case Commit => Success(SlpOutcome(s, None))
        case OtherType(name) => Failure("RuntimeError: " + name)
  }

  /** The message kind recorded for a GENESIS, MINT or SEND body. */
  function KindOf(b: Body): TxKind
    requires !b.Commit? && !b.OtherType?
  {
    match b
    case Genesis(_, _) => GenesisTx
    case Mint(_, _, _) => MintTx
    case Send(_, _) => SendTx
  }

  /** The token id of a GENESIS, MINT or SEND body of transaction `h`: a GENESIS creates token `h`. */
  function MsgTokenId(h: Hash, b: Body): string
    requires !b.Commit? && !b.OtherType?
  {
    if b.Genesis? then h else b.tokenId
  }

  lemma MergeTwice(m: SlpTxos, w: SlpTxos)
    ensures (m + w) + w == m + w
  {
    assert forall k :: k in (m + w) + w <==> k in m + w;
  }

  lemma RecordIdempotent(s: SlpState, h: Hash, t: int, kind: TxKind, id: string, w: SlpTxos, isSlp: bool)
    ensures var s1 := Record(s, h, t, kind, id, w, isSlp).state;
            Record(s1, h, t, kind, id, w, isSlp).state == s1
  {
    var s1 := Record(s, h, t, kind, id, w, isSlp).state;
    assert TokenSeen(s1.tokinfo, id) by {
      assert s1.tokinfo[h] == Info(t, kind, id, 0);
    }
    MergeTwice(s.slpTxo, w);
  }

  /** A token first seen in this transaction gets a placeholder type, so no job is submitted for it. */
  lemma UnseenTokenNotSubmitted(s: SlpState, mine: set<Addr>, h: Hash, outs: seq<TxOut>, p: SlpParse, isSlp: bool)
    requires |outs| > 0 && p.Msg? && !p.body.OtherType? && !p.body.Commit?
    requires var id := if p.body.Genesis? then h else p.body.tokenId;
             !TokenSeen(s.tokinfo, id) && id !in s.tokenTypes
    ensures var r := HandleSlpTransaction(s, mine, h, outs, p, isSlp);
            r.Success? && r.value.job == None
            && (var id := if p.body.Genesis? then h else p.body.tokenId;
                id in r.value.state.tokenTypes && r.value.state.tokenTypes[id].decimals == Pending)
  {
  }

  /**
   * Handling the same transaction twice leaves the state as after the first time (what
   * rebuild_slp and repeated add_transaction calls rely on); the second pass submits the same
   * job decision, taken against the token types the first pass left behind.
   */
  lemma HandleIdempotent(s: SlpState, mine: set<Addr>, h: Hash, outs: seq<TxOut>, p: SlpParse, isSlp: bool)
    requires HandleSlpTransaction(s, mine, h, outs, p, isSlp).Success?
    ensures var s1 := HandleSlpTransaction(s, mine, h, outs, p, isSlp).value.state;
            var r2 := HandleSlpTransaction(s1, mine, h, outs, p, isSlp);
            r2.Success? && r2.value.state == s1
  {
    if |outs| > 0 {
      match p
      case ParseError =>
      case Unsupported(t) => MergeTwice(s.slpTxo, UnsupportedTags(mine, h, t, outs));
      case Msg(t, body) =>
        match body
        case Send(id, amounts) => RecordIdempotent(s, h, t, SendTx, id, SendTags(mine, h, t, outs, id, amounts), isSlp);
        case Genesis(qty, baton) => RecordIdempotent(s, h, t, GenesisTx, h, MintTags(mine, h, t, outs, h, qty, baton), isSlp);
        case Mint(id, qty, baton) => RecordIdempotent(s, h, t, MintTx, id, MintTags(mine, h, t, outs, id, qty, baton), isSlp);
        case Commit =>
    }
  }

  /**
   * The tags the classifier writes: a tag names a token exactly when it carries a quantity,
   * and every token amount is positive.
   */
  predicate TagsWellFormed(m: SlpTxos) {
    forall k :: k in m ==> (m[k].tokenId.None? <==> m[k].qty.NoQty?) && (m[k].qty.Amount? ==> m[k].qty.amount > 0)
  }

  lemma MergeWellFormed(m: SlpTxos, w: SlpTxos)
    requires TagsWellFormed(m) && TagsWellFormed(w)
    ensures TagsWellFormed(m + w)
  {
    forall k | k in m + w ensures ((m + w)[k].tokenId.None? <==> (m + w)[k].qty.NoQty?)
                                  && ((m + w)[k].qty.Amount? ==> (m + w)[k].qty.amount > 0) {
      if k in w {
        assert (m + w)[k] == w[k];
      } else {
        assert (m + w)[k] == m[k];
      }
    }
  }

  /** handleSlpTransaction only ever writes well-formed tags. */
  lemma HandleKeepsTagsWellFormed(s: SlpState, mine: set<Addr>, h: Hash, outs: seq<TxOut>, p: SlpParse, isSlp: bool)
    requires TagsWellFormed(s.slpTxo)
    requires HandleSlpTransaction(s, mine, h, outs, p, isSlp).Success?
    ensures TagsWellFormed(HandleSlpTransaction(s, mine, h, outs, p, isSlp).value.state.slpTxo)
  {
    var r := HandleSlpTransaction(s, mine, h, outs, p, isSlp).value.state;
    if |outs| > 0 && p.Unsupported? {
      var w := UnsupportedTags(mine, h, p.unsupportedType, outs);
      assert TagsWellFormed(w);
      assert r.slpTxo == s.slpTxo + w;
      MergeWellFormed(s.slpTxo, w);
    } else if |outs| > 0 && p.Msg? && p.body.Send? {
      var w := SendTags(mine, h, p.tokenType, outs, p.body.tokenId, p.body.amounts);
      assert TagsWellFormed(w);
      assert r.slpTxo == s.slpTxo + w;
      MergeWellFormed(s.slpTxo, w);
    } else if |outs| > 0 && p.Msg? && (p.body.Genesis? || p.body.Mint?) {
      var id := if p.body.Genesis? then h else p.body.tokenId;
      var qty := if p.body.Genesis? then p.body.initialQty else p.body.additionalQty;
      var w := MintTags(mine, h, p.tokenType, outs, id, qty, p.body.batonVout);
      assert TagsWellFormed(w);
      assert r.slpTxo == s.slpTxo + w;
      MergeWellFormed(s.slpTxo, w);
    }
  }

  // ---------------------------------------------------------------------------
  // add_token_type
  // ---------------------------------------------------------------------------

  predicate IsLowerHex(c: char) {
    '0' <= c <= '9' || 'a' <= c <= 'f'
  }

  /** What the token-id check intends: exactly 64 lowercase hexadecimal characters. */
  predicate ValidTokenId(id: string) {
    |id| == 64 && forall i :: 0 <= i < 64 ==> IsLowerHex(id[i])
  }

  /**
   * The token-id check as written: a search for `^[a-f0-9]{64}$` anchored at the start, where
   * `$` also matches just before a final newline, so 64 hex characters followed by "\n" pass.
   */
  predicate TokenIdMatchesAsWritten(id: string) {
    && |id| >= 64
    && (forall i :: 0 <= i < 64 ==> IsLowerHex(id[i]))
    && (|id| == 64 || (|id| == 65 && id[64] == '\n'))
  }

  /** The as-written check accepts exactly the intended ids plus those ids followed by a newline. */
  lemma TokenIdCheckDiscrepancy(id: string)
    ensures TokenIdMatchesAsWritten(id) <==> ValidTokenId(id) || (|id| == 65 && ValidTokenId(id[..64]) && id[64] == '\n')
  {
  }

  /** A concrete id the as-written check lets through although it is not a canonical token id. */
  lemma TokenIdWithNewlineAccepted()
    ensures var id := seq(64, _ => '0') + "\n";
            TokenIdMatchesAsWritten(id) && !ValidTokenId(id)
  {
    var id := seq(64, _ => '0') + "\n";
    assert forall i :: 0 <= i < 64 ==> id[i] == '0';
    assert id[64] == '\n';
  }

  /** The outcome of add_token_type: the new state and the transactions a validation job was submitted for. */
  datatype TokenTypeAdded = TokenTypeAdded(state: SlpState, submitted: set<Hash>)

  /**
   * The success part of add_token_type: set the type entry and re-run the gate on every known
   * transaction of that token (cleared entries and transactions not stored are skipped).
   */
  function StoreTokenType(s: SlpState, id: string, entry: TokenType, checkValidation: bool, stored: set<Hash>)
    : (r: TokenTypeAdded)
    ensures r.state == s.(tokenTypes := s.tokenTypes[id := entry])
    ensures forall t :: t in r.submitted <==>
              && checkValidation && t in stored && t in s.tokinfo && s.tokinfo[t].Info?
              && s.tokinfo[t].tokenId == id && s.tokinfo[t].validity == 0
              && entry.decimals != Pending && s.tokinfo[t].tokenType in {1, 65, 129}
  {
    var types := s.tokenTypes[id := entry];
    var submitted := set t | t in s.tokinfo && s.tokinfo[t].Info? && s.tokinfo[t].tokenId == id
                             && checkValidation && t in stored && ValidationJob(s.tokinfo[t], types).Some?;
    TokenTypeAdded(s.(tokenTypes := types), submitted)
  }

  const TokenIdError: string := "ValueError: token_id must be a lowercase hex string of exactly 64 characters!"

  /** add_token_type as written: the id passes the as-written check, so a final newline is let through. */
  function AddTokenType(s: SlpState, id: string, entry: TokenType, checkValidation: bool, stored: set<Hash>)
    : (r: Result<TokenTypeAdded, string>)
    ensures r.Failure? <==> !TokenIdMatchesAsWritten(id)
    ensures r.Success? ==> r.value.state == s.(tokenTypes := s.tokenTypes[id := entry])
    ensures r.Success? ==> forall t :: t in r.value.submitted <==>
              && checkValidation && t in stored && t in s.tokinfo && s.tokinfo[t].Info?
              && s.tokinfo[t].tokenId == id && s.tokinfo[t].validity == 0
              && entry.decimals != Pending && s.tokinfo[t].tokenType in {1, 65, 129}
  {
    if !TokenIdMatchesAsWritten(id) then Failure(TokenIdError)
    else Success(StoreTokenType(s, id, entry, checkValidation, stored))
  }

  /** add_token_type with the intended check: exactly 64 lowercase hexadecimal characters. */
  function AddTokenTypeIntended(s: SlpState, id: string, entry: TokenType, checkValidation: bool, stored: set<Hash>)
    : (r: Result<TokenTypeAdded, string>)
    ensures r.Failure? <==> !ValidTokenId(id)
    ensures r.Success? ==> r.value.state == s.(tokenTypes := s.tokenTypes[id := entry])
    ensures r.Success? ==> forall t :: t in r.value.submitted <==>
              && checkValidation && t in stored && t in s.tokinfo && s.tokinfo[t].Info?
              && s.tokinfo[t].tokenId == id && s.tokinfo[t].validity == 0
              && entry.decimals != Pending && s.tokinfo[t].tokenType in {1, 65, 129}
  {
    if !ValidTokenId(id) then Failure(TokenIdError)
    else Success(StoreTokenType(s, id, entry, checkValidation, stored))
  }

  /**
   * The two agree on every canonical id; as written, a canonical id followed by a newline is
   * also stored, as a type entry under that 65-character key.
   */
  lemma AddTokenTypeAgreesOnCanonicalIds(s: SlpState, id: string, entry: TokenType, checkValidation: bool, stored: set<Hash>)
    ensures ValidTokenId(id) ==>
              AddTokenType(s, id, entry, checkValidation, stored) == AddTokenTypeIntended(s, id, entry, checkValidation, stored)
    ensures AddTokenType(s, id, entry, checkValidation, stored).Success? && !ValidTokenId(id) ==>
              |id| == 65 && ValidTokenId(id[..64]) && id[64] == '\n' && id in AddTokenType(s, id, entry, checkValidation, stored).value.state.tokenTypes
  {
    TokenIdCheckDiscrepancy(id);
  }

  /** remove_transaction's token part: the info entry is cleared and every tag of `h` dropped. */
  function ClearTransaction(s: SlpState, h: Hash): (r: SlpState)
    ensures r.tokinfo == s.tokinfo[h := Cleared]
    ensures forall k :: k in r.slpTxo <==> k in s.slpTxo && k.txHash != h
    ensures forall k :: k in r.slpTxo ==> r.slpTxo[k] == s.slpTxo[k]
    ensures r.tokenTypes == s.tokenTypes
  {
    s.(slpTxo := map k | k in s.slpTxo && k.txHash != h :: s.slpTxo[k], tokinfo := s.tokinfo[h := Cleared])
  }
}
