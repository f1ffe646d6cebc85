/**
  The witnesses built to spend the channel's outputs (the Spend functions of input/script_utils.go),
  and when each is accepted by the script it is built for.
 */
module Spends {
  import opened Common
  import opened Script
  import opened ChannelScripts
  import opened ScriptBytes
  import opened ScriptSizes

  /** A signature of the transaction for the described output, or an error. */
  type Signer = TxFields -> Option<Bytes>

  const SIG_HASH_ALL: byte := 1

  /* ---------- witness builders ---------- */

  /**
    One signature and one item: the revocation key or the preimage for HTLC outputs, a one or an
    empty item for delayed outputs. The output's script goes last in every witness.
   */
  function SpendWith(sign: Signer, tx: TxFields, hashType: byte, item: Bytes, script: Bytes): (r: Option<Stack>) {
    match sign(tx) case None => None case Some(sig) => Some([sig + [hashType], item, script])
  }

  /** The other side's signature and ours, for the second-level transactions. */
  function CovenantSpend(theirSig: Bytes, theirHashType: byte, sign: Signer, tx: TxFields, hashType: byte, item: Bytes,
                         script: Bytes): (r: Option<Stack>) {
    match sign(tx)
    case None => None
    case Some(sig) => Some([[], theirSig + [theirHashType], sig + [hashType], item, script])
  }

  function CommitSpendTimeout(sign: Signer, tx: TxFields, hashType: byte, script: Bytes): (r: Option<Stack>) {
    if tx.version < 2 then None else SpendWith(sign, tx, hashType, [], script)
  }

  /** For to-remote and anchor outputs; without a key in the descriptor there is no witness. */
  function SpendWithKey(pubKey: Option<Bytes>, sign: Signer, tx: TxFields, hashType: byte, script: Bytes): (r: Option<Stack>) {
    if pubKey.None? then None else
      match sign(tx) case None => None case Some(sig) => Some([sig + [hashType], script])
  }

  function CommitSpendAnchorAnyone(script: Bytes): (w: Stack) {
    [[], script]
  }

  function SpendMultiSig(script: Bytes, pubA: Bytes, sigA: Bytes, pubB: Bytes, sigB: Bytes): (w: Stack) {
    if Greater(pubA, pubB) then [[], sigB + [SIG_HASH_ALL], sigA + [SIG_HASH_ALL], script]
    else [[], sigA + [SIG_HASH_ALL], sigB + [SIG_HASH_ALL], script]
  }

  /** The script takes the witness without its last item, the script itself. */
  predicate Satisfies(ctx: Ctx, ops: seq<Op>, w: Stack) {
    w != [] && Accepts(ctx, ops, Pop(w, 1))
  }

  /* ---------- HTLC outputs ---------- */

  datatype HtlcKeys = HtlcKeys(sender: Bytes, receiver: Bytes, revoke: Bytes, paymentHash: Bytes, confirmedSpend: bool)

  function SenderScript(ctx: Ctx, k: HtlcKeys): (ops: seq<Op>) {
    SenderHTLCScript(ctx, k.sender, k.receiver, k.revoke, k.paymentHash, k.confirmedSpend)
  }

  function ReceiverScript(ctx: Ctx, k: HtlcKeys, cltvExpiry: uint32): (ops: seq<Op>) {
    ReceiverHTLCScript(ctx, cltvExpiry, k.sender, k.receiver, k.revoke, k.paymentHash, k.confirmedSpend)
  }

  /** The item is not taken for the revocation key. */
  predicate NotKey(ctx: Ctx, k: HtlcKeys, item: Bytes) {
    Hash160Of(ctx, item) != Hash160Of(ctx, k.revoke)
  }

  /** The item collides neither with the revocation key nor, as a preimage, with the payment hash. */
  predicate NoCollision(ctx: Ctx, k: HtlcKeys, item: Bytes) {
    !Collide160(ctx, item, k.revoke) && !Collide(ctx.ripemd160, ctx.sha256(item), k.paymentHash)
  }

  /** Short of a collision, an item that has not the size of a key is not taken for the revocation key. */
  lemma OtherSizesAreNotKeys(ctx: Ctx, k: HtlcKeys, item: Bytes)
    requires !Collide160(ctx, item, k.revoke) && |k.revoke| == 33 && |item| != 33
    ensures NotKey(ctx, k, item)
  {
  }

  lemma RevokeAccepted(ctx: Ctx, k: HtlcKeys, cltvExpiry: uint32, sign: Signer, hashType: byte, script: Bytes)
    requires sign(ctx.tx).Some?
    ensures var r := SpendWith(sign, ctx.tx, hashType, k.revoke, script);
            && r.Some?
            && (Satisfies(ctx, SenderScript(ctx, k), r.value) <==> ctx.signed(sign(ctx.tx).value + [hashType], k.revoke))
            && (Satisfies(ctx, ReceiverScript(ctx, k, cltvExpiry), r.value) <==>
                ctx.signed(sign(ctx.tx).value + [hashType], k.revoke))
  {
    var w := [sign(ctx.tx).value + [hashType], k.revoke];
    assert Pop(w + [script], 1) == w;
    assert w + [script] == [sign(ctx.tx).value + [hashType], k.revoke, script];
    SenderSpenders(ctx, k.sender, k.receiver, k.revoke, k.paymentHash, k.confirmedSpend, w);
    ReceiverSpenders(ctx, cltvExpiry, k.sender, k.receiver, k.revoke, k.paymentHash, k.confirmedSpend, w);
  }

  lemma SenderRedeemAccepted(ctx: Ctx, k: HtlcKeys, sign: Signer, hashType: byte, preimage: Bytes, script: Bytes)
    requires sign(ctx.tx).Some? && NotKey(ctx, k, preimage)
    ensures var r := SpendWith(sign, ctx.tx, hashType, preimage, script);
            && r.Some?
            && (Satisfies(ctx, SenderScript(ctx, k), r.value) <==>
                && Preimage(ctx, k.paymentHash, preimage)
                && ctx.signed(sign(ctx.tx).value + [hashType], k.receiver)
                && OneConfirmation(ctx, k.confirmedSpend))
  {
    var w := [sign(ctx.tx).value + [hashType], preimage];
    assert w + [script] == [sign(ctx.tx).value + [hashType], preimage, script];
    assert Pop(w + [script], 1) == w;
    SenderSpenders(ctx, k.sender, k.receiver, k.revoke, k.paymentHash, k.confirmedSpend, w);
  }

  lemma SenderTimeoutAccepted(ctx: Ctx, k: HtlcKeys, receiverSig: Bytes, receiverHashType: byte, sign: Signer, hashType: byte,
                              script: Bytes)
    requires sign(ctx.tx).Some? && NotKey(ctx, k, [])
    ensures var r := CovenantSpend(receiverSig, receiverHashType, sign, ctx.tx, hashType, [], script);
            && r.Some?
            && (Satisfies(ctx, SenderScript(ctx, k), r.value) <==>
                && ctx.signed(receiverSig + [receiverHashType], k.receiver)
                && ctx.signed(sign(ctx.tx).value + [hashType], k.sender)
                && OneConfirmation(ctx, k.confirmedSpend))
  {
    var w := [[], receiverSig + [receiverHashType], sign(ctx.tx).value + [hashType], []];
    assert w + [script] == [[], receiverSig + [receiverHashType], sign(ctx.tx).value + [hashType], [], script];
    assert Pop(w + [script], 1) == w;
    SenderSpenders(ctx, k.sender, k.receiver, k.revoke, k.paymentHash, k.confirmedSpend, w);
  }

  /** A preimage of another size takes the witness to the timeout clause, where the second signature counts. */
  lemma ReceiverRedeemAccepted(ctx: Ctx, k: HtlcKeys, cltvExpiry: uint32, senderSig: Bytes, senderHashType: byte, sign: Signer,
                               hashType: byte, preimage: Bytes, script: Bytes)
    requires sign(ctx.tx).Some? && NotKey(ctx, k, preimage)
    ensures var r := CovenantSpend(senderSig, senderHashType, sign, ctx.tx, hashType, preimage, script);
            var sig := sign(ctx.tx).value + [hashType];
            && r.Some?
            && (Satisfies(ctx, ReceiverScript(ctx, k, cltvExpiry), r.value) <==>
                && OneConfirmation(ctx, k.confirmedSpend)
                && (if |preimage| == 32
                    then Preimage(ctx, k.paymentHash, preimage) && ctx.signed(senderSig + [senderHashType], k.sender) &&
                         ctx.signed(sig, k.receiver)
                    else NotBefore(ctx.tx, cltvExpiry) && ctx.signed(sig, k.sender)))
  {
    var w := [[], senderSig + [senderHashType], sign(ctx.tx).value + [hashType], preimage];
    assert w + [script] == [[], senderSig + [senderHashType], sign(ctx.tx).value + [hashType], preimage, script];
    assert Pop(w + [script], 1) == w;
    ReceiverSpenders(ctx, cltvExpiry, k.sender, k.receiver, k.revoke, k.paymentHash, k.confirmedSpend, w);
  }

  lemma ReceiverTimeoutAccepted(ctx: Ctx, k: HtlcKeys, cltvExpiry: uint32, sign: Signer, hashType: byte, script: Bytes)
    requires sign(ctx.tx).Some? && NotKey(ctx, k, [])
    ensures var r := SpendWith(sign, ctx.tx, hashType, [], script);
            && r.Some?
            && (Satisfies(ctx, ReceiverScript(ctx, k, cltvExpiry), r.value) <==>
                && NotBefore(ctx.tx, cltvExpiry)
                && ctx.signed(sign(ctx.tx).value + [hashType], k.sender)
                && OneConfirmation(ctx, k.confirmedSpend))
  {
    var w := [sign(ctx.tx).value + [hashType], []];
    assert w + [script] == [sign(ctx.tx).value + [hashType], [], script];
    assert Pop(w + [script], 1) == w;
    ReceiverSpenders(ctx, cltvExpiry, k.sender, k.receiver, k.revoke, k.paymentHash, k.confirmedSpend, w);
  }

  /** The spender of an offered HTLC holds the right keys and secrets. */
  predicate SenderEntitled(ctx: Ctx, k: HtlcKeys, w: Stack) {
    && |w| >= 2
    && (|| (At(w, 0) == k.revoke && Signed(ctx, At(w, 1), k.revoke))
        || (&& OneConfirmation(ctx, k.confirmedSpend)
            && (|| (ctx.sha256(At(w, 0)) == k.paymentHash && Signed(ctx, At(w, 1), k.receiver))
                || (|w| >= 4 && Signed(ctx, At(w, 1), k.sender) && Signed(ctx, At(w, 2), k.receiver)))))
  }

  /** The spender of a received HTLC does. */
  predicate ReceiverEntitled(ctx: Ctx, k: HtlcKeys, cltvExpiry: uint32, w: Stack) {
    && |w| >= 2
    && (|| (At(w, 0) == k.revoke && Signed(ctx, At(w, 1), k.revoke))
        || (&& OneConfirmation(ctx, k.confirmedSpend)
            && (|| (&& |w| >= 4 && ctx.sha256(At(w, 0)) == k.paymentHash
                    && Signed(ctx, At(w, 1), k.receiver) && Signed(ctx, At(w, 2), k.sender))
                || (NotBefore(ctx.tx, cltvExpiry) && Signed(ctx, At(w, 1), k.sender)))))
  }

  /** Whoever spends an offered HTLC is entitled to it, or shows a hash collision. */
  lemma SenderSafety(ctx: Ctx, k: HtlcKeys, w: Stack)
    requires w != [] ==> NoCollision(ctx, k, At(w, 0))
    requires Accepts(ctx, SenderScript(ctx, k), w)
    ensures SenderEntitled(ctx, k, w)
  {
    SenderSpenders(ctx, k.sender, k.receiver, k.revoke, k.paymentHash, k.confirmedSpend, w);
  }

  lemma ReceiverSafety(ctx: Ctx, k: HtlcKeys, cltvExpiry: uint32, w: Stack)
    requires w != [] ==> NoCollision(ctx, k, At(w, 0))
    requires Accepts(ctx, ReceiverScript(ctx, k, cltvExpiry), w)
    ensures ReceiverEntitled(ctx, k, cltvExpiry, w)
  {
    ReceiverSpenders(ctx, cltvExpiry, k.sender, k.receiver, k.revoke, k.paymentHash, k.confirmedSpend, w);
  }

  /* ---------- the outputs as they stand in the transaction ---------- */

  ghost predicate KeySizes(ctx: Ctx, k: HtlcKeys) {
    HashSize(ctx) && |k.sender| == |k.receiver| == |k.revoke| == 33
  }

  /** The items a sig script pushes show no collision with what the output commits to. */
  predicate ShowsNoCollision(ctx: Ctx, k: HtlcKeys, script: Bytes, items: Stack) {
    && (|items| >= 1 ==> !Collide160(ctx, At(items, 0), script))
    && (|items| >= 2 ==> NoCollision(ctx, k, At(items, 1)))
  }

  lemma SenderScriptFits(ctx: Ctx, k: HtlcKeys)
    requires KeySizes(ctx, k)
    ensures AllFit(SenderScript(ctx, k)) && NoZeroPush(SenderScript(ctx, k))
    ensures 1 < |Serialize(SenderScript(ctx, k))| <= MAX_ELEMENT
  {
    SenderFits(ctx, k.sender, k.receiver, k.revoke, k.paymentHash, k.confirmedSpend);
  }

  lemma ReceiverScriptFits(ctx: Ctx, k: HtlcKeys, cltvExpiry: uint32)
    requires KeySizes(ctx, k)
    ensures AllFit(ReceiverScript(ctx, k, cltvExpiry)) && NoZeroPush(ReceiverScript(ctx, k, cltvExpiry))
    ensures 1 < |Serialize(ReceiverScript(ctx, k, cltvExpiry))| <= MAX_ELEMENT
  {
    ReceiverFits(ctx, cltvExpiry, k.sender, k.receiver, k.revoke, k.paymentHash, k.confirmedSpend);
  }

  /** The bytes of the script, which go last in a witness. */
  ghost function SenderBytes(ctx: Ctx, k: HtlcKeys): (script: Bytes)
    requires KeySizes(ctx, k)
  {
    SenderScriptFits(ctx, k);
    Serialize(SenderScript(ctx, k))
  }

  ghost function ReceiverBytes(ctx: Ctx, k: HtlcKeys, cltvExpiry: uint32): (script: Bytes)
    requires KeySizes(ctx, k)
  {
    ReceiverScriptFits(ctx, k, cltvExpiry);
    Serialize(ReceiverScript(ctx, k, cltvExpiry))
  }

  /** The output paying to their hash. */
  ghost function SenderOutput(ctx: Ctx, k: HtlcKeys): (pkScript: Bytes)
    requires KeySizes(ctx, k)
  {
    GenerateP2SH(ctx, SenderBytes(ctx, k))
  }

  ghost function ReceiverOutput(ctx: Ctx, k: HtlcKeys, cltvExpiry: uint32): (pkScript: Bytes)
    requires KeySizes(ctx, k)
  {
    GenerateP2SH(ctx, ReceiverBytes(ctx, k, cltvExpiry))
  }

  /** The items below the script satisfy it, and show no collision either. */
  lemma OutputItems(ctx: Ctx, k: HtlcKeys, ops: seq<Op>, sigScript: Bytes, items: Stack)
    requires HashSize(ctx) && AllFit(ops) && NoZeroPush(ops)
    requires Parse(sigScript) == Some(Pushes(items)) && SpendsP2SH(ctx, sigScript, GenerateP2SH(ctx, Serialize(ops)))
    requires ShowsNoCollision(ctx, k, Serialize(ops), items)
    ensures items != [] && Accepts(ctx, ops, Pop(items, 1))
    ensures Pop(items, 1) != [] ==> NoCollision(ctx, k, At(Pop(items, 1), 0))
  {
    P2SHOnly(ctx, ops, sigScript, items);
    assert Pop(items, 1) != [] ==> At(Pop(items, 1), 0) == At(items, 1);
  }

  /** Over all sig scripts, as bytes: whoever spends the output is entitled to it, or shows a hash collision. */
  lemma SenderOutputSafety(ctx: Ctx, k: HtlcKeys, sigScript: Bytes) returns (items: Stack)
    requires KeySizes(ctx, k) && SpendsP2SH(ctx, sigScript, SenderOutput(ctx, k))
    ensures Parse(sigScript) == Some(Pushes(items))
    ensures ShowsNoCollision(ctx, k, SenderBytes(ctx, k), items) ==> items != [] && SenderEntitled(ctx, k, Pop(items, 1))
  {
    items := P2SHPushes(ctx, sigScript, SenderOutput(ctx, k));
    if ShowsNoCollision(ctx, k, SenderBytes(ctx, k), items) {
      SenderItems(ctx, k, sigScript, items);
    }
  }

  lemma SenderItems(ctx: Ctx, k: HtlcKeys, sigScript: Bytes, items: Stack)
    requires KeySizes(ctx, k) && Parse(sigScript) == Some(Pushes(items))
    requires SpendsP2SH(ctx, sigScript, SenderOutput(ctx, k)) && ShowsNoCollision(ctx, k, SenderBytes(ctx, k), items)
    ensures items != [] && SenderEntitled(ctx, k, Pop(items, 1))
  {
    OutputItems(ctx, k, SenderScript(ctx, k), sigScript, items) by {
      SenderScriptFits(ctx, k);
    }
    SenderSafety(ctx, k, Pop(items, 1));
  }

  lemma ReceiverOutputSafety(ctx: Ctx, k: HtlcKeys, cltvExpiry: uint32, sigScript: Bytes) returns (items: Stack)
    requires KeySizes(ctx, k) && SpendsP2SH(ctx, sigScript, ReceiverOutput(ctx, k, cltvExpiry))
    ensures Parse(sigScript) == Some(Pushes(items))
    ensures ShowsNoCollision(ctx, k, ReceiverBytes(ctx, k, cltvExpiry), items) ==>
              items != [] && ReceiverEntitled(ctx, k, cltvExpiry, Pop(items, 1))
  {
    items := P2SHPushes(ctx, sigScript, ReceiverOutput(ctx, k, cltvExpiry));
    if ShowsNoCollision(ctx, k, ReceiverBytes(ctx, k, cltvExpiry), items) {
      ReceiverItems(ctx, k, cltvExpiry, sigScript, items);
    }
  }

  lemma ReceiverItems(ctx: Ctx, k: HtlcKeys, cltvExpiry: uint32, sigScript: Bytes, items: Stack)
    requires KeySizes(ctx, k) && Parse(sigScript) == Some(Pushes(items))
    requires SpendsP2SH(ctx, sigScript, ReceiverOutput(ctx, k, cltvExpiry))
    requires ShowsNoCollision(ctx, k, ReceiverBytes(ctx, k, cltvExpiry), items)
    ensures items != [] && ReceiverEntitled(ctx, k, cltvExpiry, Pop(items, 1))
  {
    OutputItems(ctx, k, ReceiverScript(ctx, k, cltvExpiry), sigScript, items) by {
      ReceiverScriptFits(ctx, k, cltvExpiry);
    }
    ReceiverSafety(ctx, k, cltvExpiry, Pop(items, 1));
  }

  /** The items of a witness are stack elements that survive being pushed. */
  predicate Pushable(items: Stack) {
    |items| <= 10 && forall i :: 0 <= i < |items| ==> |items[i]| <= MAX_ELEMENT && items[i] != [0]
  }

  lemma {:induction false} PushableFits(items: Stack)
    requires Pushable(items)
    ensures SigFits(items) && |SigBytes(items)| <= 523 * |items|
  {
    if items == [] {
      assert SigBytes(items) == [];
    } else {
      var front := items[..|items| - 1];
      PushableFits(front);
      SigSnoc(front, items[|items| - 1]);
      assert items == front + [items[|items| - 1]];
    }
  }

  /**
    From a builder's witness to a spend: its sig script, as bytes, spends the output paying to the
    hash of the script's bytes exactly when the script is satisfied.
   */
  lemma WitnessSpends(ctx: Ctx, ops: seq<Op>, w: Stack)
    requires HashSize(ctx) && AllFit(ops) && NoZeroPush(ops)
    requires w != [] && Peek(w) == Serialize(ops) && Pushable(w)
    ensures SigFits(w) && (SpendsP2SH(ctx, SigBytes(w), GenerateP2SH(ctx, Serialize(ops))) <==> Satisfies(ctx, ops, w))
  {
    PushableFits(w);
    assert w == Pop(w, 1) + [Peek(w)];
    P2SHSpend(ctx, ops, Pop(w, 1));
  }

  /** A signature of a size that can be pushed. */
  predicate Sized(sig: Bytes) {
    0 < |sig| < MAX_ELEMENT
  }

  /** The witness spends the output through its sig script. */
  ghost predicate Spends(ctx: Ctx, w: Option<Stack>, pkScript: Bytes) {
    w.Some? && SigFits(w.value) && SpendsP2SH(ctx, SigBytes(w.value), pkScript)
  }

  /** Revocation, from the signer to the spent output. */
  lemma RevokeSpends(ctx: Ctx, k: HtlcKeys, cltvExpiry: uint32, sign: Signer, hashType: byte)
    requires KeySizes(ctx, k) && sign(ctx.tx).Some? && Sized(sign(ctx.tx).value)
    ensures Spends(ctx, SpendWith(sign, ctx.tx, hashType, k.revoke, SenderBytes(ctx, k)), SenderOutput(ctx, k)) <==>
            ctx.signed(sign(ctx.tx).value + [hashType], k.revoke)
    ensures Spends(ctx, SpendWith(sign, ctx.tx, hashType, k.revoke, ReceiverBytes(ctx, k, cltvExpiry)),
                   ReceiverOutput(ctx, k, cltvExpiry)) <==>
            ctx.signed(sign(ctx.tx).value + [hashType], k.revoke)
  {
    SenderScriptFits(ctx, k);
    ReceiverScriptFits(ctx, k, cltvExpiry);
    var s, r := SenderBytes(ctx, k), ReceiverBytes(ctx, k, cltvExpiry);
    RevokeAccepted(ctx, k, cltvExpiry, sign, hashType, s);
    RevokeAccepted(ctx, k, cltvExpiry, sign, hashType, r);
    WitnessSpends(ctx, SenderScript(ctx, k), SpendWith(sign, ctx.tx, hashType, k.revoke, s).value);
    WitnessSpends(ctx, ReceiverScript(ctx, k, cltvExpiry), SpendWith(sign, ctx.tx, hashType, k.revoke, r).value);
  }

  /** The receiver's claim on an offered HTLC. */
  lemma SenderRedeemSpends(ctx: Ctx, k: HtlcKeys, sign: Signer, hashType: byte, preimage: Bytes)
    requires KeySizes(ctx, k) && sign(ctx.tx).Some? && Sized(sign(ctx.tx).value)
    requires |preimage| == 32 && !Collide160(ctx, preimage, k.revoke)
    ensures Spends(ctx, SpendWith(sign, ctx.tx, hashType, preimage, SenderBytes(ctx, k)), SenderOutput(ctx, k)) <==>
            && Preimage(ctx, k.paymentHash, preimage)
            && ctx.signed(sign(ctx.tx).value + [hashType], k.receiver)
            && OneConfirmation(ctx, k.confirmedSpend)
  {
    SenderScriptFits(ctx, k);
    OtherSizesAreNotKeys(ctx, k, preimage);
    var s := SenderBytes(ctx, k);
    SenderRedeemAccepted(ctx, k, sign, hashType, preimage, s);
    WitnessSpends(ctx, SenderScript(ctx, k), SpendWith(sign, ctx.tx, hashType, preimage, s).value);
  }

  /** The sender's timeout of an offered HTLC. */
  lemma SenderTimeoutSpends(ctx: Ctx, k: HtlcKeys, receiverSig: Bytes, receiverHashType: byte, sign: Signer, hashType: byte)
    requires KeySizes(ctx, k) && sign(ctx.tx).Some? && Sized(sign(ctx.tx).value) && Sized(receiverSig)
    requires !Collide160(ctx, [], k.revoke)
    ensures Spends(ctx, CovenantSpend(receiverSig, receiverHashType, sign, ctx.tx, hashType, [], SenderBytes(ctx, k)),
                   SenderOutput(ctx, k)) <==>
            && ctx.signed(receiverSig + [receiverHashType], k.receiver)
            && ctx.signed(sign(ctx.tx).value + [hashType], k.sender)
            && OneConfirmation(ctx, k.confirmedSpend)
  {
    SenderScriptFits(ctx, k);
    OtherSizesAreNotKeys(ctx, k, []);
    var s := SenderBytes(ctx, k);
    SenderTimeoutAccepted(ctx, k, receiverSig, receiverHashType, sign, hashType, s);
    WitnessSpends(ctx, SenderScript(ctx, k), CovenantSpend(receiverSig, receiverHashType, sign, ctx.tx, hashType, [], s).value);
  }

  /** The receiver's claim on a received HTLC. */
  lemma ReceiverRedeemSpends(ctx: Ctx, k: HtlcKeys, cltvExpiry: uint32, senderSig: Bytes, senderHashType: byte, sign: Signer,
                             hashType: byte, preimage: Bytes)
    requires KeySizes(ctx, k) && sign(ctx.tx).Some? && Sized(sign(ctx.tx).value) && Sized(senderSig)
    requires |preimage| == 32 && !Collide160(ctx, preimage, k.revoke)
    ensures Spends(ctx, CovenantSpend(senderSig, senderHashType, sign, ctx.tx, hashType, preimage,
                                      ReceiverBytes(ctx, k, cltvExpiry)),
                   ReceiverOutput(ctx, k, cltvExpiry)) <==>
            && Preimage(ctx, k.paymentHash, preimage)
            && ctx.signed(senderSig + [senderHashType], k.sender)
            && ctx.signed(sign(ctx.tx).value + [hashType], k.receiver)
            && OneConfirmation(ctx, k.confirmedSpend)
  {
    ReceiverScriptFits(ctx, k, cltvExpiry);
    OtherSizesAreNotKeys(ctx, k, preimage);
    var s := ReceiverBytes(ctx, k, cltvExpiry);
    ReceiverRedeemAccepted(ctx, k, cltvExpiry, senderSig, senderHashType, sign, hashType, preimage, s);
    WitnessSpends(ctx, ReceiverScript(ctx, k, cltvExpiry),
                  CovenantSpend(senderSig, senderHashType, sign, ctx.tx, hashType, preimage, s).value);
  }

  /** The sender's timeout of a received HTLC. */
  lemma ReceiverTimeoutSpends(ctx: Ctx, k: HtlcKeys, cltvExpiry: uint32, sign: Signer, hashType: byte)
    requires KeySizes(ctx, k) && sign(ctx.tx).Some? && Sized(sign(ctx.tx).value)
    requires !Collide160(ctx, [], k.revoke)
    ensures Spends(ctx, SpendWith(sign, ctx.tx, hashType, [], ReceiverBytes(ctx, k, cltvExpiry)),
                   ReceiverOutput(ctx, k, cltvExpiry)) <==>
            && NotBefore(ctx.tx, cltvExpiry)
            && ctx.signed(sign(ctx.tx).value + [hashType], k.sender)
            && OneConfirmation(ctx, k.confirmedSpend)
  {
    ReceiverScriptFits(ctx, k, cltvExpiry);
    OtherSizesAreNotKeys(ctx, k, []);
    var s := ReceiverBytes(ctx, k, cltvExpiry);
    ReceiverTimeoutAccepted(ctx, k, cltvExpiry, sign, hashType, s);
    WitnessSpends(ctx, ReceiverScript(ctx, k, cltvExpiry), SpendWith(sign, ctx.tx, hashType, [], s).value);
  }

  /* ---------- delayed, to-remote, anchor and funding outputs ---------- */

  lemma DelayedAccepted(ctx: Ctx, revokeKey: Bytes, delayKey: Bytes, csvDelay: uint32, lease: Option<uint32>, sign: Signer,
                        hashType: byte, script: Bytes)
    requires sign(ctx.tx).Some?
    ensures var ops := DelayedScript(revokeKey, delayKey, csvDelay, lease);
            && SpendWith(sign, ctx.tx, hashType, [1], script).Some? && SpendWith(sign, ctx.tx, hashType, [], script).Some?
            && (Satisfies(ctx, ops, SpendWith(sign, ctx.tx, hashType, [1], script).value) <==>
                ctx.signed(sign(ctx.tx).value + [hashType], revokeKey))
            && (Satisfies(ctx, ops, SpendWith(sign, ctx.tx, hashType, [], script).value) <==>
                && LeaseOver(ctx, lease) && Waited(ctx.tx, csvDelay)
                && ctx.signed(sign(ctx.tx).value + [hashType], delayKey))
  {
    var sig := sign(ctx.tx).value + [hashType];
    assert Pop([sig, [1], script], 1) == [sig, [1]] && Pop([sig, [], script], 1) == [sig, []];
    assert AsBool([1]) by {
      assert [1][0] != 0;
    }
    DelayedSpenders(ctx, revokeKey, delayKey, csvDelay, lease, [sig, [1]]);
    DelayedSpenders(ctx, revokeKey, delayKey, csvDelay, lease, [sig, []]);
  }

  ghost function DelayedBytes(revokeKey: Bytes, delayKey: Bytes, csvDelay: uint32, lease: Option<uint32>): (script: Bytes)
    requires |revokeKey| == |delayKey| == 33
  {
    DelayedFits(revokeKey, delayKey, csvDelay, lease);
    Serialize(DelayedScript(revokeKey, delayKey, csvDelay, lease))
  }

  /** Both clauses of a delayed output, from the signer to the spent output. */
  lemma DelayedSpends(ctx: Ctx, revokeKey: Bytes, delayKey: Bytes, csvDelay: uint32, lease: Option<uint32>, sign: Signer, hashType: byte)
    requires HashSize(ctx) && |revokeKey| == |delayKey| == 33 && sign(ctx.tx).Some? && Sized(sign(ctx.tx).value)
    ensures var s := DelayedBytes(revokeKey, delayKey, csvDelay, lease);
            && (Spends(ctx, SpendWith(sign, ctx.tx, hashType, [1], s), GenerateP2SH(ctx, s)) <==>
                ctx.signed(sign(ctx.tx).value + [hashType], revokeKey))
            && (Spends(ctx, SpendWith(sign, ctx.tx, hashType, [], s), GenerateP2SH(ctx, s)) <==>
                && LeaseOver(ctx, lease) && Waited(ctx.tx, csvDelay)
                && ctx.signed(sign(ctx.tx).value + [hashType], delayKey))
  {
    DelayedFits(revokeKey, delayKey, csvDelay, lease);
    var ops, s := DelayedScript(revokeKey, delayKey, csvDelay, lease), DelayedBytes(revokeKey, delayKey, csvDelay, lease);
    DelayedAccepted(ctx, revokeKey, delayKey, csvDelay, lease, sign, hashType, s);
    var revoke, sweep := SpendWith(sign, ctx.tx, hashType, [1], s), SpendWith(sign, ctx.tx, hashType, [], s);
    assert Spends(ctx, revoke, GenerateP2SH(ctx, s)) <==> Satisfies(ctx, ops, revoke.value) by {
      WitnessSpends(ctx, ops, revoke.value);
    }
    assert Spends(ctx, sweep, GenerateP2SH(ctx, s)) <==> Satisfies(ctx, ops, sweep.value) by {
      WitnessSpends(ctx, ops, sweep.value);
    }
  }

  /** The check on the version refuses only what an enabled relative lock would refuse. */
  lemma CommitTimeoutAccepted(ctx: Ctx, revokeKey: Bytes, selfKey: Bytes, csvDelay: uint32, lease: Option<uint32>, sign: Signer,
                              hashType: byte, script: Bytes)
    requires sign(ctx.tx).Some?
    ensures var r := CommitSpendTimeout(sign, ctx.tx, hashType, script);
            && (r.Some? <==> ctx.tx.version >= 2)
            && (r.None? ==> !Waited(ctx.tx, csvDelay) || Bit(csvDelay, SEQUENCE_DISABLED))
            && (r.Some? ==>
                  (Satisfies(ctx, DelayedScript(revokeKey, selfKey, csvDelay, lease), r.value) <==>
                   && LeaseOver(ctx, lease) && Waited(ctx.tx, csvDelay)
                   && ctx.signed(sign(ctx.tx).value + [hashType], selfKey)))
  {
    DelayedAccepted(ctx, revokeKey, selfKey, csvDelay, lease, sign, hashType, script);
  }

  lemma ToRemoteAccepted(ctx: Ctx, key: Bytes, lease: Option<uint32>, pubKey: Option<Bytes>, sign: Signer, hashType: byte,
                         script: Bytes)
    requires sign(ctx.tx).Some?
    ensures var r := SpendWithKey(pubKey, sign, ctx.tx, hashType, script);
            && (r.Some? <==> pubKey.Some?)
            && (r.Some? ==>
                  (Satisfies(ctx, ToRemoteScript(key, lease), r.value) <==>
                   && ctx.signed(sign(ctx.tx).value + [hashType], key)
                   && LeaseOver(ctx, lease) && Waited(ctx.tx, 1)))
  {
    var w := [sign(ctx.tx).value + [hashType]];
    assert Pop([w[0], script], 1) == w;
    ToRemoteSpenders(ctx, key, lease, w);
  }

  lemma AnchorAccepted(ctx: Ctx, key: Bytes, pubKey: Option<Bytes>, sign: Signer, hashType: byte, script: Bytes)
    requires sign(ctx.tx).Some?
    ensures var r := SpendWithKey(pubKey, sign, ctx.tx, hashType, script);
            && (r.Some? <==> pubKey.Some?)
            && (r.Some? ==>
                  (Satisfies(ctx, AnchorScript(key), r.value) <==>
                   ctx.signed(sign(ctx.tx).value + [hashType], key) || Waited(ctx.tx, 16)))
    ensures Satisfies(ctx, AnchorScript(key), CommitSpendAnchorAnyone(script)) <==> Waited(ctx.tx, 16)
  {
    var w := [sign(ctx.tx).value + [hashType]];
    assert Pop([w[0], script], 1) == w && Pop([[], script], 1) == [[]];
    AnchorSpenders(ctx, key, w);
    AnchorSpenders(ctx, key, [[]]);
  }

  /** Both signatures end up beside their keys, in whichever order the two sides are named. */
  lemma MultiSigAccepted(ctx: Ctx, script: Bytes, a: Bytes, sigA: Bytes, b: Bytes, sigB: Bytes)
    requires |a| == 33 && |b| == 33
    ensures Satisfies(ctx, GenMultiSigScript(a, b).value, SpendMultiSig(script, a, sigA, b, sigB)) <==>
            ctx.signed(sigA + [1], a) && ctx.signed(sigB + [1], b)
    ensures a != b ==> SpendMultiSig(script, a, sigA, b, sigB) == SpendMultiSig(script, b, sigB, a, sigA)
  {
    GreaterOrder(a, b);
    var w := SpendMultiSig(script, a, sigA, b, sigB);
    FundingSpenders(ctx, a, b, Pop(w, 1));
  }

  ghost function ToRemoteBytes(key: Bytes, lease: Option<uint32>): (script: Bytes)
    requires |key| == 33
  {
    ToRemoteFits(key, lease);
    Serialize(ToRemoteScript(key, lease))
  }

  ghost function AnchorBytes(key: Bytes): (script: Bytes)
    requires |key| == 33
  {
    AnchorFits(key);
    Serialize(AnchorScript(key))
  }

  ghost function FundingBytes(a: Bytes, b: Bytes): (script: Bytes)
    requires |a| == |b| == 33
  {
    FundingFits(a, b);
    Serialize(GenMultiSigScript(a, b).value)
  }

  /** The output paying the other side, from the signer to the spent output. */
  lemma ToRemoteSpends(ctx: Ctx, key: Bytes, lease: Option<uint32>, pubKey: Option<Bytes>, sign: Signer, hashType: byte)
    requires HashSize(ctx) && |key| == 33 && sign(ctx.tx).Some? && Sized(sign(ctx.tx).value)
    ensures var s := ToRemoteBytes(key, lease);
            Spends(ctx, SpendWithKey(pubKey, sign, ctx.tx, hashType, s), GenerateP2SH(ctx, s)) <==>
            && pubKey.Some? && ctx.signed(sign(ctx.tx).value + [hashType], key)
            && LeaseOver(ctx, lease) && Waited(ctx.tx, 1)
  {
    ToRemoteFits(key, lease);
    var s := ToRemoteBytes(key, lease);
    ToRemoteAccepted(ctx, key, lease, pubKey, sign, hashType, s);
    if pubKey.Some? {
      WitnessSpends(ctx, ToRemoteScript(key, lease), SpendWithKey(pubKey, sign, ctx.tx, hashType, s).value);
    }
  }

  /** An anchor, by its owner and by anyone. */
  lemma AnchorSpends(ctx: Ctx, key: Bytes, pubKey: Option<Bytes>, sign: Signer, hashType: byte)
    requires HashSize(ctx) && |key| == 33 && sign(ctx.tx).Some? && Sized(sign(ctx.tx).value)
    ensures var s := AnchorBytes(key);
            && (Spends(ctx, SpendWithKey(pubKey, sign, ctx.tx, hashType, s), GenerateP2SH(ctx, s)) <==>
                pubKey.Some? && (ctx.signed(sign(ctx.tx).value + [hashType], key) || Waited(ctx.tx, 16)))
            && (Spends(ctx, Some(CommitSpendAnchorAnyone(s)), GenerateP2SH(ctx, s)) <==> Waited(ctx.tx, 16))
  {
    AnchorFits(key);
    var s := AnchorBytes(key);
    AnchorAccepted(ctx, key, pubKey, sign, hashType, s);
    WitnessSpends(ctx, AnchorScript(key), CommitSpendAnchorAnyone(s));
    if pubKey.Some? {
      WitnessSpends(ctx, AnchorScript(key), SpendWithKey(pubKey, sign, ctx.tx, hashType, s).value);
    }
  }

  /** The funding output, by both sides. */
  lemma FundingSpends(ctx: Ctx, a: Bytes, sigA: Bytes, b: Bytes, sigB: Bytes)
    requires HashSize(ctx) && |a| == |b| == 33 && Sized(sigA) && Sized(sigB)
    ensures var s := FundingBytes(a, b);
            Spends(ctx, Some(SpendMultiSig(s, a, sigA, b, sigB)), GenerateP2SH(ctx, s)) <==>
            ctx.signed(sigA + [1], a) && ctx.signed(sigB + [1], b)
  {
    FundingFits(a, b);
    var s := FundingBytes(a, b);
    MultiSigAccepted(ctx, s, a, sigA, b, sigB);
    WitnessSpends(ctx, GenMultiSigScript(a, b).value, SpendMultiSig(s, a, sigA, b, sigB));
  }

  /* ---------- builders that change the transaction ---------- */

  /** The transaction being signed: version, lock time and the sequence of each input. */
  class SweepTx {
    var version: nat
    var lockTime: uint32
    var sequences: seq<uint32>

    constructor (version: nat, lockTime: uint32, sequences: seq<uint32>)
      ensures this.version == version && this.lockTime == lockTime && this.sequences == sequences
    {
      this.version, this.lockTime, this.sequences := version, lockTime, sequences;
    }

    /** What the lock opcodes see when they run for an input. */
    function Fields(input: nat): (tx: TxFields)
      requires input < |sequences|
      reads this
    {
      TxFields(version, lockTime, sequences[input])
    }

    /**
      Sets the lock time to the expiry, unless it is -1, and signs after that. Against the received
      HTLC of that expiry the witness then only needs a valid signature, a sequence that is not
      final and any confirmation asked for.
     */
    method ReceiverHtlcSpendTimeout(sign: Signer, input: nat, hashType: byte, script: Bytes, cltvExpiry: int) returns (r: Option<Stack>)
      requires -0x8000_0000 <= cltvExpiry < 0x8000_0000 && input < |sequences|
      modifies this
      ensures version == old(version) && sequences == old(sequences)
      ensures lockTime == if cltvExpiry == -1 then old(lockTime) else Unsigned(cltvExpiry)
      ensures r.Some? <==> sign(Fields(input)).Some?
      ensures forall ctx: Ctx, k: HtlcKeys | ctx.tx == Fields(input) && NotKey(ctx, k, []) && cltvExpiry != -1 && r.Some? ::
                Satisfies(ctx, ReceiverScript(ctx, k, Unsigned(cltvExpiry)), r.value) <==>
                && sequences[input] != SEQUENCE_FINAL
                && ctx.signed(sign(Fields(input)).value + [hashType], k.sender)
                && OneConfirmation(ctx, k.confirmedSpend)
    {
      if cltvExpiry != -1 {
        lockTime := Unsigned(cltvExpiry);
      }
      r := SpendWith(sign, Fields(input), hashType, [], script);
      forall ctx: Ctx, k: HtlcKeys | ctx.tx == Fields(input) && NotKey(ctx, k, []) && cltvExpiry != -1 && r.Some?
        ensures Satisfies(ctx, ReceiverScript(ctx, k, Unsigned(cltvExpiry)), r.value) <==>
                && sequences[input] != SEQUENCE_FINAL
                && ctx.signed(sign(Fields(input)).value + [hashType], k.sender)
                && OneConfirmation(ctx, k.confirmedSpend)
      {
        ReceiverTimeoutAccepted(ctx, k, Unsigned(cltvExpiry), sign, hashType, script);
      }
    }

    /**
      Sets the sequence of the first input to the delay and the version to 2, and signs after that,
      for whatever input. For the first input the relative lock of the second-level script then always
      holds, for every 32-bit delay; for another it holds if that input's sequence reaches it.
     */
    method HtlcSpendSuccess(sign: Signer, input: nat, hashType: byte, script: Bytes, csvDelay: uint32) returns (r: Option<Stack>)
      requires input < |sequences|
      modifies this
      ensures version == 2 && lockTime == old(lockTime) && sequences == old(sequences)[0 := csvDelay]
      ensures r.Some? <==> sign(Fields(input)).Some?
      ensures forall ctx: Ctx, revokeKey: Bytes, delayKey: Bytes, lease: Option<uint32> | ctx.tx == Fields(input) && r.Some? ::
                Satisfies(ctx, DelayedScript(revokeKey, delayKey, csvDelay, lease), r.value) <==>
                && LeaseOver(ctx, lease) && ctx.signed(sign(Fields(input)).value + [hashType], delayKey)
                && (input == 0 || Waited(ctx.tx, csvDelay))
    {
      sequences := sequences[0 := csvDelay];
      version := 2;
      r := SpendWith(sign, Fields(input), hashType, [], script);
      forall ctx: Ctx, revokeKey: Bytes, delayKey: Bytes, lease: Option<uint32> | ctx.tx == Fields(input) && r.Some?
        ensures Satisfies(ctx, DelayedScript(revokeKey, delayKey, csvDelay, lease), r.value) <==>
                && LeaseOver(ctx, lease) && ctx.signed(sign(Fields(input)).value + [hashType], delayKey)
                && (input == 0 || Waited(ctx.tx, csvDelay))
      {
        DelayedAccepted(ctx, revokeKey, delayKey, csvDelay, lease, sign, hashType, script);
      }
    }
  }

  /** uint32(n) of an int32. */
  function Unsigned(n: int): (r: uint32)
    requires -0x8000_0000 <= n < 0x8000_0000
    ensures (r - n) % 0x1_0000_0000 == 0
  {
    if n < 0 then n + 0x1_0000_0000 else n
  }
}
