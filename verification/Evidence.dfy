/**
 What the receipt that `settle` returns says about the money, against the rail's own log:
 mergegate/demo.py, receipt.py, payments/executor.py and fake.py together.

 Main result: ReceiptNamesTheTransfers.
 */
module Evidence {
  import opened Wrappers
  import opened Platform
  import opened Keys
  import opened Mandate
  import opened Settlement
  import opened Rail
  import opened Demo
  import opened EndToEnd
  import opened Receipt
  import C = Contract
  import M = Manifest

  /** The rail logged, under this key, a transfer of `amountUsdc` from `source` to `destination`. */
  predicate Logged(l: Ledger, key: string, source: string, destination: string, amountUsdc: string) {
    && key in l.byKey && l.byKey[key] in l.transfers
    && l.byKey[key].source == source && l.byKey[key].destination == destination && l.byKey[key].amountUsdc == amountUsdc
  }

  /** The transaction the rail has under a key, or none. */
  function TxUnder(l: Ledger, key: string): string { if key in l.byKey then l.byKey[key].txHash else "" }

  lemma TransferIsLogged(pf: Platform, r: Ledger, s: string, d: string, amountUsdc: string, key: string)
    ensures var (n, result) := Transferred(pf, r, s, d, amountUsdc, key);
            && (forall k :: k in r.byKey ==> k in n.byKey && n.byKey[k] == r.byKey[k])
            && r.transfers <= n.transfers
            && (forall k :: k in n.byKey ==> k in r.byKey || (k == key && result.Success?))
            && (result.Success? ==> key in n.byKey && result.value.txHash == n.byKey[key].txHash)
            && (result.Success? && key !in r.byKey ==> Logged(n, key, s, d, amountUsdc))
  {
    hide TxHash, Moved, Balance;
    var n := Transferred(pf, r, s, d, amountUsdc, key).0;
    if n.transfers != r.transfers { assert n.transfers[|r.transfers|] == n.byKey[key]; }
  }

  lemma StaysLogged(r: Ledger, n: Ledger, key: string, s: string, d: string, amountUsdc: string)
    requires Logged(r, key, s, d, amountUsdc)
    requires key in n.byKey && n.byKey[key] == r.byKey[key] && r.transfers <= n.transfers
    ensures Logged(n, key, s, d, amountUsdc)
  {
    var i :| 0 <= i < |r.transfers| && r.transfers[i] == r.byKey[key];
    assert n.transfers[i] == n.byKey[key];
  }

  /** What an execution under a new key leaves in the log: the payment, and the fee if it was charged. */
  lemma ExecutionIsLogged(pf: Platform, r: Ledger, x: Executor, d: SettlementDirective, key: string)
    requires key !in r.byKey && FeeKey(key) !in r.byKey && Executed(pf, r, x, d, key).1.Success?
    ensures var (n, done) := Executed(pf, r, x, d, key);
            && Logged(n, key, x.escrow, d.recipient, d.amountUsdc) && done.value.SettlementTx() == TxUnder(n, key)
            && done.value.VerifierFeeTx() == TxUnder(n, FeeKey(key))
            && (FeeKey(key) in n.byKey ==>
                  ChargesFee(x, d) && Logged(n, FeeKey(key), x.escrow, x.feeAddress, x.feeUsdc))
            && done.value.directive == d
            && (forall k :: k in r.byKey ==> k in n.byKey && n.byKey[k] == r.byKey[k]) && r.transfers <= n.transfers
  {
    assert FeeKey(key) != key by { assert |FeeKey(key)| == |key| + 13; }
    hide Transferred, FeeKey, Logged;
    TransferIsLogged(pf, r, x.escrow, d.recipient, d.amountUsdc, key);
    var r1 := Transferred(pf, r, x.escrow, d.recipient, d.amountUsdc, key).0;
    if ChargesFee(x, d) {
      TransferIsLogged(pf, r1, x.escrow, x.feeAddress, x.feeUsdc, FeeKey(key));
      var r2 := Transferred(pf, r1, x.escrow, x.feeAddress, x.feeUsdc, FeeKey(key)).0;
      StaysLogged(r1, r2, key, x.escrow, d.recipient, d.amountUsdc);
    }
  }

  /** The part of a returned receipt that nothing in its body corroborates. */
  predicate SaysOfTheMoney(b: Fields, d: SettlementDirective, settlementTx: string, feeTx: string, fundingTx: string,
                           executionId: string)
  {
    && Field(b, Key.SettlementTx) == Some(settlementTx) && Field(b, Key.VerifierFeeTx) == Some(feeTx)
    && Field(b, Key.FundingTx) == Some(fundingTx) && Field(b, Key.ExecutionId) == Some(executionId)
    && Field(b, Key.SettlementAsset) == Some(d.asset) && Field(b, Key.SettlementChain) == Some(d.chain)
    && Field(b, Key.Reason) == Some(d.reason)
  }

  lemma IssuedSays(pf: Platform, signing: Signing, f: M.VerificationManifest, mandate: PaymentMandate,
                   d: SettlementDirective, issuedAt: int, tx: Transactions)
    requires Issued(pf, signing, f, mandate, d, issuedAt, tx).Success?
    ensures var e := Issued(pf, signing, f, mandate, d, issuedAt, tx).value;
            && e.body.Some? && e.kid == signing.kid && e.body.value.schemaVersion == "mergegate.receipt/v1"
            && SaysOfTheMoney(e.body.value.binding, d, tx.settlement, tx.verifierFee, tx.funding, tx.execution)
            && e.body.value.issuedAt == pf.zulu(issuedAt) && e.body.value.statement == Statement(pf, mandate)
            && e.body.value.manifest == M.ToCanonical(pf, f).fields && e.body.value.mandate == ToCanonical(pf, mandate)
  {
    hide BindingOf, SettlementKeyOf, ValidWhenSigned, BodyHash, BodyJson, M.ToCanonical, ToCanonical, Statement, Field,
         M.VerificationManifest.Verdict;
    M.CanonicalIdentity(pf, f);
    var key := SettlementKeyOf(pf, f.taskId, f.submissionSha, f.contractHash, f.Verdict().Value());
    BindingTransactions(pf, f, mandate, d, tx, key.value);
    BindingTerms(pf, f, mandate, d, tx, key.value);
  }

  lemma SettlingIsLogged(pf: Platform, cfg: Config, m: Machine, l: Ledger, f: M.VerificationManifest, now: int,
                         prefix: string)
    requires SettleOn(pf, cfg, m, l, f, now, prefix).2.Success?
    ensures var (n, after, done) := SettleOn(pf, cfg, m, l, f, now, prefix);
            && Driven(pf, m, f, now, prefix).1.HasDirective()
            && RailKey(pf, n, f).Some? && n.settlementTx == done.value.SettlementTx()
            && var d, key := Driven(pf, m, f, now, prefix).1.event.directive.value, RailKey(pf, n, f).value;
               Executed(pf, l, Terms(cfg), d, key) == (after, Success(done.value))
  {
    hide Driven, Executed, SettlementKeyOf;
  }

  /**
   A receipt that `settle` returns, for any machine and rail whose key is new: its
   settlement transaction is the rail's transfer of the mandated amount from escrow to the
   directive's recipient, its fee transaction the transfer to the fee wallet, or none.
   */
  lemma ReceiptNamesTheTransfers(pf: Platform, cfg: Config, signing: Signing, m: Machine, l: Ledger,
                                 f: M.VerificationManifest, mandate: PaymentMandate, now: int, issuedAt: int,
                                 prefix: string, fundingTx: string, executionId: string)
    requires SettleOn(pf, cfg, m, l, f, now, prefix).2.Success?
    requires var (n, _, done) := SettleOn(pf, cfg, m, l, f, now, prefix);
             && Issued(pf, signing, f, mandate, done.value.directive, issuedAt,
                       TransactionsOf(done.value, fundingTx, executionId)).Success?
             && RailKey(pf, n, f).Some?
             && RailKey(pf, n, f).value !in l.byKey && FeeKey(RailKey(pf, n, f).value) !in l.byKey
    ensures var (n, after, done) := SettleOn(pf, cfg, m, l, f, now, prefix);
            var d, key := done.value.directive, RailKey(pf, n, f).value;
            var e := Issued(pf, signing, f, mandate, d, issuedAt, TransactionsOf(done.value, fundingTx, executionId)).value;
            && e.body.Some?
            && SaysOfTheMoney(e.body.value.binding, d, TxUnder(after, key), TxUnder(after, FeeKey(key)), fundingTx, executionId)
            && Logged(after, key, cfg.escrow, d.recipient, d.amountUsdc)
            && (FeeKey(key) in after.byKey ==>
                  ChargesFee(Terms(cfg), d) && Logged(after, FeeKey(key), cfg.escrow, cfg.feeWallet, cfg.feeUsdc))
            && n.settlementTx == TxUnder(after, key)
            && Driven(pf, m, f, now, prefix).1.HasDirective() && d == Driven(pf, m, f, now, prefix).1.event.directive.value
  {
    hide SettleOn, Driven, Executed, RailKey, Issued, SaysOfTheMoney, Logged, FeeKey;
    var (n, after, done) := SettleOn(pf, cfg, m, l, f, now, prefix);
    SettlingIsLogged(pf, cfg, m, l, f, now, prefix);
    var d, key := Driven(pf, m, f, now, prefix).1.event.directive.value, RailKey(pf, n, f).value;
    ExecutionIsLogged(pf, l, Terms(cfg), d, key);
    IssuedSays(pf, signing, f, mandate, d, issuedAt, TransactionsOf(done.value, fundingTx, executionId));
  }

  /** The funding transfer is in the log, and the keys of the settlement are still new. */
  lemma FundingIsLogged(pf: Platform, cfg: Config, c: C.TaskContract, r: Ledger, f: M.VerificationManifest,
                        a: SettlementAction)
    requires Ready(pf, cfg, c, r, f) && FundOn(pf, cfg, c, r).1.Success?
    ensures KeyOfDecision(pf, f, a).Some?
    ensures var (l, paid) := FundOn(pf, cfg, c, r);
            var hash, key := Mandate.MandateHash(pf, MandateFor(pf, cfg, c)), KeyOfDecision(pf, f, a).value;
            && Logged(l, hash, cfg.buyer, cfg.escrow, AddUsdc(pf, cfg.rewardUsdc, cfg.feeUsdc))
            && paid.value.txHash == TxUnder(l, hash) && key !in l.byKey && FeeKey(key) !in l.byKey
  {
    hide Mandate.MandateHash, MandateFor, KeyOfDecision, AddUsdc, Transferred, FeeKey, Balance, Logged, KeysFit;
    ReadyKeys(pf, cfg, c, r, f);
    assert a == Release || a == Refund;
    TransferIsLogged(pf, r, cfg.buyer, cfg.escrow, AddUsdc(pf, cfg.rewardUsdc, cfg.feeUsdc),
                     Mandate.MandateHash(pf, MandateFor(pf, cfg, c)));
  }

  /** The rail key of a funded task's settlement is the key of the decision. */
  lemma SettledKey(pf: Platform, cfg: Config, m: Machine, l: Ledger, f: M.VerificationManifest, now: int, prefix: string)
    requires m == Fresh(f.taskId, f.contractHash, m.mandate) && f.submissionSha != ""
    requires Applies(m.mandate, f) && KeysFit(pf, f)
    ensures ExecuteMandate(pf, m.mandate, f, now).Success?
    ensures RailKey(pf, SettleOn(pf, cfg, m, l, f, now, prefix).0, f) ==
            KeyOfDecision(pf, f, ExecuteMandate(pf, m.mandate, f, now).value.action)
  {
    hide SettleOn, ExecuteMandate, SettlementKeyOf, Executed, M.VerificationManifest.Verdict, RailKey;
    SettlingExecutes(pf, cfg, m, l, f, now, prefix);
    RailKeyAtTheEnd(pf, SettleOn(pf, cfg, m, l, f, now, prefix).0, f);
  }

  lemma FundingStaysLogged(pf: Platform, l: Ledger, x: Executor, d: SettlementDirective, key: string, hash: string,
                           s: string, t: string, amountUsdc: string)
    requires Logged(l, hash, s, t, amountUsdc) && Executed(pf, l, x, d, key).1.Success?
    requires key !in l.byKey && FeeKey(key) !in l.byKey
    ensures var n := Executed(pf, l, x, d, key).0; Logged(n, hash, s, t, amountUsdc) && TxUnder(n, hash) == TxUnder(l, hash)
  {
    ExecutionIsLogged(pf, l, x, d, key);
    hide Executed;
    StaysLogged(l, Executed(pf, l, x, d, key).0, hash, s, t, amountUsdc);
  }

  /**
   And of a task funded on the same rail: the funding transaction is the transfer of reward
   plus fee from the buyer to escrow under the mandate hash; the fee transaction is there
   exactly when a fee applies; asset and chain are the configured ones.
   */
  lemma FundedReceipt(pf: Platform, cfg: Config, signing: Signing, c: C.TaskContract, r: Ledger,
                      f: M.VerificationManifest, now: int, issuedAt: int, prefix: string, executionId: string)
    requires pf.SignaturesVerify() && pf.AmountsRoundTrip() && Ready(pf, cfg, c, r, f)
    requires Applies(MandateFor(pf, cfg, c), f) && f.submissionSha != ""
    ensures var mandate := MandateFor(pf, cfg, c);
            var (l, paid) := FundOn(pf, cfg, c, r);
            var d := ExecuteMandate(pf, mandate, f, now);
            var (n, after, done) := SettleOn(pf, cfg, FundedMachine(pf, cfg, c), l, f, now, prefix);
            && paid.Success? && done.Success? && d.Success? && done.value.directive == d.value
            && KeyOfDecision(pf, f, d.value.action).Some?
            && var key, hash := KeyOfDecision(pf, f, d.value.action).value, Mandate.MandateHash(pf, mandate);
               var e := Issued(pf, signing, f, mandate, d.value, issuedAt,
                               TransactionsOf(done.value, paid.value.txHash, executionId));
               && e.Success? && e.value.body.Some?
               && SaysOfTheMoney(e.value.body.value.binding, d.value, TxUnder(after, key), TxUnder(after, FeeKey(key)),
                                 TxUnder(after, hash), executionId)
               && Logged(after, hash, cfg.buyer, cfg.escrow, AddUsdc(pf, cfg.rewardUsdc, cfg.feeUsdc))
               && Logged(after, key, cfg.escrow, d.value.recipient, cfg.rewardUsdc)
               && (FeeKey(key) in after.byKey <==> ChargesFee(Terms(cfg), d.value))
               && (ChargesFee(Terms(cfg), d.value) ==>
                     Logged(after, FeeKey(key), cfg.escrow, cfg.feeWallet, cfg.feeUsdc))
               && d.value.asset == "USDC" && d.value.chain == cfg.chain
  {
    hide ExecuteMandate, SettlementKeyOf, Mandate.MandateHash, Executed, FundOn, C.ContractHash, SettleOn, Issued, RailKey,
         M.VerificationManifest.Verdict, Balance, ChargesFee, FeeKey, FeeAmount, FeeCharged, Flow, KeyOfDecision,
         SaysOfTheMoney, Logged, UnusedKeys, AddUsdc, Driven;
    var mandate, m := MandateFor(pf, cfg, c), FundedMachine(pf, cfg, c);
    var (l, paid) := FundOn(pf, cfg, c, r);
    ReadyKeys(pf, cfg, c, r, f);
    FundThenSettle(pf, cfg, c, r, f, now, prefix, cfg.escrow);
    PaidAsDecided(pf, cfg, c, r, f, now, cfg.escrow);
    SettlingExecutes(pf, cfg, m, l, f, now, prefix);
    ExecutionTerms(pf, mandate, f, now);
    SettledKey(pf, cfg, m, l, f, now, prefix);
    var d := ExecuteMandate(pf, mandate, f, now).value;
    FundingIsLogged(pf, cfg, c, r, f, d.action);
    var tx := TransactionsOf(SettleOn(pf, cfg, m, l, f, now, prefix).2.value, paid.value.txHash, executionId);
    SettleIssuesAReceiptIff(pf, cfg, signing, m, l, f, mandate, now, issuedAt, prefix, tx);
    ReceiptNamesTheTransfers(pf, cfg, signing, m, l, f, mandate, now, issuedAt, prefix, paid.value.txHash, executionId);
    FundingStaysLogged(pf, l, Terms(cfg), d, KeyOfDecision(pf, f, d.action).value, Mandate.MandateHash(pf, mandate),
                       cfg.buyer, cfg.escrow, AddUsdc(pf, cfg.rewardUsdc, cfg.feeUsdc));
  }
}
