/**
 Money: the ledger explains every balance, and a batch is paid for exactly or not made at all.
 */
module Ledger {
  import opened Wrappers
  import opened Decimal
  import opened Licensing
  import opened Consumption

  /** The sum of agent a's amounts among the rows. */
  function Total(rows: seq<Transaction>, a: Id): int {
    if rows == [] then 0
    else Total(rows[..|rows| - 1], a) + if rows[|rows| - 1].agent == a then rows[|rows| - 1].amount else 0
  }

  /** balance_after is the prefix sum of the agent's amounts and not negative. */
  predicate RowOk(rows: seq<Transaction>, i: nat)
    requires i < |rows|
  {
    rows[i].balanceAfter == Total(rows[..i + 1], rows[i].agent) && 0 <= rows[i].balanceAfter <= INT64_MAX
  }

  ghost predicate LedgerOk(s: State) {
    && (forall i :: 0 <= i < |s.ledger| ==> RowOk(s.ledger, i) && s.ledger[i].agent in s.balances)
    && (forall a :: a in s.balances ==> s.balances[a] == Total(s.ledger, a) && 0 <= s.balances[a] <= INT64_MAX)
  }

  /** The accounts before and after: untouched, or one booked transaction. */
  ghost predicate Books(s: State, t: State) {
    || (t.ledger == s.ledger && t.balances == s.balances)
    || (|t.ledger| > 0 && Booked(s, t, t.ledger[|t.ledger| - 1]))
  }

  predicate Booked(s: State, t: State, row: Transaction) {
    && t.ledger == s.ledger + [row] && row.agent in s.balances
    && t.balances == s.balances[row.agent := row.balanceAfter]
    && row.balanceAfter == s.balances[row.agent] + row.amount && 0 <= row.balanceAfter <= INT64_MAX
  }

  lemma TotalBooked(rows: seq<Transaction>, row: Transaction, a: Id)
    ensures Total(rows + [row], a) == Total(rows, a) + if row.agent == a then row.amount else 0
  {
    assert (rows + [row])[..|rows|] == rows;
  }

  lemma BooksKeepLedger(s: State, t: State)
    requires LedgerOk(s) && Books(s, t)
    ensures LedgerOk(t)
  {
    if t.ledger != s.ledger {
      var row := t.ledger[|t.ledger| - 1];
      forall i | 0 <= i < |t.ledger| ensures RowOk(t.ledger, i) && t.ledger[i].agent in t.balances {
        if i < |s.ledger| {
          assert RowOk(s.ledger, i);
          assert t.ledger[..i + 1] == s.ledger[..i + 1];
        } else {
          TotalBooked(s.ledger, row, row.agent);
          assert t.ledger[..i + 1] == t.ledger;
        }
      }
      forall a | a in t.balances ensures t.balances[a] == Total(t.ledger, a) && 0 <= t.balances[a] <= INT64_MAX {
        TotalBooked(s.ledger, row, a);
      }
    }
  }

  // ----- batches -----

  function Cost(s: State, r: BatchRequest): int
    requires r.plan in s.plans
  {
    r.quantity * s.plans[r.plan].priceCents
  }

  function Purchase(s: State, r: BatchRequest): Transaction
    requires r.plan in s.plans && r.agent.Some? && r.agent.value in s.balances
  {
    Transaction(r.agent.value, -Cost(s, r), s.balances[r.agent.value] - Cost(s, r), BatchPurchase, Some(r.newBatch))
  }

  predicate Charged(s: State, r: BatchRequest)
    requires r.plan in s.plans
  {
    r.agent.Some? && s.plans[r.plan].priceCents > 0
  }

  /** What a charged or free batch leaves behind. */
  ghost predicate BatchMade(s: State, t: State, r: BatchRequest) {
    && r.plan in s.plans && r.newBatch in t.batches && t.batches[r.newBatch].quantity == r.quantity
    && s.cards.Keys <= t.cards.Keys && |t.cards.Keys - s.cards.Keys| == r.quantity
    && (forall c :: c in s.cards ==> t.cards[c] == s.cards[c])
    && (forall c :: c in t.cards && c !in s.cards ==> t.cards[c].status == Unused && t.cards[c].plan == r.plan)
    && if Charged(s, r) then r.agent.value in s.balances && Booked(s, t, Purchase(s, r))
       else t.ledger == s.ledger && t.balances == s.balances
  }

  lemma {:induction false} DistinctSize(ids: seq<Id>)
    requires Distinct(ids)
    ensures |set c | c in ids| == |ids|
  {
    if ids != [] {
      var rest := ids[..|ids| - 1];
      DistinctSize(rest);
      assert (set c | c in ids) == (set c | c in rest) + {ids[|ids| - 1]};
    }
  }

  lemma BatchCards(s: State, r: BatchRequest)
    requires CardKindOf(r.kind).Some? && Distinct(r.generated) && forall c :: c in r.generated ==> c !in s.cards
    ensures |(s.cards + Made(s, r)).Keys - s.cards.Keys| == |r.generated|
  {
    assert (s.cards + Made(s, r)).Keys - s.cards.Keys == set c | c in r.generated;
    DistinctSize(r.generated);
  }

  ghost predicate BatchStored(s: State, t: State, r: BatchRequest) {
    && BatchError(s, r).None? && Distinct(r.generated) && (forall c :: c in r.generated ==> c !in s.cards)
    && t.cards == s.cards + Made(s, r) && t.batches == s.batches[r.newBatch := Batch(r.agent, r.plan, r.quantity)]
  }

  lemma BatchRowsStored(s: State, r: BatchRequest)
    requires CreateCardBatchStep(s, r).1.Done?
    ensures BatchStored(s, CreateCardBatchStep(s, r).0, r)
  {
  }

  lemma BatchBooks(s: State, r: BatchRequest)
    requires LedgerOk(s) && CreateCardBatchStep(s, r).1.Done?
    ensures var t := CreateCardBatchStep(s, r).0;
      && r.plan in s.plans
      && if Charged(s, r) then r.agent.value in s.balances && Booked(s, t, Purchase(s, r))
         else t.ledger == s.ledger && t.balances == s.balances
  {
    if BatchError(s, r).None? && Charged(s, r) {
      CostPositive(r.quantity, s.plans[r.plan].priceCents);
    }
  }

  lemma CostPositive(quantity: int, price: int)
    requires quantity >= 1 && price > 0
    ensures quantity * price > 0
  {
  }

  lemma StoredCards(s: State, t: State, r: BatchRequest)
    requires BatchStored(s, t, r)
    ensures r.newBatch in t.batches && t.batches[r.newBatch].quantity == r.quantity
    ensures s.cards.Keys <= t.cards.Keys && |t.cards.Keys - s.cards.Keys| == r.quantity
    ensures forall c :: c in s.cards ==> t.cards[c] == s.cards[c]
    ensures forall c :: c in t.cards && c !in s.cards ==> t.cards[c].status == Unused && t.cards[c].plan == r.plan
  {
    BatchCards(s, r);
  }

  lemma BatchRefused(s: State, r: BatchRequest)
    ensures CreateCardBatchStep(s, r).1.Refused? ==> CreateCardBatchStep(s, r).0 == s
  {
  }

  /** A batch is made in full and charged exactly, without leaving the 64-bit range, or nothing changes. */
  lemma BatchAllOrNothing(s: State, r: BatchRequest)
    requires LedgerOk(s)
    ensures var (t, reply) := CreateCardBatchStep(s, r); if reply.Done? then BatchMade(s, t, r) else t == s
  {
    BatchRefused(s, r);
    if CreateCardBatchStep(s, r).1.Done? {
      BatchRowsStored(s, r);
      StoredCards(s, CreateCardBatchStep(s, r).0, r);
      BatchBooks(s, r);
    }
  }

  // ----- every request -----

  lemma BatchKeepsBooks(s: State, r: BatchRequest)
    requires LedgerOk(s)
    ensures Books(s, CreateCardBatchStep(s, r).0)
  {
    BatchAllOrNothing(s, r);
  }

  lemma AdjustDone(s: State, a: Id, amount: int)
    requires AdjustBalanceStep(s, a, amount).1.Done?
    ensures var t := AdjustBalanceStep(s, a, amount).0;
      && a in s.balances
      && Booked(s, t, Transaction(a, amount, s.balances[a] + amount, if amount < 0 then Adjust else TopUp, None))
  {
  }

  lemma AdjustRefused(s: State, a: Id, amount: int)
    ensures AdjustBalanceStep(s, a, amount).1.Refused? ==> AdjustBalanceStep(s, a, amount).0 == s
  {
  }

  lemma AdjustBooks(s: State, a: Id, amount: int)
    ensures var t := AdjustBalanceStep(s, a, amount).0; Books(s, t)
    ensures var t := AdjustBalanceStep(s, a, amount).0;
            t.ledger != s.ledger ==> |t.ledger| > 0 && t.ledger[|t.ledger| - 1].kind != BatchPurchase
  {
    AdjustRefused(s, a, amount);
    if AdjustBalanceStep(s, a, amount).1.Done? {
      AdjustDone(s, a, amount);
    }
  }

  lemma HeartbeatBooks(s: State, pub: string, claimed: DeviceKey, rejected: Option<Error>, banned: bool,
                       version: string, versionBanned: bool, seat: Seat)
    ensures var t := HeartbeatStep(s, pub, claimed, rejected, banned, version, versionBanned, seat).0;
            t.ledger == s.ledger && t.balances == s.balances
  {
    HeartbeatOnlyMints(s, pub, claimed, rejected, banned, version, versionBanned, seat);
  }

  predicate MovesMoney(e: Event) {
    e.CreateCardBatch? || e.AgentAdjustBalance?
  }

  lemma ActivateMovesNoMoney(s: State, r: Activation, rejected: Option<Error>, seat: Seat)
    ensures var t := ActivateStep(s, r, rejected, seat).0; t.ledger == s.ledger && t.balances == s.balances
  {
  }

  lemma RedeemMovesNoMoney(s: State, pub: string, c: Id, unreadable: Option<Error>, rejected: Option<Error>)
    ensures var t := RedeemStep(s, pub, c, unreadable, rejected).0; t.ledger == s.ledger && t.balances == s.balances
  {
  }

  lemma ClientsMoveNoMoney(s: State, e: Event)
    requires e.Tick? || e.Activate? || e.Redeem? || e.Deactivate? || e.UserBindCard?
    ensures Next(s, e).ledger == s.ledger && Next(s, e).balances == s.balances
  {
    match e
    case Activate(r, rejected, seat) =>
      assert Next(s, e) == ActivateStep(s, r, rejected, seat).0;
      ActivateMovesNoMoney(s, r, rejected, seat);
    case Redeem(pub, c, unreadable, rejected) =>
      assert Next(s, e) == RedeemStep(s, pub, c, unreadable, rejected).0;
      RedeemMovesNoMoney(s, pub, c, unreadable, rejected);
    case _ =>
  }

  lemma ActionsMoveNoMoney(s: State, e: Event)
    requires e.CardAction? || e.LicenseAction? || e.UnbindDevice? || e.AdminExtendLicense?
    ensures Next(s, e).ledger == s.ledger && Next(s, e).balances == s.balances
  {
  }

  lemma PlansMoveNoMoney(s: State, e: Event)
    requires e.UpdatePlan? || e.PlanStatus? || e.DeletePlan?
    ensures Next(s, e).ledger == s.ledger && Next(s, e).balances == s.balances
  {
  }

  lemma OthersMoveNoMoney(s: State, e: Event)
    requires !MovesMoney(e) && !e.Heartbeat?
    ensures Next(s, e).ledger == s.ledger && Next(s, e).balances == s.balances
  {
    if e.CardAction? || e.LicenseAction? || e.UnbindDevice? || e.AdminExtendLicense? {
      ActionsMoveNoMoney(s, e);
    } else if e.UpdatePlan? || e.PlanStatus? || e.DeletePlan? {
      PlansMoveNoMoney(s, e);
    } else {
      ClientsMoveNoMoney(s, e);
    }
  }

  lemma StepBooks(s: State, e: Event)
    requires LedgerOk(s)
    ensures Books(s, Next(s, e))
  {
    match e
    case CreateCardBatch(r) => BatchKeepsBooks(s, r);
    case AgentAdjustBalance(a, amount) => AdjustBooks(s, a, amount);
    case Heartbeat(pub, claimed, rejected, banned, version, versionBanned, seat) =>
      HeartbeatBooks(s, pub, claimed, rejected, banned, version, versionBanned, seat);
    case _ => OthersMoveNoMoney(s, e);
  }

  /** In every reachable state each balance is the sum of its agent's ledger rows, and each row's
      balance_after the sum up to it. */
  lemma {:induction false} LedgerReachable(ss: seq<State>, es: seq<Event>, i: nat)
    requires Run(ss, es) && Initial(ss[0]) && i <= |es|
    ensures LedgerOk(ss[i])
  {
    if i > 0 {
      LedgerReachable(ss, es, i - 1);
      StepBooks(ss[i - 1], es[i - 1]);
      BooksKeepLedger(ss[i - 1], ss[i]);
    }
  }

  /** The step booked row n as the price of a batch of exactly so many new cards. */
  ghost predicate Charges(s: State, e: Event, t: State, n: nat) {
    && e.CreateCardBatch? && n == |s.ledger| && n < |t.ledger|
    && var r := e.batchRequest;
    && r.plan in s.plans && |t.cards.Keys - s.cards.Keys| == r.quantity
    && t.ledger[n].amount == -Cost(s, r)
    && t.ledger[n].batch == Some(r.newBatch)
  }

  lemma BatchCharges(s: State, e: Event)
    requires LedgerOk(s) && e.CreateCardBatch?
    ensures var t := CreateCardBatchStep(s, e.batchRequest).0;
            |t.ledger| == |s.ledger| + 1 ==> Charges(s, e, t, |s.ledger|)
  {
    BatchAllOrNothing(s, e.batchRequest);
  }

  lemma OtherKinds(s: State, e: Event)
    requires !e.CreateCardBatch?
    ensures var t := Next(s, e);
            t.ledger != s.ledger ==> |t.ledger| > 0 && t.ledger[|t.ledger| - 1].kind != BatchPurchase
  {
    if e.AgentAdjustBalance? {
      AdjustBooks(s, e.agent, e.amount);
    } else if e.Heartbeat? {
      HeartbeatBooks(s, e.pub, e.claimed, e.rejected, e.banned, e.version, e.versionBanned, e.seat);
    } else {
      OthersMoveNoMoney(s, e);
    }
  }

  lemma PurchaseStep(s: State, e: Event)
    requires LedgerOk(s) && |Next(s, e).ledger| == |s.ledger| + 1 && Next(s, e).ledger[|s.ledger|].kind == BatchPurchase
    ensures Charges(s, e, Next(s, e), |s.ledger|)
  {
    if e.CreateCardBatch? {
      BatchCharges(s, e);
    } else {
      OtherKinds(s, e);
    }
  }

  lemma RunBooks(ss: seq<State>, es: seq<Event>, i: nat)
    requires Run(ss, es) && Initial(ss[0]) && 0 < i <= |es|
    ensures LedgerOk(ss[i - 1]) && Books(ss[i - 1], ss[i])
    ensures |ss[i].ledger| == |ss[i - 1].ledger| + 1 && ss[i].ledger[|ss[i - 1].ledger|].kind == BatchPurchase ==>
              Charges(ss[i - 1], es[i - 1], ss[i], |ss[i - 1].ledger|)
  {
    LedgerReachable(ss, es, i - 1);
    StepBooks(ss[i - 1], es[i - 1]);
    if |ss[i].ledger| == |ss[i - 1].ledger| + 1 && ss[i].ledger[|ss[i - 1].ledger|].kind == BatchPurchase {
      PurchaseStep(ss[i - 1], es[i - 1]);
    }
  }

  lemma NoRowsAtFirst(ss: seq<State>, es: seq<Event>, j: nat)
    requires Run(ss, es) && Initial(ss[0]) && j <= |es| && ss[j].ledger != []
    ensures j > 0
  {
  }

  /** A row of ss[j] was there before, or is the last one and its step charged it. */
  lemma RowStep(ss: seq<State>, es: seq<Event>, j: nat, n: nat)
    requires Run(ss, es) && Initial(ss[0]) && 0 < j <= |es| && n < |ss[j].ledger| && ss[j].ledger[n].kind == BatchPurchase
    ensures n < |ss[j - 1].ledger| ==> ss[j - 1].ledger[n] == ss[j].ledger[n]
    ensures n >= |ss[j - 1].ledger| ==> Charges(ss[j - 1], es[j - 1], ss[j], n)
  {
    RunBooks(ss, es, j);
  }

  /** Every batch_purchase row of every run was booked by one batch, at quantity times price. */
  lemma {:induction false} PurchaseOrigin(ss: seq<State>, es: seq<Event>, j: nat, n: nat) returns (i: nat)
    requires Run(ss, es) && Initial(ss[0]) && j <= |es| && n < |ss[j].ledger| && ss[j].ledger[n].kind == BatchPurchase
    ensures i < j && Charges(ss[i], es[i], ss[i + 1], n) && ss[i + 1].ledger[n] == ss[j].ledger[n]
  {
    NoRowsAtFirst(ss, es, j);
    RowStep(ss, es, j, n);
    if n < |ss[j - 1].ledger| {
      i := PurchaseOrigin(ss, es, j - 1, n);
    } else {
      i := j - 1;
    }
  }
}
