/** The database the handlers share, as in-memory state: the wallets, the ledger, the two
    withdrawal tables (withdrawals with payout_transfers, and payouts), payout destinations and
    the webhook log. Each handler is modelled as one atomic step on a Store. */
module Store {
  import opened Base
  import opened Ledger

  /** withdrawals.status as withdrawal_handlers.go and the webhook write it. */
  datatype WithdrawalStatus = Pending | Approved | Rejected | Paid | Failed

  function WithdrawalStatusName(s: WithdrawalStatus): string {
    match s
    case Pending => "pending"
    case Approved => "approved"
    case Rejected => "rejected"
    case Paid => "paid"
    case Failed => "failed"
  }

  /** A withdrawals row: who asked, how much (kobo), where it stands, the hold transaction that
      reserved the funds, and the admin who approved or rejected it. */
  datatype Withdrawal = Withdrawal(userId: UserId, amount: int, status: WithdrawalStatus, holdTx: nat, decidedBy: Option<UserId>)

  /** A payout_transfers row; the table is keyed by its reference. */
  datatype PayoutTransfer = PayoutTransfer(withdrawalId: string, amount: int, status: string)

  /** The provider reference of a withdrawal: the same on every approval retry. */
  function TransferReference(withdrawalId: string): (r: string)
    ensures |r| == |withdrawalId| + 3 && r[..3] == "wd-" && r[3..] == withdrawalId
  {
    "wd-" + withdrawalId
  }

  lemma TransferReferenceInjective(a: string, b: string)
    requires TransferReference(a) == TransferReference(b)
    ensures a == b
  {
    assert a == TransferReference(a)[3..];
  }

  /** payouts.status as payout_handlers.go reads and writes it. */
  datatype PayoutStatus = PayoutPending | PayoutApproved | PayoutRejected | PayoutSucceeded

  /** A payouts row. */
  datatype Payout = Payout(userId: UserId, destinationId: string, amount: int, status: PayoutStatus, reference: string)

  /** A payout_destinations row; active is the status='active' column read when approving. */
  datatype Destination = Destination(
    id: string, userId: UserId, bankCode: string, accountNumber: string, accountName: string,
    isDefault: bool, active: bool)

  /** A webhook_events row: stored verbatim, never updated. */
  datatype WebhookEvent = WebhookEvent(provider: string, eventType: string, reference: Option<string>, payload: string)

  /** wallets.user_id is unique and each wallet belongs to one user. */
  predicate Injective(walletOf: map<UserId, WalletId>) {
    forall u, v :: u in walletOf && v in walletOf && u != v ==> walletOf[u] != walletOf[v]
  }

  /** Every withdrawal points at the hold that reserved its funds: debit the user, credit the system wallet. */
  predicate HoldsLinked(book: Book, walletOf: map<UserId, WalletId>, system: WalletId, withdrawals: map<string, Withdrawal>) {
    forall id :: id in withdrawals ==>
      && withdrawals[id].amount > 0
      && withdrawals[id].userId in walletOf
      && withdrawals[id].holdTx < |book.txs|
      && book.txs[withdrawals[id].holdTx] ==
           Move(WithdrawalHold, withdrawals[id].amount, None, walletOf[withdrawals[id].userId], system)
  }

  /** order lists every key of m exactly once: the creation order of the rows. */
  predicate ListsKeys<V>(order: seq<string>, m: map<string, V>) {
    && (forall i :: 0 <= i < |order| ==> order[i] in m)
    && (forall k :: k in m ==> k in order)
    && (forall i, j :: 0 <= i < j < |order| ==> order[i] != order[j])
  }

  /** A transfer row is stored under the reference derived from its withdrawal. */
  predicate TransfersKeyed(transfers: map<string, PayoutTransfer>) {
    forall r :: r in transfers ==> r == TransferReference(transfers[r].withdrawalId)
  }

  predicate DestinationIdsUnique(ds: seq<Destination>) {
    forall i, j :: 0 <= i < j < |ds| ==> ds[i].id != ds[j].id
  }

  /** At most one default destination per user. */
  predicate DefaultsUnique(ds: seq<Destination>) {
    forall i, j :: 0 <= i < j < |ds| && ds[i].userId == ds[j].userId ==> !(ds[i].isDefault && ds[j].isDefault)
  }

  predicate PayoutsPositive(payouts: map<string, Payout>) {
    forall id :: id in payouts ==> payouts[id].amount > 0
  }

  /** Each payout's reference is the idempotency key of the reserve that funded it, so no two
      payouts share a reference. */
  predicate PayoutsKeyed(book: Book, payouts: map<string, Payout>) {
    && (forall id :: id in payouts ==> payouts[id].reference in book.keys)
    && (forall a, b :: a in payouts && b in payouts && a != b ==> payouts[a].reference != payouts[b].reference)
  }

  /** Appending to the ledger keeps every withdrawal linked to its hold. */
  lemma HoldsSurviveAppend(b: Book, b': Book, walletOf: map<UserId, WalletId>, system: WalletId, ws: map<string, Withdrawal>)
    requires HoldsLinked(b, walletOf, system, ws)
    requires |b.txs| <= |b'.txs| && b'.txs[..|b.txs|] == b.txs
    ensures HoldsLinked(b', walletOf, system, ws)
  {
    forall id | id in ws ensures b'.txs[ws[id].holdTx] == b.txs[ws[id].holdTx] {
      assert b'.txs[..|b.txs|][ws[id].holdTx] == b'.txs[ws[id].holdTx];
    }
  }

  /** Keys are never removed from the ledger, so every payout keeps its key. */
  lemma PayoutsKeyedGrow(b: Book, b': Book, payouts: map<string, Payout>)
    requires PayoutsKeyed(b, payouts) && b.keys.Keys <= b'.keys.Keys
    ensures PayoutsKeyed(b', payouts)
  {
  }

  /** A row whose hold is in place can be written to the withdrawals table. */
  lemma HoldsSurviveWrite(b: Book, walletOf: map<UserId, WalletId>, system: WalletId, ws: map<string, Withdrawal>, id: string, w: Withdrawal)
    requires HoldsLinked(b, walletOf, system, ws)
    requires w.amount > 0 && w.userId in walletOf && w.holdTx < |b.txs|
    requires b.txs[w.holdTx] == Move(WithdrawalHold, w.amount, None, walletOf[w.userId], system)
    ensures HoldsLinked(b, walletOf, system, ws[id := w])
  {
  }

  /** Appending a new key to the order keeps it listing the table. */
  lemma ListsKeysInsert<V>(order: seq<string>, m: map<string, V>, id: string, v: V)
    requires ListsKeys(order, m) && id !in m
    ensures ListsKeys(order + [id], m[id := v])
  {
  }

  /** Overwriting an existing row leaves the order as it is. */
  lemma ListsKeysUpdate<V>(order: seq<string>, m: map<string, V>, id: string, v: V)
    requires ListsKeys(order, m) && id in m
    ensures ListsKeys(order, m[id := v])
  {
  }

  /** The invariants the tables keep together. */
  predicate Consistent(book: Book, walletOf: map<UserId, WalletId>, system: WalletId, withdrawals: map<string, Withdrawal>,
                       withdrawalOrder: seq<string>, transfers: map<string, PayoutTransfer>, destinations: seq<Destination>,
                       payouts: map<string, Payout>, payoutOrder: seq<string>) {
    && WellFormed(book)
    && Injective(walletOf)
    && HoldsLinked(book, walletOf, system, withdrawals)
    && ListsKeys(withdrawalOrder, withdrawals)
    && TransfersKeyed(transfers)
    && DestinationIdsUnique(destinations)
    && DefaultsUnique(destinations)
    && PayoutsPositive(payouts)
    && PayoutsKeyed(book, payouts)
    && ListsKeys(payoutOrder, payouts)
  }

  class Store {
    /** The treasury wallet, fixed at start-up. */
    const systemWallet: WalletId
    /** wallets: the wallet of each user. No handler of the core creates or removes one. */
    var walletOf: map<UserId, WalletId>
    var book: Book
    var withdrawals: map<string, Withdrawal>
    var withdrawalOrder: seq<string>
    var transfers: map<string, PayoutTransfer>
    /** payout_destinations in creation order. */
    var destinations: seq<Destination>
    var payouts: map<string, Payout>
    var payoutOrder: seq<string>
    var webhookEvents: seq<WebhookEvent>

    ghost predicate Valid()
      reads this`book, this`walletOf, this`withdrawals, this`withdrawalOrder, this`transfers, this`destinations,
            this`payouts, this`payoutOrder
    {
      Consistent(book, walletOf, systemWallet, withdrawals, withdrawalOrder, transfers, destinations, payouts, payoutOrder)
    }

    /** Commits a new ledger. */
    method CommitLedger(book': Book)
      requires Consistent(book', walletOf, systemWallet, withdrawals, withdrawalOrder, transfers, destinations, payouts, payoutOrder)
      modifies this`book
      ensures Valid() && book == book'
    {
      book := book';
    }

    /** Commits the ledger and the withdrawal tables together. */
    method CommitWithdrawals(book': Book, withdrawals': map<string, Withdrawal>, order': seq<string>, transfers': map<string, PayoutTransfer>)
      requires Consistent(book', walletOf, systemWallet, withdrawals', order', transfers', destinations, payouts, payoutOrder)
      modifies this`book, this`withdrawals, this`withdrawalOrder, this`transfers
      ensures Valid()
      ensures book == book' && withdrawals == withdrawals' && withdrawalOrder == order' && transfers == transfers'
    {
      book, withdrawals, withdrawalOrder, transfers := book', withdrawals', order', transfers';
    }

    /** Commits the ledger and the payout tables together. */
    method CommitPayouts(book': Book, destinations': seq<Destination>, payouts': map<string, Payout>, order': seq<string>)
      requires Consistent(book', walletOf, systemWallet, withdrawals, withdrawalOrder, transfers, destinations', payouts', order')
      modifies this`book, this`destinations, this`payouts, this`payoutOrder
      ensures Valid()
      ensures book == book' && destinations == destinations' && payouts == payouts' && payoutOrder == order'
    {
      book, destinations, payouts, payoutOrder := book', destinations', payouts', order';
    }

    constructor (systemWallet: WalletId, walletOf: map<UserId, WalletId>)
      requires Injective(walletOf)
      ensures Valid()
      ensures this.systemWallet == systemWallet && this.walletOf == walletOf
      ensures book == EmptyBook && withdrawals == map[] && transfers == map[] && destinations == []
      ensures payouts == map[] && webhookEvents == []
    {
      this.systemWallet := systemWallet;
      this.walletOf := walletOf;
      book := EmptyBook;
      withdrawals := map[];
      withdrawalOrder := [];
      transfers := map[];
      destinations := [];
      payouts := map[];
      payoutOrder := [];
      webhookEvents := [];
    }
  }
}
