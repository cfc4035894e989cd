/** The withdrawal flow of withdrawal_handlers.go: a hold moves the amount from the user's wallet
    to the system wallet and opens a pending withdrawal; an admin either approves it (which
    starts a provider transfer under the stable reference "wd-"+id) or rejects it (which posts
    the mirror of the hold). */
module Withdrawals {
  import opened Base
  import opened Text
  import opened Locking
  import opened Ledger
  import opened Store
  import opened Paging

  /** The withdrawalDTO payload. */
  datatype WithdrawalView = WithdrawalView(id: string, status: string, amount: int, currency: string)

  /** The payload of approve: the withdrawal, the outcome, and the transfer reference. */
  datatype Decision = Decision(withdrawalId: string, status: string, reference: string)

  /** The payload of reject. */
  datatype Rejection = Rejection(withdrawalId: string, status: string)

  /** The body of the provider's POST /v3/transfers: the amount is in whole naira. */
  datatype TransferRequest = TransferRequest(
    accountBank: string, accountNumber: string, amount: int, currency: string, narration: string, reference: string)

  /** The listing payload: one page of the caller's withdrawals and the paging applied. */
  datatype WithdrawalPage = WithdrawalPage(rows: seq<WithdrawalView>, limit: int, offset: nat)

  /** kobo to naira: only a whole number of naira converts. */
  function NairaAmount(kobo: int): (r: Option<int>)
    ensures r.Some? <==> kobo % 100 == 0
    ensures r.Some? ==> r.value * 100 == kobo
  {
    if kobo % 100 != 0 then None else Some(kobo / 100)
  }

  /** Converting n naira to kobo and back gives n; one kobo more does not convert. */
  lemma NairaRoundTrip(n: int)
    ensures NairaAmount(n * 100) == Some(n)
    ensures NairaAmount(n * 100 + 1) == None
  {
  }

  /** A destination of uid with status active. */
  predicate ActiveOf(d: Destination, uid: UserId) {
    d.userId == uid && d.active
  }

  /** The position of the destination of uid with status active that was created last, if any. */
  function LatestActiveDestination(ds: seq<Destination>, uid: UserId): (r: Option<nat>)
    ensures r.None? <==> forall i :: 0 <= i < |ds| ==> !ActiveOf(ds[i], uid)
    ensures r.Some? ==> r.value < |ds| && ActiveOf(ds[r.value], uid)
    ensures r.Some? ==> forall j :: r.value < j < |ds| ==> !ActiveOf(ds[j], uid)
  {
    if ds == [] then None
    else if ActiveOf(ds[|ds| - 1], uid) then Some(|ds| - 1)
    else
      var r := LatestActiveDestination(ds[..|ds| - 1], uid);
      assert forall i :: 0 <= i < |ds| - 1 ==> ds[..|ds| - 1][i] == ds[i];
      r
  }

  /** The transfer row of a withdrawal is looked up by its withdrawal id; because rows are stored
      under the reference derived from that id, this is a lookup by reference. */
  lemma TransferLookupByWithdrawal(transfers: map<string, PayoutTransfer>, id: string)
    requires TransfersKeyed(transfers)
    ensures (exists r :: r in transfers && transfers[r].withdrawalId == id) <==> TransferReference(id) in transfers
  {
    if exists r :: r in transfers && transfers[r].withdrawalId == id {
      var r :| r in transfers && transfers[r].withdrawalId == id;
      assert r == TransferReference(id);
    }
  }

  /** The reversal that reject posts (credit user, debit system) is exactly the mirror of the hold. */
  lemma ReversalMirrorsHold(amount: int, user: WalletId, system: WalletId)
    requires amount > 0
    ensures CreditFirst(WithdrawalReversal, amount, None, user, system) == Mirror(Move(WithdrawalHold, amount, None, user, system), WithdrawalReversal)
  {
  }

  // ---------- CreateWithdrawal

  /** The outcome of CreateWithdrawal: the response, the ledger and the withdrawals table
      afterwards, and the wallets locked, in order. */
  datatype OpenOutcome = OpenOutcome(
    reply: Reply<WithdrawalView>, book: Book, withdrawals: map<string, Withdrawal>, order: seq<string>, locks: seq<WalletId>)

  /** Every withdrawal holds a positive amount (each was created from a positive request). */
  predicate AmountsPositive(ws: map<string, Withdrawal>) {
    forall k :: k in ws ==> ws[k].amount > 0
  }

  /** What CreateWithdrawal does; newId is the id the database assigns to the new row. */
  function Open(book: Book, walletOf: map<UserId, WalletId>, system: WalletId, ws: map<string, Withdrawal>, order: seq<string>,
                uid: UserId, amount: int, newId: string): (o: OpenOutcome)
    requires WellFormed(book) && newId !in ws
    ensures WellFormed(o.book)
    ensures o.reply.Fail? ==> o.book == book && o.withdrawals == ws && o.order == order
    ensures o.reply.Ok? ==> amount > 0 && uid in walletOf && o.withdrawals == ws[newId := Withdrawal(uid, amount, Pending, |book.txs|, None)]
    ensures o.reply.Ok? ==> o.book.txs == book.txs + [Move(WithdrawalHold, amount, None, walletOf[uid], system)]
  {
    if amount <= 0 then OpenOutcome(Fail(400, "invalid_request"), book, ws, order, [])
    else if uid !in walletOf then OpenOutcome(Fail(404, "wallet_not_found"), book, ws, order, [])
    else Hold(book, walletOf[uid], system, ws, order, uid, amount, newId)
  }

  /** CreateWithdrawal for a positive amount once the user's wallet `user` is known: under the
      locks, the balance must cover the amount; then the hold is posted and the row opened. */
  function Hold(book: Book, user: WalletId, system: WalletId, ws: map<string, Withdrawal>, order: seq<string>,
                uid: UserId, amount: int, newId: string): (o: OpenOutcome)
    requires WellFormed(book) && amount > 0
    ensures WellFormed(o.book) && o.locks == LockOrder(user, system)
    ensures o.reply.Fail? <==> Balance(book.txs, user) < amount
    ensures o.reply.Fail? ==> o.reply == Fail(400, "insufficient_funds") && o.book == book && o.withdrawals == ws && o.order == order
    ensures o.reply.Ok? ==>
              && newId in o.withdrawals && o.withdrawals[newId].status == Pending && o.withdrawals[newId].amount == amount
              && o.withdrawals[newId].holdTx == |book.txs| < |o.book.txs|
              && o.book.txs[|book.txs|] == Move(WithdrawalHold, amount, None, user, system)
  {
    var locks := LockOrder(user, system);
    if Balance(book.txs, user) < amount then OpenOutcome(Fail(400, "insufficient_funds"), book, ws, order, locks)
    else
      var row := Withdrawal(uid, amount, Pending, |book.txs|, None);
      OpenOutcome(Ok(201, WithdrawalView(newId, "pending", amount, "NGN")),
                  Post(book, Move(WithdrawalHold, amount, None, user, system)), ws[newId := row], order + [newId], locks)
  }

  /** Create keeps every withdrawal linked to its hold. */
  lemma OpenKeepsHoldsLinked(book: Book, walletOf: map<UserId, WalletId>, system: WalletId, ws: map<string, Withdrawal>,
                             order: seq<string>, uid: UserId, amount: int, newId: string)
    requires WellFormed(book) && newId !in ws && HoldsLinked(book, walletOf, system, ws)
    ensures var o := Open(book, walletOf, system, ws, order, uid, amount, newId);
            HoldsLinked(o.book, walletOf, system, o.withdrawals)
  {
    var o := Open(book, walletOf, system, ws, order, uid, amount, newId);
    if o.reply.Ok? {
      HoldsSurviveAppend(book, o.book, walletOf, system, ws);
      HoldsSurviveWrite(o.book, walletOf, system, ws, newId, o.withdrawals[newId]);
    }
  }

  /** Create keeps the creation order listing the table, with the new row last. */
  lemma OpenKeepsOrder(book: Book, walletOf: map<UserId, WalletId>, system: WalletId, ws: map<string, Withdrawal>,
                       order: seq<string>, uid: UserId, amount: int, newId: string)
    requires WellFormed(book) && newId !in ws && ListsKeys(order, ws)
    ensures var o := Open(book, walletOf, system, ws, order, uid, amount, newId);
            ListsKeys(o.order, o.withdrawals) && (o.reply.Ok? ==> o.order[|o.order| - 1] == newId)
  {
    var o := Open(book, walletOf, system, ws, order, uid, amount, newId);
    if o.reply.Ok? {
      ListsKeysInsert(order, ws, newId, o.withdrawals[newId]);
    }
  }

  /** A non-positive amount is invalid_request, a caller without a wallet wallet_not_found;
      otherwise the user's and system wallets are locked in sorted order, and the request fails
      with insufficient_funds exactly when the balance is below the amount. */
  lemma OpenGuards(book: Book, walletOf: map<UserId, WalletId>, system: WalletId, ws: map<string, Withdrawal>, order: seq<string>,
                   uid: UserId, amount: int, newId: string)
    requires WellFormed(book) && newId !in ws
    ensures var o := Open(book, walletOf, system, ws, order, uid, amount, newId);
            && (amount <= 0 ==> o.reply == Fail(400, "invalid_request") && o.locks == [])
            && (amount > 0 && uid !in walletOf ==> o.reply == Fail(404, "wallet_not_found") && o.locks == [])
            && (amount > 0 && uid in walletOf ==>
                  && o.locks == LockOrder(system, walletOf[uid])
                  && (o.reply == Fail(400, "insufficient_funds") <==> Balance(book.txs, walletOf[uid]) < amount))
  {
    if amount > 0 && uid in walletOf {
      LockOrderSymmetric(walletOf[uid], system);
    }
  }

  /** A covered request appends one hold (debit user, credit system, same amount) and a pending
      withdrawal that points at it; the user's balance falls by the amount. */
  lemma OpenHolds(book: Book, walletOf: map<UserId, WalletId>, system: WalletId, ws: map<string, Withdrawal>, order: seq<string>,
                  uid: UserId, amount: int, newId: string, v: WalletId)
    requires WellFormed(book) && newId !in ws
    requires amount > 0 && uid in walletOf && Balance(book.txs, walletOf[uid]) >= amount
    ensures var o := Open(book, walletOf, system, ws, order, uid, amount, newId);
            && o.reply == Ok(201, WithdrawalView(newId, "pending", amount, "NGN"))
            && o.book.txs == book.txs + [Move(WithdrawalHold, amount, None, walletOf[uid], system)]
            && o.withdrawals == ws[newId := Withdrawal(uid, amount, Pending, |book.txs|, None)]
            && o.order == order + [newId]
            && o.book.txs[o.withdrawals[newId].holdTx].amount == amount
            && Balance(o.book.txs, v) == Balance(book.txs, v) + (if v == system then amount else 0) - (if v == walletOf[uid] then amount else 0)
  {
    PostBalance(book, Move(WithdrawalHold, amount, None, walletOf[uid], system), v);
    MoveDelta(WithdrawalHold, amount, None, walletOf[uid], system, v);
  }

  method CreateWithdrawal(s: Store, uid: UserId, amount: int, newId: string)
    returns (reply: Reply<WithdrawalView>, locks: seq<WalletId>)
    requires s.Valid() && newId !in s.withdrawals
    modifies s`book, s`withdrawals, s`withdrawalOrder, s`transfers
    ensures s.Valid() && s.transfers == old(s.transfers)
    ensures var o := Open(old(s.book), s.walletOf, s.systemWallet, old(s.withdrawals), old(s.withdrawalOrder), uid, amount, newId);
            && reply == o.reply && locks == o.locks
            && s.book == o.book && s.withdrawals == o.withdrawals && s.withdrawalOrder == o.order
  {
    locks := [];
    if amount <= 0 {
      reply := Fail(400, "invalid_request");
      return;
    }
    if uid !in s.walletOf {
      reply := Fail(404, "wallet_not_found");
      return;
    }
    var user := s.walletOf[uid];
    locks := LockOrder(user, s.systemWallet);
    if Balance(s.book.txs, user) < amount {
      reply := Fail(400, "insufficient_funds");
      return;
    }
    var holdTx := |s.book.txs|;
    var book := Post(s.book, Move(WithdrawalHold, amount, None, user, s.systemWallet));
    var row := Withdrawal(uid, amount, Pending, holdTx, None);
    HoldsSurviveAppend(s.book, book, s.walletOf, s.systemWallet, s.withdrawals);
    PayoutsKeyedGrow(s.book, book, s.payouts);
    HoldsSurviveWrite(book, s.walletOf, s.systemWallet, s.withdrawals, newId, row);
    ListsKeysInsert(s.withdrawalOrder, s.withdrawals, newId, row);
    s.CommitWithdrawals(book, s.withdrawals[newId := row], s.withdrawalOrder + [newId], s.transfers);
    reply := Ok(201, WithdrawalView(newId, "pending", amount, "NGN"));
  }

  // ---------- AdminApproveWithdrawal

  /** The outcome of AdminApproveWithdrawal: the response, the two tables afterwards, and the
      request sent to the provider, if one was sent. */
  datatype ApproveOutcome = ApproveOutcome(
    reply: Reply<Decision>, withdrawals: map<string, Withdrawal>, transfers: map<string, PayoutTransfer>, call: Option<TransferRequest>)

  /** The withdrawal is approvable, has a destination to pay, and no transfer yet: the handler
      goes past its guards. */
  predicate Initiates(ws: map<string, Withdrawal>, transfers: map<string, PayoutTransfer>, ds: seq<Destination>, id: string) {
    && id != "" && id in ws && ws[id].status in {Pending, Approved}
    && LatestActiveDestination(ds, ws[id].userId).Some?
    && TransferReference(id) !in transfers
  }

  /** The answer of the first of AdminApproveWithdrawal's guards that stops the request, in the
      handler's order: the last one answers 200 already_initiated when the transfer exists. */
  function ApproveEarlyReply(ws: map<string, Withdrawal>, transfers: map<string, PayoutTransfer>, ds: seq<Destination>,
                             id: string): (r: Option<Reply<Decision>>)
    ensures r.None? <==> Initiates(ws, transfers, ds, id)
    ensures r.Some? && r.value.Ok? ==>
              TransferReference(id) in transfers && r.value == Ok(200, Decision(id, "already_initiated", TransferReference(id)))
  {
    if id == "" then Some(Fail(400, "invalid_id"))
    else if id !in ws then Some(Fail(404, "withdrawal_not_found"))
    else if ws[id].status != Pending && ws[id].status != Approved then Some(Fail(409, "already_processed"))
    else if LatestActiveDestination(ds, ws[id].userId).None? then Some(Fail(400, "payout_destination_missing"))
    else if TransferReference(id) in transfers then Some(Ok(200, Decision(id, "already_initiated", TransferReference(id))))
    else None
  }

  /** AdminApproveWithdrawal past its guards, paying destination d: a pending row is marked
      approved first, then the amount must be whole naira, then the provider is called; an
      accepted call records a pending transfer row under the reference. */
  function Initiate(ws: map<string, Withdrawal>, transfers: map<string, PayoutTransfer>, d: Destination,
                    admin: UserId, id: string, providerAccepts: bool): (o: ApproveOutcome)
    requires id in ws
    ensures o.withdrawals.Keys == ws.Keys
    ensures ws[id].status == Pending ==> o.withdrawals[id].status == Approved
    ensures o.reply.Ok? <==> ws[id].amount % 100 == 0 && providerAccepts
    ensures o.reply.Ok? ==> o.transfers == transfers[TransferReference(id) := PayoutTransfer(id, ws[id].amount, "pending")]
    ensures o.reply.Fail? ==> o.transfers == transfers
  {
    var w := ws[id];
    var ref := TransferReference(id);
    var ws' := if w.status == Pending then ws[id := w.(status := Approved, decidedBy := Some(admin))] else ws;
    match NairaAmount(w.amount)
    case None => ApproveOutcome(Fail(400, "amount_not_whole_naira"), ws', transfers, None)
    case Some(naira) =>
      var call := Some(TransferRequest(d.bankCode, d.accountNumber, naira, "NGN", "Okies withdrawal for " + d.accountName, ref));
      if !providerAccepts then ApproveOutcome(Fail(502, "flutterwave_error"), ws', transfers, call)
      else ApproveOutcome(Ok(200, Decision(id, "transfer_initiated", ref)), ws', transfers[ref := PayoutTransfer(id, w.amount, "pending")], call)
  }

  /** What AdminApproveWithdrawal does; providerAccepts is the outcome of the provider call. */
  function Approve(ws: map<string, Withdrawal>, transfers: map<string, PayoutTransfer>, ds: seq<Destination>,
                   admin: UserId, id: string, providerAccepts: bool): (o: ApproveOutcome)
    ensures o.withdrawals.Keys == ws.Keys
    ensures o.reply.Fail? ==> o.transfers == transfers
    ensures o.call.Some? ==> Initiates(ws, transfers, ds, id) && o.call.value.reference == TransferReference(id)
  {
    match ApproveEarlyReply(ws, transfers, ds, id)
    case Some(early) => ApproveOutcome(early, ws, transfers, None)
    case None => Initiate(ws, transfers, ds[LatestActiveDestination(ds, ws[id].userId).value], admin, id, providerAccepts)
  }

  /** The guards, in the handler's order: none of them changes anything or calls the provider,
      and a request that passes them all is served by Initiate with the latest active destination. */
  lemma ApproveGuards(ws: map<string, Withdrawal>, transfers: map<string, PayoutTransfer>, ds: seq<Destination>,
                      admin: UserId, id: string, providerAccepts: bool)
    ensures var o := Approve(ws, transfers, ds, admin, id, providerAccepts);
            && (id == "" ==> o.reply == Fail(400, "invalid_id"))
            && (id != "" && id !in ws ==> o.reply == Fail(404, "withdrawal_not_found"))
            && (id != "" && id in ws && ws[id].status in {Rejected, Paid, Failed} ==> o.reply == Fail(409, "already_processed"))
            && (id != "" && id in ws && ws[id].status in {Pending, Approved} && LatestActiveDestination(ds, ws[id].userId).None? ==>
                  o.reply == Fail(400, "payout_destination_missing"))
            && (id != "" && id in ws && ws[id].status in {Pending, Approved} && LatestActiveDestination(ds, ws[id].userId).Some? &&
                TransferReference(id) in transfers ==>
                  o.reply == Ok(200, Decision(id, "already_initiated", TransferReference(id))))
            && (!Initiates(ws, transfers, ds, id) ==> o.withdrawals == ws && o.transfers == transfers && o.call == None)
            && (Initiates(ws, transfers, ds, id) ==>
                  o == Initiate(ws, transfers, ds[LatestActiveDestination(ds, ws[id].userId).value], admin, id, providerAccepts))
  {
  }

  /** Initiate only ever writes the row of id, and never its owner, amount or hold, and it keeps
      every transfer row keyed by its reference. */
  lemma InitiateFrame(ws: map<string, Withdrawal>, transfers: map<string, PayoutTransfer>, d: Destination,
                      admin: UserId, id: string, providerAccepts: bool)
    requires id in ws
    ensures var o := Initiate(ws, transfers, d, admin, id, providerAccepts);
      && o.withdrawals.Keys == ws.Keys
      && (forall k :: k in ws && k != id ==> o.withdrawals[k] == ws[k])
      && (forall k :: k in ws ==> o.withdrawals[k].userId == ws[k].userId && o.withdrawals[k].amount == ws[k].amount &&
                                  o.withdrawals[k].holdTx == ws[k].holdTx)
      && (TransfersKeyed(transfers) ==> TransfersKeyed(o.transfers))
  {
  }

  /** Past the guards the row is approved before anything else is checked: a pending row moves to
      approved, recording the admin, and an approved row stays as it was, even when the amount
      is then refused as not whole naira or the provider call fails. */
  lemma InitiateMarksFirst(ws: map<string, Withdrawal>, transfers: map<string, PayoutTransfer>, d: Destination,
                           admin: UserId, id: string, providerAccepts: bool)
    requires id in ws && ws[id].status in {Pending, Approved}
    ensures var o := Initiate(ws, transfers, d, admin, id, providerAccepts);
            && o.withdrawals[id].status == Approved
            && (ws[id].status == Pending ==> o.withdrawals[id] == ws[id].(status := Approved, decidedBy := Some(admin)))
            && (ws[id].status == Approved ==> o.withdrawals == ws)
            && (ws[id].amount % 100 != 0 ==> o.reply == Fail(400, "amount_not_whole_naira") && o.call == None)
            && (!providerAccepts ==> o.reply.Fail? && o.transfers == transfers)
  {
  }

  /** A whole-naira amount goes to the provider as amount/100 naira, to destination d, under the
      reference "wd-"+id; an accepted call records a pending transfer row. */
  lemma InitiateCallsProvider(ws: map<string, Withdrawal>, transfers: map<string, PayoutTransfer>, d: Destination,
                              admin: UserId, id: string, providerAccepts: bool)
    requires id in ws && ws[id].amount % 100 == 0
    ensures var o := Initiate(ws, transfers, d, admin, id, providerAccepts);
            && o.call.Some?
            && o.call.value.amount * 100 == ws[id].amount
            && o.call.value.reference == TransferReference(id)
            && o.call.value.accountBank == d.bankCode && o.call.value.accountNumber == d.accountNumber
            && (!providerAccepts ==> o.reply == Fail(502, "flutterwave_error"))
            && (providerAccepts ==>
                  && o.reply == Ok(200, Decision(id, "transfer_initiated", TransferReference(id)))
                  && o.transfers == transfers[TransferReference(id) := PayoutTransfer(id, ws[id].amount, "pending")])
  {
  }

  /** The reference is stable: retrying after a provider failure sends the same request again, and
      approving again after a transfer was recorded reports already_initiated and changes nothing. */
  lemma ApproveRetries(ws: map<string, Withdrawal>, transfers: map<string, PayoutTransfer>, ds: seq<Destination>,
                       admin: UserId, admin2: UserId, id: string, accepted: bool)
    requires Initiates(ws, transfers, ds, id)
    ensures var first := Approve(ws, transfers, ds, admin, id, false);
            var second := Approve(first.withdrawals, first.transfers, ds, admin2, id, accepted);
            second.call == first.call && second.withdrawals == first.withdrawals
    ensures var first := Approve(ws, transfers, ds, admin, id, true);
            var second := Approve(first.withdrawals, first.transfers, ds, admin2, id, accepted);
            first.reply.Ok? ==>
              second.reply == Ok(200, Decision(id, "already_initiated", TransferReference(id))) &&
              second.withdrawals == first.withdrawals && second.transfers == first.transfers && second.call == None
  {
    var d := ds[LatestActiveDestination(ds, ws[id].userId).value];
    ApproveGuards(ws, transfers, ds, admin, id, false);
    ApproveGuards(ws, transfers, ds, admin, id, true);
    var failed := Initiate(ws, transfers, d, admin, id, false);
    InitiateMarksFirst(ws, transfers, d, admin, id, false);
    InitiateFrame(ws, transfers, d, admin, id, false);
    ApproveGuards(failed.withdrawals, failed.transfers, ds, admin2, id, accepted);
    assert Initiates(failed.withdrawals, failed.transfers, ds, id);
    InitiateMarksFirst(failed.withdrawals, failed.transfers, d, admin2, id, accepted);
    var done := Initiate(ws, transfers, d, admin, id, true);
    InitiateFrame(ws, transfers, d, admin, id, true);
    ApproveGuards(done.withdrawals, done.transfers, ds, admin2, id, accepted);
  }

  method AdminApproveWithdrawal(s: Store, admin: UserId, id: string, providerAccepts: bool)
    returns (reply: Reply<Decision>, call: Option<TransferRequest>)
    requires s.Valid()
    modifies s`book, s`withdrawals, s`withdrawalOrder, s`transfers
    ensures s.Valid() && s.book == old(s.book) && s.withdrawalOrder == old(s.withdrawalOrder)
    ensures var o := Approve(old(s.withdrawals), old(s.transfers), s.destinations, admin, id, providerAccepts);
            reply == o.reply && call == o.call && s.withdrawals == o.withdrawals && s.transfers == o.transfers
  {
    var early := ApproveEarlyReply(s.withdrawals, s.transfers, s.destinations, id);
    if early.Some? {
      reply, call := early.value, None;
      return;
    }
    var d := s.destinations[LatestActiveDestination(s.destinations, s.withdrawals[id].userId).value];
    reply, call := InitiateTransfer(s, admin, id, d, providerAccepts);
  }

  /** The approval past its guards: marks a pending row approved, then converts the amount and
      calls the provider, recording the transfer row when the call is accepted. */
  method InitiateTransfer(s: Store, admin: UserId, id: string, d: Destination, providerAccepts: bool)
    returns (reply: Reply<Decision>, call: Option<TransferRequest>)
    requires s.Valid() && id in s.withdrawals && TransferReference(id) !in s.transfers
    modifies s`book, s`withdrawals, s`withdrawalOrder, s`transfers
    ensures s.Valid() && s.book == old(s.book) && s.withdrawalOrder == old(s.withdrawalOrder)
    ensures var o := Initiate(old(s.withdrawals), old(s.transfers), d, admin, id, providerAccepts);
            reply == o.reply && call == o.call && s.withdrawals == o.withdrawals && s.transfers == o.transfers
  {
    call := None;
    var w := s.withdrawals[id];
    var ref := TransferReference(id);
    if w.status == Pending {
      var row := w.(status := Approved, decidedBy := Some(admin));
      HoldsSurviveWrite(s.book, s.walletOf, s.systemWallet, s.withdrawals, id, row);
      ListsKeysUpdate(s.withdrawalOrder, s.withdrawals, id, row);
      s.CommitWithdrawals(s.book, s.withdrawals[id := row], s.withdrawalOrder, s.transfers);
    }
    var naira := NairaAmount(w.amount);
    if naira.None? {
      reply := Fail(400, "amount_not_whole_naira");
      return;
    }
    call := Some(TransferRequest(d.bankCode, d.accountNumber, naira.value, "NGN", "Okies withdrawal for " + d.accountName, ref));
    if !providerAccepts {
      reply := Fail(502, "flutterwave_error");
      return;
    }
    s.CommitWithdrawals(s.book, s.withdrawals, s.withdrawalOrder, s.transfers[ref := PayoutTransfer(id, w.amount, "pending")]);
    reply := Ok(200, Decision(id, "transfer_initiated", ref));
  }

  // ---------- AdminRejectWithdrawal

  /** The outcome of AdminRejectWithdrawal. */
  datatype RejectOutcome = RejectOutcome(reply: Reply<Rejection>, book: Book, withdrawals: map<string, Withdrawal>, locks: seq<WalletId>)

  /** What AdminRejectWithdrawal does: only a pending withdrawal is rejected, by posting the
      reversal of its hold. */
  function Reverse(book: Book, walletOf: map<UserId, WalletId>, system: WalletId, ws: map<string, Withdrawal>,
                   admin: UserId, id: string): (o: RejectOutcome)
    requires WellFormed(book) && AmountsPositive(ws)
    ensures WellFormed(o.book) && AmountsPositive(o.withdrawals)
    ensures o.withdrawals.Keys == ws.Keys
    ensures o.reply.Fail? ==> o.book == book && o.withdrawals == ws && o.locks == []
  {
    if id == "" then RejectOutcome(Fail(400, "invalid_id"), book, ws, [])
    else if id !in ws || ws[id].status != Pending then RejectOutcome(Fail(404, "not_found_or_already_processed"), book, ws, [])
    else if ws[id].userId !in walletOf then RejectOutcome(Fail(500, "wallet_not_found"), book, ws, [])
    else Reversal(book, walletOf[ws[id].userId], system, ws, admin, id)
  }

  /** The rejection of pending withdrawal id, owned by the user of wallet `user`: the reversal
      of its amount is posted and the row is marked rejected by the admin. */
  function Reversal(book: Book, user: WalletId, system: WalletId, ws: map<string, Withdrawal>, admin: UserId, id: string): (o: RejectOutcome)
    requires WellFormed(book) && id in ws && ws[id].amount > 0
    ensures WellFormed(o.book)
  {
    var w := ws[id];
    RejectOutcome(Ok(200, Rejection(id, "rejected")),
                  Post(book, CreditFirst(WithdrawalReversal, w.amount, None, user, system)),
                  ws[id := w.(status := Rejected, decidedBy := Some(admin))], LockOrder(user, system))
  }

  /** Reject keeps every withdrawal linked to its hold. */
  lemma ReverseKeepsInvariants(book: Book, walletOf: map<UserId, WalletId>, system: WalletId, ws: map<string, Withdrawal>,
                               order: seq<string>, admin: UserId, id: string)
    requires WellFormed(book) && HoldsLinked(book, walletOf, system, ws) && ListsKeys(order, ws)
    ensures var o := Reverse(book, walletOf, system, ws, admin, id);
            HoldsLinked(o.book, walletOf, system, o.withdrawals) && ListsKeys(order, o.withdrawals)
  {
    var o := Reverse(book, walletOf, system, ws, admin, id);
    if o.reply.Ok? {
      HoldsSurviveAppend(book, o.book, walletOf, system, ws);
      HoldsSurviveWrite(o.book, walletOf, system, ws, id, o.withdrawals[id]);
      ListsKeysUpdate(order, ws, id, o.withdrawals[id]);
    }
  }

  /** Reject works only from pending: an empty id is invalid_id, anything else not pending is
      not_found_or_already_processed, so a second reject of the same withdrawal changes nothing. */
  lemma RejectOnlyPending(book: Book, walletOf: map<UserId, WalletId>, system: WalletId, ws: map<string, Withdrawal>,
                          admin: UserId, admin2: UserId, id: string)
    requires WellFormed(book) && HoldsLinked(book, walletOf, system, ws)
    ensures var o := Reverse(book, walletOf, system, ws, admin, id);
            && (id == "" ==> o.reply == Fail(400, "invalid_id"))
            && (id != "" && (id !in ws || ws[id].status != Pending) ==> o.reply == Fail(404, "not_found_or_already_processed"))
            && (id != "" && id in ws && ws[id].status == Pending ==>
                  && o.reply == Ok(200, Rejection(id, "rejected"))
                  && o.withdrawals == ws[id := ws[id].(status := Rejected, decidedBy := Some(admin))]
                  && o.locks == LockOrder(walletOf[ws[id].userId], system)
                  && Reverse(o.book, walletOf, system, o.withdrawals, admin2, id).reply == Fail(404, "not_found_or_already_processed"))
  {
    if id != "" && id in ws && ws[id].status == Pending {
      var o := Reverse(book, walletOf, system, ws, admin, id);
      assert o.withdrawals[id].status == Rejected;
    }
  }

  /** The reversal is the exact mirror of the withdrawal's hold, so every balance ends as if the
      hold had never been posted. */
  lemma RejectUndoesHold(book: Book, walletOf: map<UserId, WalletId>, system: WalletId, ws: map<string, Withdrawal>,
                         admin: UserId, id: string, v: WalletId)
    requires WellFormed(book) && HoldsLinked(book, walletOf, system, ws)
    requires id != "" && id in ws && ws[id].status == Pending
    ensures var o := Reverse(book, walletOf, system, ws, admin, id);
            var h := ws[id].holdTx;
            && o.book.txs == book.txs + [Mirror(book.txs[h], WithdrawalReversal)]
            && Balance(o.book.txs, v) == Balance(book.txs[..h] + book.txs[h + 1..], v)
  {
    var w := ws[id];
    var h := w.holdTx;
    var hold := book.txs[h];
    ReversalMirrorsHold(w.amount, walletOf[w.userId], system);
    assert book.txs == book.txs[..h] + [hold] + book.txs[h + 1..];
    HoldThenMirrorRestores(book.txs[..h], hold, book.txs[h + 1..], WithdrawalReversal, v);
  }

  /** Create followed by reject of the new withdrawal leaves every balance where it started:
      the hold and its reversal cancel out. */
  lemma CreateThenRejectRestores(book: Book, user: WalletId, system: WalletId, ws: map<string, Withdrawal>,
                                 order: seq<string>, uid: UserId, amount: int, newId: string, admin: UserId, v: WalletId)
    requires WellFormed(book) && amount > 0
    requires Hold(book, user, system, ws, order, uid, amount, newId).reply.Ok?
    ensures var o := Hold(book, user, system, ws, order, uid, amount, newId);
            var r := Reversal(o.book, user, system, o.withdrawals, admin, newId);
            && r.reply.Ok? && r.withdrawals[newId].status == Rejected
            && Balance(r.book.txs, v) == Balance(book.txs, v)
  {
    var hold := Move(WithdrawalHold, amount, None, user, system);
    var o := Hold(book, user, system, ws, order, uid, amount, newId);
    assert o.book.txs == book.txs + [hold];
    var r := Reversal(o.book, user, system, o.withdrawals, admin, newId);
    assert r.book.txs == o.book.txs + [CreditFirst(WithdrawalReversal, amount, None, user, system)];
    ReversalMirrorsHold(amount, user, system);
    HoldThenMirrorRestores(book.txs, hold, [], WithdrawalReversal, v);
    assert book.txs + [hold] + [] == o.book.txs && book.txs + [] == book.txs;
  }

  /** Create and reject hand over to Hold and Reversal once their guards pass. */
  lemma HandlersDelegate(book: Book, walletOf: map<UserId, WalletId>, system: WalletId, ws: map<string, Withdrawal>,
                         order: seq<string>, uid: UserId, amount: int, newId: string, admin: UserId, id: string)
    requires WellFormed(book) && newId !in ws && AmountsPositive(ws)
    ensures amount > 0 && uid in walletOf ==>
              Open(book, walletOf, system, ws, order, uid, amount, newId) == Hold(book, walletOf[uid], system, ws, order, uid, amount, newId)
    ensures id != "" && id in ws && ws[id].status == Pending && ws[id].userId in walletOf ==>
              Reverse(book, walletOf, system, ws, admin, id) == Reversal(book, walletOf[ws[id].userId], system, ws, admin, id)
  {
  }

  method AdminRejectWithdrawal(s: Store, admin: UserId, id: string)
    returns (reply: Reply<Rejection>, locks: seq<WalletId>)
    requires s.Valid()
    modifies s`book, s`withdrawals, s`withdrawalOrder, s`transfers
    ensures s.Valid() && s.withdrawalOrder == old(s.withdrawalOrder) && s.transfers == old(s.transfers)
    ensures var o := Reverse(old(s.book), s.walletOf, s.systemWallet, old(s.withdrawals), admin, id);
            reply == o.reply && locks == o.locks && s.book == o.book && s.withdrawals == o.withdrawals
  {
    locks := [];
    if id == "" {
      reply := Fail(400, "invalid_id");
      return;
    }
    if id !in s.withdrawals || s.withdrawals[id].status != Pending {
      reply := Fail(404, "not_found_or_already_processed");
      return;
    }
    var w := s.withdrawals[id];
    var user := s.walletOf[w.userId];
    locks := LockOrder(user, s.systemWallet);
    var book := Post(s.book, CreditFirst(WithdrawalReversal, w.amount, None, user, s.systemWallet));
    var row := w.(status := Rejected, decidedBy := Some(admin));
    HoldsSurviveAppend(s.book, book, s.walletOf, s.systemWallet, s.withdrawals);
    PayoutsKeyedGrow(s.book, book, s.payouts);
    HoldsSurviveWrite(book, s.walletOf, s.systemWallet, s.withdrawals, id, row);
    ListsKeysUpdate(s.withdrawalOrder, s.withdrawals, id, row);
    s.CommitWithdrawals(book, s.withdrawals[id := row], s.withdrawalOrder, s.transfers);
    reply := Ok(200, Rejection(id, "rejected"));
  }

  // ---------- ListMyWithdrawals

  /** ps lists positions in order of uid's withdrawals, from the newest to the oldest. */
  predicate OwnedNewestFirst(order: seq<string>, ws: map<string, Withdrawal>, uid: UserId, ps: seq<nat>) {
    && (forall i :: 0 <= i < |ps| ==> ps[i] < |order| && order[ps[i]] in ws && ws[order[ps[i]]].userId == uid)
    && (forall i, j :: 0 <= i < j < |ps| ==> ps[i] > ps[j])
  }

  /** The positions in order of uid's withdrawals, newest first. */
  function NewestOwned(order: seq<string>, ws: map<string, Withdrawal>, uid: UserId): (ps: seq<nat>)
    ensures |ps| <= |order|
  {
    if order == [] then []
    else
      var last := |order| - 1;
      var rest := NewestOwned(order[..last], ws, uid);
      if order[last] in ws && ws[order[last]].userId == uid then [last] + rest else rest
  }

  /** Positions found in a prefix of order are positions in order, below the prefix's length. */
  lemma OwnedPrefix(order: seq<string>, ws: map<string, Withdrawal>, uid: UserId, ps: seq<nat>, n: nat)
    requires n <= |order| && OwnedNewestFirst(order[..n], ws, uid, ps)
    ensures OwnedNewestFirst(order, ws, uid, ps) && forall i :: 0 <= i < |ps| ==> ps[i] < n
  {
    forall i | 0 <= i < |ps| ensures ps[i] < n && order[ps[i]] == order[..n][ps[i]] {
    }
  }

  /** A newer position of uid's can go in front. */
  lemma OwnedCons(order: seq<string>, ws: map<string, Withdrawal>, uid: UserId, k: nat, ps: seq<nat>)
    requires OwnedNewestFirst(order, ws, uid, ps) && forall i :: 0 <= i < |ps| ==> ps[i] < k
    requires k < |order| && order[k] in ws && ws[order[k]].userId == uid
    ensures OwnedNewestFirst(order, ws, uid, [k] + ps)
  {
    var r := [k] + ps;
    forall i | 1 <= i < |r| ensures r[i] == ps[i - 1] {
    }
  }

  /** NewestOwned lists only uid's withdrawals, newest first. */
  lemma {:induction false} NewestOwnedSound(order: seq<string>, ws: map<string, Withdrawal>, uid: UserId)
    ensures OwnedNewestFirst(order, ws, uid, NewestOwned(order, ws, uid))
  {
    if order != [] {
      var last := |order| - 1;
      var rest := NewestOwned(order[..last], ws, uid);
      NewestOwnedSound(order[..last], ws, uid);
      OwnedPrefix(order, ws, uid, rest, last);
      if order[last] in ws && ws[order[last]].userId == uid {
        OwnedCons(order, ws, uid, last, rest);
      }
    }
  }

  /** Every withdrawal of uid is listed. */
  lemma {:induction false} NewestOwnedComplete(order: seq<string>, ws: map<string, Withdrawal>, uid: UserId, k: nat)
    requires k < |order| && order[k] in ws && ws[order[k]].userId == uid
    ensures exists i :: 0 <= i < |NewestOwned(order, ws, uid)| && NewestOwned(order, ws, uid)[i] == k
  {
    var last := |order| - 1;
    var ps := NewestOwned(order, ws, uid);
    var rest := NewestOwned(order[..last], ws, uid);
    var mine := order[last] in ws && ws[order[last]].userId == uid;
    if k == last {
      assert ps[0] == k;
    } else {
      assert order[..last][k] == order[k];
      NewestOwnedComplete(order[..last], ws, uid, k);
      var i :| 0 <= i < |rest| && rest[i] == k;
      if mine {
        assert ps[i + 1] == rest[i];
      } else {
        assert ps[i] == rest[i];
      }
    }
  }

  function ViewOf(id: string, w: Withdrawal): WithdrawalView {
    WithdrawalView(id, WithdrawalStatusName(w.status), w.amount, "NGN")
  }

  /** The rows at the given positions. */
  function ViewsAt(order: seq<string>, ws: map<string, Withdrawal>, ps: seq<nat>): (rows: seq<WithdrawalView>)
    requires forall i :: 0 <= i < |ps| ==> ps[i] < |order| && order[ps[i]] in ws
    ensures |rows| == |ps|
    ensures forall i :: 0 <= i < |ps| ==> rows[i] == ViewOf(order[ps[i]], ws[order[ps[i]]])
  {
    if ps == [] then [] else [ViewOf(order[ps[0]], ws[order[ps[0]]])] + ViewsAt(order, ws, ps[1..])
  }

  /** Rows that are uid's own withdrawals, each shown as stored and each at most once. */
  predicate OwnViews(ws: map<string, Withdrawal>, uid: UserId, rows: seq<WithdrawalView>) {
    && (forall i :: 0 <= i < |rows| ==>
          rows[i].id in ws && ws[rows[i].id].userId == uid && rows[i] == ViewOf(rows[i].id, ws[rows[i].id]))
    && (forall i, j :: 0 <= i < j < |rows| ==> rows[i].id != rows[j].id)
  }

  /** The rows at distinct positions of uid's withdrawals are uid's own views, each once. */
  lemma ViewsAtOwn(order: seq<string>, ws: map<string, Withdrawal>, uid: UserId, ps: seq<nat>)
    requires ListsKeys(order, ws) && OwnedNewestFirst(order, ws, uid, ps)
    ensures OwnViews(ws, uid, ViewsAt(order, ws, ps))
  {
    var rows := ViewsAt(order, ws, ps);
    forall i, j | 0 <= i < j < |rows| ensures rows[i].id != rows[j].id {
      assert rows[i].id == order[ps[i]] && rows[j].id == order[ps[j]];
      assert ps[j] < ps[i];
    }
  }

  /** A page of own views is own views. */
  lemma PageKeepsOwnViews(ws: map<string, Withdrawal>, uid: UserId, rows: seq<WithdrawalView>, limit: nat, offset: nat)
    requires OwnViews(ws, uid, rows)
    ensures OwnViews(ws, uid, Page(rows, limit, offset))
  {
    var page := Page(rows, limit, offset);
    forall i, j | 0 <= i < j < |page| ensures page[i].id != page[j].id {
      assert page[i] == rows[offset + i] && page[j] == rows[offset + j];
    }
    forall i | 0 <= i < |page| ensures page[i] == rows[offset + i] {
    }
  }

  /** ListMyWithdrawals: one page of the caller's withdrawals, newest first, each at most once. */
  function ListMyWithdrawals(s: Store, uid: UserId, limitParam: string, offsetParam: string): (r: Reply<WithdrawalPage>)
    reads s
    requires ListsKeys(s.withdrawalOrder, s.withdrawals)
    ensures r.Ok? && r.status == 200
    ensures r.data.limit == Limit(limitParam) && r.data.offset == Offset(offsetParam)
    ensures |r.data.rows| <= r.data.limit
    ensures OwnViews(s.withdrawals, uid, r.data.rows)
    ensures OwnedNewestFirst(s.withdrawalOrder, s.withdrawals, uid, NewestOwned(s.withdrawalOrder, s.withdrawals, uid))
    ensures r.data.rows == Page(ViewsAt(s.withdrawalOrder, s.withdrawals, NewestOwned(s.withdrawalOrder, s.withdrawals, uid)),
                                Limit(limitParam), Offset(offsetParam))
  {
    var order, ws := s.withdrawalOrder, s.withdrawals;
    var ps := NewestOwned(order, ws, uid);
    NewestOwnedSound(order, ws, uid);
    var all := ViewsAt(order, ws, ps);
    var limit, offset := Limit(limitParam), Offset(offsetParam);
    assert OwnViews(ws, uid, Page(all, limit, offset)) by {
      ViewsAtOwn(order, ws, uid, ps);
      PageKeepsOwnViews(ws, uid, all, limit, offset);
    }
    Ok(200, WithdrawalPage(Page(all, limit, offset), limit, offset))
  }
}
