/** The payout flow of payout_handlers.go: a user's payout destinations, the reserve that moves a
    withdrawal's amount to the system wallet and opens a payout, and the admin's approval (a bank
    transfer request) or rejection (a refund of the reserve). */
module Payouts {
  import opened Base
  import opened Text
  import opened Locking
  import opened Ledger
  import opened Store

  /** A field the handlers refuse: nothing but white space. */
  predicate Blank(s: string) {
    TrimSpace(s) == ""
  }

  // ---------- CreatePayoutDestination

  /** The JSON body; isDefault is None when the client leaves the field out. */
  datatype DestinationRequest = DestinationRequest(bankCode: string, accountNumber: string, accountName: string, isDefault: Option<bool>)

  /** The response of a destination handler and the destinations table afterwards. */
  datatype DestinationOutcome<T> = DestinationOutcome(reply: Reply<T>, destinations: seq<Destination>)

  /** d, no longer a default if it belongs to uid. */
  function Undefault(d: Destination, uid: UserId): Destination {
    if d.userId == uid then d.(isDefault := false) else d
  }

  /** The UPDATE that clears every default flag of uid. */
  function ClearDefaults(ds: seq<Destination>, uid: UserId): (r: seq<Destination>)
    ensures |r| == |ds|
    ensures forall i :: 0 <= i < |r| && r[i].userId == uid ==> !r[i].isDefault
    ensures forall i :: 0 <= i < |ds| ==> r[i].(isDefault := ds[i].isDefault) == ds[i]
    ensures forall i :: 0 <= i < |ds| && ds[i].userId != uid ==> r[i] == ds[i]
  {
    seq(|ds|, i requires 0 <= i < |ds| => Undefault(ds[i], uid))
  }

  /** What CreatePayoutDestination does: the row is stored with the fields as sent (only their
      blankness is checked on the trimmed text) and becomes the user's only default when asked to. */
  function AddDestination(ds: seq<Destination>, uid: UserId, req: DestinationRequest, newId: string): (o: DestinationOutcome<string>)
    ensures o.reply.Fail? <==> Blank(req.bankCode) || Blank(req.accountNumber) || Blank(req.accountName)
    ensures o.reply.Fail? ==> o.reply == Fail(400, "invalid_request") && o.destinations == ds
    ensures o.reply.Ok? ==> o.reply == Ok(201, newId) && |o.destinations| == |ds| + 1
  {
    if Blank(req.bankCode) || Blank(req.accountNumber) || Blank(req.accountName) then
      DestinationOutcome(Fail(400, "invalid_request"), ds)
    else
      var isDefault := req.isDefault == Some(true);
      var kept := if isDefault then ClearDefaults(ds, uid) else ds;
      DestinationOutcome(Ok(201, newId), kept + [Destination(newId, uid, req.bankCode, req.accountNumber, req.accountName, isDefault, true)])
  }

  /** The new row comes last; other users' rows are untouched, the user's rows change at most in
      their flag, and a new default is the user's only default. */
  lemma AddDestinationEffect(ds: seq<Destination>, uid: UserId, req: DestinationRequest, newId: string)
    requires AddDestination(ds, uid, req, newId).reply.Ok?
    ensures var r := AddDestination(ds, uid, req, newId).destinations;
      && r[|ds|] == Destination(newId, uid, req.bankCode, req.accountNumber, req.accountName, req.isDefault == Some(true), true)
      && (forall i :: 0 <= i < |ds| && ds[i].userId != uid ==> r[i] == ds[i])
      && (forall i :: 0 <= i < |ds| && ds[i].userId == uid ==> r[i].(isDefault := ds[i].isDefault) == ds[i])
      && (req.isDefault == Some(true) ==> forall i :: 0 <= i < |ds| && r[i].userId == uid ==> !r[i].isDefault)
      && (req.isDefault != Some(true) ==> r[..|ds|] == ds)
  {
  }

  /** Adding a destination under a fresh id keeps ids unique and at most one default per user. */
  lemma AddDestinationKeepsInvariants(ds: seq<Destination>, uid: UserId, req: DestinationRequest, newId: string)
    requires DestinationIdsUnique(ds) && DefaultsUnique(ds)
    requires forall i :: 0 <= i < |ds| ==> ds[i].id != newId
    ensures DestinationIdsUnique(AddDestination(ds, uid, req, newId).destinations)
    ensures DefaultsUnique(AddDestination(ds, uid, req, newId).destinations)
  {
    var r := AddDestination(ds, uid, req, newId).destinations;
    if AddDestination(ds, uid, req, newId).reply.Ok? {
      AddDestinationEffect(ds, uid, req, newId);
      forall i, j | 0 <= i < j < |r| ensures r[i].id != r[j].id {
        assert r[i].id == ds[i].id;
        if j < |ds| { assert r[j].id == ds[j].id; }
      }
      forall i, j | 0 <= i < j < |r| && r[i].userId == r[j].userId ensures !(r[i].isDefault && r[j].isDefault) {
        assert r[i].userId == ds[i].userId && (r[i].isDefault ==> ds[i].isDefault);
        if j < |ds| {
          assert r[j].userId == ds[j].userId && (r[j].isDefault ==> ds[j].isDefault);
        }
      }
    }
  }

  /** The UPDATE clearing uid's defaults, row by row. */
  method ClearUserDefaults(ds: seq<Destination>, uid: UserId) returns (r: seq<Destination>)
    ensures r == ClearDefaults(ds, uid)
  {
    r := ds;
    var i := 0;
    while i < |r|
      invariant 0 <= i <= |r| == |ds|
      invariant forall j :: 0 <= j < i ==> r[j] == Undefault(ds[j], uid)
      invariant forall j :: i <= j < |r| ==> r[j] == ds[j]
    {
      if r[i].userId == uid {
        r := r[i := r[i].(isDefault := false)];
      }
      i := i + 1;
    }
  }

  method CreatePayoutDestination(s: Store, uid: UserId, req: DestinationRequest, newId: string) returns (reply: Reply<string>)
    requires s.Valid()
    requires forall i :: 0 <= i < |s.destinations| ==> s.destinations[i].id != newId
    modifies s`book, s`destinations, s`payouts, s`payoutOrder
    ensures s.Valid()
    ensures s.book == old(s.book) && s.payouts == old(s.payouts) && s.payoutOrder == old(s.payoutOrder)
    ensures var o := AddDestination(old(s.destinations), uid, req, newId);
            reply == o.reply && s.destinations == o.destinations
  {
    if TrimSpace(req.bankCode) == "" || TrimSpace(req.accountNumber) == "" || TrimSpace(req.accountName) == "" {
      reply := Fail(400, "invalid_request");
      return;
    }
    var isDefault := false;
    if req.isDefault.Some? {
      isDefault := req.isDefault.value;
    }
    var ds := s.destinations;
    if isDefault {
      ds := ClearUserDefaults(ds, uid);
    }
    var row := Destination(newId, uid, req.bankCode, req.accountNumber, req.accountName, isDefault, true);
    AddDestinationKeepsInvariants(s.destinations, uid, req, newId);
    s.CommitPayouts(s.book, ds + [row], s.payouts, s.payoutOrder);
    reply := Ok(201, newId);
  }

  // ---------- DeletePayoutDestination

  predicate Matches(d: Destination, id: string, uid: UserId) {
    d.id == id && d.userId == uid
  }

  /** The rows that DELETE ... WHERE id=$1 AND user_id=$2 leaves, in their order. */
  function Without(ds: seq<Destination>, id: string, uid: UserId): (r: seq<Destination>)
    ensures |r| <= |ds|
  {
    if ds == [] then []
    else
      var p, last := ds[..|ds| - 1], ds[|ds| - 1];
      Without(p, id, uid) + (if Matches(last, id, uid) then [] else [last])
  }

  /** The DELETE removes exactly the matching rows, and removes something exactly when some row
      matches. */
  lemma {:induction false} WithoutSpec(ds: seq<Destination>, id: string, uid: UserId)
    ensures forall d :: d in Without(ds, id, uid) <==> d in ds && !Matches(d, id, uid)
    ensures |Without(ds, id, uid)| == |ds| <==> forall i :: 0 <= i < |ds| ==> !Matches(ds[i], id, uid)
  {
    if ds != [] {
      var p, last := ds[..|ds| - 1], ds[|ds| - 1];
      assert ds == p + [last];
      WithoutSpec(p, id, uid);
    }
  }

  /** A row whose id is new and which is not a second default of its user can be appended. */
  lemma AppendKeepsInvariants(w: seq<Destination>, last: Destination)
    requires DestinationIdsUnique(w) && DefaultsUnique(w)
    requires forall i :: 0 <= i < |w| ==> w[i].id != last.id && (w[i].userId == last.userId ==> !(w[i].isDefault && last.isDefault))
    ensures DestinationIdsUnique(w + [last]) && DefaultsUnique(w + [last])
  {
    var r := w + [last];
    forall i, j | 0 <= i < j < |r| ensures r[i].id != r[j].id {
      if j < |w| { assert r[i] == w[i] && r[j] == w[j]; } else { assert r[i] == w[i] && r[j] == last; }
    }
    forall i, j | 0 <= i < j < |r| && r[i].userId == r[j].userId ensures !(r[i].isDefault && r[j].isDefault) {
      if j < |w| { assert r[i] == w[i] && r[j] == w[j]; } else { assert r[i] == w[i] && r[j] == last; }
    }
  }

  /** Removing rows keeps ids unique and at most one default per user. */
  lemma {:induction false} WithoutKeepsInvariants(ds: seq<Destination>, id: string, uid: UserId)
    requires DestinationIdsUnique(ds) && DefaultsUnique(ds)
    ensures DestinationIdsUnique(Without(ds, id, uid)) && DefaultsUnique(Without(ds, id, uid))
  {
    if ds != [] {
      var p, last := ds[..|ds| - 1], ds[|ds| - 1];
      WithoutKeepsInvariants(p, id, uid);
      WithoutSpec(p, id, uid);
      var w := Without(p, id, uid);
      if !Matches(last, id, uid) {
        forall i | 0 <= i < |w|
          ensures w[i].id != last.id && (w[i].userId == last.userId ==> !(w[i].isDefault && last.isDefault))
        {
          assert w[i] in p;
          var k :| 0 <= k < |p| && p[k] == w[i];
          assert ds[k] == w[i];
        }
        AppendKeepsInvariants(w, last);
      }
    }
  }

  /** What DeletePayoutDestination does: the trimmed id must be present, and only the caller's
      own row with that id goes. */
  function DeleteDestination(ds: seq<Destination>, uid: UserId, rawId: string): (o: DestinationOutcome<bool>)
    ensures o.reply == Fail(400, "missing_id") <==> Blank(rawId)
    ensures o.reply == Fail(404, "not_found") <==>
              !Blank(rawId) && forall i :: 0 <= i < |ds| ==> !Matches(ds[i], TrimSpace(rawId), uid)
    ensures o.reply.Fail? ==> o.destinations == ds
    ensures o.reply.Ok? ==>
              && o.reply == Ok(200, true) && |o.destinations| < |ds|
              && (forall d :: d in o.destinations <==> d in ds && !Matches(d, TrimSpace(rawId), uid))
  {
    var id := TrimSpace(rawId);
    if id == "" then DestinationOutcome(Fail(400, "missing_id"), ds)
    else
      var kept := Without(ds, id, uid);
      WithoutSpec(ds, id, uid);
      if |kept| == |ds| then DestinationOutcome(Fail(404, "not_found"), ds)
      else DestinationOutcome(Ok(200, true), kept)
  }

  /** Another user's destination cannot be deleted: the handler answers 404 and keeps it. */
  lemma DeleteOthersDestinationRefused(ds: seq<Destination>, uid: UserId, rawId: string, k: nat)
    requires DestinationIdsUnique(ds) && k < |ds|
    requires ds[k].id == TrimSpace(rawId) && ds[k].userId != uid && !Blank(rawId)
    ensures DeleteDestination(ds, uid, rawId) == DestinationOutcome(Fail(404, "not_found"), ds)
  {
    forall i | 0 <= i < |ds| ensures !Matches(ds[i], TrimSpace(rawId), uid) {
      if i < k { assert ds[i].id != ds[k].id; } else if i > k { assert ds[k].id != ds[i].id; }
    }
  }

  /** The DELETE, row by row: keeps every row but the caller's own row with the id. */
  method KeepOthers(ds: seq<Destination>, id: string, uid: UserId) returns (kept: seq<Destination>)
    ensures kept == Without(ds, id, uid)
  {
    kept := [];
    var i := 0;
    while i < |ds|
      invariant 0 <= i <= |ds|
      invariant kept == Without(ds[..i], id, uid)
    {
      assert ds[..i + 1][..i] == ds[..i];
      if !Matches(ds[i], id, uid) {
        kept := kept + [ds[i]];
      }
      i := i + 1;
    }
    assert ds[..|ds|] == ds;
  }

  method DeletePayoutDestination(s: Store, uid: UserId, rawId: string) returns (reply: Reply<bool>)
    requires s.Valid()
    modifies s`book, s`destinations, s`payouts, s`payoutOrder
    ensures s.Valid()
    ensures s.book == old(s.book) && s.payouts == old(s.payouts) && s.payoutOrder == old(s.payoutOrder)
    ensures var o := DeleteDestination(old(s.destinations), uid, rawId);
            reply == o.reply && s.destinations == o.destinations
  {
    var id := TrimSpace(rawId);
    if id == "" {
      reply := Fail(400, "missing_id");
      return;
    }
    var kept := KeepOthers(s.destinations, id, uid);
    if |kept| == |s.destinations| {
      reply := Fail(404, "not_found");
      return;
    }
    WithoutKeepsInvariants(s.destinations, id, uid);
    s.CommitPayouts(s.book, kept, s.payouts, s.payoutOrder);
    reply := Ok(200, true);
  }

  // ---------- CreateWithdrawal (the reserve)

  /** The response of CreateWithdrawal; reference is omitted on an idempotent replay. */
  datatype PayoutReceipt = PayoutReceipt(payoutId: string, status: string, reference: Option<string>)

  /** The outcome of CreateWithdrawal: the response, the ledger and payouts afterwards, and the
      wallets locked, in locking order. */
  datatype ReserveOutcome = ReserveOutcome(
    reply: Reply<PayoutReceipt>, book: Book, payouts: map<string, Payout>, order: seq<string>, locks: seq<WalletId>)

  /** SELECT ... FROM payout_destinations WHERE id=$1: the position of the row with that id. */
  function FindDestination(ds: seq<Destination>, id: string): (r: Option<nat>)
    ensures r.Some? ==> r.value < |ds| && ds[r.value].id == id
    ensures r.None? <==> forall i :: 0 <= i < |ds| ==> ds[i].id != id
  {
    if ds == [] then None
    else if ds[0].id == id then Some(0)
    else match FindDestination(ds[1..], id)
      case None => None
      case Some(i) => Some(i + 1)
  }

  /** The destination exists and belongs to uid. */
  predicate OwnsDestination(ds: seq<Destination>, destId: string, uid: UserId) {
    match FindDestination(ds, destId)
    case None => false
    case Some(i) => ds[i].userId == uid
  }

  /** The Idempotency-Key header, or a fresh "wd-" reference when the header is empty. */
  function IdempotencyKey(header: string, uuid: string): (k: string)
    ensures k != ""
    ensures header != "" ==> k == header
    ensures header == "" ==> |k| == |uuid| + 3 && k[..3] == "wd-" && k[3..] == uuid
  {
    if header == "" then "wd-" + uuid else header
  }

  /** SELECT id FROM payouts WHERE reference=$1. */
  function PayoutByReference(payouts: map<string, Payout>, order: seq<string>, reference: string): (r: Option<string>)
    ensures r.Some? ==> r.value in payouts && payouts[r.value].reference == reference
    ensures r.None? ==> forall i :: 0 <= i < |order| && order[i] in payouts ==> payouts[order[i]].reference != reference
  {
    if order == [] then None
    else if order[0] in payouts && payouts[order[0]].reference == reference then Some(order[0])
    else
      var r := PayoutByReference(payouts, order[1..], reference);
      assert r.None? ==> forall i :: 1 <= i < |order| && order[i] in payouts ==> payouts[order[i]].reference != reference by {
        if r.None? {
          forall i | 1 <= i < |order| && order[i] in payouts ensures payouts[order[i]].reference != reference {
            assert order[i] == order[1..][i - 1];
          }
        }
      }
      r
  }
  /** The first of CreateWithdrawal's guards that the request fails, in the handler's order. */
  function ReserveRefusal(ds: seq<Destination>, walletOf: map<UserId, WalletId>, uid: UserId, destId: string, amount: int): (r: Option<Reply<PayoutReceipt>>)
    ensures r.None? <==> amount > 0 && !Blank(destId) && OwnsDestination(ds, destId, uid) && uid in walletOf
    ensures r.Some? ==> r.value.Fail?
  {
    if amount <= 0 || Blank(destId) then Some(Fail(400, "invalid_request"))
    else if !OwnsDestination(ds, destId, uid) then Some(Fail(400, "invalid_destination"))
    else if uid !in walletOf then Some(Fail(500, "wallet_not_found"))
    else None
  }

  /** CreateWithdrawal once its guards pass, for the user's wallet `user`. There is no balance
      check: the reserve is posted whatever the user's balance. A key already in the ledger
      replays with 200 and the payout carrying it, or an empty id when the key belongs to some
      other transaction. */
  function ReserveFunds(book: Book, system: WalletId, user: WalletId, payouts: map<string, Payout>, order: seq<string>,
                        uid: UserId, destId: string, amount: int, key: string, newId: string): (o: ReserveOutcome)
    requires WellFormed(book) && amount > 0
    ensures WellFormed(o.book)
  {
    var locks := LockOrder(system, user);
    if key in book.keys then
      var existing := PayoutByReference(payouts, order, key);
      ReserveOutcome(Ok(200, PayoutReceipt(if existing.Some? then existing.value else "", "pending", None)), book, payouts, order, locks)
    else
      ReserveOutcome(Ok(201, PayoutReceipt(newId, "pending", Some(key))),
                     Post(book, Move(WithdrawalReserve, amount, Some(key), user, system)),
                     payouts[newId := Payout(uid, destId, amount, PayoutPending, key)], order + [newId], locks)
  }

  /** What CreateWithdrawal does. */
  function Reserve(book: Book, walletOf: map<UserId, WalletId>, system: WalletId, ds: seq<Destination>,
                   payouts: map<string, Payout>, order: seq<string>,
                   uid: UserId, destId: string, amount: int, key: string, newId: string): (o: ReserveOutcome)
    requires WellFormed(book)
    ensures WellFormed(o.book)
  {
    match ReserveRefusal(ds, walletOf, uid, destId, amount)
    case Some(refusal) => ReserveOutcome(refusal, book, payouts, order, [])
    case None => ReserveFunds(book, system, walletOf[uid], payouts, order, uid, destId, amount, key, newId)
  }

  /** The guards, in the order the handler checks them; a request that passes them all is
      served by ReserveFunds on the user's wallet, and one that fails changes nothing. */
  lemma ReserveGuards(book: Book, walletOf: map<UserId, WalletId>, system: WalletId, ds: seq<Destination>,
                      payouts: map<string, Payout>, order: seq<string>,
                      uid: UserId, destId: string, amount: int, key: string, newId: string)
    requires WellFormed(book)
    ensures var o := Reserve(book, walletOf, system, ds, payouts, order, uid, destId, amount, key, newId);
      && (o.reply == Fail(400, "invalid_request") <==> amount <= 0 || Blank(destId))
      && (o.reply == Fail(400, "invalid_destination") <==> amount > 0 && !Blank(destId) && !OwnsDestination(ds, destId, uid))
      && (o.reply == Fail(500, "wallet_not_found") <==>
            amount > 0 && !Blank(destId) && OwnsDestination(ds, destId, uid) && uid !in walletOf)
      && (o.reply.Ok? <==> amount > 0 && !Blank(destId) && OwnsDestination(ds, destId, uid) && uid in walletOf)
      && (o.reply.Fail? ==> o.book == book && o.payouts == payouts && o.order == order && o.locks == [])
      && (o.reply.Ok? ==>
            && amount > 0 && uid in walletOf
            && o == ReserveFunds(book, system, walletOf[uid], payouts, order, uid, destId, amount, key, newId))
  {
  }

  /** The reserve posts exactly when its key is new to the ledger: then it answers 201 with the
      new payout, takes the amount from the user's wallet and gives it to the system wallet, even
      when the user's balance is below the amount (the balance then goes negative), and opens a
      pending payout under the key; under a known key it answers 200 and changes nothing. */
  lemma ReserveMovesFunds(book: Book, system: WalletId, user: WalletId, payouts: map<string, Payout>, order: seq<string>,
                          uid: UserId, destId: string, amount: int, key: string, newId: string, w: WalletId)
    requires WellFormed(book) && amount > 0
    ensures var o := ReserveFunds(book, system, user, payouts, order, uid, destId, amount, key, newId);
      && o.reply.Ok? && o.locks == LockOrder(system, user)
      && (o.reply.status == 200 <==> key in book.keys)
      && (key in book.keys ==> o.book == book && o.payouts == payouts && o.order == order && o.reply.data.reference == None)
      && (key !in book.keys ==>
            && o.reply == Ok(201, PayoutReceipt(newId, "pending", Some(key)))
            && o.book.txs == book.txs + [Move(WithdrawalReserve, amount, Some(key), user, system)]
            && o.payouts == payouts[newId := Payout(uid, destId, amount, PayoutPending, key)]
            && o.order == order + [newId]
            && Balance(o.book.txs, w) == Balance(book.txs, w) + (if w == system then amount else 0) - (if w == user then amount else 0)
            && (w == user && w != system && Balance(book.txs, w) < amount ==> Balance(o.book.txs, w) < 0))
  {
    if key !in book.keys {
      var t := Move(WithdrawalReserve, amount, Some(key), user, system);
      PostBalance(book, t, w);
      MoveDelta(WithdrawalReserve, amount, Some(key), user, system, w);
    }
  }

  /** A payout funded under a key new to the ledger keeps every reference keyed and unique. */
  lemma PayoutsKeyedInsert(b: Book, b': Book, payouts: map<string, Payout>, id: string, p: Payout)
    requires PayoutsKeyed(b, payouts)
    requires b.keys.Keys <= b'.keys.Keys && p.reference in b'.keys && p.reference !in b.keys
    ensures PayoutsKeyed(b', payouts[id := p])
  {
  }

  /** A reserve keeps the invariants of the ledger and the payouts table. */
  lemma ReserveKeepsInvariants(book: Book, walletOf: map<UserId, WalletId>, system: WalletId, user: WalletId,
                               payouts: map<string, Payout>, order: seq<string>,
                               uid: UserId, destId: string, amount: int, key: string, newId: string,
                               ws: map<string, Withdrawal>)
    requires WellFormed(book) && amount > 0 && newId !in payouts
    requires HoldsLinked(book, walletOf, system, ws) && PayoutsPositive(payouts) && PayoutsKeyed(book, payouts) && ListsKeys(order, payouts)
    ensures var o := ReserveFunds(book, system, user, payouts, order, uid, destId, amount, key, newId);
      && HoldsLinked(o.book, walletOf, system, ws) && PayoutsPositive(o.payouts)
      && PayoutsKeyed(o.book, o.payouts) && ListsKeys(o.order, o.payouts)
  {
    if key !in book.keys {
      var b := Post(book, Move(WithdrawalReserve, amount, Some(key), user, system));
      var row := Payout(uid, destId, amount, PayoutPending, key);
      HoldsSurviveAppend(book, b, walletOf, system, ws);
      PayoutsKeyedInsert(book, b, payouts, newId, row);
      ListsKeysInsert(order, payouts, newId, row);
    }
  }

  /** Sending the same request again with the same key replays the first answer's payout id and
      posts nothing. */
  lemma ReserveReplays(book: Book, system: WalletId, user: WalletId, payouts: map<string, Payout>, order: seq<string>,
                       uid: UserId, destId: string, amount: int, key: string, newId: string, nextId: string)
    requires WellFormed(book) && amount > 0 && PayoutsKeyed(book, payouts)
    ensures var o := ReserveFunds(book, system, user, payouts, order, uid, destId, amount, key, newId);
            var o' := ReserveFunds(o.book, system, user, o.payouts, o.order, uid, destId, amount, key, nextId);
      && o'.reply.Ok? && o'.reply.status == 200
      && o'.book == o.book && o'.payouts == o.payouts && o'.order == o.order
      && (key !in book.keys ==> o'.reply.data == PayoutReceipt(newId, "pending", None))
  {
    if key !in book.keys {
      var o := ReserveFunds(book, system, user, payouts, order, uid, destId, amount, key, newId);
      assert key in o.book.keys;
      assert o.order[|order|] == newId;
      var found := PayoutByReference(o.payouts, o.order, key);
      assert found.Some? by {
        assert 0 <= |order| < |o.order| && o.order[|order|] in o.payouts;
      }
    }
  }

  // ---------- AdminApproveWithdrawal (payouts)

  /** The provider call CreateTransfer(bank, account, amount, currency, narration, reference). */
  datatype TransferCall = TransferCall(bank: string, account: string, amount: int, currency: string, narration: string, reference: string)

  datatype ApprovalReceipt = AlreadySucceeded | ApprovedPayout(payoutId: string, reference: string)

  /** The outcome of the payout approval: the response, the payouts afterwards and the provider
      call, if one was made. */
  datatype ApprovalOutcome = ApprovalOutcome(reply: Reply<ApprovalReceipt>, payouts: map<string, Payout>, call: Option<TransferCall>)

  /** The transfer requested for p when its destination has a bank code and an account number. */
  function BankTransfer(ds: seq<Destination>, p: Payout): (c: Option<TransferCall>)
    ensures c.Some? ==>
              && c.value.bank != "" && c.value.account != ""
              && c.value.amount == p.amount && c.value.currency == "NGN" && c.value.reference == p.reference
    ensures (forall i :: 0 <= i < |ds| ==> ds[i].id != p.destinationId) ==> c.None?
  {
    match FindDestination(ds, p.destinationId)
    case None => None
    case Some(i) =>
      if ds[i].bankCode != "" && ds[i].accountNumber != "" then
        Some(TransferCall(ds[i].bankCode, ds[i].accountNumber, p.amount, "NGN", "Okies payout", p.reference))
      else None
  }

  /** The approval of an existing payout: a succeeded one is left alone; any other, a rejected
      one included, becomes approved and the transfer is requested when the provider is
      configured. The transfer's result is ignored, and the webhook settles it. */
  function MarkApproved(payouts: map<string, Payout>, ds: seq<Destination>, id: string, providerConfigured: bool): (o: ApprovalOutcome)
    requires id in payouts
    ensures o.reply.Ok? && o.payouts.Keys == payouts.Keys
    ensures payouts[id].status != PayoutSucceeded ==> o.payouts[id].status == PayoutApproved
    ensures o.call.Some? ==> providerConfigured && payouts[id].status != PayoutSucceeded
  {
    var p := payouts[id];
    if p.status == PayoutSucceeded then ApprovalOutcome(Ok(200, AlreadySucceeded), payouts, None)
    else
      var call := if providerConfigured then BankTransfer(ds, p) else None;
      ApprovalOutcome(Ok(200, ApprovedPayout(id, p.reference)), payouts[id := p.(status := PayoutApproved)], call)
  }

  /** What the approval does. */
  function ApprovePayout(payouts: map<string, Payout>, ds: seq<Destination>, rawId: string, providerConfigured: bool): (o: ApprovalOutcome)
    ensures o.payouts.Keys == payouts.Keys
    ensures o.reply.Fail? ==> o.payouts == payouts && o.call == None
  {
    var id := TrimSpace(rawId);
    if id == "" then ApprovalOutcome(Fail(400, "missing_id"), payouts, None)
    else if id !in payouts then ApprovalOutcome(Fail(404, "payout_not_found"), payouts, None)
    else MarkApproved(payouts, ds, id, providerConfigured)
  }

  /** The guards: a missing or unknown id fails and changes nothing; any other approval succeeds. */
  lemma ApprovePayoutGuards(payouts: map<string, Payout>, ds: seq<Destination>, rawId: string, providerConfigured: bool)
    ensures var o := ApprovePayout(payouts, ds, rawId, providerConfigured); var id := TrimSpace(rawId);
      && (o.reply == Fail(400, "missing_id") <==> id == "")
      && (o.reply == Fail(404, "payout_not_found") <==> id != "" && id !in payouts)
      && (o.reply.Ok? <==> id != "" && id in payouts)
      && (o.reply.Fail? ==> o.payouts == payouts && o.call == None)
      && (o.reply.Ok? ==> id in payouts && o == MarkApproved(payouts, ds, id, providerConfigured))
  {
  }

  /** The status written: a succeeded payout is left alone and no transfer is requested; every
      other payout, a rejected one included, becomes approved and nothing else in the table
      changes; a transfer is only requested when the provider is configured, for the payout's
      amount and reference. */
  lemma MarkApprovedEffect(payouts: map<string, Payout>, ds: seq<Destination>, id: string, providerConfigured: bool)
    requires id in payouts
    ensures var o := MarkApproved(payouts, ds, id, providerConfigured); var p := payouts[id];
      && o.reply.Ok?
      && (p.status == PayoutSucceeded ==> o.reply.data == AlreadySucceeded && o.payouts == payouts && o.call == None)
      && (p.status != PayoutSucceeded ==>
            && o.reply.data == ApprovedPayout(id, p.reference)
            && id in o.payouts && o.payouts[id].status == PayoutApproved
            && o.payouts[id].reference == p.reference && o.payouts[id].amount == p.amount
            && (forall other :: other in payouts && other != id ==> other in o.payouts && o.payouts[other] == payouts[other])
            && o.payouts.Keys == payouts.Keys)
      && (o.call.Some? ==> providerConfigured && o.call.value.reference == p.reference && o.call.value.amount == p.amount)
  {
  }

  /** The provider is asked for the transfer exactly when it is configured and the payout's
      destination has a bank code and an account number; the request carries them with the
      payout's amount and reference. */
  lemma MarkApprovedCalls(payouts: map<string, Payout>, ds: seq<Destination>, id: string, providerConfigured: bool, i: nat)
    requires DestinationIdsUnique(ds)
    requires id in payouts && payouts[id].status != PayoutSucceeded
    requires i < |ds| && ds[i].id == payouts[id].destinationId
    ensures var o := MarkApproved(payouts, ds, id, providerConfigured); var p := payouts[id];
      && (o.call.Some? <==> providerConfigured && ds[i].bankCode != "" && ds[i].accountNumber != "")
      && (o.call.Some? ==> o.call.value == TransferCall(ds[i].bankCode, ds[i].accountNumber, p.amount, "NGN", "Okies payout", p.reference))
  {
    var found := FindDestination(ds, ds[i].id);
    assert found.Some?;
    var j := found.value;
  }

  /** Without a destination row the provider is never asked. */
  lemma MarkApprovedNoDestination(payouts: map<string, Payout>, ds: seq<Destination>, id: string, providerConfigured: bool)
    requires id in payouts
    requires forall i :: 0 <= i < |ds| ==> ds[i].id != payouts[id].destinationId
    ensures MarkApproved(payouts, ds, id, providerConfigured).call == None
  {
  }

  // ---------- AdminRejectWithdrawal (payouts)

  datatype RejectionReceipt = RejectionReceipt(payoutId: string, reference: string, refunded: bool)

  /** The outcome of the payout rejection: the response, the ledger and payouts afterwards and
      the wallets locked. */
  datatype RefundOutcome = RefundOutcome(reply: Reply<RejectionReceipt>, book: Book, payouts: map<string, Payout>, locks: seq<WalletId>)

  /** The idempotency key of the refund of the payout with the given reference. */
  function RefundKey(reference: string): (k: string)
    ensures |k| > |reference| && k[..|reference|] == reference
  {
    reference + ":rejected_refund"
  }

  /** The first of the rejection's guards that the request fails, in the handler's order. */
  function RejectRefusal(walletOf: map<UserId, WalletId>, payouts: map<string, Payout>, id: string): (r: Option<Reply<RejectionReceipt>>)
    ensures r.None? <==> id != "" && id in payouts && payouts[id].status != PayoutSucceeded && payouts[id].userId in walletOf
    ensures r.Some? ==> r.value.Fail?
  {
    if id == "" then Some(Fail(400, "missing_id"))
    else if id !in payouts then Some(Fail(404, "payout_not_found"))
    else if payouts[id].status == PayoutSucceeded then Some(Fail(400, "cannot_reject_succeeded"))
    else if payouts[id].userId !in walletOf then Some(Fail(500, "wallet_not_found"))
    else None
  }

  /** The rejection of payout id, owned by the user of wallet `user`, once its guards pass: the
      payout becomes rejected, and the reserve is refunded unless its refund key is already in
      the ledger; the answer says refunded either way. */
  function MarkRejected(book: Book, system: WalletId, user: WalletId, payouts: map<string, Payout>, id: string): (o: RefundOutcome)
    requires WellFormed(book) && id in payouts && payouts[id].amount > 0
    ensures WellFormed(o.book)
  {
    var p := payouts[id];
    var key := RefundKey(p.reference);
    var book' := if key in book.keys then book else Post(book, CreditFirst(WithdrawalRefund, p.amount, Some(key), user, system));
    RefundOutcome(Ok(200, RejectionReceipt(id, p.reference, true)), book', payouts[id := p.(status := PayoutRejected)], LockOrder(system, user))
  }

  /** What the rejection does. */
  function RejectPayout(book: Book, walletOf: map<UserId, WalletId>, system: WalletId, payouts: map<string, Payout>, rawId: string): (o: RefundOutcome)
    requires WellFormed(book) && PayoutsPositive(payouts)
    ensures WellFormed(o.book)
  {
    var id := TrimSpace(rawId);
    match RejectRefusal(walletOf, payouts, id)
    case Some(refusal) => RefundOutcome(refusal, book, payouts, [])
    case None => MarkRejected(book, system, walletOf[payouts[id].userId], payouts, id)
  }

  /** The guards, in the order the handler checks them: a rejection that fails one changes
      nothing, and one that passes them all is served by MarkRejected on the owner's wallet. */
  lemma RejectPayoutGuards(book: Book, walletOf: map<UserId, WalletId>, system: WalletId, payouts: map<string, Payout>, rawId: string)
    requires WellFormed(book) && PayoutsPositive(payouts)
    ensures var o := RejectPayout(book, walletOf, system, payouts, rawId); var id := TrimSpace(rawId);
      && (o.reply == Fail(400, "missing_id") <==> id == "")
      && (o.reply == Fail(404, "payout_not_found") <==> id != "" && id !in payouts)
      && (o.reply == Fail(400, "cannot_reject_succeeded") <==> id != "" && id in payouts && payouts[id].status == PayoutSucceeded)
      && (o.reply == Fail(500, "wallet_not_found") <==>
            id != "" && id in payouts && payouts[id].status != PayoutSucceeded && payouts[id].userId !in walletOf)
      && (o.reply.Fail? ==> o.book == book && o.payouts == payouts && o.locks == [])
      && (o.reply.Ok? ==>
            && id in payouts && payouts[id].userId in walletOf
            && o == MarkRejected(book, system, walletOf[payouts[id].userId], payouts, id))
  {
  }

  /** What a rejection writes: the payout is marked rejected, nothing else in the table changes,
      the answer says refunded, and the refund is posted exactly when its key is not taken. */
  lemma MarkRejectedEffect(book: Book, system: WalletId, user: WalletId, payouts: map<string, Payout>, id: string, w: WalletId)
    requires WellFormed(book) && id in payouts && payouts[id].amount > 0
    ensures var o := MarkRejected(book, system, user, payouts, id); var p := payouts[id]; var key := RefundKey(p.reference);
      && o.reply == Ok(200, RejectionReceipt(id, p.reference, true))
      && o.payouts == payouts[id := p.(status := PayoutRejected)]
      && o.locks == LockOrder(system, user)
      && key in o.book.keys
      && (key in book.keys ==> o.book == book)
      && (key !in book.keys ==>
            && o.book.txs == book.txs + [CreditFirst(WithdrawalRefund, p.amount, Some(key), user, system)]
            && Balance(o.book.txs, w) == Balance(book.txs, w) + (if w == user then p.amount else 0) - (if w == system then p.amount else 0))
  {
    var p := payouts[id];
    var key := RefundKey(p.reference);
    if key !in book.keys {
      var t := CreditFirst(WithdrawalRefund, p.amount, Some(key), user, system);
      PostBalance(book, t, w);
      CreditFirstDelta(WithdrawalRefund, p.amount, Some(key), user, system, w);
    }
  }

  /** A rejection keeps every invariant of the store. */
  lemma MarkRejectedKeepsConsistent(book: Book, walletOf: map<UserId, WalletId>, system: WalletId, ws: map<string, Withdrawal>,
                                    wOrder: seq<string>, transfers: map<string, PayoutTransfer>, ds: seq<Destination>,
                                    payouts: map<string, Payout>, pOrder: seq<string>, id: string)
    requires Consistent(book, walletOf, system, ws, wOrder, transfers, ds, payouts, pOrder)
    requires id in payouts && payouts[id].userId in walletOf
    ensures var o := MarkRejected(book, system, walletOf[payouts[id].userId], payouts, id);
            Consistent(o.book, walletOf, system, ws, wOrder, transfers, ds, o.payouts, pOrder)
  {
    var o := MarkRejected(book, system, walletOf[payouts[id].userId], payouts, id);
    assert o.book.txs[..|book.txs|] == book.txs;
    HoldsSurviveAppend(book, o.book, walletOf, system, ws);
    PayoutsKeyedGrow(book, o.book, payouts);
    PayoutStatusWrite(o.book, payouts, pOrder, id, PayoutRejected);
  }

  /** Rejecting twice refunds once: the second rejection posts nothing and gives the same answer. */
  lemma RejectRefundsOnce(book: Book, system: WalletId, user: WalletId, payouts: map<string, Payout>, id: string)
    requires WellFormed(book) && id in payouts && payouts[id].amount > 0
    ensures var o := MarkRejected(book, system, user, payouts, id);
            MarkRejected(o.book, system, user, o.payouts, id) == o
  {
    var o := MarkRejected(book, system, user, payouts, id);
    var p := payouts[id];
    assert RefundKey(p.reference) in o.book.keys;
    assert o.payouts[id := o.payouts[id].(status := PayoutRejected)] == o.payouts;
  }

  /** A payout that is reserved and then rejected leaves every balance as it was before the
      reserve, provided the refund key was not taken by some other transaction. */
  lemma ReserveThenRejectRestores(book: Book, system: WalletId, user: WalletId, payouts: map<string, Payout>, order: seq<string>,
                                  uid: UserId, destId: string, amount: int, key: string, newId: string, w: WalletId)
    requires WellFormed(book) && amount > 0 && key !in book.keys && RefundKey(key) !in book.keys
    ensures var o := ReserveFunds(book, system, user, payouts, order, uid, destId, amount, key, newId);
            var r := MarkRejected(o.book, system, user, o.payouts, newId);
      && r.reply == Ok(200, RejectionReceipt(newId, key, true))
      && Balance(r.book.txs, w) == Balance(book.txs, w)
  {
    var o := ReserveFunds(book, system, user, payouts, order, uid, destId, amount, key, newId);
    ReserveMovesFunds(book, system, user, payouts, order, uid, destId, amount, key, newId, w);
    assert RefundKey(key) != key by { assert |RefundKey(key)| > |key|; }
    MarkRejectedEffect(o.book, system, user, o.payouts, newId, w);
  }

  /** Approving a rejected payout sets it back to approved and may request the transfer, while
      the refund of its reserve stays in the ledger. */
  lemma ApproveAfterReject(book: Book, system: WalletId, user: WalletId, payouts: map<string, Payout>, id: string, ds: seq<Destination>)
    requires WellFormed(book) && id in payouts && payouts[id].amount > 0
    ensures var r := MarkRejected(book, system, user, payouts, id);
            var a := MarkApproved(r.payouts, ds, id, true);
      && a.reply == Ok(200, ApprovedPayout(id, payouts[id].reference)) && a.payouts[id].status == PayoutApproved
      && a.call == BankTransfer(ds, payouts[id])
      && RefundKey(payouts[id].reference) in r.book.keys
  {
  }

  // ---------- Methods

  /** A status change keeps the payouts table's invariants. */
  lemma PayoutStatusWrite(b: Book, payouts: map<string, Payout>, order: seq<string>, id: string, st: PayoutStatus)
    requires id in payouts && PayoutsPositive(payouts) && PayoutsKeyed(b, payouts) && ListsKeys(order, payouts)
    ensures var ps := payouts[id := payouts[id].(status := st)];
            PayoutsPositive(ps) && PayoutsKeyed(b, ps) && ListsKeys(order, ps)
  {
    ListsKeysUpdate(order, payouts, id, payouts[id].(status := st));
  }

  method CreateWithdrawal(s: Store, uid: UserId, destId: string, amount: int, header: string, uuid: string, newId: string)
    returns (reply: Reply<PayoutReceipt>, locks: seq<WalletId>)
    requires s.Valid() && newId !in s.payouts
    modifies s`book, s`destinations, s`payouts, s`payoutOrder
    ensures s.Valid() && s.destinations == old(s.destinations)
    ensures var o := Reserve(old(s.book), s.walletOf, s.systemWallet, s.destinations, old(s.payouts), old(s.payoutOrder),
                             uid, destId, amount, IdempotencyKey(header, uuid), newId);
            && reply == o.reply && locks == o.locks
            && s.book == o.book && s.payouts == o.payouts && s.payoutOrder == o.order
  {
    locks := [];
    var refusal := ReserveRefusal(s.destinations, s.walletOf, uid, destId, amount);
    if refusal.Some? {
      reply := refusal.value;
      return;
    }
    var user := s.walletOf[uid];
    var idem := "wd-" + uuid;
    if header != "" {
      idem := header;
    }
    locks := LockOrder(s.systemWallet, user);
    if idem in s.book.keys {
      var existing := PayoutByReference(s.payouts, s.payoutOrder, idem);
      reply := Ok(200, PayoutReceipt(if existing.Some? then existing.value else "", "pending", None));
      return;
    }
    var book := Post(s.book, Move(WithdrawalReserve, amount, Some(idem), user, s.systemWallet));
    var row := Payout(uid, destId, amount, PayoutPending, idem);
    HoldsSurviveAppend(s.book, book, s.walletOf, s.systemWallet, s.withdrawals);
    PayoutsKeyedInsert(s.book, book, s.payouts, newId, row);
    ListsKeysInsert(s.payoutOrder, s.payouts, newId, row);
    s.CommitPayouts(book, s.destinations, s.payouts[newId := row], s.payoutOrder + [newId]);
    reply := Ok(201, PayoutReceipt(newId, "pending", Some(idem)));
  }

  method AdminApproveWithdrawal(s: Store, rawId: string, providerConfigured: bool)
    returns (reply: Reply<ApprovalReceipt>, call: Option<TransferCall>)
    requires s.Valid()
    modifies s`book, s`destinations, s`payouts, s`payoutOrder
    ensures s.Valid()
    ensures s.book == old(s.book) && s.destinations == old(s.destinations) && s.payoutOrder == old(s.payoutOrder)
    ensures var o := ApprovePayout(old(s.payouts), s.destinations, rawId, providerConfigured);
            reply == o.reply && call == o.call && s.payouts == o.payouts
  {
    call := None;
    var id := TrimSpace(rawId);
    if id == "" {
      reply := Fail(400, "missing_id");
      return;
    }
    if id !in s.payouts {
      reply := Fail(404, "payout_not_found");
      return;
    }
    var p := s.payouts[id];
    if p.status == PayoutSucceeded {
      reply := Ok(200, AlreadySucceeded);
      return;
    }
    PayoutStatusWrite(s.book, s.payouts, s.payoutOrder, id, PayoutApproved);
    s.CommitPayouts(s.book, s.destinations, s.payouts[id := p.(status := PayoutApproved)], s.payoutOrder);
    if providerConfigured {
      var found := FindDestination(s.destinations, p.destinationId);
      if found.Some? {
        var d := s.destinations[found.value];
        if d.bankCode != "" && d.accountNumber != "" {
          call := Some(TransferCall(d.bankCode, d.accountNumber, p.amount, "NGN", "Okies payout", p.reference));
        }
      }
    }
    reply := Ok(200, ApprovedPayout(id, p.reference));
  }

  method AdminRejectWithdrawal(s: Store, rawId: string)
    returns (reply: Reply<RejectionReceipt>, locks: seq<WalletId>)
    requires s.Valid()
    modifies s`book, s`destinations, s`payouts, s`payoutOrder
    ensures s.Valid()
    ensures s.destinations == old(s.destinations) && s.payoutOrder == old(s.payoutOrder)
    ensures var o := RejectPayout(old(s.book), s.walletOf, s.systemWallet, old(s.payouts), rawId);
            reply == o.reply && locks == o.locks && s.book == o.book && s.payouts == o.payouts
  {
    var id := TrimSpace(rawId);
    var refusal := RejectRefusal(s.walletOf, s.payouts, id);
    if refusal.Some? {
      reply, locks := refusal.value, [];
      return;
    }
    reply, locks := RefundPayout(s, id);
  }

  /** The part of the rejection past its guards, as a store update. */
  method RefundPayout(s: Store, id: string) returns (reply: Reply<RejectionReceipt>, locks: seq<WalletId>)
    requires s.Valid() && id in s.payouts && s.payouts[id].userId in s.walletOf
    modifies s`book, s`destinations, s`payouts, s`payoutOrder
    ensures s.Valid()
    ensures s.destinations == old(s.destinations) && s.payoutOrder == old(s.payoutOrder)
    ensures var o := MarkRejected(old(s.book), s.systemWallet, s.walletOf[old(s.payouts)[id].userId], old(s.payouts), id);
            reply == o.reply && locks == o.locks && s.book == o.book && s.payouts == o.payouts
  {
    var user := s.walletOf[s.payouts[id].userId];
    var o := MarkRejected(s.book, s.systemWallet, user, s.payouts, id);
    MarkRejectedKeepsConsistent(s.book, s.walletOf, s.systemWallet, s.withdrawals, s.withdrawalOrder, s.transfers,
                                s.destinations, s.payouts, s.payoutOrder, id);
    s.CommitPayouts(o.book, s.destinations, o.payouts, s.payoutOrder);
    reply, locks := o.reply, o.locks;
  }

  // ---------- ListPayoutDestinations

  /** A listed destination, as the response shows it. */
  datatype DestinationRow = DestinationRow(id: string, bankCode: string, accountNumber: string, accountName: string, isDefault: bool)

  function RowOf(d: Destination): DestinationRow {
    DestinationRow(d.id, d.bankCode, d.accountNumber, d.accountName, d.isDefault)
  }

  /** uid's destinations, newest first: the table is kept in creation order, so the newest is last. */
  function DestinationsNewestFirst(ds: seq<Destination>, uid: UserId): (mine: seq<Destination>)
    ensures |mine| <= |ds|
  {
    if ds == [] then []
    else
      var rest := DestinationsNewestFirst(ds[..|ds| - 1], uid);
      if ds[|ds| - 1].userId == uid then [ds[|ds| - 1]] + rest else rest
  }

  /** Exactly uid's destinations are listed. */
  lemma {:induction false} DestinationsNewestFirstExact(ds: seq<Destination>, uid: UserId)
    ensures forall d :: d in DestinationsNewestFirst(ds, uid) <==> d in ds && d.userId == uid
  {
    if ds != [] {
      var init := ds[..|ds| - 1];
      DestinationsNewestFirstExact(init, uid);
      assert ds == init + [ds[|ds| - 1]];
    }
  }

  /** uid's destinations in creation order, read from the front. */
  function OwnedDestinations(ds: seq<Destination>, uid: UserId): (mine: seq<Destination>)
    ensures |mine| <= |ds|
  {
    if ds == [] then [] else (if ds[0].userId == uid then [ds[0]] else []) + OwnedDestinations(ds[1..], uid)
  }

  /** s back to front. */
  function Reversed<T>(s: seq<T>): (r: seq<T>)
    ensures |r| == |s| && forall i :: 0 <= i < |s| ==> r[i] == s[|s| - 1 - i]
  {
    seq(|s|, i requires 0 <= i < |s| => s[|s| - 1 - i])
  }

  lemma {:induction false} OwnedDestinationsSnoc(ds: seq<Destination>, d: Destination, uid: UserId)
    ensures OwnedDestinations(ds + [d], uid) == OwnedDestinations(ds, uid) + (if d.userId == uid then [d] else [])
  {
    if ds != [] {
      assert (ds + [d])[1..] == ds[1..] + [d];
      OwnedDestinationsSnoc(ds[1..], d, uid);
    }
  }

  /** ORDER BY created_at DESC: the listing is uid's destinations in creation order, reversed. */
  lemma {:induction false} DestinationsNewestFirstReversed(ds: seq<Destination>, uid: UserId)
    ensures DestinationsNewestFirst(ds, uid) == Reversed(OwnedDestinations(ds, uid))
  {
    if ds != [] {
      var init, last := ds[..|ds| - 1], ds[|ds| - 1];
      DestinationsNewestFirstReversed(init, uid);
      assert ds == init + [last];
      OwnedDestinationsSnoc(init, last, uid);
      var front := OwnedDestinations(init, uid);
      if last.userId == uid {
        assert Reversed(front + [last]) == [last] + Reversed(front);
      } else {
        assert front + [] == front;
      }
    }
  }

  /** With unique destination ids, each destination is listed once. */
  lemma {:induction false} DestinationsListedOnce(ds: seq<Destination>, uid: UserId)
    requires DestinationIdsUnique(ds)
    ensures DestinationIdsUnique(DestinationsNewestFirst(ds, uid))
  {
    if ds != [] {
      var init, last := ds[..|ds| - 1], ds[|ds| - 1];
      assert DestinationIdsUnique(init) by {
        forall i, j | 0 <= i < j < |init| ensures init[i].id != init[j].id {
          assert init[i] == ds[i] && init[j] == ds[j];
        }
      }
      DestinationsListedOnce(init, uid);
      var rest := DestinationsNewestFirst(init, uid);
      if last.userId == uid {
        OlderDestinationsDiffer(ds, uid);
        var mine := [last] + rest;
        assert DestinationsNewestFirst(ds, uid) == mine;
        forall i, j | 0 <= i < j < |mine| ensures mine[i].id != mine[j].id {
          assert mine[j] == rest[j - 1] && rest[j - 1] in rest;
          if i > 0 { assert mine[i] == rest[i - 1]; }
        }
      } else {
        assert DestinationsNewestFirst(ds, uid) == rest;
      }
    }
  }

  /** No destination listed from the older rows shares the newest row's id. */
  lemma OlderDestinationsDiffer(ds: seq<Destination>, uid: UserId)
    requires ds != [] && DestinationIdsUnique(ds)
    ensures forall d :: d in DestinationsNewestFirst(ds[..|ds| - 1], uid) ==> d.id != ds[|ds| - 1].id
  {
    var init := ds[..|ds| - 1];
    var rest := DestinationsNewestFirst(init, uid);
    DestinationsNewestFirstExact(init, uid);
    forall d | d in rest ensures d.id != ds[|ds| - 1].id {
      var k :| 0 <= k < |init| && init[k] == d;
      assert ds[k] == d;
    }
  }


  function RowsOf(ds: seq<Destination>): (rows: seq<DestinationRow>)
    ensures |rows| == |ds| && forall i :: 0 <= i < |ds| ==> rows[i] == RowOf(ds[i])
  {
    seq(|ds|, i requires 0 <= i < |ds| => RowOf(ds[i]))
  }

  /** ListPayoutDestinations: the caller's destinations, newest first. */
  function ListPayoutDestinations(ds: seq<Destination>, uid: UserId): (r: Reply<seq<DestinationRow>>)
    ensures r.Ok? && r.status == 200
    ensures forall row :: row in r.data <==> exists d :: d in ds && d.userId == uid && row == RowOf(d)
    ensures r.data == RowsOf(Reversed(OwnedDestinations(ds, uid)))
  {
    var mine := DestinationsNewestFirst(ds, uid);
    DestinationsNewestFirstExact(ds, uid);
    DestinationsNewestFirstReversed(ds, uid);
    var rows := RowsOf(mine);
    assert forall row :: row in rows ==> exists d :: d in mine && row == RowOf(d) by {
      forall row | row in rows ensures exists d :: d in mine && row == RowOf(d) {
        var i :| 0 <= i < |rows| && rows[i] == row;
        assert mine[i] in mine;
      }
    }
    assert forall d :: d in mine ==> RowOf(d) in rows by {
      forall d | d in mine ensures RowOf(d) in rows {
        var i :| 0 <= i < |mine| && mine[i] == d;
        assert rows[i] == RowOf(d);
      }
    }
    Ok(200, rows)
  }

  /** A destination just created heads the user's list. */
  lemma CreatedDestinationListedFirst(ds: seq<Destination>, uid: UserId, req: DestinationRequest, newId: string)
    requires AddDestination(ds, uid, req, newId).reply.Ok?
    ensures var after := AddDestination(ds, uid, req, newId).destinations;
            var rows := ListPayoutDestinations(after, uid).data;
            rows != [] && rows[0] == DestinationRow(newId, req.bankCode, req.accountNumber, req.accountName, req.isDefault == Some(true))
  {
    var after := AddDestination(ds, uid, req, newId).destinations;
    AddDestinationEffect(ds, uid, req, newId);
    assert after[|after| - 1].userId == uid;
    assert DestinationsNewestFirst(after, uid)[0] == after[|after| - 1];
  }

  // ---------- ListMyWithdrawals

  function PayoutStatusName(s: PayoutStatus): string {
    match s
    case PayoutPending => "pending"
    case PayoutApproved => "approved"
    case PayoutRejected => "rejected"
    case PayoutSucceeded => "succeeded"
  }

  /** A listed payout, as the response shows it. */
  datatype PayoutRow = PayoutRow(id: string, destinationId: string, amount: int, status: string, reference: string)

  function PayoutRowOf(id: string, p: Payout): PayoutRow {
    PayoutRow(id, p.destinationId, p.amount, PayoutStatusName(p.status), p.reference)
  }

  /** The ids of uid's payouts, newest first. */
  function PayoutsNewestFirst(order: seq<string>, payouts: map<string, Payout>, uid: UserId): (ids: seq<string>)
    ensures |ids| <= |order|
  {
    if order == [] then []
    else
      var last := order[|order| - 1];
      var rest := PayoutsNewestFirst(order[..|order| - 1], payouts, uid);
      if last in payouts && payouts[last].userId == uid then [last] + rest else rest
  }
  /** The ids in order of uid's payouts, in creation order, read from the front. */
  function OwnedPayouts(order: seq<string>, payouts: map<string, Payout>, uid: UserId): (ids: seq<string>)
    ensures |ids| <= |order|
  {
    if order == [] then []
    else (if order[0] in payouts && payouts[order[0]].userId == uid then [order[0]] else []) + OwnedPayouts(order[1..], payouts, uid)
  }

  lemma {:induction false} OwnedPayoutsSnoc(order: seq<string>, id: string, payouts: map<string, Payout>, uid: UserId)
    ensures OwnedPayouts(order + [id], payouts, uid) ==
            OwnedPayouts(order, payouts, uid) + (if id in payouts && payouts[id].userId == uid then [id] else [])
  {
    if order != [] {
      assert (order + [id])[1..] == order[1..] + [id];
      OwnedPayoutsSnoc(order[1..], id, payouts, uid);
    }
  }

  /** ORDER BY created_at DESC: uid's payouts in creation order, reversed. */
  lemma {:induction false} PayoutsNewestFirstReversed(order: seq<string>, payouts: map<string, Payout>, uid: UserId)
    ensures PayoutsNewestFirst(order, payouts, uid) == Reversed(OwnedPayouts(order, payouts, uid))
  {
    if order != [] {
      var init, last := order[..|order| - 1], order[|order| - 1];
      PayoutsNewestFirstReversed(init, payouts, uid);
      assert order == init + [last];
      OwnedPayoutsSnoc(init, last, payouts, uid);
      var front := OwnedPayouts(init, payouts, uid);
      if last in payouts && payouts[last].userId == uid {
        assert Reversed(front + [last]) == [last] + Reversed(front);
      } else {
        assert front + [] == front;
      }
    }
  }


  /** Exactly uid's payouts are listed, and each once when order repeats no id. */
  lemma {:induction false} PayoutsNewestFirstExact(order: seq<string>, payouts: map<string, Payout>, uid: UserId)
    ensures var ids := PayoutsNewestFirst(order, payouts, uid);
      && (forall id :: id in ids <==> id in order && id in payouts && payouts[id].userId == uid)
      && ((forall i, j :: 0 <= i < j < |order| ==> order[i] != order[j]) ==>
            forall i, j :: 0 <= i < j < |ids| ==> ids[i] != ids[j])
  {
    if order != [] {
      var init := order[..|order| - 1];
      var last := order[|order| - 1];
      PayoutsNewestFirstExact(init, payouts, uid);
      assert order == init + [last];
      var ids := PayoutsNewestFirst(order, payouts, uid);
      var rest := PayoutsNewestFirst(init, payouts, uid);
      if (forall i, j :: 0 <= i < j < |order| ==> order[i] != order[j]) && last in payouts && payouts[last].userId == uid {
        assert last !in init;
        forall i, j | 0 <= i < j < |ids| ensures ids[i] != ids[j] {
          assert ids[j] == rest[j - 1];
          if i > 0 {
            assert ids[i] == rest[i - 1];
          }
        }
      }
    }
  }

  function PayoutRowsOf(ids: seq<string>, payouts: map<string, Payout>): (rows: seq<PayoutRow>)
    requires forall id :: id in ids ==> id in payouts
    ensures |rows| == |ids| && forall i :: 0 <= i < |ids| ==> rows[i] == PayoutRowOf(ids[i], payouts[ids[i]])
  {
    seq(|ids|, i requires 0 <= i < |ids| => PayoutRowOf(ids[i], payouts[ids[i]]))
  }

  /** The most rows ListMyWithdrawals returns. */
  const ListCap := 100

  /** ListMyWithdrawals: the caller's payouts, newest first, at most 100 of them, each shown as
      stored and each once. */
  function ListMyPayouts(order: seq<string>, payouts: map<string, Payout>, uid: UserId): (r: Reply<seq<PayoutRow>>)
    requires ListsKeys(order, payouts)
    ensures r.Ok? && r.status == 200 && |r.data| <= ListCap
    ensures forall i :: 0 <= i < |r.data| ==>
      r.data[i].id in payouts && payouts[r.data[i].id].userId == uid && r.data[i] == PayoutRowOf(r.data[i].id, payouts[r.data[i].id])
    ensures forall i, j :: 0 <= i < j < |r.data| ==> r.data[i].id != r.data[j].id
    ensures |r.data| == if |OwnedPayouts(order, payouts, uid)| <= ListCap then |OwnedPayouts(order, payouts, uid)| else ListCap
    ensures forall i :: 0 <= i < |r.data| ==> r.data[i].id == Reversed(OwnedPayouts(order, payouts, uid))[i]
  {
    var ids := PayoutsNewestFirst(order, payouts, uid);
    PayoutsNewestFirstExact(order, payouts, uid);
    PayoutsNewestFirstReversed(order, payouts, uid);
    var shown := if |ids| <= ListCap then ids else ids[..ListCap];
    var rows := PayoutRowsOf(shown, payouts);
    assert forall i :: 0 <= i < |shown| ==> shown[i] == ids[i];
    Ok(200, rows)
  }

  /** Every payout of a user with fewer than 100 of them is listed. */
  lemma ListsAllPayoutsUnderCap(order: seq<string>, payouts: map<string, Payout>, uid: UserId, id: string)
    requires ListsKeys(order, payouts) && |PayoutsNewestFirst(order, payouts, uid)| <= ListCap
    requires id in payouts && payouts[id].userId == uid
    ensures PayoutRowOf(id, payouts[id]) in ListMyPayouts(order, payouts, uid).data
  {
    var ids := PayoutsNewestFirst(order, payouts, uid);
    PayoutsNewestFirstExact(order, payouts, uid);
    var i :| 0 <= i < |ids| && ids[i] == id;
    assert ListMyPayouts(order, payouts, uid).data[i] == PayoutRowOf(id, payouts[id]);
  }

  /** A payout appended to the order heads its owner's list. */
  lemma NewestPayoutListedFirst(order: seq<string>, payouts: map<string, Payout>, newId: string, p: Payout)
    requires ListsKeys(order, payouts) && newId !in payouts
    ensures ListsKeys(order + [newId], payouts[newId := p])
    ensures var rows := ListMyPayouts(order + [newId], payouts[newId := p], p.userId).data;
            rows != [] && rows[0] == PayoutRowOf(newId, p)
  {
    ListsKeysInsert(order, payouts, newId, p);
    var order', payouts' := order + [newId], payouts[newId := p];
    assert order'[|order'| - 1] == newId && order'[..|order'| - 1] == order;
    assert PayoutsNewestFirst(order', payouts', p.userId)[0] == newId;
  }

  /** A payout just reserved under a fresh key heads the user's list, as pending under that key. */
  lemma ReservedPayoutListedFirst(book: Book, system: WalletId, user: WalletId, payouts: map<string, Payout>, order: seq<string>,
                                  uid: UserId, destId: string, amount: int, key: string, newId: string)
    requires WellFormed(book) && amount > 0 && ListsKeys(order, payouts) && newId !in payouts && key !in book.keys
    ensures var o := ReserveFunds(book, system, user, payouts, order, uid, destId, amount, key, newId);
            && ListsKeys(o.order, o.payouts)
            && var rows := ListMyPayouts(o.order, o.payouts, uid).data;
               rows != [] && rows[0] == PayoutRow(newId, destId, amount, "pending", key)
  {
    var p := Payout(uid, destId, amount, PayoutPending, key);
    var o := ReserveFunds(book, system, user, payouts, order, uid, destId, amount, key, newId);
    assert o.payouts == payouts[newId := p] && o.order == order + [newId];
    NewestPayoutListedFirst(order, payouts, newId, p);
  }
}
