/** AdminTopup: an admin credits a user's wallet from the system wallet. */
module Topups {
  import opened Base
  import opened Text
  import opened Locking
  import opened Ledger
  import opened Store

  /** Largest single top-up: 5,000,000 naira in kobo. */
  const MaxTopup: int := 500000000

  /** The topup payload: the transaction id and "succeeded". */
  datatype TopupReceipt = TopupReceipt(topupId: nat, status: string)

  /** The top-up's idempotency key: the trimmed header, or a fresh UUID when that is empty. */
  function TopupKey(header: string, generated: string): (k: string)
    ensures (exists i :: 0 <= i < |header| && !IsSpace(header[i])) ==> k == TrimSpace(header) && k != ""
    ensures (forall i :: 0 <= i < |header| ==> IsSpace(header[i])) ==> k == generated
  {
    var trimmed := TrimSpace(header);
    assert trimmed == [] <==> forall i :: 0 <= i < |header| ==> IsSpace(header[i]) by { TrimSpaceEmpty(header); }
    if trimmed == "" then generated else trimmed
  }

  /** The request is valid and targets a user wallet other than the system wallet. */
  predicate Admitted(walletOf: map<UserId, WalletId>, system: WalletId, target: UserId, amount: int) {
    target != "" && 0 < amount <= MaxTopup && target in walletOf && walletOf[target] != system
  }

  /** The outcome of one call: the response, the ledger afterwards, and the wallets locked, in order. */
  datatype TopupOutcome = TopupOutcome(reply: Reply<TopupReceipt>, book: Book, locks: seq<WalletId>)

  /** What AdminTopup does to the ledger, given the key it settled on. */
  function CreditUser(book: Book, walletOf: map<UserId, WalletId>, system: WalletId, target: UserId, amount: int, key: string): (o: TopupOutcome)
    requires WellFormed(book)
    ensures WellFormed(o.book)
    ensures o.book == book || (Admitted(walletOf, system, target, amount) && o.book.txs == book.txs + [Move(Topup, amount, Some(key), system, walletOf[target])])
    ensures o.reply.Fail? ==> o.book == book
  {
    if target == "" || amount <= 0 then TopupOutcome(Fail(400, "invalid_request"), book, [])
    else if amount > MaxTopup then TopupOutcome(Fail(400, "amount_too_large"), book, [])
    else if target !in walletOf then TopupOutcome(Fail(400, "target_wallet_not_found"), book, [])
    else if walletOf[target] == system then TopupOutcome(Fail(400, "invalid_target_wallet"), book, [])
    else
      var user := walletOf[target];
      var locks := LockOrder(user, system);
      if key in book.keys then TopupOutcome(Ok(200, TopupReceipt(book.keys[key], "succeeded")), book, locks)
      else TopupOutcome(Ok(201, TopupReceipt(|book.txs|, "succeeded")), Post(book, Move(Topup, amount, Some(key), system, user)), locks)
  }

  /** The guards, in the handler's order. 500000000 itself is allowed; one kobo more is not. */
  lemma TopupRejections(book: Book, walletOf: map<UserId, WalletId>, system: WalletId, target: UserId, amount: int, key: string)
    requires WellFormed(book)
    ensures var o := CreditUser(book, walletOf, system, target, amount, key);
            && (target == "" || amount <= 0 ==> o.reply == Fail(400, "invalid_request"))
            && (target != "" && amount > MaxTopup ==> o.reply == Fail(400, "amount_too_large"))
            && (target != "" && 0 < amount <= MaxTopup && target !in walletOf ==> o.reply == Fail(400, "target_wallet_not_found"))
            && (target != "" && 0 < amount <= MaxTopup && target in walletOf && walletOf[target] == system ==>
                  o.reply == Fail(400, "invalid_target_wallet"))
            && (!Admitted(walletOf, system, target, amount) ==> o.book == book && o.locks == [])
            && (target != "" && target in walletOf && walletOf[target] != system ==>
                  CreditUser(book, walletOf, system, target, MaxTopup, key).reply.Ok? &&
                  CreditUser(book, walletOf, system, target, MaxTopup + 1, key).reply == Fail(400, "amount_too_large"))
  {
  }

  /** An admitted top-up locks the user and system wallets in sorted order; a key already on the
      ledger returns the transaction carrying it and appends nothing. */
  lemma TopupReplay(book: Book, walletOf: map<UserId, WalletId>, system: WalletId, target: UserId, amount: int, key: string)
    requires WellFormed(book) && Admitted(walletOf, system, target, amount)
    ensures var o := CreditUser(book, walletOf, system, target, amount, key);
            && o.locks == LockOrder(system, walletOf[target])
            && (key in book.keys ==>
                  o.reply == Ok(200, TopupReceipt(book.keys[key], "succeeded")) && o.book == book &&
                  book.txs[o.reply.data.topupId].key == Some(key))
  {
    LockOrderSymmetric(walletOf[target], system);
  }

  /** A fresh key appends one top-up, debit system and credit user, with no floor on the system
      wallet: its balance falls by the amount whatever it was. */
  lemma TopupMovesAmount(book: Book, walletOf: map<UserId, WalletId>, system: WalletId, target: UserId, amount: int, key: string, w: WalletId)
    requires WellFormed(book) && Admitted(walletOf, system, target, amount) && key !in book.keys
    ensures var o := CreditUser(book, walletOf, system, target, amount, key);
            && o.reply == Ok(201, TopupReceipt(|book.txs|, "succeeded"))
            && o.book.txs == book.txs + [Move(Topup, amount, Some(key), system, walletOf[target])]
            && Balance(o.book.txs, w) == Balance(book.txs, w)
                 + (if w == walletOf[target] then amount else 0) - (if w == system then amount else 0)
  {
    PostBalance(book, Move(Topup, amount, Some(key), system, walletOf[target]), w);
    MoveDelta(Topup, amount, Some(key), system, walletOf[target], w);
  }

  /** There is no floor on the system wallet: a top-up on an empty ledger leaves it negative. */
  lemma TopupCanOverdrawSystem(walletOf: map<UserId, WalletId>, system: WalletId, target: UserId, amount: int, key: string)
    requires Admitted(walletOf, system, target, amount)
    ensures Balance(CreditUser(EmptyBook, walletOf, system, target, amount, key).book.txs, system) == -amount < 0
  {
    TopupMovesAmount(EmptyBook, walletOf, system, target, amount, key, system);
  }

  method AdminTopup(s: Store, target: UserId, amount: int, idemHeader: string, freshKey: string)
    returns (reply: Reply<TopupReceipt>, locks: seq<WalletId>)
    requires s.Valid()
    modifies s`book
    ensures s.Valid()
    ensures var o := CreditUser(old(s.book), s.walletOf, s.systemWallet, target, amount, TopupKey(idemHeader, freshKey));
            reply == o.reply && s.book == o.book && locks == o.locks
  {
    locks := [];
    if target == "" || amount <= 0 {
      reply := Fail(400, "invalid_request");
      return;
    }
    if amount > MaxTopup {
      reply := Fail(400, "amount_too_large");
      return;
    }
    if target !in s.walletOf {
      reply := Fail(400, "target_wallet_not_found");
      return;
    }
    var user := s.walletOf[target];
    if user == s.systemWallet {
      reply := Fail(400, "invalid_target_wallet");
      return;
    }
    var key := TopupKey(idemHeader, freshKey);
    locks := LockOrder(user, s.systemWallet);
    if key in s.book.keys {
      reply := Ok(200, TopupReceipt(s.book.keys[key], "succeeded"));
      return;
    }
    var id := |s.book.txs|;
    var book := Post(s.book, Move(Topup, amount, Some(key), s.systemWallet, user));
    HoldsSurviveAppend(s.book, book, s.walletOf, s.systemWallet, s.withdrawals);
    PayoutsKeyedGrow(s.book, book, s.payouts);
    s.CommitLedger(book);
    reply := Ok(201, TopupReceipt(id, "succeeded"));
  }
}
