/** CreateGift: a user moves kobo from their wallet to another user's wallet. */
module Gifts {
  import opened Base
  import opened Text
  import opened Locking
  import opened Ledger
  import opened Store

  /** The giftResp payload. */
  datatype GiftReceipt = GiftReceipt(giftId: nat, status: string)

  /** The gift's idempotency key: the Idempotency-Key header, or a fresh UUID when the header is
      empty, and only then trimmed. */
  function GiftKey(header: string, generated: string): (k: string)
    ensures k == TrimSpace(k)
    ensures header != "" ==> k == TrimSpace(header)
    ensures header != "" && !IsSpace(header[0]) && !IsSpace(header[|header| - 1]) ==> k == header
    ensures header == "" ==> k == TrimSpace(generated)
  {
    var raw := if header == "" then generated else header;
    assert TrimSpace(TrimSpace(raw)) == TrimSpace(raw) by { TrimSpaceIdempotent(raw); }
    TrimSpace(raw)
  }

  /** Because the trim comes after the fallback, a header of white space alone yields the empty
      key, which every later blank-header gift shares. */
  lemma BlankHeaderGivesEmptyKey(header: string, generated: string)
    requires header != [] && forall i :: 0 <= i < |header| ==> IsSpace(header[i])
    ensures GiftKey(header, generated) == ""
  {
    TrimSpaceEmpty(header);
  }

  /** The request is valid and both wallets exist: the handler goes on to lock them. */
  predicate Admitted(walletOf: map<UserId, WalletId>, uid: UserId, recipient: UserId, amount: int) {
    recipient != "" && amount > 0 && recipient != uid && uid in walletOf && recipient in walletOf
  }

  /** The outcome of one call: the response, the ledger afterwards, and the wallets locked, in order. */
  datatype GiftOutcome = GiftOutcome(reply: Reply<GiftReceipt>, book: Book, locks: seq<WalletId>)

  /** What CreateGift does to the ledger, given the key it settled on. */
  function SendGift(book: Book, walletOf: map<UserId, WalletId>, uid: UserId, recipient: UserId, amount: int, key: string): (o: GiftOutcome)
    requires WellFormed(book) && Injective(walletOf)
    ensures WellFormed(o.book)
    ensures o.book == book || (Admitted(walletOf, uid, recipient, amount) && o.book.txs == book.txs + [Move(Gift, amount, Some(key), walletOf[uid], walletOf[recipient])])
    ensures o.reply.Fail? ==> o.book == book
  {
    if recipient == "" || amount <= 0 then GiftOutcome(Fail(400, "invalid_request"), book, [])
    else if recipient == uid then GiftOutcome(Fail(400, "cannot_gift_self"), book, [])
    else if uid !in walletOf then GiftOutcome(Fail(404, "wallet_not_found"), book, [])
    else if recipient !in walletOf then GiftOutcome(Fail(400, "recipient_wallet_not_found"), book, [])
    else
      var sender, receiver := walletOf[uid], walletOf[recipient];
      var locks := LockOrder(sender, receiver);
      if key in book.keys then GiftOutcome(Ok(200, GiftReceipt(book.keys[key], "succeeded")), book, locks)
      else if Balance(book.txs, sender) < amount then GiftOutcome(Fail(400, "insufficient_funds"), book, locks)
      else GiftOutcome(Ok(201, GiftReceipt(|book.txs|, "succeeded")), Post(book, Move(Gift, amount, Some(key), sender, receiver)), locks)
  }

  /** The guards, in the handler's order: a blank recipient or a non-positive amount, then a gift
      to oneself, then a missing wallet on either side. None of them touches the ledger or locks. */
  lemma GiftRejections(book: Book, walletOf: map<UserId, WalletId>, uid: UserId, recipient: UserId, amount: int, key: string)
    requires WellFormed(book) && Injective(walletOf)
    ensures var o := SendGift(book, walletOf, uid, recipient, amount, key);
            && (recipient == "" || amount <= 0 ==> o.reply == Fail(400, "invalid_request"))
            && (recipient != "" && amount > 0 && recipient == uid ==> o.reply == Fail(400, "cannot_gift_self"))
            && (recipient != "" && amount > 0 && recipient != uid && uid !in walletOf ==> o.reply == Fail(404, "wallet_not_found"))
            && (recipient != "" && amount > 0 && recipient != uid && uid in walletOf && recipient !in walletOf ==>
                  o.reply == Fail(400, "recipient_wallet_not_found"))
            && (!Admitted(walletOf, uid, recipient, amount) ==> o.book == book && o.locks == [])
  {
  }

  /** An admitted gift locks the two wallets in sorted order, whichever way round they are given. */
  lemma GiftLocksInOrder(book: Book, walletOf: map<UserId, WalletId>, uid: UserId, recipient: UserId, amount: int, key: string)
    requires WellFormed(book) && Injective(walletOf) && Admitted(walletOf, uid, recipient, amount)
    ensures var o := SendGift(book, walletOf, uid, recipient, amount, key);
            && o.locks == LockOrder(walletOf[recipient], walletOf[uid])
            && LexLe(o.locks[0], o.locks[1]) && o.locks[0] != o.locks[1]
  {
    LockOrderSymmetric(walletOf[uid], walletOf[recipient]);
  }

  /** A key already on the ledger returns the transaction that carries it and appends nothing. */
  lemma GiftReplay(book: Book, walletOf: map<UserId, WalletId>, uid: UserId, recipient: UserId, amount: int, key: string)
    requires WellFormed(book) && Injective(walletOf) && Admitted(walletOf, uid, recipient, amount)
    requires key in book.keys
    ensures var o := SendGift(book, walletOf, uid, recipient, amount, key);
            && o.reply == Ok(200, GiftReceipt(book.keys[key], "succeeded")) && o.book == book
            && book.txs[o.reply.data.giftId].key == Some(key)
  {
  }

  /** insufficient_funds exactly when the sender's balance is below the amount. */
  lemma GiftInsufficientIff(book: Book, walletOf: map<UserId, WalletId>, uid: UserId, recipient: UserId, amount: int, key: string)
    requires WellFormed(book) && Injective(walletOf) && Admitted(walletOf, uid, recipient, amount)
    requires key !in book.keys
    ensures SendGift(book, walletOf, uid, recipient, amount, key).reply == Fail(400, "insufficient_funds")
            <==> Balance(book.txs, walletOf[uid]) < amount
  {
  }

  /** A gift that goes through appends one gift transaction and moves exactly the amount from
      the sender to the recipient; every other wallet keeps its balance. */
  lemma GiftMovesAmount(book: Book, walletOf: map<UserId, WalletId>, uid: UserId, recipient: UserId, amount: int, key: string, w: WalletId)
    requires WellFormed(book) && Injective(walletOf) && Admitted(walletOf, uid, recipient, amount)
    requires key !in book.keys && Balance(book.txs, walletOf[uid]) >= amount
    ensures var o := SendGift(book, walletOf, uid, recipient, amount, key);
            && o.reply == Ok(201, GiftReceipt(|book.txs|, "succeeded"))
            && o.book.txs == book.txs + [Move(Gift, amount, Some(key), walletOf[uid], walletOf[recipient])]
            && o.book.keys[key] == |book.txs|
            && Balance(o.book.txs, w) == Balance(book.txs, w)
                 + (if w == walletOf[recipient] then amount else 0) - (if w == walletOf[uid] then amount else 0)
  {
    PostBalance(book, Move(Gift, amount, Some(key), walletOf[uid], walletOf[recipient]), w);
    MoveDelta(Gift, amount, Some(key), walletOf[uid], walletOf[recipient], w);
  }

  /** A sender whose balance is not negative never ends up negative, whatever the call: gifting
      the whole balance leaves zero. */
  lemma GiftKeepsSenderSolvent(book: Book, walletOf: map<UserId, WalletId>, uid: UserId, recipient: UserId, amount: int, key: string)
    requires WellFormed(book) && Injective(walletOf) && uid in walletOf
    requires Balance(book.txs, walletOf[uid]) >= 0
    ensures Balance(SendGift(book, walletOf, uid, recipient, amount, key).book.txs, walletOf[uid]) >= 0
  {
    var o := SendGift(book, walletOf, uid, recipient, amount, key);
    if o.book != book {
      GiftMovesAmount(book, walletOf, uid, recipient, amount, key, walletOf[uid]);
    }
  }

  /** The handler as one atomic step on the store. */
  method CreateGift(s: Store, uid: UserId, recipient: UserId, amount: int, idemHeader: string, freshKey: string)
    returns (reply: Reply<GiftReceipt>, locks: seq<WalletId>)
    requires s.Valid()
    modifies s`book
    ensures s.Valid()
    ensures var o := SendGift(old(s.book), s.walletOf, uid, recipient, amount, GiftKey(idemHeader, freshKey));
            reply == o.reply && s.book == o.book && locks == o.locks
  {
    locks := [];
    if recipient == "" || amount <= 0 {
      reply := Fail(400, "invalid_request");
      return;
    }
    if recipient == uid {
      reply := Fail(400, "cannot_gift_self");
      return;
    }
    if uid !in s.walletOf {
      reply := Fail(404, "wallet_not_found");
      return;
    }
    var sender := s.walletOf[uid];
    if recipient !in s.walletOf {
      reply := Fail(400, "recipient_wallet_not_found");
      return;
    }
    var receiver := s.walletOf[recipient];
    var key := GiftKey(idemHeader, freshKey);
    locks := LockOrder(sender, receiver);
    if key in s.book.keys {
      reply := Ok(200, GiftReceipt(s.book.keys[key], "succeeded"));
      return;
    }
    var balance := Balance(s.book.txs, sender);
    if balance < amount {
      reply := Fail(400, "insufficient_funds");
      return;
    }
    var id := |s.book.txs|;
    var book := Post(s.book, Move(Gift, amount, Some(key), sender, receiver));
    HoldsSurviveAppend(s.book, book, s.walletOf, s.systemWallet, s.withdrawals);
    PayoutsKeyedGrow(s.book, book, s.payouts);
    s.CommitLedger(book);
    reply := Ok(201, GiftReceipt(id, "succeeded"));
  }
}
