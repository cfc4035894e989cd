/** The read side of a wallet: its derived balance and its transactions, newest first. Neither
    handler changes anything. */
module Wallets {
  import opened Base
  import opened Ledger
  import opened Store
  import opened Paging

  /** The WalletDTO payload: the balance in kobo and the currency. */
  datatype WalletView = WalletView(balance: int, currency: string)

  /** A TxDTO row: the transaction id, its kind, and what it did to this wallet. */
  datatype TxRow = TxRow(id: nat, kind: string, amountDelta: int)

  /** The listing payload: one page of rows and the paging actually applied. */
  datatype TxPage = TxPage(rows: seq<TxRow>, limit: int, offset: nat)

  /** The transaction has an entry on wallet w (the JOIN ... WHERE le.wallet_id = w). */
  predicate Touches(t: Transaction, w: WalletId) {
    exists j :: 0 <= j < |t.entries| && t.entries[j].wallet == w
  }

  /** One row per transaction touching w, newest first, with its delta on w. */
  function NewestFirst(txs: seq<Transaction>, w: WalletId): (rows: seq<TxRow>)
    ensures |rows| <= |txs|
  {
    if txs == [] then []
    else
      var last := |txs| - 1;
      var t := txs[last];
      var rest := NewestFirst(txs[..last], w);
      if Touches(t, w) then [TxRow(last, KindName(t.kind), TxDelta(t, w))] + rest else rest
  }

  /** Every row lists a transaction that touches w, with its kind and its delta on w, and the
      rows run from the newest transaction to the oldest. */
  predicate RowsOf(txs: seq<Transaction>, w: WalletId, rows: seq<TxRow>) {
    && (forall i :: 0 <= i < |rows| ==>
          && rows[i].id < |txs|
          && Touches(txs[rows[i].id], w)
          && rows[i].kind == KindName(txs[rows[i].id].kind)
          && rows[i].amountDelta == TxDelta(txs[rows[i].id], w))
    && (forall i, j :: 0 <= i < j < |rows| ==> rows[i].id > rows[j].id)
  }

  /** A listing of a prefix of the ledger is a listing of the whole ledger, on ids below the prefix's length. */
  lemma RowsOfPrefix(txs: seq<Transaction>, w: WalletId, rows: seq<TxRow>, n: nat)
    requires n <= |txs| && RowsOf(txs[..n], w, rows)
    ensures RowsOf(txs, w, rows) && forall i :: 0 <= i < |rows| ==> rows[i].id < n
  {
    forall i | 0 <= i < |rows| ensures rows[i].id < n && txs[rows[i].id] == txs[..n][rows[i].id] {
    }
  }

  /** The row of a newer transaction can go in front of a listing. */
  lemma RowsOfCons(txs: seq<Transaction>, w: WalletId, row: TxRow, rows: seq<TxRow>)
    requires RowsOf(txs, w, rows) && forall i :: 0 <= i < |rows| ==> rows[i].id < row.id
    requires row.id < |txs| && Touches(txs[row.id], w)
    requires row.kind == KindName(txs[row.id].kind) && row.amountDelta == TxDelta(txs[row.id], w)
    ensures RowsOf(txs, w, [row] + rows)
  {
    var r := [row] + rows;
    forall i | 1 <= i < |r| ensures r[i] == rows[i - 1] {
    }
  }

  /** The listing only shows w's own transactions, newest first. */
  lemma {:induction false} NewestFirstSound(txs: seq<Transaction>, w: WalletId)
    ensures RowsOf(txs, w, NewestFirst(txs, w))
  {
    if txs != [] {
      var last := |txs| - 1;
      var t := txs[last];
      var rest := NewestFirst(txs[..last], w);
      NewestFirstSound(txs[..last], w);
      RowsOfPrefix(txs, w, rest, last);
      if Touches(t, w) {
        RowsOfCons(txs, w, TxRow(last, KindName(t.kind), TxDelta(t, w)), rest);
      }
    }
  }

  /** Every transaction that touches w is listed. */
  lemma {:induction false} NewestFirstComplete(txs: seq<Transaction>, w: WalletId, k: nat)
    requires k < |txs| && Touches(txs[k], w)
    ensures exists i :: 0 <= i < |NewestFirst(txs, w)| && NewestFirst(txs, w)[i].id == k
  {
    var last := |txs| - 1;
    var t := txs[last];
    var rows := NewestFirst(txs, w);
    var rest := NewestFirst(txs[..last], w);
    if k == last {
      assert rows[0].id == k;
    } else {
      assert txs[..last][k] == txs[k];
      NewestFirstComplete(txs[..last], w, k);
      var i :| 0 <= i < |rest| && rest[i].id == k;
      if Touches(t, w) {
        assert rows[i + 1] == rest[i];
      } else {
        assert rows[i] == rest[i];
      }
    }
  }

  function SumDeltas(rows: seq<TxRow>): int {
    if rows == [] then 0 else rows[0].amountDelta + SumDeltas(rows[1..])
  }

  /** A transaction that does not touch w leaves w's balance alone. */
  lemma UntouchedDeltaZero(t: Transaction, w: WalletId)
    requires !Touches(t, w)
    ensures TxDelta(t, w) == 0
  {
    EntriesWithoutWallet(t.entries, w);
  }

  /** The full listing agrees with the balance: the deltas of all rows add up to it. */
  lemma {:induction false} DeltasSumToBalance(txs: seq<Transaction>, w: WalletId)
    ensures SumDeltas(NewestFirst(txs, w)) == Balance(txs, w)
  {
    if txs != [] {
      var last := |txs| - 1;
      var t := txs[last];
      DeltasSumToBalance(txs[..last], w);
      if !Touches(t, w) {
        UntouchedDeltaZero(t, w);
      } else {
        var rows := [TxRow(last, KindName(t.kind), TxDelta(t, w))] + NewestFirst(txs[..last], w);
        assert rows[1..] == NewestFirst(txs[..last], w);
      }
    }
  }

  /** On a balanced transaction between two different wallets, the delta a row shows is the
      transaction amount, positive for the credited wallet and negative for the debited one. */
  lemma DeltaIsSignedAmount(t: Transaction, w: WalletId, j: nat)
    requires DoubleEntry(t) && t.entries[0].wallet != t.entries[1].wallet
    requires j < 2 && t.entries[j].wallet == w
    ensures TxDelta(t, w) == if t.entries[j].direction == Credit then t.amount else -t.amount
  {
    PairDelta(t.entries, w);
  }

  /** GetWallet: 404 when the user has no wallet, otherwise the balance derived from the ledger. */
  function GetWallet(s: Store, uid: UserId): (r: Reply<WalletView>)
    reads s
    ensures uid !in s.walletOf ==> r == Fail(404, "wallet_not_found")
    ensures uid in s.walletOf ==> r.Ok? && r.status == 200 && r.data.currency == "NGN"
    ensures uid in s.walletOf ==> r.data.balance == SumDeltas(NewestFirst(s.book.txs, s.walletOf[uid]))
  {
    if uid !in s.walletOf then Fail(404, "wallet_not_found")
    else
      DeltasSumToBalance(s.book.txs, s.walletOf[uid]);
      Ok(200, WalletView(Balance(s.book.txs, s.walletOf[uid]), "NGN"))
  }

  /** A page of a listing is a listing. */
  lemma PageKeepsRows(txs: seq<Transaction>, w: WalletId, rows: seq<TxRow>, limit: nat, offset: nat)
    requires RowsOf(txs, w, rows)
    ensures RowsOf(txs, w, Page(rows, limit, offset))
  {
    var page := Page(rows, limit, offset);
    forall i, j | 0 <= i < j < |page| ensures page[i].id > page[j].id {
      assert page[i] == rows[offset + i] && page[j] == rows[offset + j];
    }
    forall i | 0 <= i < |page| ensures page[i] == rows[offset + i] {
    }
  }

  /** ListWalletTransactions: 404 without a wallet, otherwise one page of the wallet's
      transactions, newest first, each with its delta on the wallet. */
  function ListWalletTransactions(s: Store, uid: UserId, limitParam: string, offsetParam: string): (r: Reply<TxPage>)
    reads s
    ensures uid !in s.walletOf ==> r == Fail(404, "wallet_not_found")
    ensures uid in s.walletOf ==>
              && r.Ok? && r.status == 200
              && r.data.limit == Limit(limitParam) && r.data.offset == Offset(offsetParam)
              && |r.data.rows| <= r.data.limit
              && (forall i :: 0 <= i < |r.data.rows| ==>
                    && r.data.rows[i].id < |s.book.txs|
                    && Touches(s.book.txs[r.data.rows[i].id], s.walletOf[uid])
                    && r.data.rows[i].amountDelta == TxDelta(s.book.txs[r.data.rows[i].id], s.walletOf[uid]))
              && (forall i, j :: 0 <= i < j < |r.data.rows| ==> r.data.rows[i].id > r.data.rows[j].id)
    ensures uid in s.walletOf ==> r.data.rows == Page(NewestFirst(s.book.txs, s.walletOf[uid]), Limit(limitParam), Offset(offsetParam))
  {
    if uid !in s.walletOf then Fail(404, "wallet_not_found")
    else
      var limit, offset := Limit(limitParam), Offset(offsetParam);
      var w := s.walletOf[uid];
      var rows := NewestFirst(s.book.txs, w);
      var page := Page(rows, limit, offset);
      assert RowsOf(s.book.txs, w, page) by {
        NewestFirstSound(s.book.txs, w);
        PageKeepsRows(s.book.txs, w, rows, limit, offset);
      }
      Ok(200, TxPage(page, limit, offset))
  }
}
