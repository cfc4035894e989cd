/** The ledger store: an append-only sequence of transactions, each with exactly two entries
    (one debit and one credit of the transaction's amount), and a unique index of idempotency
    keys. A wallet has no stored balance; its balance is the sum of its credits minus the sum
    of its debits. */
module Ledger {
  import opened Base

  datatype Direction = Debit | Credit

  /** The kinds the handlers write. A withdrawal hold and its reversal are both stored as
      "withdrawal"; the reversal differs only by its metadata. */
  datatype Kind = Gift | Topup | WithdrawalHold | WithdrawalReversal | WithdrawalReserve | WithdrawalRefund

  function KindName(k: Kind): string {
    match k
    case Gift => "gift"
    case Topup => "topup"
    case WithdrawalHold => "withdrawal"
    case WithdrawalReversal => "withdrawal"
    case WithdrawalReserve => "withdrawal_reserve"
    case WithdrawalRefund => "withdrawal_refund"
  }

  /** One row of ledger_entries. */
  datatype Entry = Entry(wallet: WalletId, direction: Direction, amount: int)

  /** One row of transactions together with its entries. Transaction ids are positions in the ledger. */
  datatype Transaction = Transaction(kind: Kind, amount: int, key: Option<string>, entries: seq<Entry>)

  /** The double-entry law: a positive amount, one debit and one credit, both of that amount. */
  predicate DoubleEntry(t: Transaction) {
    && t.amount > 0
    && |t.entries| == 2
    && t.entries[0].amount == t.amount
    && t.entries[1].amount == t.amount
    && t.entries[0].direction != t.entries[1].direction
  }

  /** The contribution of one entry to wallet w: +amount for a credit, -amount for a debit. */
  function Signed(e: Entry, w: WalletId): int {
    if e.wallet != w then 0 else if e.direction == Credit then e.amount else -e.amount
  }

  function EntriesDelta(es: seq<Entry>, w: WalletId): int {
    if es == [] then 0 else EntriesDelta(es[..|es| - 1], w) + Signed(es[|es| - 1], w)
  }

  lemma PairDelta(es: seq<Entry>, w: WalletId)
    requires |es| == 2
    ensures EntriesDelta(es, w) == Signed(es[0], w) + Signed(es[1], w)
  {
    var first := es[..1];
    assert first[..0] == [] && first[0] == es[0];
    assert EntriesDelta(first, w) == Signed(es[0], w);
  }

  lemma PairTotal(es: seq<Entry>, d: Direction)
    requires |es| == 2
    ensures DirectionTotal(es, d) ==
            (if es[0].direction == d then es[0].amount else 0) + (if es[1].direction == d then es[1].amount else 0)
  {
    var first := es[..1];
    assert first[..0] == [] && first[0] == es[0];
    assert DirectionTotal(first, d) == (if es[0].direction == d then es[0].amount else 0);
  }

  /** What a transaction does to wallet w: the sum of its signed entries on w. */
  function TxDelta(t: Transaction, w: WalletId): int {
    EntriesDelta(t.entries, w)
  }

  /** The total of w's entries in direction d. */
  function WalletTotal(es: seq<Entry>, w: WalletId, d: Direction): int {
    if es == [] then 0
    else WalletTotal(es[..|es| - 1], w, d) + (if es[|es| - 1].wallet == w && es[|es| - 1].direction == d then es[|es| - 1].amount else 0)
  }

  /** The total of w's entries in direction d over a run of transactions. */
  function Turnover(txs: seq<Transaction>, w: WalletId, d: Direction): int {
    if txs == [] then 0 else Turnover(txs[..|txs| - 1], w, d) + WalletTotal(txs[|txs| - 1].entries, w, d)
  }

  /** A transaction's signed delta on w is its credits to w minus its debits from w. */
  lemma {:induction false} DeltaSplits(es: seq<Entry>, w: WalletId)
    ensures EntriesDelta(es, w) == WalletTotal(es, w, Credit) - WalletTotal(es, w, Debit)
  {
    if es != [] {
      DeltaSplits(es[..|es| - 1], w);
    }
  }

  /** COALESCE(SUM(CASE WHEN direction='credit' THEN amount ELSE -amount END), 0) over w's entries:
      what w was credited minus what it was debited. */
  function Balance(txs: seq<Transaction>, w: WalletId): (b: int)
    ensures b == Turnover(txs, w, Credit) - Turnover(txs, w, Debit)
  {
    if txs == [] then 0
    else
      DeltaSplits(txs[|txs| - 1].entries, w);
      Balance(txs[..|txs| - 1], w) + TxDelta(txs[|txs| - 1], w)
  }

  /** The total of the entries with direction d. */
  function DirectionTotal(es: seq<Entry>, d: Direction): int {
    if es == [] then 0
    else DirectionTotal(es[..|es| - 1], d) + (if es[|es| - 1].direction == d then es[|es| - 1].amount else 0)
  }

  /** A transaction obeying the double-entry law has equal credit and debit totals, and what
      it takes from one wallet it gives to the other. */
  lemma DoubleEntryBalances(t: Transaction)
    requires DoubleEntry(t)
    ensures DirectionTotal(t.entries, Credit) == DirectionTotal(t.entries, Debit) == t.amount
    ensures t.entries[0].wallet != t.entries[1].wallet ==>
              TxDelta(t, t.entries[0].wallet) + TxDelta(t, t.entries[1].wallet) == 0
    ensures forall w :: w != t.entries[0].wallet && w != t.entries[1].wallet ==> TxDelta(t, w) == 0
  {
    PairTotal(t.entries, Credit);
    PairTotal(t.entries, Debit);
    forall w ensures TxDelta(t, w) == Signed(t.entries[0], w) + Signed(t.entries[1], w) {
      PairDelta(t.entries, w);
    }
  }

  /** The two entries "debit from, credit to", in that order. */
  function Move(kind: Kind, amount: int, key: Option<string>, from: WalletId, to: WalletId): (t: Transaction)
    requires amount > 0
    ensures DoubleEntry(t) && t.kind == kind && t.amount == amount && t.key == key
  {
    Transaction(kind, amount, key, [Entry(from, Debit, amount), Entry(to, Credit, amount)])
  }

  /** A move takes the amount from one wallet and gives it to the other; a move from a wallet to
      itself changes nothing. */
  lemma MoveDelta(kind: Kind, amount: int, key: Option<string>, from: WalletId, to: WalletId, w: WalletId)
    requires amount > 0
    ensures TxDelta(Move(kind, amount, key, from, to), w) == (if w == to then amount else 0) - (if w == from then amount else 0)
  {
    PairDelta(Move(kind, amount, key, from, to).entries, w);
  }

  /** The two entries "credit to, debit from", in that order (the shape of reversals and refunds). */
  function CreditFirst(kind: Kind, amount: int, key: Option<string>, to: WalletId, from: WalletId): (t: Transaction)
    requires amount > 0
    ensures DoubleEntry(t) && t.kind == kind && t.amount == amount && t.key == key
  {
    Transaction(kind, amount, key, [Entry(to, Credit, amount), Entry(from, Debit, amount)])
  }

  lemma CreditFirstDelta(kind: Kind, amount: int, key: Option<string>, to: WalletId, from: WalletId, w: WalletId)
    requires amount > 0
    ensures TxDelta(CreditFirst(kind, amount, key, to, from), w) == (if w == to then amount else 0) - (if w == from then amount else 0)
  {
    PairDelta(CreditFirst(kind, amount, key, to, from).entries, w);
  }

  function Flip(d: Direction): Direction {
    if d == Debit then Credit else Debit
  }

  /** The exact mirror of t: the same wallets and amount with every direction flipped, without a key. */
  function Mirror(t: Transaction, kind: Kind): (r: Transaction)
    requires DoubleEntry(t)
    ensures DoubleEntry(r) && r.kind == kind && r.amount == t.amount && r.key == None
  {
    var e0, e1 := t.entries[0], t.entries[1];
    Transaction(kind, t.amount, None, [e0.(direction := Flip(e0.direction)), e1.(direction := Flip(e1.direction))])
  }

  /** The mirror undoes t on every wallet. */
  lemma MirrorDelta(t: Transaction, kind: Kind, w: WalletId)
    requires DoubleEntry(t)
    ensures TxDelta(Mirror(t, kind), w) == -TxDelta(t, w)
  {
    PairDelta(t.entries, w);
    PairDelta(Mirror(t, kind).entries, w);
  }

  lemma {:induction false} BalanceConcat(a: seq<Transaction>, b: seq<Transaction>, w: WalletId)
    ensures Balance(a + b, w) == Balance(a, w) + Balance(b, w)
    decreases |b|
  {
    if b != [] {
      var b' := b[..|b| - 1];
      assert (a + b)[..|a + b| - 1] == a + b';
      BalanceConcat(a, b', w);
    } else {
      assert a + b == a;
    }
  }

  /** A wallet with no entries has balance 0. */
  lemma {:induction false} BalanceWithoutEntries(txs: seq<Transaction>, w: WalletId)
    requires forall i, j :: 0 <= i < |txs| && 0 <= j < |txs[i].entries| ==> txs[i].entries[j].wallet != w
    ensures Balance(txs, w) == 0
  {
    if txs != [] {
      var t := txs[|txs| - 1];
      EntriesWithoutWallet(t.entries, w);
      BalanceWithoutEntries(txs[..|txs| - 1], w);
    }
  }

  lemma {:induction false} EntriesWithoutWallet(es: seq<Entry>, w: WalletId)
    requires forall j :: 0 <= j < |es| ==> es[j].wallet != w
    ensures EntriesDelta(es, w) == 0
  {
    if es != [] {
      EntriesWithoutWallet(es[..|es| - 1], w);
    }
  }

  /** Posting a hold and, at any later point, its mirror leaves every balance as if neither had been posted. */
  lemma HoldThenMirrorRestores(before: seq<Transaction>, hold: Transaction, between: seq<Transaction>, kind: Kind, w: WalletId)
    requires DoubleEntry(hold)
    ensures Balance(before + [hold] + between + [Mirror(hold, kind)], w) == Balance(before + between, w)
  {
    MirrorDelta(hold, kind, w);
    BalanceConcat(before + [hold] + between, [Mirror(hold, kind)], w);
    BalanceConcat(before + [hold], between, w);
    BalanceConcat(before, [hold], w);
    BalanceConcat(before, between, w);
  }

  /** The ledger: its transactions in creation order and the unique index of idempotency keys. */
  datatype Book = Book(txs: seq<Transaction>, keys: map<string, nat>)

  /** Every transaction obeys the double-entry law and keys maps each used key to the one
      transaction carrying it (the UNIQUE constraint on transactions.idempotency_key). */
  predicate WellFormed(b: Book) {
    && (forall i :: 0 <= i < |b.txs| ==> DoubleEntry(b.txs[i]))
    && (forall k :: k in b.keys ==> b.keys[k] < |b.txs| && b.txs[b.keys[k]].key == Some(k))
    && (forall i :: 0 <= i < |b.txs| && b.txs[i].key.Some? ==>
          b.txs[i].key.value in b.keys && b.keys[b.txs[i].key.value] == i)
  }

  const EmptyBook: Book := Book([], map[])

  lemma EmptyBookWellFormed()
    ensures WellFormed(EmptyBook)
  {
  }

  /** No two transactions carry the same idempotency key. */
  lemma KeysUnique(b: Book, i: nat, j: nat)
    requires WellFormed(b) && i < |b.txs| && j < |b.txs|
    requires b.txs[i].key.Some? && b.txs[i].key == b.txs[j].key
    ensures i == j
  {
  }

  /** post: append one balanced transaction whose key, if any, is unused. Every balance moves by
      exactly what the transaction does to it. */
  function Post(b: Book, t: Transaction): (r: Book)
    requires WellFormed(b) && DoubleEntry(t)
    requires t.key.Some? ==> t.key.value !in b.keys
    ensures WellFormed(r)
    ensures r.txs == b.txs + [t]
    ensures r.keys.Keys == b.keys.Keys + (if t.key.Some? then {t.key.value} else {})
    ensures forall k :: k in b.keys ==> r.keys[k] == b.keys[k]
  {
    Book(b.txs + [t], if t.key.Some? then b.keys[t.key.value := |b.txs|] else b.keys)
  }

  /** Posting t shifts every balance by what t does to that wallet. */
  lemma PostBalance(b: Book, t: Transaction, w: WalletId)
    requires WellFormed(b) && DoubleEntry(t)
    requires t.key.Some? ==> t.key.value !in b.keys
    ensures Balance(Post(b, t).txs, w) == Balance(b.txs, w) + TxDelta(t, w)
  {
    var txs := Post(b, t).txs;
    assert txs[..|txs| - 1] == b.txs;
  }
}
