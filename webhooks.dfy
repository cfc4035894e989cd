/** The provider's transfer webhook (webhook_handlers.go): an authenticated event is logged, the
    payout_transfers row of its reference takes the provider's status, lower-cased, and the
    withdrawal behind it is settled as paid or failed while it is still open. The ledger is
    never touched. */
module Webhooks {
  import opened Base
  import opened Text
  import opened Ledger
  import opened Store

  /** A decoded JSON value, as encoding/json decodes into `any`. Numbers keep their literal text. */
  datatype Json =
    | JNull
    | JBool(b: bool)
    | JNumber(literal: string)
    | JString(s: string)
    | JArray(items: seq<Json>)
    | JObject(fields: map<string, Json>)

  /** A Go map[string]any, which may be nil. */
  type JsonMap = Option<map<string, Json>>

  /** getString: "" for a nil map and for a missing or null key; a string as it is; any other
      value as json.Marshal renders it (marshal is that library function). */
  function GetString(m: JsonMap, k: string, marshal: Json -> string): (r: string)
    ensures m.None? || k !in m.value || m.value[k] == JNull ==> r == ""
    ensures m.Some? && k in m.value && m.value[k].JString? ==> r == m.value[k].s
  {
    match m
    case None => ""
    case Some(fields) =>
      if k !in fields then ""
      else match fields[k]
        case JNull => ""
        case JString(s) => s
        case _ => marshal(fields[k])
  }

  /** getMap: the value under k when it is an object, otherwise nil. */
  function GetMap(m: JsonMap, k: string): (r: JsonMap)
    ensures r.Some? <==> m.Some? && k in m.value && m.value[k].JObject?
    ensures r.Some? ==> r.value == m.value[k].fields
  {
    match m
    case None => None
    case Some(fields) =>
      if k in fields && fields[k].JObject? then Some(fields[k].fields) else None
  }

  /** A string stored under a key reads back as itself, and an object as its fields, whatever
      else the map holds; a key that is overwritten with null reads back as "". */
  lemma GetAfterPut(fields: map<string, Json>, k: string, s: string, inner: map<string, Json>, marshal: Json -> string)
    ensures GetString(Some(fields[k := JString(s)]), k, marshal) == s
    ensures GetString(Some(fields[k := JNull]), k, marshal) == ""
    ensures GetMap(Some(fields[k := JObject(inner)]), k) == Some(inner)
    ensures GetMap(Some(fields[k := JString(s)]), k) == None
  {
  }

  /** json.Unmarshal into a map[string]any: only a JSON object fills the map; anything else
      (null, another kind of value, or text that is not JSON) leaves it nil. */
  function Payload(body: Option<Json>): (m: JsonMap)
    ensures m.Some? <==> body.Some? && body.value.JObject?
  {
    if body.Some? && body.value.JObject? then Some(body.value.fields) else None
  }

  /** The withdrawal status a lower-cased provider status settles to, if any. */
  function Settlement(status: string): (r: Option<WithdrawalStatus>)
    ensures r.Some? ==> r.value in {Paid, Failed}
    ensures r == Some(Paid) <==> status in {"successful", "success", "completed"}
    ensures r == Some(Failed) <==> status in {"failed", "error"}
  {
    if status == "successful" || status == "success" || status == "completed" then Some(Paid)
    else if status == "failed" || status == "error" then Some(Failed)
    else None
  }

  /** The provider's upper-case spellings of success settle like the lower-case ones, because the
      status is lower-cased before it is matched. */
  lemma UpperCaseSuccessSettles(status: string)
    requires status in {"SUCCESSFUL", "SUCCESS", "COMPLETED"}
    ensures Settlement(ToLower(status)) == Some(Paid)
  {
    if status == "SUCCESSFUL" {
      LowerCaseOf(status, "successful");
    } else if status == "SUCCESS" {
      LowerCaseOf(status, "success");
    } else {
      LowerCaseOf(status, "completed");
    }
  }

  /** Likewise for the upper-case spellings of failure. */
  lemma UpperCaseFailureSettles(status: string)
    requires status in {"FAILED", "ERROR"}
    ensures Settlement(ToLower(status)) == Some(Failed)
  {
    if status == "FAILED" {
      LowerCaseOf(status, "failed");
    } else {
      LowerCaseOf(status, "error");
    }
  }

  /** A status outside the vocabulary settles nothing, whatever its case. */
  lemma UpperCasePendingIgnored()
    ensures Settlement(ToLower("PENDING")) == None
  {
    LowerCaseOf("PENDING", "pending");
  }

  /** Lower-casing an upper-case word letter by letter gives its lower-case spelling. */
  lemma LowerCaseOf(upper: string, lower: string)
    requires |upper| == |lower|
    requires forall i :: 0 <= i < |upper| ==> 'A' <= upper[i] <= 'Z' && lower[i] as int == upper[i] as int + 32
    ensures ToLower(upper) == lower
  {
  }

  /** The request is authentic when a secret is configured and the verif-hash header equals it. */
  predicate Authentic(secret: string, header: string) {
    secret != "" && header == secret
  }

  /** The outcome of the webhook: the response and the three tables it may write. */
  datatype WebhookOutcome = WebhookOutcome(
    reply: Reply<string>, events: seq<WebhookEvent>, transfers: map<string, PayoutTransfer>, withdrawals: map<string, Withdrawal>)

  /** The fields the handler reads from the payload. */
  datatype Notice = Notice(event: string, reference: string, status: string)

  function ReadNotice(body: Option<Json>, marshal: Json -> string): (n: Notice)
    ensures forall i :: 0 <= i < |n.status| ==> !('A' <= n.status[i] <= 'Z')
    ensures body.None? || !body.value.JObject? ==> n == Notice("", "", "")
  {
    var payload := Payload(body);
    var data := GetMap(payload, "data");
    Notice(GetString(payload, "event", marshal), GetString(data, "reference", marshal), ToLower(GetString(data, "status", marshal)))
  }

  /** The webhook_events row. The INSERT casts the raw body to jsonb, so it only succeeds, and the
      row only exists, when the body is JSON; its error is ignored. */
  function Logged(events: seq<WebhookEvent>, body: Option<Json>, raw: string, n: Notice): (r: seq<WebhookEvent>)
    ensures |r| == |events| + (if body.Some? then 1 else 0) && r[..|events|] == events
    ensures body.Some? ==> r[|events|].payload == raw && r[|events|].provider == "flutterwave"
  {
    if body.None? then events
    else events + [WebhookEvent("flutterwave", n.event, if n.reference == "" then None else Some(n.reference), raw)]
  }

  /** The UPDATE of the withdrawal behind the reference's transfer row: only an approved or
      pending withdrawal moves, to the status the provider's status settles to. */
  function Settled(transfers: map<string, PayoutTransfer>, ws: map<string, Withdrawal>, reference: string, status: string): (r: map<string, Withdrawal>)
    ensures r.Keys == ws.Keys
    ensures forall k :: k in ws ==>
              r[k].userId == ws[k].userId && r[k].amount == ws[k].amount && r[k].holdTx == ws[k].holdTx && r[k].decidedBy == ws[k].decidedBy
  {
    if reference !in transfers then ws
    else
      var id := transfers[reference].withdrawalId;
      match Settlement(status)
      case None => ws
      case Some(target) =>
        if id in ws && ws[id].status in {Approved, Pending} then ws[id := ws[id].(status := target)] else ws
  }

  /** The UPDATE of payout_transfers: the row of the reference, if any, takes the status. */
  function Retagged(transfers: map<string, PayoutTransfer>, reference: string, status: string): (r: map<string, PayoutTransfer>)
    ensures r.Keys == transfers.Keys
    ensures forall k :: k in transfers ==> r[k].withdrawalId == transfers[k].withdrawalId && r[k].amount == transfers[k].amount
  {
    if reference in transfers then transfers[reference := transfers[reference].(status := status)] else transfers
  }

  /** What an authentic webhook does with the notice n read from its body. */
  function Reconcile(events: seq<WebhookEvent>, transfers: map<string, PayoutTransfer>, ws: map<string, Withdrawal>,
                     body: Option<Json>, raw: string, n: Notice): (o: WebhookOutcome)
    ensures o.reply == Ok(200, "ok")
    ensures o.transfers.Keys == transfers.Keys && o.withdrawals.Keys == ws.Keys
  {
    var events' := Logged(events, body, raw, n);
    if n.reference == "" then WebhookOutcome(Ok(200, "ok"), events', transfers, ws)
    else
      WebhookOutcome(Ok(200, "ok"), events', Retagged(transfers, n.reference, n.status), Settled(transfers, ws, n.reference, n.status))
  }

  /** What FlutterwaveWebhook does. */
  function HandleWebhook(events: seq<WebhookEvent>, transfers: map<string, PayoutTransfer>, ws: map<string, Withdrawal>,
                         secret: string, header: string, raw: string, body: Option<Json>, marshal: Json -> string): (o: WebhookOutcome)
    ensures o.transfers.Keys == transfers.Keys && o.withdrawals.Keys == ws.Keys
    ensures o.reply.Fail? ==> o.events == events && o.transfers == transfers && o.withdrawals == ws
  {
    if !Authentic(secret, header) then WebhookOutcome(Fail(403, "invalid signature"), events, transfers, ws)
    else Reconcile(events, transfers, ws, body, raw, ReadNotice(body, marshal))
  }

  /** Without a configured secret, or with a verif-hash that differs from it, the answer is 403
      and nothing is stored or updated; an authentic request always gets 200 "ok". */
  lemma WebhookAuthenticates(events: seq<WebhookEvent>, transfers: map<string, PayoutTransfer>, ws: map<string, Withdrawal>,
                             secret: string, header: string, raw: string, body: Option<Json>, marshal: Json -> string)
    ensures var o := HandleWebhook(events, transfers, ws, secret, header, raw, body, marshal);
      && (o.reply == Fail(403, "invalid signature") <==> secret == "" || header != secret)
      && (o.reply.Fail? ==> o.events == events && o.transfers == transfers && o.withdrawals == ws)
      && (o.reply.Ok? <==> secret != "" && header == secret)
      && (o.reply.Ok? ==> o.reply == Ok(200, "ok"))
  {
  }

  /** An authentic event whose body is JSON is appended to the log, with its reference or NULL
      when the reference is empty, whether or not anything else changes; nothing else is logged. */
  lemma ReconcileLogs(events: seq<WebhookEvent>, transfers: map<string, PayoutTransfer>, ws: map<string, Withdrawal>,
                      body: Option<Json>, raw: string, n: Notice)
    ensures var o := Reconcile(events, transfers, ws, body, raw, n);
      && (body.Some? ==> o.events == events + [WebhookEvent("flutterwave", n.event, if n.reference == "" then None else Some(n.reference), raw)])
      && (body.None? ==> o.events == events)
      && |o.events| <= |events| + 1 && o.events[..|events|] == events
  {
  }

  /** A body that is not a JSON object carries no reference, so it updates nothing. */
  lemma NonObjectBodyUpdatesNothing(events: seq<WebhookEvent>, transfers: map<string, PayoutTransfer>, ws: map<string, Withdrawal>,
                                    body: Option<Json>, raw: string, marshal: Json -> string)
    requires body.None? || !body.value.JObject?
    ensures var o := Reconcile(events, transfers, ws, body, raw, ReadNotice(body, marshal));
      o.transfers == transfers && o.withdrawals == ws
  {
  }

  /** An empty reference updates neither table. */
  lemma EmptyReferenceUpdatesNothing(events: seq<WebhookEvent>, transfers: map<string, PayoutTransfer>, ws: map<string, Withdrawal>,
                                     body: Option<Json>, raw: string, n: Notice)
    requires n.reference == ""
    ensures var o := Reconcile(events, transfers, ws, body, raw, n);
      o.transfers == transfers && o.withdrawals == ws
  {
  }

  /** The transfer row of the reference, if there is one, takes the provider's status, and no
      other transfer row changes. */
  lemma TransferTakesStatus(events: seq<WebhookEvent>, transfers: map<string, PayoutTransfer>, ws: map<string, Withdrawal>,
                            body: Option<Json>, raw: string, n: Notice)
    requires n.reference != ""
    ensures var o := Reconcile(events, transfers, ws, body, raw, n);
      && o.transfers.Keys == transfers.Keys
      && (n.reference in transfers ==> o.transfers[n.reference] == transfers[n.reference].(status := n.status))
      && (forall r :: r in transfers && r != n.reference ==> o.transfers[r] == transfers[r])
  {
  }

  /** The only withdrawal that can change is the one behind the reference's transfer row, only
      from approved or pending, only to paid (successful, success, completed) or failed (failed,
      error), and only in its status; any other provider status changes no withdrawal. */
  lemma SettlesOnlyOpenWithdrawal(transfers: map<string, PayoutTransfer>, ws: map<string, Withdrawal>, reference: string, status: string)
    ensures var ws' := Settled(transfers, ws, reference, status);
      && ws'.Keys == ws.Keys
      && (forall k :: k in ws && ws'[k] != ws[k] ==>
            && reference in transfers && k == transfers[reference].withdrawalId
            && ws[k].status in {Approved, Pending}
            && Settlement(status).Some?
            && ws'[k] == ws[k].(status := Settlement(status).value))
      && (Settlement(status).None? ==> ws' == ws)
      && (reference in transfers && transfers[reference].withdrawalId in ws &&
          ws[transfers[reference].withdrawalId].status in {Approved, Pending} && Settlement(status).Some? ==>
            ws'[transfers[reference].withdrawalId].status == Settlement(status).value)
  {
  }

  /** Paid, failed and rejected withdrawals are final for the webhook: no event moves them. */
  lemma TerminalStatusesStay(transfers: map<string, PayoutTransfer>, ws: map<string, Withdrawal>, reference: string, status: string, k: string)
    requires k in ws && ws[k].status in {Rejected, Paid, Failed}
    ensures var ws' := Settled(transfers, ws, reference, status);
      k in ws' && ws'[k] == ws[k]
  {
  }

  /** Delivering the same event twice writes the tables once: the replay leaves the transfer rows
      and the withdrawals as the first delivery left them (it is logged again). */
  lemma ReplayChangesNoRow(events: seq<WebhookEvent>, transfers: map<string, PayoutTransfer>, ws: map<string, Withdrawal>,
                           body: Option<Json>, raw: string, n: Notice)
    ensures var o := Reconcile(events, transfers, ws, body, raw, n);
            var o' := Reconcile(o.events, o.transfers, o.withdrawals, body, raw, n);
      o'.transfers == o.transfers && o'.withdrawals == o.withdrawals
  {
    var o := Reconcile(events, transfers, ws, body, raw, n);
    if n.reference != "" && n.reference in transfers {
      assert o.transfers[n.reference].withdrawalId == transfers[n.reference].withdrawalId;
      assert o.transfers[n.reference := o.transfers[n.reference].(status := n.status)] == o.transfers;
    }
  }

  /** The two UPDATEs keep every store invariant: transfer rows keep their withdrawal, and a
      settled withdrawal keeps its owner, amount and hold. */
  lemma UpdatesKeepConsistent(book: Book, walletOf: map<UserId, WalletId>, system: WalletId,
                              ws: map<string, Withdrawal>, wOrder: seq<string>, transfers: map<string, PayoutTransfer>,
                              ds: seq<Destination>, payouts: map<string, Payout>, pOrder: seq<string>,
                              reference: string, status: string)
    requires Consistent(book, walletOf, system, ws, wOrder, transfers, ds, payouts, pOrder)
    ensures Consistent(book, walletOf, system, Settled(transfers, ws, reference, status), wOrder,
                       Retagged(transfers, reference, status), ds, payouts, pOrder)
  {
    var ws' := Settled(transfers, ws, reference, status);
    if reference in transfers && ws' != ws {
      var id := transfers[reference].withdrawalId;
      HoldsSurviveWrite(book, walletOf, system, ws, id, ws'[id]);
      ListsKeysUpdate(wOrder, ws, id, ws'[id]);
    }
  }

  method FlutterwaveWebhook(s: Store, secret: string, header: string, raw: string, body: Option<Json>, marshal: Json -> string)
    returns (reply: Reply<string>)
    requires s.Valid()
    modifies s`webhookEvents, s`book, s`withdrawals, s`withdrawalOrder, s`transfers
    ensures s.Valid() && s.book == old(s.book) && s.withdrawalOrder == old(s.withdrawalOrder)
    ensures var o := HandleWebhook(old(s.webhookEvents), old(s.transfers), old(s.withdrawals), secret, header, raw, body, marshal);
            reply == o.reply && s.webhookEvents == o.events && s.transfers == o.transfers && s.withdrawals == o.withdrawals
  {
    if secret == "" || header != secret {
      reply := Fail(403, "invalid signature");
      return;
    }
    var payload := Payload(body);
    var event := GetString(payload, "event", marshal);
    var data := GetMap(payload, "data");
    var reference := GetString(data, "reference", marshal);
    var status := ToLower(GetString(data, "status", marshal));
    if body.Some? {
      s.webhookEvents := s.webhookEvents + [WebhookEvent("flutterwave", event, if reference == "" then None else Some(reference), raw)];
    }
    if reference != "" {
      ApplyProviderStatus(s, reference, status);
    }
    reply := Ok(200, "ok");
  }

  /** The two UPDATEs of a notice with a reference. */
  method ApplyProviderStatus(s: Store, reference: string, status: string)
    requires s.Valid()
    modifies s`book, s`withdrawals, s`withdrawalOrder, s`transfers
    ensures s.Valid() && s.book == old(s.book) && s.withdrawalOrder == old(s.withdrawalOrder)
    ensures s.transfers == Retagged(old(s.transfers), reference, status)
    ensures s.withdrawals == Settled(old(s.transfers), old(s.withdrawals), reference, status)
  {
    UpdatesKeepConsistent(s.book, s.walletOf, s.systemWallet, s.withdrawals, s.withdrawalOrder, s.transfers,
                          s.destinations, s.payouts, s.payoutOrder, reference, status);
    var transfers, ws := s.transfers, s.withdrawals;
    if reference in transfers {
      var id := transfers[reference].withdrawalId;
      transfers := transfers[reference := transfers[reference].(status := status)];
      var target := Settlement(status);
      if target.Some? && id in ws && (ws[id].status == Approved || ws[id].status == Pending) {
        ws := ws[id := ws[id].(status := target.value)];
      }
    }
    s.CommitWithdrawals(s.book, ws, s.withdrawalOrder, transfers);
  }
}
