/**
 * `POST /api/payments`, `GET /api/payments` (both behind `authenticate`) and the public
 * placeholder `POST /api/webhooks/payment`. No payment gateway is called.
 */
module PaymentRoutes {
  import opened Wrappers
  import opened Schema
  import opened Tables
  import opened Storage
  import opened Http

  /** The escrow hold: the release date is set 24 hours after the request. */
  const EscrowHoldMs: int := 24 * 60 * 60 * 1000

  /**
   * The body `insertPaymentSchema` sees: the caller's id as userId and the release date 24
   * hours from now, whatever the client sent for either. The 5% processing fee the handler
   * computes is dropped here, since the schema omits that column.
   */
  function PaymentRequest(caller: Caller, body: PaymentFields, now: int): (f: PaymentFields)
    ensures f.userId == Given(caller.id) && f.releaseDate == Given(now + EscrowHoldMs)
    ensures f.(userId := body.userId, releaseDate := body.releaseDate) == body
  {
    body.(userId := Given(caller.id), releaseDate := Given(now + EscrowHoldMs))
  }

  /**
   * 400 unless amount, currency and gateway are all given; 201 with the stored payment
   * otherwise. The payment belongs to the caller, is released from escrow a day later, carries
   * processing fee 0, and takes whatever status the client asks for (pending by default).
   */
  function PostPayment(caller: Caller, body: PaymentFields, db: Store, now: int): (r: Reply<Payment>)
    requires Valid(db)
    ensures Valid(r.db)
    ensures r.status in {201, 400}
    ensures r.status == 400 <==> !(body.amount.Given? && body.currency.Given? && body.gateway.Given?)
    ensures r.status == 400 ==> r.db == db && r.body.None?
    ensures r.status == 201 ==>
      && r.body.Some?
      && var p := r.body.value;
         && p.id !in db.payments.rows
         && r.db.payments.rows == db.payments.rows[p.id := p] && r.db == db.(payments := r.db.payments)
         && p.userId == caller.id && p.amount == body.amount.value
         && p.releaseDate == Some(now + EscrowHoldMs)
         && p.processingFee == Some(0.0)
         && p.id == db.payments.nextId && r.db.payments.nextId == p.id + 1
         && PaymentInserted(db.payments.nextId, PaymentRequest(caller, body, now), now, p)
         && (body.status.Absent? ==> p.status == Some(Pending))
         && (body.status.Given? ==> p.status == Some(body.status.value))
  {
    var f := PaymentRequest(caller, body, now);
    if !PaymentInsertOk(f) then Refuse(400, db)
    else
      var (p, db') := CreatePayment(db, f, now);
      Reply(201, Some(p), db')
  }

  /** A client can record a payment as already completed: nothing checks the status it sends. */
  lemma ClientMarksPaymentCompleted(caller: Caller, amount: real, db: Store, now: int)
    requires Valid(db)
    ensures var body := PaymentFields(Absent, Absent, Given(amount), Given(NGN), Given(Paystack), Given(Paid),
                                      Absent, Absent, Absent);
      var r := PostPayment(caller, body, db, now);
      r.status == 201 && r.body.value.status == Some(Paid) && r.body.value.userId == caller.id
  {
  }

  /** The caller's payments, every status included. */
  function GetPayments(caller: Caller, db: Store): (r: Reply<seq<Payment>>)
    requires Valid(db)
    ensures r.status == 200 && r.db == db && r.body.Some?
    ensures Exactly(r.body.value, db.payments, (p: Payment) => p.userId == caller.id)
  {
    Reply(200, Some(PaymentsByUser(db, caller.id)), db)
  }

  /** A payment the caller has just made is among the ones `GET /api/payments` lists. */
  lemma PostedPaymentListed(caller: Caller, body: PaymentFields, db: Store, now: int)
    requires Valid(db) && PostPayment(caller, body, db, now).status == 201
    ensures var r := PostPayment(caller, body, db, now);
      r.body.value in GetPayments(caller, r.db).body.value
  {
    var r := PostPayment(caller, body, db, now);
    assert r.db.payments.rows[r.body.value.id] == r.body.value;
  }

  /**
   * The webhook reads nothing it checks, verifies no signature and updates no payment: it
   * always answers 200 and leaves the store as it was.
   */
  function PaymentWebhook(db: Store): (r: Reply<()>)
    ensures r.status == 200 && r.db == db && r.body.None?
  {
    Reply(200, None, db)
  }
}
