/**
 Settlement of charges in one organisation: payCharge, cancelCharge, createCharge and the
 overdue sweep, racing on the same rows. A payment, its timeline event and its outbox row
 are written by the transaction that turns the charge PAID.
 */
module Charges {
  import opened Base

  type ChargeId = string
  type PaymentId = string
  type TimelineId = string
  type OutboxId = string

  datatype ChargeStatus = PENDING | OVERDUE | PAID | CANCELED

  datatype Charge = Charge(
    amountCents: int, status: ChargeStatus, dueDate: int, paidAt: Option<int>, updatedAt: nat, idempotencyKey: string)

  datatype Payment = Payment(chargeId: ChargeId, amountCents: int, paidAt: int, createdAt: nat)

  datatype TimelineEvent =
    | ChargeCreated(chargeId: ChargeId, amountCents: int)
    | PaymentReceived(chargeId: ChargeId, paymentId: PaymentId, amountCents: int)

  /** The outbox key carries the kind of event in its prefix. */
  datatype OutboxKey = ChargeKey(key: string) | PaymentKey(key: string)

  datatype OutboxRow =
    | CHARGE_CREATED(key: OutboxKey, timelineEventId: TimelineId, chargeId: ChargeId)
    | PAYMENT_RECEIVED(key: OutboxKey, timelineEventId: TimelineId, chargeId: ChargeId, paymentId: PaymentId)

  /** Where the transaction that created a payment put its two records. */
  datatype Receipt = Receipt(timelineId: TimelineId, outboxId: OutboxId)

  /** `tick` stamps every mutation; it only grows. `receipts` is history, read by nobody. */
  datatype Db = Db(
    tick: nat,
    charges: map<ChargeId, Charge>,
    payments: map<PaymentId, Payment>,
    timeline: map<TimelineId, TimelineEvent>,
    outbox: map<OutboxId, OutboxRow>,
    receipts: map<PaymentId, Receipt>)

  const MAX_SAFE_INTEGER := 9007199254740991

  datatype Error =
    | NotFound | ChargeCanceled | AmountInvalid | AmountMismatch | AlreadyProcessed | AlreadyPaid
    | OutboxConflict | ChargePaid | ReasonInvalid | Conflict

  datatype Outcome =
    | Settled(paymentId: PaymentId, idempotent: bool)
    | CancelDone(already: bool)
    | Refused(error: Error)

  // ---------------------------------------------------------------- statements

  /** The outbox accepts a row unless its key is taken. */
  function Enqueued(db: Db, id: OutboxId, row: OutboxRow): Option<Db> {
    if exists o :: o in db.outbox && db.outbox[o].key == row.key then None
    else Some(db.(outbox := db.outbox[id := row]))
  }

  predicate Open(c: Charge) { c.status == PENDING || c.status == OVERDUE }

  /** What payCharge checks on the charge its transaction has read. */
  function PayCheck(db: Db, id: ChargeId, amountCents: int): Option<Error> {
    if id !in db.charges then Some(NotFound)
    else if db.charges[id].status == CANCELED then Some(ChargeCanceled)
    else if amountCents <= 0 || amountCents > MAX_SAFE_INTEGER then Some(AmountInvalid)
    else if amountCents != db.charges[id].amountCents then Some(AmountMismatch)
    else None
  }

  function MarkPaid(c: Charge, paidAt: int, tick: nat): Charge {
    c.(status := PAID, paidAt := Some(paidAt), updatedAt := tick)
  }

  datatype Ids = Ids(payment: PaymentId, timeline: TimelineId, outbox: OutboxId)

  predicate FreshIds(db: Db, ids: Ids) {
    && ids.payment !in db.payments && ids.payment !in db.receipts
    && ids.timeline !in db.timeline && ids.outbox !in db.outbox
  }

  predicate IsLatest(db: Db, id: ChargeId, p: PaymentId) {
    && p in db.payments && db.payments[p].chargeId == id
    && forall q :: q in db.payments && db.payments[q].chargeId == id ==>
         db.payments[q].createdAt <= db.payments[p].createdAt
  }

  /** The rows the winning payment commits together; None when the outbox refuses and everything rolls back. */
  function Pay(db: Db, id: ChargeId, amountCents: int, paidAt: int, key: string, ids: Ids): Option<Db>
    requires id in db.charges
  {
    var staged := Db(
      db.tick + 1,
      db.charges[id := MarkPaid(db.charges[id], paidAt, db.tick)],
      db.payments[ids.payment := Payment(id, amountCents, paidAt, db.tick)],
      db.timeline[ids.timeline := PaymentReceived(id, ids.payment, amountCents)],
      db.outbox,
      db.receipts[ids.payment := Receipt(ids.timeline, ids.outbox)]);
    Enqueued(staged, ids.outbox, PAYMENT_RECEIVED(PaymentKey(key), ids.timeline, id, ids.payment))
  }

  function Cancel(db: Db, id: ChargeId): Db
    requires id in db.charges
  {
    db.(tick := db.tick + 1, charges := db.charges[id := db.charges[id].(status := CANCELED, updatedAt := db.tick)])
  }

  function Swept(db: Db, todayStart: int): Db {
    db.(tick := db.tick + 1,
        charges := map id | id in db.charges ::
          if db.charges[id].status == PENDING && db.charges[id].dueDate < todayStart
          then db.charges[id].(status := OVERDUE, updatedAt := db.tick)
          else db.charges[id])
  }

  function Create(db: Db, id: ChargeId, timelineId: TimelineId, outboxId: OutboxId,
                  amountCents: int, dueDate: int, key: string): Option<Db>
  {
    if amountCents <= 0 || exists c :: c in db.charges && db.charges[c].idempotencyKey == key then None
    else
      var staged := db.(
        tick := db.tick + 1,
        charges := db.charges[id := Charge(amountCents, PENDING, dueDate, None, db.tick, key)],
        timeline := db.timeline[timelineId := ChargeCreated(id, amountCents)]);
      Enqueued(staged, outboxId, CHARGE_CREATED(ChargeKey(key), timelineId, id))
  }

  // ---------------------------------------------------------------- protocol

  /** A request between its read and its conditional update. */
  datatype Phase =
    | Idle
    | Paying(chargeId: ChargeId, amountCents: int, paidAt: int, key: string)
    | Canceling(chargeId: ChargeId, seen: Charge, expected: nat)
    | Finished(chargeId: ChargeId, outcome: Outcome)

  datatype State = State(db: Db, actors: map<string, Phase>)

  datatype Action =
    | PayBegin(actor: string, chargeId: ChargeId, amountCents: int, paidAt: int, key: string)
    | PayCommit(actor: string, ids: Ids)
    | CancelBegin(actor: string, chargeId: ChargeId, expected: nat, reasonOk: bool)
    | CancelCommit(actor: string)
    | Sweep(todayStart: int)
    | CreateCharge(
        id: ChargeId, timelineId: TimelineId, outboxId: OutboxId, amountCents: int, dueDate: int, key: string)
    | Abandon(actor: string)

  const INIT := State(Db(0, map[], map[], map[], map[], map[]), map[])

  function PhaseOf(s: State, a: string): Phase { if a in s.actors then s.actors[a] else Idle }

  function PayCommitStep(s: State, a: string, ids: Ids): State
    requires PhaseOf(s, a).Paying? && PhaseOf(s, a).chargeId in s.db.charges
  {
    var p := PhaseOf(s, a);
    var id := p.chargeId;
    if Open(s.db.charges[id]) then
      var r := Pay(s.db, id, p.amountCents, p.paidAt, p.key, ids);
      if r.Some? then State(r.value, s.actors[a := Finished(id, Settled(ids.payment, false))])
      else s.(actors := s.actors[a := Finished(id, Refused(OutboxConflict))])
    else if s.db.charges[id].status != PAID then s.(actors := s.actors[a := Finished(id, Refused(AlreadyProcessed))])
    else if IsLatest(s.db, id, ids.payment) then s.(actors := s.actors[a := Finished(id, Settled(ids.payment, true))])
    else if exists p :: p in s.db.payments && s.db.payments[p].chargeId == id then s
    else s.(actors := s.actors[a := Finished(id, Refused(AlreadyPaid))])
  }

  function CancelBeginStep(s: State, a: string, id: ChargeId, expected: nat, reasonOk: bool): State {
    var phase :=
      if !reasonOk then Finished(id, Refused(ReasonInvalid))
      else if id !in s.db.charges then Finished(id, Refused(NotFound))
      else if s.db.charges[id].status == PAID then Finished(id, Refused(ChargePaid))
      else if s.db.charges[id].status == CANCELED then Finished(id, CancelDone(true))
      else Canceling(id, s.db.charges[id], expected);
    s.(actors := s.actors[a := phase])
  }

  /** In a PayCommit, `ids.payment` is the new payment's id, or the one the lookup of the latest payment returns. */
  function Step(s: State, act: Action): State {
    match act
    case PayBegin(a, id, amount, paidAt, key) =>
      s.(actors := s.actors[a := match PayCheck(s.db, id, amount)
                                 case Some(e) => Finished(id, Refused(e))
                                 case None => Paying(id, amount, paidAt, key)])
    case PayCommit(a, ids) =>
      var p := PhaseOf(s, a);
      if !p.Paying? || p.chargeId !in s.db.charges || (Open(s.db.charges[p.chargeId]) && !FreshIds(s.db, ids)) then s
      else PayCommitStep(s, a, ids)
    case CancelBegin(a, id, expected, reasonOk) => CancelBeginStep(s, a, id, expected, reasonOk)
    case CancelCommit(a) =>
      var p := PhaseOf(s, a);
      if !p.Canceling? || p.chargeId !in s.db.charges then s
      else if s.db.charges[p.chargeId].updatedAt == p.expected
      then State(Cancel(s.db, p.chargeId), s.actors[a := Finished(p.chargeId, CancelDone(false))])
      else s.(actors := s.actors[a := Finished(p.chargeId, Refused(Conflict))])
    case Sweep(todayStart) => s.(db := Swept(s.db, todayStart))
    case CreateCharge(id, t, o, amount, due, key) =>
      if id in s.db.charges || t in s.db.timeline || o in s.db.outbox then s
      else
        var r := Create(s.db, id, t, o, amount, due, key);
        if r.Some? then s.(db := r.value) else s
    case Abandon(a) => s.(actors := s.actors[a := Idle])
  }

  function Run(acts: seq<Action>): State {
    if |acts| == 0 then INIT else Step(Run(acts[..|acts| - 1]), acts[|acts| - 1])
  }

  /** Callers of cancelCharge only send a stamp somebody has already read. */
  predicate Honest(acts: seq<Action>) {
    |acts| == 0
    || (&& Honest(acts[..|acts| - 1])
        && (acts[|acts| - 1].CancelBegin? ==> acts[|acts| - 1].expected < Run(acts[..|acts| - 1]).db.tick))
  }

  // ---------------------------------------------------------------- what each statement does

  /** The charge under a new status and stamp, with everything it is about as it was. */
  predicate Becomes(c: Charge, c': Charge, status: ChargeStatus, tick: nat) {
    && c'.status == status && c'.updatedAt == tick
    && c'.amountCents == c.amountCents && c'.dueDate == c.dueDate && c'.idempotencyKey == c.idempotencyKey
  }

  predicate OtherChargesStay(db: Db, db': Db, id: ChargeId) {
    db'.charges.Keys == db.charges.Keys && forall c :: c in db.charges && c != id ==> db'.charges[c] == db.charges[c]
  }

  predicate BooksStay(db: Db, db': Db) {
    && db'.payments == db.payments && db'.timeline == db.timeline
    && db'.outbox == db.outbox && db'.receipts == db.receipts
  }

  /**
   A sweep makes OVERDUE what was PENDING and due before today, keeping everything else about it,
   and leaves every other charge alone; so it never creates a PAID or a CANCELED charge.
   */
  lemma SweepOutcome(s: State, todayStart: int)
    ensures var db, db' := s.db, Step(s, Sweep(todayStart)).db;
            && db'.charges.Keys == db.charges.Keys && BooksStay(db, db')
            && Step(s, Sweep(todayStart)).actors == s.actors
            && (forall c :: c in db.charges && db.charges[c].status == PENDING && db.charges[c].dueDate < todayStart ==>
                  Becomes(db.charges[c], db'.charges[c], OVERDUE, db.tick)
                  && db'.charges[c].paidAt == db.charges[c].paidAt)
            && (forall c ::
                  c in db.charges && !(db.charges[c].status == PENDING && db.charges[c].dueDate < todayStart) ==>
                  db'.charges[c] == db.charges[c])
            && (forall c :: c in db.charges ==>
                  && (db'.charges[c].status == PAID <==> db.charges[c].status == PAID)
                  && (db'.charges[c].status == CANCELED <==> db.charges[c].status == CANCELED))
  {}

  /** What payCharge answers to what it reads: the first check that fails, or on to the update. */
  lemma PayReads(s: State, a: string, id: ChargeId, amount: int, paidAt: int, key: string)
    ensures var charges, s' := s.db.charges, Step(s, PayBegin(a, id, amount, paidAt, key));
            && s'.db == s.db
            && (PhaseOf(s', a) == Finished(id, Refused(NotFound)) <==> id !in charges)
            && (PhaseOf(s', a) == Finished(id, Refused(ChargeCanceled)) <==>
                  id in charges && charges[id].status == CANCELED)
            && (PhaseOf(s', a) == Finished(id, Refused(AmountInvalid)) <==>
                  && id in charges && charges[id].status != CANCELED
                  && !(0 < amount <= 9007199254740991))
            && (PhaseOf(s', a) == Finished(id, Refused(AmountMismatch)) <==>
                  && id in charges && charges[id].status != CANCELED
                  && 0 < amount <= 9007199254740991 && amount != charges[id].amountCents)
            && (PhaseOf(s', a) == Paying(id, amount, paidAt, key) <==>
                  && id in charges && charges[id].status != CANCELED
                  && 0 < amount == charges[id].amountCents <= 9007199254740991)
  {}

  /** The rows of one payment. */
  predicate Recorded(db: Db, db': Db, ids: Ids, id: ChargeId, amount: int, paidAt: int, key: string) {
    && db'.payments == db.payments[ids.payment := Payment(id, amount, paidAt, db.tick)]
    && db'.timeline == db.timeline[ids.timeline := PaymentReceived(id, ids.payment, amount)]
    && db'.outbox == db.outbox[ids.outbox := PAYMENT_RECEIVED(PaymentKey(key), ids.timeline, id, ids.payment)]
  }

  /**
   The update of payCharge turns a PENDING or OVERDUE charge PAID at the given time, once its
   outbox key is free, and writes the payment's rows; in every other case nothing is written.
   */
  lemma PayOutcome(s: State, a: string, ids: Ids)
    requires PhaseOf(s, a).Paying? && PhaseOf(s, a).chargeId in s.db.charges && FreshIds(s.db, ids)
    ensures var p, s' := PhaseOf(s, a), Step(s, PayCommit(a, ids));
            var db, db', id := s.db, s'.db, p.chargeId;
            var used := exists o :: o in db.outbox && db.outbox[o].key == PaymentKey(p.key);
            && OtherChargesStay(db, db', id)
            && (db.charges[id].status in [PENDING, OVERDUE] && !used ==>
                  && Becomes(db.charges[id], db'.charges[id], PAID, db.tick)
                  && db'.charges[id].paidAt == Some(p.paidAt)
                  && Recorded(db, db', ids, id, p.amountCents, p.paidAt, p.key)
                  && PhaseOf(s', a) == Finished(id, Settled(ids.payment, false)))
            && (db.charges[id].status in [PENDING, OVERDUE] && used ==>
                  db' == db && PhaseOf(s', a) == Finished(id, Refused(OutboxConflict)))
            && (db.charges[id].status == CANCELED ==>
                  db' == db && PhaseOf(s', a) == Finished(id, Refused(AlreadyProcessed)))
            && (db.charges[id].status == PAID ==> db' == db)
  {}

  /** A charge paid already answers its latest payment, or that it is paid when it has none. */
  lemma PaidAlready(s: State, a: string, ids: Ids)
    requires PhaseOf(s, a).Paying? && PhaseOf(s, a).chargeId in s.db.charges
    requires s.db.charges[PhaseOf(s, a).chargeId].status == PAID
    ensures var payments, id, s' := s.db.payments, PhaseOf(s, a).chargeId, Step(s, PayCommit(a, ids));
            && s'.db == s.db
            && (PhaseOf(s', a) == Finished(id, Settled(ids.payment, true)) <==>
                  && ids.payment in payments && payments[ids.payment].chargeId == id
                  && forall q :: q in payments && payments[q].chargeId == id ==>
                       payments[q].createdAt <= payments[ids.payment].createdAt)
            && (PhaseOf(s', a) == Finished(id, Refused(AlreadyPaid)) <==>
                  forall q :: q in payments ==> payments[q].chargeId != id)
  {}

  /** What cancelCharge answers to what it reads. */
  lemma CancelReads(s: State, a: string, id: ChargeId, expected: nat, reasonOk: bool)
    ensures var charges, s' := s.db.charges, Step(s, CancelBegin(a, id, expected, reasonOk));
            && s'.db == s.db
            && (PhaseOf(s', a) == Finished(id, Refused(ReasonInvalid)) <==> !reasonOk)
            && (PhaseOf(s', a) == Finished(id, Refused(NotFound)) <==> reasonOk && id !in charges)
            && (PhaseOf(s', a) == Finished(id, Refused(ChargePaid)) <==>
                  reasonOk && id in charges && charges[id].status == PAID)
            && (PhaseOf(s', a) == Finished(id, CancelDone(true)) <==>
                  reasonOk && id in charges && charges[id].status == CANCELED)
            && (PhaseOf(s', a).Canceling? <==>
                  reasonOk && id in charges && charges[id].status in [PENDING, OVERDUE])
            && (PhaseOf(s', a).Canceling? ==> PhaseOf(s', a) == Canceling(id, charges[id], expected))
  {}

  /** The update of cancelCharge takes effect exactly on the stamp, whatever the status by then. */
  lemma CancelOutcome(s: State, a: string)
    requires PhaseOf(s, a).Canceling? && PhaseOf(s, a).chargeId in s.db.charges
    ensures var id, s' := PhaseOf(s, a).chargeId, Step(s, CancelCommit(a));
            var db, db' := s.db, s'.db;
            && OtherChargesStay(db, db', id) && BooksStay(db, db')
            && (db.charges[id].updatedAt == PhaseOf(s, a).expected ==>
                  && Becomes(db.charges[id], db'.charges[id], CANCELED, db.tick)
                  && db'.charges[id].paidAt == db.charges[id].paidAt
                  && PhaseOf(s', a) == Finished(id, CancelDone(false)))
            && (db.charges[id].updatedAt != PhaseOf(s, a).expected ==>
                  db' == db && PhaseOf(s', a) == Finished(id, Refused(Conflict)))
  {}

  /** A new charge is PENDING and unpaid, with its event and its outbox row; or nothing is written. */
  lemma CreateOutcome(s: State, id: ChargeId, t: TimelineId, o: OutboxId, amount: int, due: int, key: string)
    requires id !in s.db.charges && t !in s.db.timeline && o !in s.db.outbox
    ensures var db, db' := s.db, Step(s, CreateCharge(id, t, o, amount, due, key)).db;
            var refused := || amount <= 0
                           || (exists c :: c in db.charges && db.charges[c].idempotencyKey == key)
                           || (exists r :: r in db.outbox && db.outbox[r].key == ChargeKey(key));
            && (refused ==> db' == db)
            && (!refused ==>
                  && db'.charges == db.charges[id := Charge(amount, PENDING, due, None, db.tick, key)]
                  && db'.timeline == db.timeline[t := ChargeCreated(id, amount)]
                  && db'.outbox == db.outbox[o := CHARGE_CREATED(ChargeKey(key), t, id)]
                  && db'.payments == db.payments && db'.receipts == db.receipts)
  {}

  predicate SameTerms(c: Charge, c': Charge) {
    c'.amountCents == c.amountCents && c'.dueDate == c.dueDate && c'.idempotencyKey == c.idempotencyKey
  }

  lemma StepKeepsTerms(s: State, act: Action, c: ChargeId)
    requires c in s.db.charges
    ensures c in Step(s, act).db.charges && SameTerms(s.db.charges[c], Step(s, act).db.charges[c])
  {}

  /** On every run and continuation amount, due date and key of a charge are the ones it was created with. */
  lemma {:induction false} TermsAreKept(acts: seq<Action>, more: seq<Action>, c: ChargeId)
    requires c in Run(acts).db.charges
    ensures c in Run(acts + more).db.charges
    ensures SameTerms(Run(acts).db.charges[c], Run(acts + more).db.charges[c])
    decreases |more|
  {
    if |more| == 0 {
      assert acts + more == acts;
    } else {
      TermsAreKept(acts, more[..|more| - 1], c);
      assert (acts + more)[..|acts + more| - 1] == acts + more[..|more| - 1];
      StepKeepsTerms(Run(acts + more[..|more| - 1]), more[|more| - 1], c);
    }
  }

  // ---------------------------------------------------------------- invariant

  ghost predicate PaymentsInv(db: Db) {
    && (forall p :: p in db.payments ==>
          var pay := db.payments[p];
          && pay.chargeId in db.charges && db.charges[pay.chargeId].status == PAID
          && pay.amountCents == db.charges[pay.chargeId].amountCents)
    && (forall p, q ::
          p in db.payments && q in db.payments && db.payments[p].chargeId == db.payments[q].chargeId ==> p == q)
    && (forall c :: c in db.charges && db.charges[c].status == PAID ==>
          exists p :: p in db.payments && db.payments[p].chargeId == c)
  }

  /** Every payment has its timeline event and its outbox row, of the same charge and amount. */
  ghost predicate PaymentsAreRecorded(db: Db) {
    && db.receipts.Keys == db.payments.Keys
    && forall p :: p in db.payments ==>
         var r, pay := db.receipts[p], db.payments[p];
         && r.timelineId in db.timeline && r.outboxId in db.outbox
         && db.timeline[r.timelineId] == PaymentReceived(pay.chargeId, p, pay.amountCents)
         && db.outbox[r.outboxId].PAYMENT_RECEIVED? && db.outbox[r.outboxId].paymentId == p
         && db.outbox[r.outboxId].chargeId == pay.chargeId
         && db.outbox[r.outboxId].timelineEventId == r.timelineId
  }

  ghost predicate EventsHavePayments(db: Db) {
    forall t :: t in db.timeline && db.timeline[t].PaymentReceived? ==>
      && db.timeline[t].paymentId in db.payments && db.timeline[t].paymentId in db.receipts
      && db.receipts[db.timeline[t].paymentId].timelineId == t
  }

  ghost predicate RowsHavePayments(db: Db) {
    forall o :: o in db.outbox && db.outbox[o].PAYMENT_RECEIVED? ==>
      && db.outbox[o].paymentId in db.payments && db.outbox[o].paymentId in db.receipts
      && db.receipts[db.outbox[o].paymentId].outboxId == o
  }

  ghost predicate ReceiptsInv(db: Db) { PaymentsAreRecorded(db) && EventsHavePayments(db) && RowsHavePayments(db) }

  ghost predicate StampsInv(db: Db) {
    forall c :: c in db.charges ==> db.charges[c].updatedAt < db.tick
  }

  ghost predicate PhaseInv(db: Db, p: Phase) {
    match p
    case Paying(id, amount, _, _) => id in db.charges && db.charges[id].amountCents == amount
    case Canceling(id, seen, expected) =>
      && id in db.charges && Open(seen)
      && (db.charges[id] == seen || expected < db.charges[id].updatedAt) && expected < db.tick
    case Finished(id, Settled(payment, _)) => payment in db.payments && db.payments[payment].chargeId == id
    case _ => true
  }

  ghost predicate SettlementInv(s: State) {
    && PaymentsInv(s.db) && ReceiptsInv(s.db) && StampsInv(s.db)
    && forall a :: a in s.actors ==> PhaseInv(s.db, s.actors[a])
  }

  /** Charges stay, keep their amounts, and change only under a new stamp; payments stay as they are. */
  ghost predicate Grows(db: Db, db': Db) {
    && db.tick <= db'.tick && db.charges.Keys <= db'.charges.Keys
    && (forall c :: c in db.charges ==>
          && db'.charges[c].amountCents == db.charges[c].amountCents
          && (db'.charges[c] == db.charges[c] || db'.charges[c].updatedAt >= db.tick))
    && (forall q :: q in db.payments ==> q in db'.payments && db'.payments[q] == db.payments[q])
  }

  /** Another request's memory stays in order meanwhile. */
  lemma PhaseFrame(db: Db, db': Db, p: Phase)
    requires PhaseInv(db, p) && Grows(db, db')
    ensures PhaseInv(db', p)
  {}

  lemma PayKeepsPayments(db: Db, id: ChargeId, paidAt: int, key: string, ids: Ids)
    requires PaymentsInv(db) && id in db.charges && Open(db.charges[id]) && FreshIds(db, ids)
    requires Pay(db, id, db.charges[id].amountCents, paidAt, key, ids).Some?
    ensures PaymentsInv(Pay(db, id, db.charges[id].amountCents, paidAt, key, ids).value)
  {
    var db' := Pay(db, id, db.charges[id].amountCents, paidAt, key, ids).value;
    assert db'.payments[ids.payment].chargeId == id;
    forall c | c in db'.charges && db'.charges[c].status == PAID
      ensures exists p :: p in db'.payments && db'.payments[p].chargeId == c
    {
      if c != id {
        var p :| p in db.payments && db.payments[p].chargeId == c;
        assert p in db'.payments && db'.payments[p].chargeId == c;
      }
    }
  }

  /** What a payment adds to the store. */
  ghost predicate Added(db: Db, db': Db, ids: Ids, pay: Payment, key: OutboxKey) {
    && db'.payments == db.payments[ids.payment := pay]
    && db'.receipts == db.receipts[ids.payment := Receipt(ids.timeline, ids.outbox)]
    && db'.timeline == db.timeline[ids.timeline := PaymentReceived(pay.chargeId, ids.payment, pay.amountCents)]
    && db'.outbox == db.outbox[ids.outbox := PAYMENT_RECEIVED(key, ids.timeline, pay.chargeId, ids.payment)]
  }

  lemma AddedIsRecorded(db: Db, db': Db, ids: Ids, pay: Payment, key: OutboxKey)
    requires PaymentsAreRecorded(db) && FreshIds(db, ids) && Added(db, db', ids, pay, key)
    ensures PaymentsAreRecorded(db')
  {}

  lemma AddedKeepsBackLinks(db: Db, db': Db, ids: Ids, pay: Payment, key: OutboxKey)
    requires EventsHavePayments(db) && RowsHavePayments(db) && FreshIds(db, ids) && Added(db, db', ids, pay, key)
    ensures EventsHavePayments(db') && RowsHavePayments(db')
  {}

  lemma PayKeepsReceipts(db: Db, id: ChargeId, amount: int, paidAt: int, key: string, ids: Ids)
    requires ReceiptsInv(db) && StampsInv(db) && id in db.charges && FreshIds(db, ids)
    requires Pay(db, id, amount, paidAt, key, ids).Some?
    ensures ReceiptsInv(Pay(db, id, amount, paidAt, key, ids).value)
    ensures StampsInv(Pay(db, id, amount, paidAt, key, ids).value)
  {
    var db' := Pay(db, id, amount, paidAt, key, ids).value;
    var pay := Payment(id, amount, paidAt, db.tick);
    AddedIsRecorded(db, db', ids, pay, PaymentKey(key));
    AddedKeepsBackLinks(db, db', ids, pay, PaymentKey(key));
  }

  /** Changing only the charges, and none of them into or out of PAID, keeps the books. */
  lemma ChargeChangeKeepsInv(db: Db, db': Db)
    requires PaymentsInv(db) && ReceiptsInv(db)
    requires db'.payments == db.payments && db'.receipts == db.receipts
    requires forall c :: c in db.charges ==> c in db'.charges && db'.charges[c].amountCents == db.charges[c].amountCents
    requires forall c :: c in db'.charges ==>
               (db'.charges[c].status == PAID <==> c in db.charges && db.charges[c].status == PAID)
    requires forall t :: t in db.timeline ==> t in db'.timeline && db'.timeline[t] == db.timeline[t]
    requires forall t :: t in db'.timeline && db'.timeline[t].PaymentReceived? ==> t in db.timeline
    requires forall o :: o in db.outbox ==> o in db'.outbox && db'.outbox[o] == db.outbox[o]
    requires forall o :: o in db'.outbox && db'.outbox[o].PAYMENT_RECEIVED? ==> o in db.outbox
    ensures PaymentsInv(db') && ReceiptsInv(db')
  {}

  ghost predicate BooksInv(db: Db) { PaymentsInv(db) && ReceiptsInv(db) && StampsInv(db) }

  lemma CancelKeepsBooks(db: Db, id: ChargeId)
    requires BooksInv(db) && id in db.charges && Open(db.charges[id])
    ensures BooksInv(Cancel(db, id))
  {
    ChargeChangeKeepsInv(db, Cancel(db, id));
  }

  lemma SweepKeepsBooks(db: Db, todayStart: int)
    requires BooksInv(db)
    ensures BooksInv(Swept(db, todayStart))
  {
    ChargeChangeKeepsInv(db, Swept(db, todayStart));
  }

  lemma CreateKeepsBooks(db: Db, id: ChargeId, t: TimelineId, o: OutboxId, amount: int, due: int, key: string)
    requires BooksInv(db) && id !in db.charges && t !in db.timeline && o !in db.outbox
    requires Create(db, id, t, o, amount, due, key).Some?
    ensures BooksInv(Create(db, id, t, o, amount, due, key).value)
  {
    ChargeChangeKeepsInv(db, Create(db, id, t, o, amount, due, key).value);
  }

  lemma PayKeepsBooks(db: Db, id: ChargeId, paidAt: int, key: string, ids: Ids)
    requires BooksInv(db) && id in db.charges && Open(db.charges[id]) && FreshIds(db, ids)
    requires Pay(db, id, db.charges[id].amountCents, paidAt, key, ids).Some?
    ensures BooksInv(Pay(db, id, db.charges[id].amountCents, paidAt, key, ids).value)
  {
    PayKeepsPayments(db, id, paidAt, key, ids);
    PayKeepsReceipts(db, id, db.charges[id].amountCents, paidAt, key, ids);
  }

  lemma DbStepKeepsInv(s: State, act: Action)
    requires SettlementInv(s)
    ensures BooksInv(Step(s, act).db)
  {
    var db, db' := s.db, Step(s, act).db;
    if db' != db {
      match act {
        case PayCommit(a, ids) =>
          var p := PhaseOf(s, a);
          PayKeepsBooks(db, p.chargeId, p.paidAt, p.key, ids);
        case CancelCommit(a) =>
          assert PhaseInv(db, s.actors[a]);
          CancelKeepsBooks(db, PhaseOf(s, a).chargeId);
        case Sweep(todayStart) => SweepKeepsBooks(db, todayStart);
        case CreateCharge(id, t, o, amount, due, key) => CreateKeepsBooks(db, id, t, o, amount, due, key);
        case _ =>
      }
    }
  }

  lemma PayGrows(db: Db, id: ChargeId, amount: int, paidAt: int, key: string, ids: Ids)
    requires id in db.charges && FreshIds(db, ids) && Pay(db, id, amount, paidAt, key, ids).Some?
    ensures Grows(db, Pay(db, id, amount, paidAt, key, ids).value)
  {}

  lemma CreateGrows(db: Db, id: ChargeId, t: TimelineId, o: OutboxId, amount: int, due: int, key: string)
    requires id !in db.charges && Create(db, id, t, o, amount, due, key).Some?
    ensures Grows(db, Create(db, id, t, o, amount, due, key).value)
  {}

  lemma StepGrows(s: State, act: Action)
    ensures Grows(s.db, Step(s, act).db)
  {
    if Step(s, act).db != s.db {
      match act {
        case PayCommit(a, ids) =>
          var p := PhaseOf(s, a);
          PayGrows(s.db, p.chargeId, p.amountCents, p.paidAt, p.key, ids);
        case CreateCharge(id, t, o, amount, due, key) => CreateGrows(s.db, id, t, o, amount, due, key);
        case _ =>
      }
    }
  }

  lemma StepKeepsInv(s: State, act: Action)
    requires SettlementInv(s)
    requires act.CancelBegin? ==> act.expected < s.db.tick
    ensures SettlementInv(Step(s, act))
  {
    var s' := Step(s, act);
    DbStepKeepsInv(s, act);
    StepGrows(s, act);
    forall a | a in s'.actors ensures PhaseInv(s'.db, s'.actors[a]) {
      if a in s.actors && s'.actors[a] == s.actors[a] {
        PhaseFrame(s.db, s'.db, s.actors[a]);
      } else {
        NewPhaseInv(s, act, a);
      }
    }
  }

  lemma NewPhaseInv(s: State, act: Action, a: string)
    requires SettlementInv(s) && a in Step(s, act).actors
    requires a !in s.actors || Step(s, act).actors[a] != s.actors[a]
    requires act.CancelBegin? ==> act.expected < s.db.tick
    ensures PhaseInv(Step(s, act).db, Step(s, act).actors[a])
  {
    if act.PayCommit? { assert PhaseInv(s.db, s.actors[a]); }
  }

  lemma {:induction false} RunKeepsInv(acts: seq<Action>)
    requires Honest(acts)
    ensures SettlementInv(Run(acts))
  {
    if |acts| > 0 {
      RunKeepsInv(acts[..|acts| - 1]);
      StepKeepsInv(Run(acts[..|acts| - 1]), acts[|acts| - 1]);
    }
  }

  // ---------------------------------------------------------------- theorems

  /** A charge is PAID exactly when it has a payment, at most one and over its own amount; a canceled one has none. */
  lemma OnePaymentPerPaidCharge(acts: seq<Action>, c: ChargeId)
    requires Honest(acts) && c in Run(acts).db.charges
    ensures var db := Run(acts).db;
            && (db.charges[c].status == PAID <==> exists p :: p in db.payments && db.payments[p].chargeId == c)
            && (forall p, q ::
                  p in db.payments && q in db.payments && db.payments[p].chargeId == db.payments[q].chargeId == c ==>
                    p == q)
            && (forall p :: p in db.payments && db.payments[p].chargeId == c ==>
                  db.payments[p].amountCents == db.charges[c].amountCents)
            && (db.charges[c].status == CANCELED ==> forall p :: p in db.payments ==> db.payments[p].chargeId != c)
  {
    RunKeepsInv(acts);
  }

  /** Whoever is told a charge is settled is told the same payment. */
  lemma AllPayersSeeOnePayment(acts: seq<Action>, a: string, b: string)
    requires Honest(acts)
    ensures var p, q := PhaseOf(Run(acts), a), PhaseOf(Run(acts), b);
            p.Finished? && q.Finished? && p.outcome.Settled? && q.outcome.Settled? && p.chargeId == q.chargeId ==>
              p.outcome.paymentId == q.outcome.paymentId
  {
    RunKeepsInv(acts);
    var s := Run(acts);
    if a in s.actors && b in s.actors {
      assert PhaseInv(s.db, s.actors[a]) && PhaseInv(s.db, s.actors[b]);
    }
  }

  predicate Reports(e: TimelineEvent, p: PaymentId) { e.PaymentReceived? && e.paymentId == p }

  predicate Announces(o: OutboxRow, p: PaymentId) { o.PAYMENT_RECEIVED? && o.paymentId == p }

  /** Each payment has exactly one timeline event and exactly one outbox row, telling the truth about it. */
  lemma PaymentIsRecordedOnce(acts: seq<Action>, p: PaymentId)
    requires Honest(acts) && p in Run(acts).db.payments
    ensures var db := Run(acts).db;
            && (exists t :: t in db.timeline && Reports(db.timeline[t], p))
            && (exists o :: o in db.outbox && Announces(db.outbox[o], p))
            && (forall t, u ::
                  t in db.timeline && u in db.timeline && Reports(db.timeline[t], p) && Reports(db.timeline[u], p) ==>
                  t == u)
            && (forall o, u ::
                  o in db.outbox && u in db.outbox && Announces(db.outbox[o], p) && Announces(db.outbox[u], p) ==>
                  o == u)
            && (forall t, o ::
                  t in db.timeline && o in db.outbox && Reports(db.timeline[t], p) && Announces(db.outbox[o], p) ==>
                  && db.outbox[o].timelineEventId == t
                  && db.timeline[t].amountCents == db.payments[p].amountCents
                  && db.timeline[t].chargeId == db.outbox[o].chargeId == db.payments[p].chargeId)
  {
    RunKeepsInv(acts);
    var db := Run(acts).db;
    var r := db.receipts[p];
    assert Reports(db.timeline[r.timelineId], p) && Announces(db.outbox[r.outboxId], p);
  }

  /** And no timeline event or outbox row speaks of a payment that is not there. */
  lemma NoRecordWithoutPayment(acts: seq<Action>)
    requires Honest(acts)
    ensures var db := Run(acts).db;
            && (forall t :: t in db.timeline && db.timeline[t].PaymentReceived? ==>
                  db.timeline[t].paymentId in db.payments)
            && (forall o :: o in db.outbox && db.outbox[o].PAYMENT_RECEIVED? ==> db.outbox[o].paymentId in db.payments)
  {
    RunKeepsInv(acts);
  }

  predicate IsFinal(c: Charge) { c.status == PAID || c.status == CANCELED }

  lemma PayKeepsSettled(s: State, a: string, ids: Ids, c: ChargeId)
    requires c in s.db.charges && IsFinal(s.db.charges[c])
    ensures var s' := Step(s, PayCommit(a, ids));
            c in s'.db.charges && s'.db.charges[c].status == s.db.charges[c].status
  {}

  lemma CancelKeepsSettled(s: State, a: string, c: ChargeId)
    requires PhaseInv(s.db, PhaseOf(s, a)) && c in s.db.charges && IsFinal(s.db.charges[c])
    ensures var s' := Step(s, CancelCommit(a)); c in s'.db.charges && s'.db.charges[c].status == s.db.charges[c].status
  {}

  lemma StepKeepsSettled(s: State, act: Action, c: ChargeId)
    requires SettlementInv(s) && c in s.db.charges && IsFinal(s.db.charges[c])
    ensures c in Step(s, act).db.charges && Step(s, act).db.charges[c].status == s.db.charges[c].status
  {
    match act
    case PayCommit(a, ids) => PayKeepsSettled(s, a, ids, c);
    case CancelCommit(a) =>
      assert PhaseInv(s.db, PhaseOf(s, a));
      CancelKeepsSettled(s, a, c);
    case _ =>
  }

  /** PAID and CANCELED are final. */
  lemma {:induction false} SettledForGood(acts: seq<Action>, more: seq<Action>, c: ChargeId)
    requires Honest(acts + more) && c in Run(acts).db.charges
    requires Run(acts).db.charges[c].status == PAID || Run(acts).db.charges[c].status == CANCELED
    ensures c in Run(acts + more).db.charges
    ensures Run(acts + more).db.charges[c].status == Run(acts).db.charges[c].status
    decreases |more|
  {
    if |more| == 0 {
      assert acts + more == acts;
    } else {
      var less := more[..|more| - 1];
      assert (acts + more)[..|acts + more| - 1] == acts + less;
      SettledForGood(acts, less, c);
      RunKeepsInv(acts + less);
      StepKeepsSettled(Run(acts + less), more[|more| - 1], c);
    }
  }

  lemma OneMore(acts: seq<Action>, act: Action)
    ensures Run(acts + [act]) == Step(Run(acts), act)
  {
    assert (acts + [act])[..|acts|] == acts;
  }

  const OPENED := INIT.(db := Db(1, map["c" := Charge(100, PENDING, 0, None, 0, "k")], map[],
                                 map["t0" := ChargeCreated("c", 100)],
                                 map["o0" := CHARGE_CREATED(ChargeKey("k"), "t0", "c")], map[]))

  lemma OpenedIsReached()
    ensures Run([CreateCharge("c", "t0", "o0", 100, 0, "k")]) == OPENED
  {
    OneMore([], CreateCharge("c", "t0", "o0", 100, 0, "k"));
    assert [] + [CreateCharge("c", "t0", "o0", 100, 0, "k")] == [CreateCharge("c", "t0", "o0", 100, 0, "k")];
  }

  /** Between the reads of a cancellation and a payment and their updates. */
  lemma BothBegin(s: State)
    requires s == Step(Step(OPENED, CancelBegin("eve", "c", 1, true)), PayBegin("bob", "c", 100, 7, "pay"))
    ensures s.db == OPENED.db
    ensures PhaseOf(s, "eve").Canceling? && PhaseOf(s, "eve").chargeId == "c" && PhaseOf(s, "eve").expected == 1
    ensures PhaseOf(s, "bob") == Paying("c", 100, 7, "pay")
  {}

  lemma BobPays(s: State)
    requires s.db == OPENED.db && PhaseOf(s, "bob") == Paying("c", 100, 7, "pay")
    ensures var s' := Step(s, PayCommit("bob", Ids("p", "t1", "o1")));
            && PhaseOf(s', "eve") == PhaseOf(s, "eve")
            && "c" in s'.db.charges && s'.db.charges["c"].updatedAt == 1 && s'.db.charges["c"].status == PAID
            && "p" in s'.db.payments && s'.db.payments["p"].chargeId == "c"
  {
    var r := Pay(s.db, "c", 100, 7, "pay", Ids("p", "t1", "o1"));
    assert r.Some?;
  }

  /**
   The stamp is all that protects a payment from a cancellation that read the charge too early:
   a caller that guesses the stamp of a mutation still to come cancels a paid charge.
   */
  lemma GuessedStampCancelsAPaidCharge()
    ensures exists acts, c, p :: c in Run(acts).db.charges && Run(acts).db.charges[c].status == CANCELED
              && p in Run(acts).db.payments && Run(acts).db.payments[p].chargeId == c
  {
    var a1 := [CreateCharge("c", "t0", "o0", 100, 0, "k")];
    var a3 := a1 + [CancelBegin("eve", "c", 1, true)] + [PayBegin("bob", "c", 100, 7, "pay")];
    var a4 := a3 + [PayCommit("bob", Ids("p", "t1", "o1"))];
    OpenedIsReached();
    OneMore(a1, CancelBegin("eve", "c", 1, true));
    OneMore(a1 + [CancelBegin("eve", "c", 1, true)], PayBegin("bob", "c", 100, 7, "pay"));
    BothBegin(Run(a3));
    OneMore(a3, PayCommit("bob", Ids("p", "t1", "o1")));
    BobPays(Run(a3));
    OneMore(a4, CancelCommit("eve"));
    CancelWins(Run(a4), "eve");
    var s5 := Run(a4 + [CancelCommit("eve")]);
    assert s5.db.charges["c"].status == CANCELED && s5.db.payments["p"].chargeId == "c";
  }

  /** The conditional update of a cancellation takes effect exactly on the stamp, whatever the status by then. */
  lemma CancelWins(s: State, a: string)
    requires PhaseOf(s, a).Canceling? && PhaseOf(s, a).chargeId in s.db.charges
    ensures var c, s' := PhaseOf(s, a).chargeId, Step(s, CancelCommit(a));
            && s'.db.payments == s.db.payments && c in s'.db.charges
            && (s.db.charges[c].updatedAt == PhaseOf(s, a).expected ==> s'.db.charges[c].status == CANCELED)
            && (s.db.charges[c].updatedAt != PhaseOf(s, a).expected ==> s'.db == s.db)
  {}

  // ---------------------------------------------------------------- which stamps are safe

  /** From here on, cancellations only send stamps that were read. */
  predicate HonestAfter(acts: seq<Action>, more: seq<Action>)
    decreases |more|
  {
    |more| == 0
    || (&& HonestAfter(acts, more[..|more| - 1])
        && (more[|more| - 1].CancelBegin? ==> more[|more| - 1].expected < Run(acts + more[..|more| - 1]).db.tick))
  }

  lemma {:induction false} HonestJoin(acts: seq<Action>, more: seq<Action>)
    requires Honest(acts) && HonestAfter(acts, more)
    ensures Honest(acts + more)
    decreases |more|
  {
    if |more| == 0 {
      assert acts + more == acts;
    } else {
      HonestJoin(acts, more[..|more| - 1]);
      assert (acts + more)[..|acts + more| - 1] == acts + more[..|more| - 1];
    }
  }

  /** A canceled charge that has a payment. */
  ghost predicate Torn(db: Db, c: ChargeId) {
    c in db.charges && db.charges[c].status == CANCELED && exists p :: p in db.payments && db.payments[p].chargeId == c
  }

  ghost predicate StaysWhole(acts: seq<Action>, more: seq<Action>, c: ChargeId) {
    HonestAfter(acts, more) ==> !Torn(Run(acts + more).db, c)
  }

  function Sweeps(n: nat, today: int): seq<Action> { if n == 0 then [] else Sweeps(n - 1, today) + [Sweep(today)] }

  predicate OnlyTicked(s: State, s': State, n: nat, c: ChargeId) {
    && s'.actors == s.actors && s'.db.tick == s.db.tick + n
    && c in s.db.charges && c in s'.db.charges && s'.db.charges[c] == s.db.charges[c]
  }

  lemma HonestMore(acts: seq<Action>, more: seq<Action>, act: Action)
    requires HonestAfter(acts, more) && !act.CancelBegin?
    ensures HonestAfter(acts, more + [act])
    ensures Run(acts + (more + [act])) == Step(Run(acts + more), act)
  {
    assert (more + [act])[..|more|] == more;
    assert acts + (more + [act]) == acts + more + [act];
    OneMore(acts + more, act);
  }

  lemma SweepTicks(s: State, s': State, n: nat, c: ChargeId)
    requires c in s.db.charges && OnlyTicked(s, s', n, c)
    ensures OnlyTicked(s, Step(s', Sweep(s.db.charges[c].dueDate)), n + 1, c)
  {}

  /** Sweeps that find the charge not overdue only let the stamps move on. */
  lemma {:induction false} SweepsAdvance(acts: seq<Action>, n: nat, c: ChargeId)
    requires c in Run(acts).db.charges
    ensures var more := Sweeps(n, Run(acts).db.charges[c].dueDate);
            HonestAfter(acts, more) && OnlyTicked(Run(acts), Run(acts + more), n, c)
  {
    var today := Run(acts).db.charges[c].dueDate;
    if n == 0 {
      assert acts + Sweeps(0, today) == acts;
    } else {
      var less := Sweeps(n - 1, today);
      SweepsAdvance(acts, n - 1, c);
      HonestMore(acts, less, Sweep(today));
      SweepTicks(Run(acts), Run(acts + less), n - 1, c);
    }
  }

  function KeyText(k: OutboxKey): string { k.key }

  /** Ids and a key that nothing in the store uses. */
  lemma UnusedIds(db: Db) returns (ids: Ids, key: string)
    ensures FreshIds(db, ids) && forall o :: o in db.outbox ==> db.outbox[o].key != PaymentKey(key)
  {
    var payment := UnusedString(db.payments.Keys + db.receipts.Keys);
    var timeline := UnusedString(db.timeline.Keys);
    var outbox := UnusedString(db.outbox.Keys);
    var keys := set o | o in db.outbox :: KeyText(db.outbox[o].key);
    key := UnusedString(keys);
    ids := Ids(payment, timeline, outbox);
    forall o | o in db.outbox ensures db.outbox[o].key != PaymentKey(key) {
      assert KeyText(db.outbox[o].key) in keys;
    }
  }

  predicate Payable(s: State, c: ChargeId) {
    c in s.db.charges && Open(s.db.charges[c]) && 0 < s.db.charges[c].amountCents <= MAX_SAFE_INTEGER
  }

  predicate AboutToCancel(s: State, a: string, c: ChargeId, expected: nat) {
    PhaseOf(s, a).Canceling? && PhaseOf(s, a).chargeId == c && PhaseOf(s, a).expected == expected
  }

  /** A payment at the very tick a cancellation waits for. */
  lemma PaidAtTheTick(s: State, a: string, b: string, c: ChargeId, key: string, ids: Ids)
    requires a != b && Payable(s, c) && FreshIds(s.db, ids) && AboutToCancel(s, a, c, s.db.tick)
    requires forall o :: o in s.db.outbox ==> s.db.outbox[o].key != PaymentKey(key)
    ensures var s' := Step(Step(s, PayBegin(b, c, s.db.charges[c].amountCents, 0, key)), PayCommit(b, ids));
            && AboutToCancel(s', a, c, s.db.tick) && c in s'.db.charges && s'.db.charges[c].updatedAt == s.db.tick
            && ids.payment in s'.db.payments && s'.db.payments[ids.payment].chargeId == c
  {
    var amount := s.db.charges[c].amountCents;
    var s1 := Step(s, PayBegin(b, c, amount, 0, key));
    assert PhaseOf(s1, b) == Paying(c, amount, 0, key) && s1.db == s.db;
    assert Pay(s.db, c, amount, 0, key, ids).Some?;
  }

  lemma CanceledAfterPayment(s: State, a: string, c: ChargeId, p: PaymentId, expected: nat)
    requires AboutToCancel(s, a, c, expected) && c in s.db.charges && s.db.charges[c].updatedAt == expected
    requires p in s.db.payments && s.db.payments[p].chargeId == c
    ensures Torn(Step(s, CancelCommit(a)).db, c)
  {
    CancelWins(s, a);
    var db := Step(s, CancelCommit(a)).db;
    assert p in db.payments && db.payments[p].chargeId == c;
  }

  /** With a stamp not given out yet, the worst can happen: wait for the tick, pay, and cancel. */
  lemma EarlyStampTears(acts: seq<Action>, a: string, c: ChargeId, expected: nat) returns (more: seq<Action>)
    requires Payable(Run(acts), c) && AboutToCancel(Run(acts), a, c, expected) && Run(acts).db.tick <= expected
    ensures HonestAfter(acts, more) && Torn(Run(acts + more).db, c)
  {
    var s := Run(acts);
    var waits := Sweeps(expected - s.db.tick, s.db.charges[c].dueDate);
    SweepsAdvance(acts, expected - s.db.tick, c);
    more := PayThenCancel(acts, waits, a, c, expected);
  }

  lemma PayThenCancel(acts: seq<Action>, waits: seq<Action>, a: string, c: ChargeId, expected: nat)
    returns (more: seq<Action>)
    requires HonestAfter(acts, waits) && Run(acts + waits).db.tick == expected
    requires Payable(Run(acts + waits), c) && AboutToCancel(Run(acts + waits), a, c, expected)
    ensures HonestAfter(acts, more) && Torn(Run(acts + more).db, c)
  {
    var s := Run(acts + waits);
    var ids, key := UnusedIds(s.db);
    var b := a + "x";
    var begin, commit := PayBegin(b, c, s.db.charges[c].amountCents, 0, key), PayCommit(b, ids);
    HonestMore(acts, waits, begin);
    HonestMore(acts, waits + [begin], commit);
    HonestMore(acts, waits + [begin] + [commit], CancelCommit(a));
    PaidAtTheTick(s, a, b, c, key, ids);
    CanceledAfterPayment(Run(acts + (waits + [begin] + [commit])), a, c, ids.payment, expected);
    more := waits + [begin] + [commit] + [CancelCommit(a)];
  }

  /**
   A cancellation of an open charge can never leave it canceled and paid, whatever happens until
   it commits, exactly when the stamp it sends has been given out before it reads the charge.
   */
  lemma StampIsSafeExactly(acts: seq<Action>, a: string, c: ChargeId, expected: nat)
    requires Honest(acts) && Payable(Run(acts), c)
    ensures (forall more :: StaysWhole(acts + [CancelBegin(a, c, expected, true)], more, c))
              <==> expected < Run(acts).db.tick
  {
    var begun := acts + [CancelBegin(a, c, expected, true)];
    OneMore(acts, CancelBegin(a, c, expected, true));
    if expected < Run(acts).db.tick {
      assert begun[..|begun| - 1] == acts;
      forall more ensures StaysWhole(begun, more, c) {
        if HonestAfter(begun, more) {
          HonestJoin(begun, more);
          if c in Run(begun + more).db.charges { OnePaymentPerPaidCharge(begun + more, c); }
        }
      }
    } else {
      var more := EarlyStampTears(begun, a, c, expected);
      assert !StaysWhole(begun, more, c);
    }
  }

  // ---------------------------------------------------------------- the code

  class FinanceService {
    var tick: nat
    var charges: map<ChargeId, Charge>
    var payments: map<PaymentId, Payment>
    var timeline: map<TimelineId, TimelineEvent>
    var outbox: map<OutboxId, OutboxRow>
    ghost var receipts: map<PaymentId, Receipt>

    ghost function View(): Db
      reads this
    {
      Db(tick, charges, payments, timeline, outbox, receipts)
    }

    constructor ()
      ensures View() == INIT.db
    {
      tick, charges, payments, timeline, outbox, receipts := 0, map[], map[], map[], map[], map[];
    }

    /** The insert of the outbox service; a duplicate key makes it fail. */
    method Enqueue(id: OutboxId, row: OutboxRow) returns (ok: bool)
      modifies this`outbox
      ensures ok == Enqueued(old(View()), id, row).Some?
      ensures View() == if ok then Enqueued(old(View()), id, row).value else old(View())
    {
      var rest := outbox.Keys;
      while rest != {}
        invariant rest <= outbox.Keys && outbox == old(outbox)
        invariant forall o :: o in outbox && o !in rest ==> outbox[o].key != row.key
        decreases rest
      {
        var o :| o in rest;
        if outbox[o].key == row.key { return false; }
        rest := rest - {o};
      }
      outbox := outbox[id := row];
      ok := true;
    }

    /** The transaction of createCharge; a key already used refuses it, on the charge or in the outbox. */
    method CreateCharge(id: ChargeId, timelineId: TimelineId, outboxId: OutboxId,
                        amountCents: int, dueDate: int, key: string) returns (ok: bool)
      requires id !in charges && timelineId !in timeline && outboxId !in outbox
      modifies this
      ensures ok == Create(old(View()), id, timelineId, outboxId, amountCents, dueDate, key).Some?
      ensures View() == if ok then Create(old(View()), id, timelineId, outboxId, amountCents, dueDate, key).value
                        else old(View())
    {
      if amountCents <= 0 || exists c :: c in charges && charges[c].idempotencyKey == key { return false; }
      var tick0, charges0, timeline0 := tick, charges, timeline;
      charges := charges[id := Charge(amountCents, PENDING, dueDate, None, tick, key)];
      timeline := timeline[timelineId := ChargeCreated(id, amountCents)];
      tick := tick + 1;
      ok := Enqueue(outboxId, CHARGE_CREATED(ChargeKey(key), timelineId, id));
      if !ok { tick, charges, timeline := tick0, charges0, timeline0; }
    }

    /** ORDER BY createdAt DESC over the payments of one charge. */
    method LatestPayment(id: ChargeId) returns (latest: Option<PaymentId>)
      ensures latest.Some? ==> IsLatest(View(), id, latest.value)
      ensures latest.Some? ==>
                && latest.value in payments && payments[latest.value].chargeId == id
                && forall p :: p in payments && payments[p].chargeId == id ==>
                     payments[p].createdAt <= payments[latest.value].createdAt
      ensures latest.None? ==> forall p :: p in payments ==> payments[p].chargeId != id
    {
      latest := None;
      var rest := payments.Keys;
      while rest != {}
        invariant rest <= payments.Keys
        invariant latest.Some? ==> latest.value in payments && payments[latest.value].chargeId == id
        invariant forall p :: p in payments && p !in rest && payments[p].chargeId == id ==>
                    latest.Some? && payments[p].createdAt <= payments[latest.value].createdAt
        decreases rest
      {
        var p :| p in rest;
        if payments[p].chargeId == id && (latest.None? || payments[latest.value].createdAt < payments[p].createdAt) {
          latest := Some(p);
        }
        rest := rest - {p};
      }
    }

    /**
     The transaction of payCharge after its read: the conditional update, then either the three
     inserts or, for a charge paid already, the payment it has. A refused insert undoes everything.
     */
    method SettleCharge(id: ChargeId, amountCents: int, paidAt: int, key: string, ids: Ids) returns (r: Outcome)
      requires id in charges && FreshIds(View(), ids)
      modifies this
      ensures Open(old(charges)[id]) ==>
                match Pay(old(View()), id, amountCents, paidAt, key, ids)
                case Some(db) => View() == db && r == Settled(ids.payment, false)
                case None => View() == old(View()) && r == Refused(OutboxConflict)
      ensures !Open(old(charges)[id]) ==> View() == old(View())
      ensures old(charges)[id].status == PAID ==>
                || (r.Settled? && r.idempotent && IsLatest(View(), id, r.paymentId))
                || (r == Refused(AlreadyPaid) && forall p :: p in payments ==> payments[p].chargeId != id)
      ensures old(charges)[id].status == CANCELED ==> r == Refused(AlreadyProcessed)
    {
      if !Open(charges[id]) {
        if charges[id].status != PAID { return Refused(AlreadyProcessed); }
        var latest := LatestPayment(id);
        return match latest case Some(p) => Settled(p, true) case None => Refused(AlreadyPaid);
      }
      var tick0, charges0, payments0, timeline0 := tick, charges, payments, timeline;
      ghost var receipts0 := receipts;
      charges := charges[id := charges[id].(status := PAID, paidAt := Some(paidAt), updatedAt := tick)];
      payments := payments[ids.payment := Payment(id, amountCents, paidAt, tick)];
      timeline := timeline[ids.timeline := PaymentReceived(id, ids.payment, amountCents)];
      receipts := receipts[ids.payment := Receipt(ids.timeline, ids.outbox)];
      tick := tick + 1;
      var ok := Enqueue(ids.outbox, PAYMENT_RECEIVED(PaymentKey(key), ids.timeline, id, ids.payment));
      if ok { return Settled(ids.payment, false); }
      tick, charges, payments, timeline, receipts := tick0, charges0, payments0, timeline0, receipts0;
      r := Refused(OutboxConflict);
    }

    /** The conditional update of cancelCharge, guarded by the stamp the caller sent and by nothing else. */
    method CancelIfUnchanged(id: ChargeId, expected: nat) returns (count: nat)
      requires id in charges
      modifies this
      ensures count == if old(charges)[id].updatedAt == expected then 1 else 0
      ensures View() == if count == 1 then Cancel(old(View()), id) else old(View())
    {
      count := 0;
      if charges[id].updatedAt == expected {
        charges := charges[id := charges[id].(status := CANCELED, updatedAt := tick)];
        tick := tick + 1;
        count := 1;
      }
    }

    /** The overdue sweep: one statement over every PENDING charge due before today. */
    method AutomateOverdueLifecycle(todayStart: int) returns (updated: nat)
      modifies this
      ensures View() == Swept(old(View()), todayStart)
      ensures forall c :: c in charges <==> c in old(charges)
      ensures forall c :: c in charges ==>
                charges[c] == if old(charges)[c].status == PENDING && old(charges)[c].dueDate < todayStart
                              then old(charges)[c].(status := OVERDUE, updatedAt := old(tick))
                              else old(charges)[c]
      ensures updated ==
                |set c | c in old(charges) && old(charges)[c].status == PENDING && old(charges)[c].dueDate < todayStart|
    {
      var due := set c | c in charges && charges[c].status == PENDING && charges[c].dueDate < todayStart;
      updated := |due|;
      var rest := due;
      while rest != {}
        invariant rest <= due && charges.Keys == old(charges).Keys
        invariant View() == old(View()).(charges := charges)
        invariant forall c :: c in charges ==>
                    charges[c] == if c in due && c !in rest
                                  then old(charges)[c].(status := OVERDUE, updatedAt := tick) else old(charges)[c]
        decreases rest
      {
        var c :| c in rest;
        charges := charges[c := charges[c].(status := OVERDUE, updatedAt := tick)];
        rest := rest - {c};
      }
      tick := tick + 1;
    }
  }
}
