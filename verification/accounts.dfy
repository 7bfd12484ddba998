/** What one dispatch does besides: to other sessions, the queue of updates, the counters and what is published. */
module Accounts {
  import opened Bytes
  import opened Wire
  import opened World
  import opened Sequential
  import opened Batch
  import opened Verdicts
  import Location
  import Registration

  /** Updates queued, counters raised, fixes published, sessions closed by displacement. */
  datatype Books = Books(
    jobs: seq<Job>, counts: multiset<Counter>, fixes: multiset<(Text, Location.Fix)>, closed: set<Sid>) {
    function Plus(b: Books): Books {
      Books(jobs + b.jobs, counts + b.counts, fixes + b.fixes, closed + b.closed)
    }
  }

  const BLANK: Books := Books([], multiset{}, multiset{}, {})

  /** From one state to another, on behalf of sid, this was booked and nothing else. */
  ghost predicate Booked(before: Shared, after: Shared, sid: Sid, b: Books) {
    && after.sess.Keys == before.sess.Keys
    && (forall t :: t in before.sess && t != sid ==>
         after.sess[t] == if t in b.closed then CloseSess(before.sess[t]) else before.sess[t])
    && after.authTimers == before.authTimers
    && after.jobs == before.jobs + b.jobs
    && after.published == before.published + b.fixes
    && forall c: Counter :: Counted(after, c) == Counted(before, c) + b.counts[c]
  }

  lemma BookedThen(x: Shared, y: Shared, z: Shared, sid: Sid, a: Books, b: Books)
    requires Booked(x, y, sid, a) && Booked(y, z, sid, b)
    ensures Booked(x, z, sid, a.Plus(b))
  {
    hide Counted;
  }

  lemma BookedBlank(x: Shared, y: Shared, z: Shared, sid: Sid, b: Books)
    requires (Booked(x, y, sid, BLANK) && Booked(y, z, sid, b)) || (Booked(x, y, sid, b) && Booked(y, z, sid, BLANK))
    ensures Booked(x, z, sid, b)
  {
    hide Counted;
    assert [] + b.jobs == b.jobs && b.jobs + [] == b.jobs;
  }

  // ---- one operation ----

  /** Operations that are booked by what they are alone. */
  predicate Simple(op: Op) {
    Plain(op) && !op.Publish? && !op.PublishBatch? && !op.Register? && !op.Unregister? && !op.StopTimer?
  }

  function BooksOf(op: Op, sid: Sid): Books {
    match op
    case Count(c) => BLANK.(counts := multiset{c})
    case Beat => BLANK.(jobs := [GoOnline(sid)])
    case _ => BLANK
  }

  lemma SimpleBooks(sh: Shared, sid: Sid, op: Op, env: Env)
    requires sid in sh.sess && !op.Publish? && !op.PublishBatch? && !op.Register? && !op.Unregister? && !op.StopTimer?
    ensures Booked(sh, After(sh, sid, op, env), sid, BooksOf(op, sid))
  {
    hide Booked;
    if op.Count? {
      CountIsBooked(sh, sid, op.counter, env);
    } else {
      QuietIsBooked(sh, sid, op, env);
    }
  }

  lemma CountIsBooked(sh: Shared, sid: Sid, c: Counter, env: Env)
    requires sid in sh.sess
    ensures Booked(sh, After(sh, sid, Count(c), env), sid, BLANK.(counts := multiset{c}))
  {
    var sh' := After(sh, sid, Count(c), env);
    assert sh' == sh.(metrics := Bump(sh.metrics, c, 1));
    hide After;
  }

  lemma QuietIsBooked(sh: Shared, sid: Sid, op: Op, env: Env)
    requires sid in sh.sess && !op.Count?
    requires !op.Publish? && !op.PublishBatch? && !op.Register? && !op.Unregister? && !op.StopTimer?
    ensures Booked(sh, After(sh, sid, op, env), sid, BLANK.(jobs := if op.Beat? then [GoOnline(sid)] else []))
  {
    var sh' := After(sh, sid, op, env);
    QuietLooks(sh, sid, op, env);
    hide After, Own;
  }

  lemma QuietLooks(sh: Shared, sid: Sid, op: Op, env: Env)
    requires sid in sh.sess && !op.Count?
    requires !op.Publish? && !op.PublishBatch? && !op.Register? && !op.Unregister? && !op.StopTimer?
    ensures var sh' := After(sh, sid, op, env);
            && (sh'.sess == sh.sess || sh'.sess == sh.sess[sid := Own(sh.sess[sid], op, env)])
            && sh'.authTimers == sh.authTimers && sh'.metrics == sh.metrics && sh'.published == sh.published
            && sh'.jobs == sh.jobs + if op.Beat? then [GoOnline(sid)] else []
  {
    hide Own, PublishItems, PublishReport, BatchOf, Bump, Displaces;
    assert sh.jobs + [] == sh.jobs;
  }

  function RegisterBooks(sh: Shared, sid: Sid): Books
    requires sid in sh.sess
  {
    Books([GoOnline(sid)], multiset{}, multiset{},
          if Displaces(sh, sid) then {sh.local[sh.sess[sid].phone]} else {})
  }

  lemma RegisterIsBooked(sh: Shared, sid: Sid, env: Env)
    requires sid in sh.sess
    ensures Booked(sh, After(sh, sid, Register, env), sid, RegisterBooks(sh, sid))
  {
    AfterRegister(sh, sid, env);
    hide After;
  }

  /** Fixes and totals of what is published. */
  function PublishBooks(phone: Text, items: seq<Text>, alarms: nat): Books {
    Books([], multiset{}[LocationReports := Good(items)][DecodeErrors := Bad(items)][SosAlarms := alarms], Fixes(phone, items), {})
  }

  predicate Telling(c: Counter) {
    c == LocationReports || c == DecodeErrors || c == SosAlarms
  }

  lemma {:induction false} ItemsCountOnly(sh: Shared, phone: Text, items: seq<Text>, c: Counter)
    requires !Telling(c)
    ensures Counted(PublishItems(sh, phone, items), c) == Counted(sh, c)
  {
    hide Location.Decode;
    if items != [] {
      ItemsCountOnly(sh, phone, items[..|items| - 1], c);
    }
  }

  lemma ReportCountsOnly(sh: Shared, phone: Text, body: Text, c: Counter)
    requires !Telling(c)
    ensures Counted(PublishReport(sh, phone, body), c) == Counted(sh, c)
  {
    hide Location.Decode;
  }

  /** A publication that delivers and counts nothing else is booked. */
  lemma DeliveryIsBooked(sh: Shared, sh': Shared, sid: Sid, phone: Text, items: seq<Text>, alarms: nat)
    requires sh' == sh.(metrics := sh'.metrics, published := sh'.published)
    requires Delivers(sh, sh', phone, items) && Counted(sh', SosAlarms) == Counted(sh, SosAlarms) + alarms
    requires forall c :: !Telling(c) ==> Counted(sh', c) == Counted(sh, c)
    ensures Booked(sh, sh', sid, PublishBooks(phone, items, alarms))
  {
    hide Counted, Good, Bad, Fixes;
    assert sh.jobs + [] == sh.jobs;
  }

  lemma PublishIsBooked(sh: Shared, sid: Sid, f: Frame, env: Env)
    requires sid in sh.sess
    ensures var phone := PhoneFor(sh.sess[sid], f.phone);
            Booked(sh, After(sh, sid, Publish(f), env), sid,
              if phone == [] then PublishBooks(phone, [], 0)
              else PublishBooks(phone, [f.body], if Alarming(f.body) then 1 else 0))
  {
    hide Delivers, After, PublishReport, Counted, Alarming, Booked;
    var phone := PhoneFor(sh.sess[sid], f.phone);
    PublishIs(sh, sid, f, env);
    if phone == [] {
      NothingDelivered(sh, phone);
      DeliveryIsBooked(sh, sh, sid, phone, [], 0);
    } else {
      var sh' := PublishReport(sh, phone, f.body);
      ReportDelivers(sh, phone, f.body);
      ReportCountsAlarm(sh, phone, f.body);
      forall c | !Telling(c) ensures Counted(sh', c) == Counted(sh, c) {
        ReportCountsOnly(sh, phone, f.body, c);
      }
      DeliveryIsBooked(sh, sh', sid, phone, [f.body], if Alarming(f.body) then 1 else 0);
    }
  }

  lemma PublishBatchIsBooked(sh: Shared, sid: Sid, f: Frame, env: Env)
    requires sid in sh.sess
    ensures var phone := sh.sess[sid].phone;
            Booked(sh, After(sh, sid, PublishBatch(f), env), sid, PublishBooks(phone, BatchOf(f.body), 0))
  {
    hide Delivers, After, PublishItems, Counted, Booked, BatchOf;
    var phone, items := sh.sess[sid].phone, BatchOf(f.body);
    var sh' := PublishItems(sh, phone, items);
    PublishBatchIs(sh, sid, f, env);
    PublishItemsDelivers(sh, phone, items);
    ItemsCountNoAlarm(sh, phone, items);
    forall c | !Telling(c) ensures Counted(sh', c) == Counted(sh, c) {
      ItemsCountOnly(sh, phone, items, c);
    }
    DeliveryIsBooked(sh, sh', sid, phone, items, 0);
  }

  // ---- several operations ----

  function BooksOfAll(ops: seq<Op>, sid: Sid): Books
    decreases |ops|
  {
    if ops == [] then BLANK else BooksOf(ops[0], sid).Plus(BooksOfAll(ops[1..], sid))
  }

  lemma {:induction false} SimpleRun(sh: Shared, sid: Sid, ops: seq<Op>, env: Env)
    requires sid in sh.sess && forall op :: op in ops ==> Simple(op)
    ensures Booked(sh, RunOps(sh, sid, ops, env), sid, BooksOfAll(ops, sid))
    decreases |ops|
  {
    hide RunOps, After, Booked, BooksOf;
    if ops == [] {
      RunNone(sh, sid, env);
      NothingBooked(sh, sid);
    } else {
      assert Simple(ops[0]);
      assert [ops[0]] + ops[1..] == ops;
      RunPlain(sh, sid, ops[0], ops[1..], env);
      SimpleBooks(sh, sid, ops[0], env);
      SimpleRun(After(sh, sid, ops[0], env), sid, ops[1..], env);
      BookedThen(sh, After(sh, sid, ops[0], env), RunOps(sh, sid, ops, env), sid, BooksOf(ops[0], sid), BooksOfAll(ops[1..], sid));
    }
  }

  lemma NothingBooked(sh: Shared, sid: Sid)
    ensures Booked(sh, sh, sid, BLANK)
  {
  }

  lemma PlusBlank(b: Books)
    ensures BLANK.Plus(b) == b && b.Plus(BLANK) == b
  {
    assert [] + b.jobs == b.jobs && b.jobs + [] == b.jobs;
  }

  lemma {:induction false} SilentBooks(ops: seq<Op>, sid: Sid)
    requires forall op :: op in ops ==> BooksOf(op, sid) == BLANK
    ensures BooksOfAll(ops, sid) == BLANK
    decreases |ops|
  {
    PlusBlank(BLANK);
    if ops != [] {
      assert BooksOf(ops[0], sid) == BLANK;
      SilentBooks(ops[1..], sid);
    }
  }

  // ---- one dispatch ----

  /** What is published of a frame: the phone it goes out under, and the bodies, if the acknowledgement was written. */
  function PhoneOut(s: Sess, f: Frame): Text {
    if f.msgId == LOCATION_REPORT then PhoneFor(s, f.phone) else s.phone
  }

  function BodiesOut(s: Sess, f: Frame, env: Env): seq<Text> {
    if !s.open || !env.writeOk then []
    else if f.msgId == LOCATION_REPORT && PhoneOut(s, f) != [] then [f.body]
    else if f.msgId == BATCH_LOCATION then BatchOf(f.body)
    else []
  }

  function AlarmsOut(s: Sess, f: Frame, env: Env): nat {
    if f.msgId == LOCATION_REPORT && BodiesOut(s, f, env) != [] && Alarming(f.body) then 1 else 0
  }

  predicate Known(msgId: U16) {
    || PreAuth(msgId)
    || msgId in {HEARTBEAT, TERMINAL_PROPS, UPGRADE_RESULT, ACC_STATUS}
  }

  /** Whom an admission under the phone of s displaces. */
  function Displaced(sh: Shared, sid: Sid, phone: Text): set<Sid> {
    if phone in sh.local && sh.local[phone] != sid && sh.local[phone] in sh.sess then {sh.local[phone]} else {}
  }

  /** All a frame is booked for, but for its own count. */
  function BooksFor(sh: Shared, sid: Sid, f: Frame, env: Env): Books
    requires sid in sh.sess
  {
    var s := sh.sess[sid];
    if f.msgId == AUTHENTICATION then
      if Admits(sh.tokens, f, env) then
        Books([GoOnline(sid)], multiset{AuthSuccesses}, multiset{}, Displaced(sh, sid, PhoneFor(s, f.phone)))
      else BLANK.(counts := multiset{AuthViolations})
    else if f.msgId == LOCATION_REPORT || f.msgId == BATCH_LOCATION then
      PublishBooks(PhoneOut(s, f), BodiesOut(s, f, env), AlarmsOut(s, f, env))
    else if !Passes(s.state, f.msgId) then BLANK
    else if f.msgId == HEARTBEAT then BLANK.(jobs := [GoOnline(sid)], counts := multiset{Heartbeats})
    else if Known(f.msgId) then BLANK
    else BLANK.(counts := multiset{UnknownMessages})
  }

  /** The counts, jobs and publications of every dispatch, and what it does to the other sessions. */
  lemma DispatchIsBooked(sh: Shared, sid: Sid, f: Frame, env: Env)
    requires sid in sh.sess
    ensures Booked(sh, Dispatch(sh, sid, f, env), sid, BLANK.(counts := multiset{Frames}).Plus(BooksFor(sh, sid, f, env)))
  {
    hide Dispatch, RunOps, After, Booked, Handle, BooksFor;
    var sh1 := After(sh, sid, Count(Frames), env);
    var ops := if Passes(sh.sess[sid].state, f.msgId) then Handle(f, env) else [Ack(f, OK)];
    DispatchIs(sh, sid, f, env);
    SimpleBooks(sh, sid, Count(Frames), env);
    BooksAfterCount(sh, sid, f, env);
    if !Passes(sh.sess[sid].state, f.msgId) {
      GatedIsBooked(sh1, sid, f, env);
    } else {
      HandledIsBooked(sh1, sid, f, env);
    }
    BookedThen(sh, sh1, RunOps(sh1, sid, ops, env), sid, BooksOf(Count(Frames), sid), BooksFor(sh, sid, f, env));
  }

  lemma BooksAfterCount(sh: Shared, sid: Sid, f: Frame, env: Env)
    requires sid in sh.sess
    ensures var sh1 := After(sh, sid, Count(Frames), env);
            BooksFor(sh1, sid, f, env) == BooksFor(sh, sid, f, env) && sh1.sess == sh.sess
  {
    hide Location.Decode, Good, Bad, Fixes, Alarming, BatchOf;
  }

  lemma GatedIsBooked(sh: Shared, sid: Sid, f: Frame, env: Env)
    requires sid in sh.sess && !Passes(sh.sess[sid].state, f.msgId)
    ensures Booked(sh, RunOps(sh, sid, [Ack(f, OK)], env), sid, BooksFor(sh, sid, f, env))
  {
    hide RunOps, Booked, AckBody;
    SimpleRun(sh, sid, [Ack(f, OK)], env);
    SilentBooks([Ack(f, OK)], sid);
  }

  lemma HandledIsBooked(sh: Shared, sid: Sid, f: Frame, env: Env)
    requires sid in sh.sess && Passes(sh.sess[sid].state, f.msgId)
    ensures Booked(sh, RunOps(sh, sid, Handle(f, env), env), sid, BooksFor(sh, sid, f, env))
  {
    hide RunOps, Booked, AckBody, HandleRegistration, PublishBooks;
    if f.msgId == REGISTRATION {
      RegistrationIsBooked(sh, sid, f, env);
    } else if f.msgId == AUTHENTICATION {
      AuthenticationIsBooked(sh, sid, f, env);
    } else if f.msgId == LOCATION_REPORT || f.msgId == BATCH_LOCATION {
      ReportIsBooked(sh, sid, f, env);
    } else if f.msgId == HEARTBEAT {
      HeartbeatIsBooked(sh, sid, f, env);
    } else if Known(f.msgId) {
      var ops := Handle(f, env);
      SimpleRun(sh, sid, ops, env);
      SilentBooks(ops, sid);
    } else {
      UnknownIsBooked(sh, sid, f, env);
    }
  }

  lemma RegistrationIsBooked(sh: Shared, sid: Sid, f: Frame, env: Env)
    requires sid in sh.sess
    ensures Booked(sh, RunOps(sh, sid, HandleRegistration(f, env), env), sid, BLANK)
  {
    hide RunOps, Booked, HandleRegistration, BooksOf, Simple;
    var ops := HandleRegistration(f, env);
    RegistrationIsSilent(f, env, sid);
    SimpleRun(sh, sid, ops, env);
    SilentBooks(ops, sid);
  }

  lemma RegistrationIsSilent(f: Frame, env: Env, sid: Sid)
    ensures forall op :: op in HandleRegistration(f, env) ==> Simple(op) && BooksOf(op, sid) == BLANK
  {
    hide AckBody, RegistrationAckBody, Token, Registration.Decode;
  }

  lemma OneBook(a: Op, sid: Sid)
    ensures BooksOfAll([a], sid) == BooksOf(a, sid)
  {
    hide BooksOf;
    assert [a][1..] == [];
    PlusBlank(BooksOf(a, sid));
  }

  lemma TwoBooks(a: Op, b: Op, c: Op, sid: Sid)
    ensures BooksOfAll([a, b], sid) == BooksOf(a, sid).Plus(BooksOf(b, sid))
    ensures BooksOfAll([a, b, c], sid) == BooksOf(a, sid).Plus(BooksOf(b, sid).Plus(BooksOf(c, sid)))
  {
    hide BooksOf;
    assert [a, b][1..] == [b] && [b][1..] == [] && [a, b, c][1..] == [b, c] && [b, c][1..] == [c] && [c][1..] == [];
    PlusBlank(BooksOf(b, sid));
    PlusBlank(BooksOf(c, sid));
    OneBook(b, sid);
    OneBook(c, sid);
    assert BooksOfAll([b, c], sid) == BooksOf(b, sid).Plus(BooksOf(c, sid));
  }

  lemma HeartbeatIsBooked(sh: Shared, sid: Sid, f: Frame, env: Env)
    requires sid in sh.sess
    ensures Booked(sh, RunOps(sh, sid, [Beat, Ack(f, OK), Count(Heartbeats)], env), sid,
                   BLANK.(jobs := [GoOnline(sid)], counts := multiset{Heartbeats}))
  {
    hide RunOps, Booked, AckBody;
    var ops := [Beat, Ack(f, OK), Count(Heartbeats)];
    SimpleRun(sh, sid, ops, env);
    TwoBooks(ops[0], ops[1], ops[2], sid);
    PlusBlank(BooksOf(ops[2], sid));
    assert [GoOnline(sid)] + [] == [GoOnline(sid)];
    assert BooksOf(ops[0], sid).Plus(BooksOf(ops[2], sid)) == BLANK.(jobs := [GoOnline(sid)], counts := multiset{Heartbeats});
  }

  lemma UnknownIsBooked(sh: Shared, sid: Sid, f: Frame, env: Env)
    requires sid in sh.sess
    ensures Booked(sh, RunOps(sh, sid, [Count(UnknownMessages), Ack(f, OK)], env), sid, BLANK.(counts := multiset{UnknownMessages}))
  {
    hide RunOps, Booked, AckBody;
    var ops := [Count(UnknownMessages), Ack(f, OK)];
    SimpleRun(sh, sid, ops, env);
    TwoBooks(ops[0], ops[1], ops[1], sid);
    PlusBlank(BooksOf(ops[0], sid));
  }

  lemma ReportIsBooked(sh: Shared, sid: Sid, f: Frame, env: Env)
    requires sid in sh.sess && (f.msgId == LOCATION_REPORT || f.msgId == BATCH_LOCATION)
    ensures Booked(sh, RunOps(sh, sid, Handle(f, env), env), sid, BooksFor(sh, sid, f, env))
  {
    hide RunOps, After, Own, Booked, AckBody, BatchOf, PublishBooks, Alarming;
    var op := if f.msgId == LOCATION_REPORT then Publish(f) else PublishBatch(f);
    var body := AckBody(f.seqNum, f.msgId, OK);
    var reply := Reply(PLATFORM_RESP, body, [op]);
    var sh1 := After(sh, sid, reply, env);
    RunReply(sh, sid, PLATFORM_RESP, body, op, env);
    SimpleBooks(sh, sid, reply, env);
    ReplyKeepsPhone(sh, sid, reply, env);
    NothingPublished(PhoneOut(sh.sess[sid], f));
    if sh.sess[sid].open && env.writeOk {
      if f.msgId == LOCATION_REPORT {
        PublishIsBooked(sh1, sid, f, env);
      } else {
        PublishBatchIsBooked(sh1, sid, f, env);
      }
      BookedBlank(sh, sh1, After(sh1, sid, op, env), sid, BooksFor(sh, sid, f, env));
    }
  }

  lemma ReplyKeepsPhone(sh: Shared, sid: Sid, op: Op, env: Env)
    requires sid in sh.sess && op.Reply?
    ensures After(sh, sid, op, env).sess[sid].phone == sh.sess[sid].phone
  {
    hide Written;
    SessionAfter(sh, sid, op, env, sid);
    hide After;
  }

  lemma NothingPublished(phone: Text)
    ensures PublishBooks(phone, [], 0) == BLANK
  {
  }

  lemma AuthenticationIsBooked(sh: Shared, sid: Sid, f: Frame, env: Env)
    requires sid in sh.sess && f.msgId == AUTHENTICATION
    ensures Booked(sh, RunOps(sh, sid, Handle(f, env), env), sid, BooksFor(sh, sid, f, env))
  {
    hide RunOps, After, Own, Booked, AckBody;
    var sh1 := After(sh, sid, AdoptPhone(f.phone), env);
    RunAuthentication(sh, sid, f, env);
    SimpleBooks(sh, sid, AdoptPhone(f.phone), env);
    Adopted(sh, sid, f.phone, env);
    if Admits(sh.tokens, f, env) {
      AdmissionIsBooked(sh1, sid, f, env);
    } else {
      RefusalIsBooked(sh1, sid, f, env);
    }
    BookedBlank(sh, sh1, RunOps(sh1, sid, Then(sh1, sid, Validate(f), env), env), sid, BooksFor(sh, sid, f, env));
  }

  lemma Adopted(sh: Shared, sid: Sid, phone: Text, env: Env)
    requires sid in sh.sess
    ensures var sh1 := After(sh, sid, AdoptPhone(phone), env);
            sh1 == sh.(sess := sh.sess[sid := sh.sess[sid].(phone := PhoneFor(sh.sess[sid], phone))])
  {
  }

  lemma RefusalIsBooked(sh: Shared, sid: Sid, f: Frame, env: Env)
    requires sid in sh.sess
    ensures Booked(sh, RunOps(sh, sid, [Ack(f, FAIL), Count(AuthViolations), ScheduleClose], env), sid,
                   BLANK.(counts := multiset{AuthViolations}))
  {
    hide RunOps, Booked, AckBody;
    var ops := [Ack(f, FAIL), Count(AuthViolations), ScheduleClose];
    SimpleRun(sh, sid, ops, env);
    TwoBooks(ops[0], ops[1], ops[2], sid);
    PlusBlank(BooksOf(ops[1], sid));
  }

  lemma AdmissionIsBooked(sh: Shared, sid: Sid, f: Frame, env: Env)
    requires sid in sh.sess
    ensures Booked(sh, RunOps(sh, sid, [MarkAuthenticated, Register, Ack(f, OK), Count(AuthSuccesses)], env), sid,
                   Books([GoOnline(sid)], multiset{AuthSuccesses}, multiset{}, Displaced(sh, sid, sh.sess[sid].phone)))
  {
    hide RunOps, After, Own, Booked, AckBody;
    var a, b, c, d := MarkAuthenticated, Register, Ack(f, OK), Count(AuthSuccesses);
    RunFour(sh, sid, a, b, c, d, env);
    var sh1 := After(sh, sid, a, env);
    var sh2 := After(sh1, sid, b, env);
    var sh3 := After(sh2, sid, c, env);
    var sh4 := After(sh3, sid, d, env);
    SimpleBooks(sh, sid, a, env);
    RegisterIsBooked(sh1, sid, env);
    SimpleBooks(sh2, sid, c, env);
    SimpleBooks(sh3, sid, d, env);
    AdmittedLooks(sh, sid, env);
    var r := RegisterBooks(sh1, sid);
    BookedBlank(sh, sh1, sh2, sid, r);
    BookedBlank(sh, sh2, sh3, sid, r);
    BookedThen(sh, sh3, sh4, sid, r, BooksOf(d, sid));
    assert [GoOnline(sid)] + [] == [GoOnline(sid)];
    assert r.Plus(BooksOf(d, sid)) == r.(counts := multiset{AuthSuccesses});
  }

  lemma AdmittedLooks(sh: Shared, sid: Sid, env: Env)
    requires sid in sh.sess
    ensures var sh1 := After(sh, sid, MarkAuthenticated, env);
            RegisterBooks(sh1, sid) == Books([GoOnline(sid)], multiset{}, multiset{}, Displaced(sh, sid, sh.sess[sid].phone))
  {
  }

  // ---- nothing is left open ----

  /**
    What a frame deserves and what is booked for it fix the whole state: anything that agrees on
    both is the state after the dispatch, but for counters that stand at zero or not at all.
  */
  lemma DispatchIsDetermined(sh: Shared, sid: Sid, f: Frame, env: Env, after: Shared)
    requires sid in sh.sess && Deserved(sh, after, sid, f, env)
    requires Booked(sh, after, sid, BLANK.(counts := multiset{Frames}).Plus(BooksFor(sh, sid, f, env)))
    ensures after == Dispatch(sh, sid, f, env).(metrics := after.metrics)
    ensures forall c :: Counted(after, c) == Counted(Dispatch(sh, sid, f, env), c)
  {
    hide Dispatch, BooksFor, Counted, Spoken, Judged, AnswerTo, Enrols, Admits, Refuses, Token;
    DispatchDeserves(sh, sid, f, env);
    DispatchIsBooked(sh, sid, f, env);
    var d := Dispatch(sh, sid, f, env);
    assert after.sess == d.sess;
  }
}
