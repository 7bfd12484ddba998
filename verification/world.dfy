/**
  What the server's goroutines share, and the atomic operations they perform on it.
  A handler is a list of such operations; some of them decide what comes next.
*/
module World {
  import opened Bytes
  import opened Wire
  import Location
  import Registration

  /** Names a session, that is, one accepted connection. */
  type Sid = nat

  datatype State = Connected | Registered | Authenticated | Closing {
    /** Sessions are gated by this order: a closing session ranks above an authenticated one. */
    function Rank(): nat {
      match this
      case Connected => 0
      case Registered => 1
      case Authenticated => 2
      case Closing => 3
    }
  }

  datatype Sess = Sess(
    phone: Text, imei: Text, authToken: Text, state: State, outSeq: U32, open: bool, wire: seq<Byte>)

  const FRESH: Sess := Sess([], [], [], Connected, 0, true, [])

  datatype Counter =
    | Frames | Heartbeats | AuthSuccesses | AuthViolations | LocationReports | SosAlarms | DecodeErrors | UnknownMessages

  /** A queued update of the set of online phones; the phone is looked up when it is executed. */
  datatype Job = GoOnline(sid: Sid) | GoOffline(sid: Sid)

  datatype Shared = Shared(
    sess: map<Sid, Sess>,
    local: map<Text, Sid>,
    tokens: map<Text, Text>,
    jobs: seq<Job>,
    authTimers: set<Sid>,
    closers: multiset<Sid>,
    metrics: map<Counter, nat>,
    published: multiset<(Text, Location.Fix)>)

  // ---- messages ----

  const TERMINAL_RESP: U16 := 0x0001
  const HEARTBEAT: U16 := 0x0002
  const REGISTRATION: U16 := 0x0100
  const AUTHENTICATION: U16 := 0x0102
  const TERMINAL_PROPS: U16 := 0x0120
  const UPGRADE_RESULT: U16 := 0x0121
  const LOCATION_REPORT: U16 := 0x0200
  const ACC_STATUS: U16 := 0x0304
  const BATCH_LOCATION: U16 := 0x0704
  const PLATFORM_RESP: U16 := 0x8001
  const REGISTRATION_RESP: U16 := 0x8100

  const OK: Byte := 0x00
  const FAIL: Byte := 0x01
  const MESSAGE_ERROR: Byte := 0x02
  const REG_SUCCESS: Byte := 0x00
  const NOT_IN_DB: Byte := 0x04

  /** The messages let through before authentication. */
  predicate PreAuth(msgId: U16) {
    msgId in {REGISTRATION, AUTHENTICATION, TERMINAL_RESP, LOCATION_REPORT, BATCH_LOCATION}
  }

  function AckBody(replySeq: U16, replyMsgId: U16, result: Byte): Text {
    PutU16(replySeq) + PutU16(replyMsgId) + [result]
  }

  function RegistrationAckBody(replySeq: U16, result: Byte, token: Text): Text {
    PutU16(replySeq) + [result] + token
  }

  const UNDERSCORE: Byte := 0x5f

  function Decimal(n: nat): Text {
    (if n < 10 then [] else Decimal(n / 10)) + [0x30 + n % 10]
  }

  /** The token handed to a phone that registers at that second. */
  function Token(phone: Text, now: nat): Text {
    phone + [UNDERSCORE] + Decimal(now)
  }

  // ---- what the outside answers ----

  datatype Check = Approved | Blocked | AutoCreated | CheckFailed

  datatype Env = Env(writeOk: bool, redisOk: bool, check: Check, now: nat)

  // ---- operations ----

  datatype Op =
    | Count(counter: Counter)
    | Identify(phone: Text, imei: Text)
    | AdoptPhone(phone: Text)
    | StoreToken(phone: Text, token: Text)
    | MarkRegistered(token: Text)
    | Validate(frame: Frame)
    | MarkAuthenticated
    | Register
    | Reply(msgId: U16, body: Text, onSuccess: seq<Op>)
    | ScheduleClose
    | Beat
    | Publish(frame: Frame)
    | PublishBatch(frame: Frame)
    | StopTimer
    | Unregister
    | Shut

  function Ack(f: Frame, result: Byte): Op {
    Reply(PLATFORM_RESP, AckBody(f.seqNum, f.msgId, result), [])
  }

  /** What happened, for the record. */
  datatype Event =
    | Request(sid: Sid, frame: Frame, passed: bool)
    | Sent(sid: Sid, msgId: U16, phone: Text, body: Text, seqNum: U16, delivered: bool)
    | Enrolled(sid: Sid)
    | Admitted(sid: Sid)
    | Dropped(sid: Sid)
    | Stored(sid: Sid, phone: Text, token: Text)
    | Expired(phone: Text)
    | Presented(sid: Sid, phone: Text, token: Text, valid: bool)
    | Unchecked(sid: Sid, phone: Text, token: Text)
    | Joined(sid: Sid, phone: Text)
    | Left(sid: Sid, phone: Text)

  function Bump(metrics: map<Counter, nat>, c: Counter, n: nat): map<Counter, nat> {
    metrics[c := (if c in metrics then metrics[c] else 0) + n]
  }

  /** Session.Close, as one step: the state first, then the connection. */
  function CloseSess(s: Sess): Sess {
    s.(state := Closing, open := false)
  }

  // ---- batches ----

  /** The complete items of a batch body after its three-byte head, at most count of them. */
  function BatchItems(s: seq<Byte>, count: nat): seq<Text>
    decreases count
  {
    if count == 0 || |s| < 2 || |s| < 2 + GetU16(s, 0) then []
    else
      var n := GetU16(s, 0) as nat;
      [s[2..2 + n]] + BatchItems(s[2 + n..], count - 1)
  }

  function BatchOf(body: Text): seq<Text> {
    if |body| < 3 then [] else BatchItems(body[3..], GetU16(body, 0))
  }

  /** Publishes under phone every item that decodes, and counts the others. */
  function PublishItems(sh: Shared, phone: Text, items: seq<Text>): (r: Shared)
    ensures r == sh.(metrics := r.metrics, published := r.published)
  {
    if items == [] then sh
    else
      var before := PublishItems(sh, phone, items[..|items| - 1]);
      PublishItem(before, phone, items[|items| - 1])
  }

  function PublishItem(sh: Shared, phone: Text, item: Text): (r: Shared)
    ensures r == sh.(metrics := r.metrics, published := r.published)
  {
    match Location.Decode(item)
    case Err(_) => sh.(metrics := Bump(sh.metrics, DecodeErrors, 1))
    case Ok(fix) =>
      sh.(metrics := Bump(sh.metrics, LocationReports, 1), published := sh.published + multiset{(phone, fix)})
  }

  /** A single report: published like an item of a batch, except that alarms are counted too. */
  function PublishReport(sh: Shared, phone: Text, body: Text): (r: Shared)
    ensures r == sh.(metrics := r.metrics, published := r.published)
  {
    var sh' := PublishItem(sh, phone, body);
    match Location.Decode(body)
    case Err(_) => sh'
    case Ok(fix) => if fix.Sos() then sh'.(metrics := Bump(sh'.metrics, SosAlarms, 1)) else sh'
  }

  // ---- the effect of an operation ----

  /** The phone of a session, or else that of the frame in hand. */
  function PhoneFor(s: Sess, framePhone: Text): Text {
    if s.phone == [] then framePhone else s.phone
  }

  /** What an operation makes of the session it belongs to. */
  function Own(s: Sess, op: Op, env: Env): Sess {
    match op
    case Identify(phone, imei) => s.(phone := phone, imei := imei)
    case AdoptPhone(phone) => s.(phone := PhoneFor(s, phone))
    case MarkRegistered(token) => s.(authToken := token, state := Registered)
    case MarkAuthenticated => s.(state := Authenticated)
    case Reply(msgId, body, _) =>
      var outSeq := (s.outSeq + 1) % 0x1_0000_0000;
      s.(outSeq := outSeq,
         wire := s.wire + if s.open && env.writeOk then Written(msgId, s.phone, outSeq % 0x1_0000, body) else [])
    case Shut => s.(open := false)
    case _ => s
  }

  /** Whether another session is registered under the phone of sid. */
  predicate Displaces(sh: Shared, sid: Sid)
    requires sid in sh.sess
  {
    var phone := sh.sess[sid].phone;
    phone in sh.local && sh.local[phone] != sid && sh.local[phone] in sh.sess
  }

  /** What an operation of sid makes of the whole. */
  function After(sh: Shared, sid: Sid, op: Op, env: Env): (r: Shared)
    requires sid in sh.sess
    ensures r.sess.Keys == sh.sess.Keys
  {
    var s := sh.sess[sid];
    match op
    case Count(c) => sh.(metrics := Bump(sh.metrics, c, 1))
    case StoreToken(phone, token) => if env.redisOk then sh.(tokens := sh.tokens[phone := token]) else sh
    case Register =>
      var sess := if Displaces(sh, sid) then sh.sess[sh.local[s.phone] := CloseSess(sh.sess[sh.local[s.phone]])] else sh.sess;
      sh.(sess := sess, local := sh.local[s.phone := sid], jobs := sh.jobs + [GoOnline(sid)])
    case ScheduleClose => sh.(closers := sh.closers + multiset{sid})
    case Beat => sh.(jobs := sh.jobs + [GoOnline(sid)])
    case Publish(f) =>
      var phone := PhoneFor(s, f.phone);
      if phone == [] then sh else PublishReport(sh, phone, f.body)
    case PublishBatch(f) => PublishItems(sh, s.phone, BatchOf(f.body))
    case StopTimer => sh.(authTimers := sh.authTimers - {sid})
    case Unregister =>
      if s.phone == [] then sh
      else
        var local := if s.phone in sh.local && sh.local[s.phone] == sid then sh.local - {s.phone} else sh.local;
        sh.(local := local, jobs := sh.jobs + [GoOffline(sid)])
    case _ => sh.(sess := sh.sess[sid := Own(s, op, env)])
  }

  /** Whether the token a frame presents is the one stored for its phone. */
  predicate Stores(tokens: map<Text, Text>, f: Frame) {
    f.phone in tokens && tokens[f.phone] == f.body
  }

  /** What the goroutine goes on with. A failing token lookup lets the device in. */
  function Then(sh: Shared, sid: Sid, op: Op, env: Env): seq<Op>
    requires sid in sh.sess
  {
    match op
    case Validate(f) =>
      if !env.redisOk || Stores(sh.tokens, f) then [MarkAuthenticated, Register, Ack(f, OK), Count(AuthSuccesses)]
      else [Ack(f, FAIL), Count(AuthViolations), ScheduleClose]
    case Reply(_, _, onSuccess) => if sh.sess[sid].open && env.writeOk then onSuccess else []
    case _ => []
  }

  /** What goes on record. */
  function Record(sh: Shared, sid: Sid, op: Op, env: Env): seq<Event>
    requires sid in sh.sess
  {
    var s := sh.sess[sid];
    match op
    case StoreToken(phone, token) => if env.redisOk then [Stored(sid, phone, token)] else []
    case MarkRegistered(_) => [Enrolled(sid)]
    case Validate(f) =>
      if env.redisOk then [Presented(sid, f.phone, f.body, Stores(sh.tokens, f))] else [Unchecked(sid, f.phone, f.body)]
    case MarkAuthenticated => [Admitted(sid)]
    case Register => (if Displaces(sh, sid) then [Dropped(sh.local[s.phone])] else []) + [Joined(sid, s.phone)]
    case Reply(msgId, body, _) =>
      [Sent(sid, msgId, s.phone, body, (s.outSeq + 1) % 0x1_0000_0000 % 0x1_0000, s.open && env.writeOk)]
    case Unregister => [Left(sid, s.phone)]
    case _ => []
  }

  /** What a written reply may lead to. */
  predicate OnlyPublishes(ops: seq<Op>) {
    forall op :: op in ops ==> op.Publish? || op.PublishBatch?
  }

  // ---- the handlers as lists of operations ----

  predicate Passes(state: State, msgId: U16) {
    state.Rank() >= Authenticated.Rank() || PreAuth(msgId)
  }

  function Program(state: State, f: Frame, env: Env): seq<Op> {
    [Count(Frames)] + if Passes(state, f.msgId) then Handle(f, env) else [Ack(f, OK)]
  }

  function Handle(f: Frame, env: Env): seq<Op> {
    if f.msgId == HEARTBEAT then [Beat, Ack(f, OK), Count(Heartbeats)]
    else if f.msgId == REGISTRATION then HandleRegistration(f, env)
    else if f.msgId == AUTHENTICATION then [AdoptPhone(f.phone), Validate(f)]
    else if f.msgId == LOCATION_REPORT then [Reply(PLATFORM_RESP, AckBody(f.seqNum, f.msgId, OK), [Publish(f)])]
    else if f.msgId == BATCH_LOCATION then [Reply(PLATFORM_RESP, AckBody(f.seqNum, f.msgId, OK), [PublishBatch(f)])]
    else if f.msgId == TERMINAL_RESP then []
    else if f.msgId in {TERMINAL_PROPS, UPGRADE_RESULT, ACC_STATUS} then [Ack(f, OK)]
    else [Count(UnknownMessages), Ack(f, OK)]
  }

  function HandleRegistration(f: Frame, env: Env): seq<Op> {
    match Registration.Decode(f.body)
    case Err(_) => [Ack(f, MESSAGE_ERROR)]
    case Ok(info) =>
      if env.check.CheckFailed? || env.check.Blocked? then
        [Reply(REGISTRATION_RESP, RegistrationAckBody(f.seqNum, NOT_IN_DB, []), []), ScheduleClose]
      else
        var token := Token(f.phone, env.now);
        [Identify(f.phone, info.deviceId), StoreToken(f.phone, token), MarkRegistered(token),
         Reply(REGISTRATION_RESP, RegistrationAckBody(f.seqNum, REG_SUCCESS, token), [])]
  }

  const FAREWELL: seq<Op> := [StopTimer, Unregister, Shut]

  /** How an operation of sid leaves each session: its own as told, the displaced one closed, the rest alone. */
  lemma SessionAfter(sh: Shared, sid: Sid, op: Op, env: Env, other: Sid)
    requires sid in sh.sess && other in sh.sess
    ensures After(sh, sid, op, env).sess[other] ==
            if other == sid then Own(sh.sess[sid], op, env)
            else if op.Register? && Displaces(sh, sid) && other == sh.local[sh.sess[sid].phone] then CloseSess(sh.sess[other])
            else sh.sess[other]
  {
    hide PublishItems, PublishReport, BatchOf, Bump, Written;
  }

  // ---- one goroutine running on its own ----

  /** An upper bound on the steps an operation can still lead to. */
  function Weight(op: Op): nat {
    match op
    case Validate(_) => 8
    case Reply(_, _, next) => 1 + Weights(next)
    case _ => 1
  }

  function Weights(ops: seq<Op>): nat {
    if ops == [] then 0 else Weight(ops[0]) + Weights(ops[1..])
  }

  lemma {:induction false} WeightsConcat(a: seq<Op>, b: seq<Op>)
    ensures Weights(a + b) == Weights(a) + Weights(b)
  {
    if a == [] {
      assert a + b == b;
    } else {
      assert (a + b)[1..] == a[1..] + b;
      WeightsConcat(a[1..], b);
    }
  }

  lemma NextIsLighter(sh: Shared, sid: Sid, op: Op, env: Env)
    requires sid in sh.sess
    ensures Weights(Then(sh, sid, op, env)) < Weight(op)
  {
    if op.Validate? {
      var f := op.frame;
      WeighThree(Ack(f, FAIL), Count(AuthViolations), ScheduleClose);
      WeighThree(Register, Ack(f, OK), Count(AuthSuccesses));
      WeightsConcat([MarkAuthenticated], [Register, Ack(f, OK), Count(AuthSuccesses)]);
      hide Weights;
      assert [MarkAuthenticated] + [Register, Ack(f, OK), Count(AuthSuccesses)]
          == [MarkAuthenticated, Register, Ack(f, OK), Count(AuthSuccesses)];
      WeighOne(MarkAuthenticated);
    }
  }

  lemma WeighOne(a: Op)
    ensures Weights([a]) == Weight(a)
  {
  }

  lemma WeighThree(a: Op, b: Op, c: Op)
    ensures Weights([a, b, c]) == Weight(a) + Weight(b) + Weight(c)
  {
    WeightsConcat([a], [b] + [c]);
    WeightsConcat([b], [c]);
    assert [a] + ([b] + [c]) == [a, b, c];
  }

  /** The operations of one goroutine performed without interruption. */
  function RunOps(sh: Shared, sid: Sid, ops: seq<Op>, env: Env): (r: Shared)
    requires sid in sh.sess
    ensures r.sess.Keys == sh.sess.Keys
    decreases Weights(ops)
  {
    if ops == [] then sh
    else
      var next := Then(sh, sid, ops[0], env);
      NextIsLighter(sh, sid, ops[0], env);
      WeightsConcat(next, ops[1..]);
      RunOps(After(sh, sid, ops[0], env), sid, next + ops[1..], env)
  }

  function Dispatch(sh: Shared, sid: Sid, f: Frame, env: Env): (r: Shared)
    requires sid in sh.sess
    ensures r.sess.Keys == sh.sess.Keys
  {
    RunOps(sh, sid, Program(sh.sess[sid].state, f, env), env)
  }

  function Leave(sh: Shared, sid: Sid, env: Env): Shared
    requires sid in sh.sess
  {
    RunOps(sh, sid, FAREWELL, env)
  }
}
