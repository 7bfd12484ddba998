/**
  The simulator and the server composed through the bytes they exchange, while other
  connections, timers, queued updates and expiries go on in between.
*/
module Conversation {
  import opened Bytes
  import opened Wire
  import opened WireTheorems
  import opened World
  import opened Runs
  import opened Device
  import opened Exchange
  import opened Discipline
  import opened Tokens
  import DeviceBodies
  import Layout
  import Registration

  // ---- the composed system ----

  /** How many frames the server has taken from sid. */
  function Taken(log: seq<Event>, sid: Sid): nat {
    if log == [] then 0
    else
      var e := log[|log| - 1];
      Taken(log[..|log| - 1], sid) + if e.Request? && e.sid == sid then 1 else 0
  }

  /** All the server has written to sid. */
  function WireOf(sys: System, sid: Sid): seq<Byte> {
    if sid in sys.shared.sess then sys.shared.sess[sid].wire else []
  }

  /** f is the next frame the server reads from the bytes the device has written so far. */
  ghost predicate Arrives(g: Gear, sid: Sid, sys: System, f: Frame)
    requires g.Valid()
  {
    var frames := ReadAll(BackToBack(Tell(g, WireOf(sys, sid)).sent)).frames;
    var k := Taken(sys.log, sid);
    k < |frames| && f == frames[k]
  }

  /**
    What is granted: on sid the device's frames arrive, nothing fails and no deadline passes;
    no one else uses the device's phone, and its token does not expire. Everything else may happen.
  */
  ghost predicate Granted(g: Gear, sid: Sid, sys: System, a: Action)
    requires g.Valid()
  {
    match a
    case Receive(t, f, env) => if t == sid then Kind(env) && Arrives(g, sid, sys, f) else f.phone != g.Heard()
    case Run(t, env) => t == sid ==> Kind(env)
    case ReadFail(t) => t != sid
    case AuthTimeout(t) => t == sid ==> StateOf(sys, sid).Rank() >= Authenticated.Rank()
    case Expire(phone) => phone != g.Heard()
    case _ => true
  }

  ghost predicate Composed(g: Gear, sid: Sid, run: seq<Action>)
    requires g.Valid()
  {
    run == [] ||
    var sys, a := Execute(run[..|run| - 1]), run[|run| - 1];
    Composed(g, sid, run[..|run| - 1]) && (Enabled(sys, a) ==> Granted(g, sid, sys, a))
  }

  // ---- the device's session ----

  const CALM: Env := Env(true, true, Approved, 0)

  /** An operation that may be due for the device, during request k. */
  predicate Ours(op: Op, h: Text, token: Text, k: nat) {
    match op
    case Identify(phone, _) => phone == h && k == 1
    case AdoptPhone(phone) => phone == h
    case StoreToken(phone, t) => phone == h && t == token && k == 1
    case Validate(f) => f.phone == h && f.body == token && k >= 2
    case Register => k >= 2
    case Reply(_, _, onSuccess) => OnlyPublishes(onSuccess)
    case ScheduleClose => false
    case StopTimer => false
    case Unregister => false
    case Shut => false
    case _ => true
  }

  predicate AllOurs(ops: seq<Op>, h: Text, token: Text, k: nat) {
    forall op :: op in ops ==> Ours(op, h, token, k)
  }

  /** The session is on its way to, or at, the settled state of k requests. */
  ghost predicate Going(g: Gear, token: Text, k: nat, s: Sess, todo: seq<Op>, stored: Option<Text>)
    requires g.Valid()
  {
    && k <= g.Length() && s.open
    && Accomplish(s, todo, CALM) == Settled(g, token, k)
    && AllOurs(todo, g.Heard(), token, k)
    && TotalOwed(todo) <= 1
    && (TotalOwed(todo) == 1 ==> k > 0 && s.wire == Answers(g, token, 0, k - 1))
    && (k >= 2 ==> s.phone == g.Heard())
    && (k >= 1 && StoreToken(g.Heard(), token) !in todo ==> stored == Some(token))
  }

  /** An operation that does not touch the phone of the device. */
  predicate Foreign(op: Op, h: Text) {
    match op
    case Identify(phone, _) => phone != h
    case AdoptPhone(phone) => phone != h
    case StoreToken(phone, _) => phone != h
    case Reply(_, _, onSuccess) => OnlyPublishes(onSuccess)
    case _ => true
  }

  predicate AllForeign(ops: seq<Op>, h: Text) {
    forall op :: op in ops ==> Foreign(op, h)
  }

  predicate Elsewhere(s: Sess, t: Thread, h: Text) {
    s.phone != h && AllForeign(t.todo, h)
  }

  ghost predicate Others(h: Text, sid: Sid, sys: System)
    requires WellFormed(sys)
  {
    forall t :: t in sys.shared.sess && t != sid ==> Elsewhere(sys.shared.sess[t], sys.threads[t], h)
  }

  /** The registry knows sid by its phone at most. */
  ghost predicate Named(h: Text, sid: Sid, local: map<Text, Sid>) {
    forall p :: p in local && local[p] == sid ==> p == h
  }

  ghost predicate OnTrack(g: Gear, sid: Sid, sys: System, token: Text)
    requires g.Valid()
  {
    && WellFormed(sys)
    && sid !in sys.shared.closers && sid !in sys.shutters
    && Named(g.Heard(), sid, sys.shared.local)
    && Others(g.Heard(), sid, sys)
    && (if sid in sys.shared.sess then
          && sys.threads[sid].serving
          && Going(g, token, Taken(sys.log, sid), sys.shared.sess[sid], sys.threads[sid].todo,
                   Lookup(sys.shared.tokens, g.Heard()))
        else Taken(sys.log, sid) == 0)
  }

  // ---- one operation of the device's session ----

  lemma OpFulfils(sh: Shared, sid: Sid, op: Op, rest: seq<Op>, env: Env, h: Text, token: Text, k: nat)
    requires sid in sh.sess && sh.sess[sid].open && Kind(env) && Ours(op, h, token, k)
    requires op.Validate? ==> Lookup(sh.tokens, h) == Some(token)
    ensures var s, next := sh.sess[sid], Then(sh, sid, op, env);
            && Accomplish(Own(s, op, env), next + rest, CALM) == Accomplish(s, [op] + rest, CALM)
            && AllOurs(next, h, token, k) && TotalOwed(next) <= Owed(op) && (!op.Validate? ==> TotalOwed(next) == 0)
            && StoreToken(h, token) !in next
  {
    hide Written, AckBody, Accomplish, Fulfil;
    var s, next := sh.sess[sid], Then(sh, sid, op, env);
    AccomplishConcat(Own(s, op, env), next, rest, CALM);
    AccomplishConcat(s, [op], rest, CALM);
    AccomplishFew(s, op, op, op, op, CALM);
    if op.Validate? {
      ValidateFulfils(s, op.frame, env);
      OwedOf(MarkAuthenticated, Register, Ack(op.frame, OK));
      TotalOwedConcat([MarkAuthenticated, Register, Ack(op.frame, OK)], [Count(AuthSuccesses)]);
      OwedOf(Count(AuthSuccesses), Register, Register);
      assert next == [MarkAuthenticated, Register, Ack(op.frame, OK)] + [Count(AuthSuccesses)];
    } else {
      OwnAnyhow(s, op, env);
      assert OnlyPublishes(next);
      QuietAccomplish(Own(s, op, env), next);
    }
  }

  lemma OwnAnyhow(s: Sess, op: Op, env: Env)
    requires env.writeOk && !op.Validate?
    ensures Fulfil(s, op, CALM) == Own(s, op, env)
  {
  }

  lemma ValidateFulfils(s: Sess, f: Frame, env: Env)
    requires env.writeOk
    ensures Accomplish(Own(s, Validate(f), env), [MarkAuthenticated, Register, Ack(f, OK), Count(AuthSuccesses)], CALM)
         == Fulfil(s, Validate(f), CALM)
  {
    hide Written, AckBody;
    AccomplishFew(s, MarkAuthenticated, Register, Ack(f, OK), Count(AuthSuccesses), CALM);
    hide Accomplish;
  }

  lemma {:induction false} QuietAccomplish(s: Sess, ops: seq<Op>)
    requires OnlyPublishes(ops)
    ensures Accomplish(s, ops, CALM) == s && TotalOwed(ops) == 0
    decreases |ops|
  {
    if ops != [] {
      assert ops[0] in ops;
      QuietAccomplish(s, ops[1..]);
    }
  }

  /** Once no answer is owed any more, nothing more is written. */
  lemma {:induction false} NothingOwedNothingWritten(s: Sess, ops: seq<Op>)
    requires TotalOwed(ops) == 0
    ensures Accomplish(s, ops, CALM).wire == s.wire
    decreases |ops|
  {
    if ops != [] {
      NothingOwedNothingWritten(Fulfil(s, ops[0], CALM), ops[1..]);
    }
  }

  lemma OwnKeeps(s: Sess, op: Op, env: Env, h: Text, token: Text, k: nat)
    requires Ours(op, h, token, k)
    ensures var s' := Own(s, op, env);
            && s'.open == s.open && (s.phone == h ==> s'.phone == h) && (!op.Reply? ==> s'.wire == s.wire)
  {
  }

  lemma GoesOn(g: Gear, token: Text, k: nat, sh: Shared, sid: Sid, todo: seq<Op>, env: Env)
    requires g.Valid() && sid in sh.sess && todo != [] && Kind(env)
    requires Going(g, token, k, sh.sess[sid], todo, Lookup(sh.tokens, g.Heard()))
    ensures var sh' := After(sh, sid, todo[0], env);
            Going(g, token, k, sh'.sess[sid], Then(sh, sid, todo[0], env) + todo[1..], Lookup(sh'.tokens, g.Heard()))
  {
    hide After, Then, Own, Accomplish, Settled, Answers, Owed;
    var h, op, rest, s := g.Heard(), todo[0], todo[1..], sh.sess[sid];
    var sh', next := After(sh, sid, op, env), Then(sh, sid, op, env);
    assert todo == [op] + rest;
    assert op in todo && Ours(op, h, token, k);
    SessionAfter(sh, sid, op, env, sid);
    TokensAfter(sh, sid, op, env);
    OpFulfils(sh, sid, op, rest, env, h, token, k);
    OwnKeeps(s, op, env, h, token, k);
    TotalOwedConcat(next, rest);
    assert TotalOwed(todo) == Owed(op) + TotalOwed(rest);
    OwedReply(op);
    assert AllOurs(next + rest, h, token, k);
    assert StoreToken(h, token) in todo && StoreToken(h, token) !in next + rest ==> op == StoreToken(h, token);
  }

  lemma OwedReply(op: Op)
    ensures op.Reply? ==> Owed(op) == 1
    ensures Owed(op) <= 1
  {
  }

  // ---- a request of the device ----

  lemma RequestGoes(g: Gear, token: Text, k: nat, s: Sess, stored: Option<Text>, env: Env)
    requires g.Valid() && k < g.Length() && Kind(env)
    requires Going(g, token, k, s, [], stored)
    requires k == 0 ==> token == TokenFor(g, env)
    ensures Going(g, token, k + 1, s, Program(s.state, Query(g, token, k).Received(), env), stored)
  {
    hide Accomplish, Answers, Program, Query, Settled;
    var f := Query(g, token, k).Received();
    var ops := Program(s.state, f, env);
    AccomplishNothing(s);
    RequestSettles(g, token, k, env);
    AccomplishAnyhow(s, ops, env, CALM);
    QueryIsNoResponse(g, token, k);
    ProgramOwes(s.state, f, env);
    SettledShape(g, token, k);
    ProgramIsOurs(g, token, k, s.state, env);
  }

  lemma AccomplishNothing(s: Sess)
    ensures Accomplish(s, [], CALM) == s
  {
  }

  lemma SettledShape(g: Gear, token: Text, k: nat)
    requires g.Valid() && k <= g.Length()
    ensures var s := Settled(g, token, k);
            && s.wire == Answers(g, token, 0, k) && (k > 0 ==> s.phone == g.Heard())
            && s.state == if k == 0 then Connected else if k == 1 then Registered else Authenticated
  {
    hide Answers;
    NoAnswers(g, token);
  }

  lemma QueryIsNoResponse(g: Gear, token: Text, k: nat)
    requires g.Valid() && k < g.Length()
    ensures var f := Query(g, token, k).Received();
            f.msgId == (if k == 0 then REGISTRATION else if k == 1 then AUTHENTICATION else g.orders[k - 2].MsgId())
            && f.phone == g.Heard() && f.msgId != TERMINAL_RESP
  {
    hide DeviceBodies.RegBody, Order.Body;
  }

  lemma ProgramIsOurs(g: Gear, token: Text, k: nat, state: State, env: Env)
    requires g.Valid() && k < g.Length() && Kind(env)
    requires state == if k == 0 then Connected else if k == 1 then Registered else Authenticated
    requires k == 0 ==> token == TokenFor(g, env)
    ensures var ops := Program(state, Query(g, token, k).Received(), env);
            AllOurs(ops, g.Heard(), token, k + 1) && (k == 0 ==> StoreToken(g.Heard(), token) in ops)
  {
    hide Token, Registration.Decode, DeviceBodies.RegBody, AckBody, RegistrationAckBody, Order.Body, Bcd.Encode, Bcd.Decode;
    var f := Query(g, token, k).Received();
    if k == 0 {
      Registration.SimulatorTrip(g.imei, g.model);
      var info := Registration.Decode(f.body).value;
      var ops := Program(state, f, env);
      assert ops == [Count(Frames)] + [Identify(f.phone, info.deviceId), StoreToken(f.phone, token), MarkRegistered(token),
                     Reply(REGISTRATION_RESP, RegistrationAckBody(f.seqNum, REG_SUCCESS, token), [])];
      assert ops[2] == StoreToken(g.Heard(), token);
    } else if k == 1 {
      assert Program(state, f, env) == [Count(Frames)] + [AdoptPhone(f.phone), Validate(f)];
    } else {
      QueryIsNoResponse(g, token, k);
    }
  }

  // ---- whole runs ----

  lemma TakenSnoc(log: seq<Event>, e: Event, sid: Sid)
    ensures Taken(log + [e], sid) == Taken(log, sid) + if e.Request? && e.sid == sid then 1 else 0
  {
    assert (log + [e])[..|log|] == log;
  }

  lemma TakenStays(sh: Shared, actor: Sid, op: Op, env: Env, log: seq<Event>, sid: Sid)
    requires actor in sh.sess
    ensures Taken(log + Record(sh, actor, op, env), sid) == Taken(log, sid)
  {
    hide Record, Taken;
    RecordShape(sh, actor, op, env);
    var r := Record(sh, actor, op, env);
    if |r| == 0 {
      assert log + r == log;
    } else if |r| == 1 {
      assert r == [r[0]];
      TakenSnoc(log, r[0], sid);
    } else {
      assert log + r == log + [r[0]] + [r[1]];
      TakenSnoc(log, r[0], sid);
      TakenSnoc(log + [r[0]], r[1], sid);
    }
  }

  lemma ForeignKeepsPhone(s: Sess, op: Op, env: Env, h: Text)
    requires s.phone != h && Foreign(op, h)
    ensures Own(s, op, env).phone != h
  {
  }

  lemma ForeignGoesOn(sh: Shared, sid: Sid, todo: seq<Op>, env: Env, h: Text)
    requires sid in sh.sess && todo != [] && AllForeign(todo, h)
    ensures AllForeign(Then(sh, sid, todo[0], env) + todo[1..], h)
  {
    assert todo[0] in todo;
    var next := Then(sh, sid, todo[0], env);
    forall op | op in next + todo[1..] ensures Foreign(op, h) {
      assert op in next || op in todo;
    }
  }

  lemma ForeignProgram(state: State, f: Frame, env: Env, h: Text)
    requires f.phone != h
    ensures AllForeign(Program(state, f, env), h)
  {
    hide Registration.Decode, Token, AckBody, RegistrationAckBody;
  }

  lemma FarewellIsForeign(h: Text)
    ensures AllForeign(FAREWELL, h) && AllForeign([], h)
  {
  }

  /** An operation on one session leaves the phones of the others alone. */
  lemma ElsewhereStays(sys: System, actor: Sid, env: Env, t: Sid, h: Text)
    requires WellFormed(sys) && Enabled(sys, Run(actor, env)) && t in sys.shared.sess
    requires Elsewhere(sys.shared.sess[t], sys.threads[t], h)
    ensures var sys' := Next(sys, Run(actor, env));
            t in sys'.shared.sess && t in sys'.threads && Elsewhere(sys'.shared.sess[t], sys'.threads[t], h)
  {
    hide Next, After, Then, Own, Record, AllForeign;
    NextRun(sys, actor, env);
    var op := sys.threads[actor].todo[0];
    SessionAfter(sys.shared, actor, op, env, t);
    if t == actor {
      ForeignGoesOn(sys.shared, t, sys.threads[t].todo, env, h);
      ForeignHead(sys.threads[t].todo, h);
      ForeignKeepsPhone(sys.shared.sess[t], op, env, h);
    }
  }

  lemma ForeignHead(todo: seq<Op>, h: Text)
    requires todo != [] && AllForeign(todo, h)
    ensures Foreign(todo[0], h)
  {
  }

  lemma OwnRunOnTrack(g: Gear, sid: Sid, sys: System, token: Text, env: Env)
    requires g.Valid() && OnTrack(g, sid, sys, token) && Enabled(sys, Run(sid, env)) && Kind(env)
    ensures OnTrack(g, sid, Next(sys, Run(sid, env)), token)
  {
    hide Next, After, Then, Own, Record, AllForeign, Going, Enabled, Taken;
    CanRun(sys, sid, env);
    var h, sh, todo := g.Heard(), sys.shared, sys.threads[sid].todo;
    NextWellFormed(sys, Run(sid, env));
    NextRun(sys, sid, env);
    GoesOn(g, token, Taken(sys.log, sid), sh, sid, todo, env);
    TakenStays(sh, sid, todo[0], env, sys.log, sid);
    HeadIsOurs(g, token, Taken(sys.log, sid), sh.sess[sid], todo, Lookup(sh.tokens, h));
    ClosersAfter(sh, sid, todo[0], env);
    RegistryAfter(sh, sid, todo[0], env);
    OthersStay(g, sid, sys, sid, env);
    ShuttersStay(sys, sid, env);
  }

  lemma HeadIsOurs(g: Gear, token: Text, k: nat, s: Sess, todo: seq<Op>, stored: Option<Text>)
    requires g.Valid() && todo != [] && Going(g, token, k, s, todo, stored)
    ensures !todo[0].ScheduleClose? && (todo[0].Register? ==> s.phone == g.Heard())
  {
    hide Accomplish;
    assert todo[0] in todo;
  }

  lemma ShuttersStay(sys: System, actor: Sid, env: Env)
    requires Enabled(sys, Run(actor, env))
    ensures Next(sys, Run(actor, env)).shutters == sys.shutters
  {
  }

  lemma OthersStay(g: Gear, sid: Sid, sys: System, actor: Sid, env: Env)
    requires WellFormed(sys) && Enabled(sys, Run(actor, env)) && Others(g.Heard(), sid, sys)
    ensures var sys' := Next(sys, Run(actor, env)); WellFormed(sys') && Others(g.Heard(), sid, sys')
  {
    hide Next, Elsewhere, Enabled;
    NextWellFormed(sys, Run(actor, env));
    RunKeepsSessions(sys, actor, env);
    var sys' := Next(sys, Run(actor, env));
    forall t | t in sys'.shared.sess && t != sid ensures Elsewhere(sys'.shared.sess[t], sys'.threads[t], g.Heard()) {
      ElsewhereStays(sys, actor, env, t, g.Heard());
    }
  }

  lemma RunKeepsSessions(sys: System, actor: Sid, env: Env)
    requires Enabled(sys, Run(actor, env))
    ensures Next(sys, Run(actor, env)).shared.sess.Keys == sys.shared.sess.Keys
  {
    hide After, Then, Record;
  }

  /** What others do leaves the device's session and token alone. */
  lemma Unmoved(g: Gear, sid: Sid, sys: System, token: Text, actor: Sid, env: Env)
    requires g.Valid() && OnTrack(g, sid, sys, token) && Enabled(sys, Run(actor, env)) && actor != sid
    ensures var sys' := Next(sys, Run(actor, env));
            && Taken(sys'.log, sid) == Taken(sys.log, sid)
            && Lookup(sys'.shared.tokens, g.Heard()) == Lookup(sys.shared.tokens, g.Heard())
            && (sid in sys.shared.sess ==>
                 && sid in sys'.shared.sess && sys'.shared.sess[sid] == sys.shared.sess[sid]
                 && sid in sys'.threads && sys'.threads[sid] == sys.threads[sid])
  {
    hide Next, After, Then, Own, Record, AllForeign, Going, Enabled, Taken;
    CanRun(sys, actor, env);
    var h, sh, todo := g.Heard(), sys.shared, sys.threads[actor].todo;
    NextRun(sys, actor, env);
    TakenStays(sh, actor, todo[0], env, sys.log, sid);
    assert Elsewhere(sh.sess[actor], sys.threads[actor], h);
    ForeignHead(todo, h);
    TokensAfter(sh, actor, todo[0], env);
    if sid in sh.sess {
      SessionAfter(sh, actor, todo[0], env, sid);
    }
  }

  lemma OtherRunOnTrack(g: Gear, sid: Sid, sys: System, token: Text, actor: Sid, env: Env)
    requires g.Valid() && OnTrack(g, sid, sys, token) && Enabled(sys, Run(actor, env)) && actor != sid
    ensures OnTrack(g, sid, Next(sys, Run(actor, env)), token)
  {
    hide Next, After, Then, Own, Record, AllForeign, Going, Enabled, Taken, Lookup, Others, Elsewhere;
    CanRun(sys, actor, env);
    var sh, op := sys.shared, sys.threads[actor].todo[0];
    NextRun(sys, actor, env);
    ClosersAfter(sh, actor, op, env);
    RegistryAfter(sh, actor, op, env);
    OthersStay(g, sid, sys, actor, env);
    ShuttersStay(sys, actor, env);
    RunKeepsSessions(sys, actor, env);
    Unmoved(g, sid, sys, token, actor, env);
  }

  // ---- the other actions ----

  /** The device's session is not concerned. */
  lemma BystanderGoes(g: Gear, sid: Sid, sys: System, sys': System, token: Text)
    requires g.Valid() && OnTrack(g, sid, sys, token) && WellFormed(sys')
    requires sid !in sys'.shared.closers && sid !in sys'.shutters
    requires sys'.shared.local == sys.shared.local && Others(g.Heard(), sid, sys')
    requires Taken(sys'.log, sid) == Taken(sys.log, sid)
    requires Lookup(sys'.shared.tokens, g.Heard()) == Lookup(sys.shared.tokens, g.Heard())
    requires sid in sys.shared.sess <==> sid in sys'.shared.sess
    requires sid in sys.shared.sess ==>
               sys'.shared.sess[sid] == sys.shared.sess[sid] && sys'.threads[sid] == sys.threads[sid]
    ensures OnTrack(g, sid, sys', token)
  {
    hide Going, Others, Lookup, Taken;
  }

  lemma AcceptOnTrack(g: Gear, sid: Sid, sys: System, token: Text, t: Sid)
    requires g.Valid() && g.Heard() != [] && OnTrack(g, sid, sys, token) && Enabled(sys, Accept(t))
    ensures OnTrack(g, sid, Next(sys, Accept(t)), token)
  {
    hide Lookup, Taken;
    var sys' := Next(sys, Accept(t));
    NextWellFormed(sys, Accept(t));
    FarewellIsForeign(g.Heard());
    assert Others(g.Heard(), sid, sys');
    if t == sid {
      FreshGoes(g, token, Lookup(sys.shared.tokens, g.Heard()));
      hide Going;
    } else {
      BystanderGoes(g, sid, sys, sys', token);
    }
  }

  lemma FreshGoes(g: Gear, token: Text, stored: Option<Text>)
    requires g.Valid()
    ensures Going(g, token, 0, FRESH, [], stored)
  {
    AccomplishNothing(FRESH);
  }

  lemma ReceiveOnTrack(g: Gear, sid: Sid, sys: System, token: Text, t: Sid, f: Frame, env: Env) returns (token': Text)
    requires g.Valid() && OnTrack(g, sid, sys, token) && Enabled(sys, Receive(t, f, env))
    requires Granted(g, sid, sys, Receive(t, f, env))
    ensures OnTrack(g, sid, Next(sys, Receive(t, f, env)), token')
  {
    hide Lookup, Taken, Going, Program, Arrives;
    var h, sys', state := g.Heard(), Next(sys, Receive(t, f, env)), sys.shared.sess[t].state;
    NextWellFormed(sys, Receive(t, f, env));
    TakenSnoc(sys.log, Request(t, f, Passes(state, f.msgId)), sid);
    token' := token;
    if t == sid {
      token' := DeviceReceives(g, sid, sys, token, f, env);
    } else {
      ForeignProgram(state, f, env, h);
      BystanderGoes(g, sid, sys, sys', token);
    }
  }

  /** The frame that arrives is the one due, and with it the session sets out for the next settled state. */
  lemma DeviceReceives(g: Gear, sid: Sid, sys: System, token: Text, f: Frame, env: Env) returns (token': Text)
    requires g.Valid() && sid in sys.shared.sess && Kind(env) && Arrives(g, sid, sys, f)
    requires Going(g, token, Taken(sys.log, sid), sys.shared.sess[sid], [], Lookup(sys.shared.tokens, g.Heard()))
    ensures var s, k := sys.shared.sess[sid], Taken(sys.log, sid);
            Going(g, token', k + 1, s, Program(s.state, f, env), Lookup(sys.shared.tokens, g.Heard()))
  {
    hide Lookup, Taken, Going, Program, Arrives, Query, Settled, Answers, Message.Received;
    var s, k, stored := sys.shared.sess[sid], Taken(sys.log, sid), Lookup(sys.shared.tokens, g.Heard());
    IdleIsSettled(g, token, k, s, stored);
    DeviceArrives(g, token, sid, sys, f);
    token' := if k == 0 then TokenFor(g, env) else token;
    if k == 0 {
      FreshGoes(g, token', stored);
      QueryFirst(g, token, token');
    }
    RequestGoes(g, token', k, s, stored, env);
  }

  lemma QueryFirst(g: Gear, token: Text, other: Text)
    requires g.Valid()
    ensures Query(g, token, 0) == Query(g, other, 0) && Settled(g, token, 0) == FRESH
  {
  }

  lemma IdleIsSettled(g: Gear, token: Text, k: nat, s: Sess, stored: Option<Text>)
    requires g.Valid() && Going(g, token, k, s, [], stored)
    ensures k <= g.Length() && s == Settled(g, token, k) && s.wire == Answers(g, token, 0, k)
  {
    hide Settled, Answers, Accomplish;
    AccomplishNothing(s);
    SettledShape(g, token, k);
  }

  /** What arrives after k requests is request k, if there is one. */
  lemma DeviceArrives(g: Gear, token: Text, sid: Sid, sys: System, f: Frame)
    requires g.Valid() && sid in sys.shared.sess && Arrives(g, sid, sys, f)
    requires var k := Taken(sys.log, sid); k <= g.Length() && sys.shared.sess[sid].wire == Answers(g, token, 0, k)
    ensures var k := Taken(sys.log, sid); k < g.Length() && f == Query(g, token, k).Received()
  {
    hide Answers, Query, Asks, ReadAll, BackToBack, Tell, Message.Received, Taken;
    var k := Taken(sys.log, sid);
    var n := Min(k + 1, g.Length());
    DeviceGoesOn(g, token, k);
    BackToBackIsRead(Asks(g, token, 0, n));
    AsksAt(g, token, 0, n, 0);
    if k < g.Length() {
      AsksAt(g, token, 0, n, k);
    }
  }

  /** Actions that are neither of the device's session nor of any goroutine. */
  predicate OfTheWorld(a: Action) {
    !a.Accept? && !a.Receive? && !a.Run?
  }

  lemma WorldElsewhere(g: Gear, sid: Sid, sys: System, a: Action)
    requires WellFormed(sys) && Others(g.Heard(), sid, sys) && Enabled(sys, a) && OfTheWorld(a)
    ensures var sys' := Next(sys, a); WellFormed(sys') && Others(g.Heard(), sid, sys')
  {
    hide AllForeign, Program;
    NextWellFormed(sys, a);
    FarewellIsForeign(g.Heard());
    match a {
      case ReadFail(t) =>
      case AuthTimeout(t) =>
      case CloseStart(t) =>
      case CloseEnd(t) =>
      case RunJob(_, _) =>
      case Prune(_) =>
      case Expire(_) =>
      case Accept(_) =>
      case Receive(_, _, _) =>
      case Run(_, _) =>
    }
  }

  lemma WorldLog(sys: System, a: Action, sid: Sid)
    requires Enabled(sys, a) && OfTheWorld(a)
    ensures Taken(Next(sys, a).log, sid) == Taken(sys.log, sid)
  {
    hide Taken, Program;
    match a {
      case Expire(phone) => TakenSnoc(sys.log, Expired(phone), sid);
      case CloseStart(t) => TakenSnoc(sys.log, Dropped(t), sid);
      case ReadFail(_) =>
      case AuthTimeout(_) =>
      case CloseEnd(_) =>
      case RunJob(_, _) =>
      case Prune(_) =>
      case Accept(_) =>
      case Receive(_, _, _) =>
      case Run(_, _) =>
    }
  }

  lemma WorldOnTrack(g: Gear, sid: Sid, sys: System, token: Text, a: Action)
    requires g.Valid() && OnTrack(g, sid, sys, token) && Enabled(sys, a) && Granted(g, sid, sys, a) && OfTheWorld(a)
    ensures OnTrack(g, sid, Next(sys, a), token)
  {
    hide Taken, Going, Others, Named, Arrives, Program;
    WorldElsewhere(g, sid, sys, a);
    WorldLog(sys, a, sid);
    match a {
      case ReadFail(t) =>
      case AuthTimeout(t) =>
      case CloseStart(t) =>
      case CloseEnd(t) =>
      case RunJob(_, _) =>
      case Prune(_) =>
      case Expire(_) =>
      case Accept(_) =>
      case Receive(_, _, _) =>
      case Run(_, _) =>
    }
    BystanderGoes(g, sid, sys, Next(sys, a), token);
  }

  // ---- the main results ----

  lemma {:induction false} AlwaysOnTrack(g: Gear, sid: Sid, run: seq<Action>) returns (token: Text)
    requires g.Valid() && g.Heard() != [] && Composed(g, sid, run)
    ensures OnTrack(g, sid, Execute(run), token)
    decreases |run|
  {
    hide Next, OnTrack, Granted;
    if run == [] {
      token := [];
      StartOnTrack(g, sid);
    } else {
      var sys, a := Execute(run[..|run| - 1]), run[|run| - 1];
      token := AlwaysOnTrack(g, sid, run[..|run| - 1]);
      if Enabled(sys, a) {
        token := NextOnTrack(g, sid, sys, token, a);
      }
    }
  }

  lemma StartOnTrack(g: Gear, sid: Sid)
    requires g.Valid()
    ensures OnTrack(g, sid, INIT, [])
  {
  }

  lemma NextOnTrack(g: Gear, sid: Sid, sys: System, token: Text, a: Action) returns (token': Text)
    requires g.Valid() && g.Heard() != [] && OnTrack(g, sid, sys, token) && Enabled(sys, a) && Granted(g, sid, sys, a)
    ensures OnTrack(g, sid, Next(sys, a), token')
  {
    hide Next, OnTrack, Enabled, Arrives;
    token' := token;
    match a {
      case Accept(t) => AcceptOnTrack(g, sid, sys, token, t);
      case Receive(t, f, env) => token' := ReceiveOnTrack(g, sid, sys, token, t, f, env);
      case Run(t, env) =>
        if t == sid {
          OwnRunOnTrack(g, sid, sys, token, env);
        } else {
          OtherRunOnTrack(g, sid, sys, token, t, env);
        }
      case _ => WorldOnTrack(g, sid, sys, token, a);
    }
  }

  /**
    In every composed run the device never takes an error branch: given what the server has
    written to it so far, it has read a answers in full, has made one request more (or all of
    them) and waits for the next answer (or is done). The server has taken at least a requests
    and at most one more, and exactly a when it is idle.
  */
  lemma EndToEnd(g: Gear, sid: Sid, run: seq<Action>) returns (token: Text, a: nat)
    requires g.Valid() && g.Heard() != [] && Composed(g, sid, run)
    ensures a <= g.Length()
    ensures var sys := Execute(run);
            var wire, k := WireOf(sys, sid), Taken(sys.log, sid);
            && wire == Answers(g, token, 0, a)
            && Tell(g, wire) == Story(Asks(g, token, 0, Min(a + 1, g.Length())), OutcomeAfter(g, a))
            && a <= k <= a + 1 && k <= g.Length()
            && (Idle(sys, sid) ==> k == a)
  {
    hide Execute, Going, Taken, Answers, Asks, Tell, Others, Composed, Lookup;
    token := AlwaysOnTrack(g, sid, run);
    var sys := Execute(run);
    var k := Taken(sys.log, sid);
    a := k;
    if sid in sys.shared.sess {
      a := WrittenInFull(g, token, k, sys.shared.sess[sid], sys.threads[sid].todo, Lookup(sys.shared.tokens, g.Heard()));
    } else {
      NoAnswers(g, token);
    }
    DeviceGoesOn(g, token, a);
  }

  /** How many answers are written in full: all but that still owed. */
  lemma WrittenInFull(g: Gear, token: Text, k: nat, s: Sess, todo: seq<Op>, stored: Option<Text>) returns (a: nat)
    requires g.Valid() && Going(g, token, k, s, todo, stored)
    ensures a <= k <= a + 1 && k <= g.Length() && s.wire == Answers(g, token, 0, a)
    ensures todo == [] ==> a == k
  {
    hide Accomplish, Answers, Settled;
    if TotalOwed(todo) == 0 {
      a := k;
      NothingOwedNothingWritten(s, todo);
      SettledShape(g, token, k);
    } else {
      a := k - 1;
    }
  }

  /**
    For an IMEI of digits, or of other characters of the range the field can carry, the premise on
    the phone holds: the server makes out its first twelve characters.
  */
  lemma DigitsAreHeard(g: Gear)
    requires g.imei != [] && forall i :: 0 <= i < |g.imei| && i < 12 ==> 0x30 <= g.imei[i] <= 0x3e
    ensures g.Heard() == (if |g.imei| <= 12 then g.imei else g.imei[..12]) && g.Heard() != []
  {
    Layout.PhoneArrivesExactly(g.imei);
  }

  // ---- composed runs get on ----

  lemma ExecuteSnoc(g: Gear, sid: Sid, run: seq<Action>, a: Action)
    requires g.Valid() && Composed(g, sid, run) && Enabled(Execute(run), a) && Granted(g, sid, Execute(run), a)
    ensures Execute(run + [a]) == Next(Execute(run), a) && Composed(g, sid, run + [a])
  {
    hide Next, Granted, Enabled;
    assert (run + [a])[..|run|] == run;
  }

  /** What is due can be done. */
  lemma {:induction false} Attend(g: Gear, sid: Sid, run: seq<Action>, env: Env) returns (longer: seq<Action>)
    requires g.Valid() && Composed(g, sid, run) && Kind(env)
    requires var sys := Execute(run); sid in sys.threads && sid in sys.shared.sess && sys.threads[sid].serving
    ensures Composed(g, sid, longer) && Idle(Execute(longer), sid) && sid in Execute(longer).shared.sess
    ensures Taken(Execute(longer).log, sid) == Taken(Execute(run).log, sid)
    decreases Weights(Execute(run).threads[sid].todo)
  {
    hide Next, Execute, Composed, Taken, After, Then, Weights, Record;
    var sys := Execute(run);
    var todo := sys.threads[sid].todo;
    if todo == [] {
      longer := run;
    } else {
      NextRun(sys, sid, env);
      NextIsLighter(sys.shared, sid, todo[0], env);
      WeightsConcat(Then(sys.shared, sid, todo[0], env), todo[1..]);
      WeightsHead(todo);
      TakenStays(sys.shared, sid, todo[0], env, sys.log, sid);
      ExecuteSnoc(g, sid, run, Run(sid, env));
      longer := Attend(g, sid, run + [Run(sid, env)], env);
    }
  }

  lemma WeightsHead(ops: seq<Op>)
    requires ops != []
    ensures Weights(ops) == Weight(ops[0]) + Weights(ops[1..])
  {
  }

  /** As long as the device has requests left, the next one arrives and can be served. */
  lemma NextExchange(g: Gear, sid: Sid, run: seq<Action>, env: Env) returns (longer: seq<Action>)
    requires g.Valid() && g.Heard() != [] && Composed(g, sid, run) && Kind(env)
    requires var sys := Execute(run);
             Idle(sys, sid) && sid in sys.shared.sess && Taken(sys.log, sid) < g.Length()
    ensures Composed(g, sid, longer) && Idle(Execute(longer), sid) && sid in Execute(longer).shared.sess
    ensures Taken(Execute(longer).log, sid) == Taken(Execute(run).log, sid) + 1
  {
    hide Execute, Taken, Answers, Tell, Composed, Query, Message.Received, ReadAll, BackToBack, Program, Asks;
    var sys := Execute(run);
    var token, a := EndToEnd(g, sid, run);
    var sent := Asks(g, token, 0, a + 1);
    AsksAt(g, token, 0, a + 1, a);
    BackToBackIsRead(sent);
    var f := sent[a].Received();
    assert Arrives(g, sid, sys, f);
    ExecuteSnoc(g, sid, run, Receive(sid, f, env));
    TakenSnoc(sys.log, Request(sid, f, Passes(sys.shared.sess[sid].state, f.msgId)), sid);
    longer := Attend(g, sid, run + [Receive(sid, f, env)], env);
  }

  /** The whole session can be had: all requests answered, and the device still running. */
  lemma {:induction false} WholeConversation(g: Gear, sid: Sid, env: Env, k: nat) returns (run: seq<Action>)
    requires g.Valid() && g.Heard() != [] && Kind(env) && k <= g.Length()
    ensures Composed(g, sid, run) && Idle(Execute(run), sid) && Taken(Execute(run).log, sid) == k
    ensures sid in Execute(run).shared.sess
    ensures k == g.Length() ==> Tell(g, WireOf(Execute(run), sid)).outcome == Running
  {
    hide Composed, Execute, Tell, Answers, Taken, Asks, Next;
    if k == 0 {
      FirstAction(g, sid);
      run := [Accept(sid)];
    } else {
      run := WholeConversation(g, sid, env, k - 1);
      run := NextExchange(g, sid, run, env);
    }
    var _, _ := EndToEnd(g, sid, run);
  }

  lemma FirstAction(g: Gear, sid: Sid)
    requires g.Valid()
    ensures var run := [Accept(sid)];
            Composed(g, sid, run) && Idle(Execute(run), sid) && Taken(Execute(run).log, sid) == 0
            && sid in Execute(run).shared.sess
  {
    ExecuteSnoc(g, sid, [], Accept(sid));
    assert [] + [Accept(sid)] == [Accept(sid)];
  }
}
