/** What a peer gets to see of a dispatch, and what is counted for it, in numbers. */
module Replies {
  import opened Bytes
  import opened Wire
  import opened WireTheorems
  import opened World
  import opened Verdicts
  import opened Accounts
  import opened Batch
  import Device
  import Exchange
  import Location
  import LocationTheorems
  import Registration
  import opened Runs

  // ---- the bytes of a reply ----

  /** Behind what was on the wire of sid before comes one frame, and nothing else. */
  ghost predicate Brings(before: Shared, after: Shared, sid: Sid, g: Frame)
    requires sid in before.sess && sid in after.sess
  {
    var was, now := before.sess[sid].wire, after.sess[sid].wire;
    was <= now && Read(now[|was|..]) == Reading(Ok(g), |now| - |was|)
  }

  /** The bytes of a frame that follow its header in an answer: two of the request's sequence number, two of its id, one result. */
  function ResultBytes(seqNum: U16, msgId: U16, result: Byte): Text {
    [seqNum / 256, seqNum % 256, msgId / 256, msgId % 256, result]
  }

  lemma OneFrame(was: seq<Byte>, m: Message)
    ensures var now := was + m.Bytes();
            was <= now && Read(now[|was|..]) == Reading(Ok(m.Received()), |now| - |was|)
  {
    hide Message.Received, Message.Bytes, Read;
    ReadWritten(m, [], []);
    assert [] + m.Bytes() + [] == m.Bytes();
    assert (was + m.Bytes())[|was|..] == m.Bytes();
  }

  lemma AnswerBrings(sh: Shared, sid: Sid, f: Frame, env: Env, msgId: U16, body: Text)
    requires sid in sh.sess && sh.sess[sid].open && env.writeOk && AnswerTo(sh.tokens, f, env) == Say(msgId, body)
    ensures var sh', seqNum := Dispatch(sh, sid, f, env), (sh.sess[sid].outSeq + 1) % 4294967296 % 65536;
            Brings(sh, sh', sid, Message(msgId, sh'.sess[sid].phone, seqNum, body).Received())
  {
    hide Dispatch, AnswerTo, Read, Written, Message.Received, Enrols, Admits, Refuses, Token;
    DispatchDeserves(sh, sid, f, env);
    var sh', seqNum := Dispatch(sh, sid, f, env), (sh.sess[sid].outSeq + 1) % 4294967296 % 65536;
    OneFrame(sh.sess[sid].wire, Message(msgId, sh'.sess[sid].phone, seqNum, body));
  }

  lemma AckIs(f: Frame, result: Byte)
    ensures AckBody(f.seqNum, f.msgId, result) == ResultBytes(f.seqNum, f.msgId, result)
  {
  }

  /** Whether the token of the frame is the one stored for its phone, or cannot be looked up. */
  predicate RightToken(tokens: map<Text, Text>, f: Frame, env: Env) {
    !env.redisOk || (f.phone in tokens && tokens[f.phone] == f.body)
  }

  /**
    An authentication 0102 is answered by a frame 8001 with result 0 or 1: 0 and a session
    admitted if the token is right, 1 and a close ordered if not. The client goes on exactly in
    the first case.
  */
  lemma AuthenticationAnswer(sh: Shared, sid: Sid, f: Frame, env: Env) returns (g: Frame)
    requires sid in sh.sess && sh.sess[sid].open && env.writeOk && f.msgId == 0x0102
    ensures var sh', right := Dispatch(sh, sid, f, env), RightToken(sh.tokens, f, env);
            && Brings(sh, sh', sid, g)
            && g.msgId == 0x8001 && g.seqNum == (sh.sess[sid].outSeq + 1) % 65536
            && g.body == ResultBytes(f.seqNum, 0x0102, if right then 0x00 else 0x01)
            && sh'.sess[sid].state == (if right then Authenticated else sh.sess[sid].state)
            && sh'.closers == sh.closers + (if right then multiset{} else multiset{sid})
            && (Device.JudgeAuthentication(Ok(g)) == Device.Running <==> right)
  {
    hide Dispatch, Read, Brings, AckBody, Registration.Decode;
    var result: Byte := if RightToken(sh.tokens, f, env) then OK else FAIL;
    AckIs(f, result);
    var sh', seqNum := Dispatch(sh, sid, f, env), (sh.sess[sid].outSeq + 1) % 4294967296 % 65536;
    AnswerBrings(sh, sid, f, env, PLATFORM_RESP, AckBody(f.seqNum, f.msgId, result));
    DispatchDeserves(sh, sid, f, env);
    g := Message(PLATFORM_RESP, sh'.sess[sid].phone, seqNum, AckBody(f.seqNum, f.msgId, result)).Received();
    LowHalf(sh.sess[sid].outSeq);
    JudgedState(sh, sh', sid, f, env);
  }

  lemma LowHalf(n: U32)
    ensures (n as int + 1) % 4294967296 % 65536 == (n as int + 1) % 65536
  {
    if n == 4294967295 {
      assert (n as int + 1) == 65536 * 65536;
    }
  }

  lemma JudgedState(sh: Shared, sh': Shared, sid: Sid, f: Frame, env: Env)
    requires sid in sh.sess && Deserved(sh, sh', sid, f, env)
    ensures sh'.sess[sid].state == Judged(sh.sess[sid], sh.tokens, f, env).state
    ensures sh'.sess[sid].authToken == Judged(sh.sess[sid], sh.tokens, f, env).authToken
    ensures sh'.sess[sid].phone == Judged(sh.sess[sid], sh.tokens, f, env).phone
    ensures sh'.sess[sid].imei == Judged(sh.sess[sid], sh.tokens, f, env).imei
  {
    hide Judged, AnswerTo, Written;
  }

  /**
    A registration 0100 is answered by a frame 8001 with result 2 if it is too short, by a frame
    8100 with result 4 and a close ordered if the device is blocked or cannot be looked up, and else
    by a frame 8100 with result 0 and the token, which is the session's and is stored.
  */
  lemma RegistrationAnswer(sh: Shared, sid: Sid, f: Frame, env: Env) returns (g: Frame)
    requires sid in sh.sess && sh.sess[sid].open && env.writeOk && f.msgId == 0x0100
    ensures var sh' := Dispatch(sh, sid, f, env);
            var short, out := |f.body| < 17, env.check == Blocked || env.check == CheckFailed;
            && Brings(sh, sh', sid, g)
            && g.seqNum == (sh.sess[sid].outSeq + 1) % 65536
            && (short ==> g.msgId == 0x8001 && g.body == ResultBytes(f.seqNum, 0x0100, 0x02))
            && (!short && out ==> g.msgId == 0x8100 && g.body == [f.seqNum / 256, f.seqNum % 256, 0x04])
            && (!short && !out ==>
                 var token := f.phone + [0x5f] + Decimal(env.now);
                 && g.msgId == 0x8100 && g.body == [f.seqNum / 256, f.seqNum % 256, 0x00] + token
                 && sh'.sess[sid].authToken == token && sh'.sess[sid].phone == f.phone && sh'.sess[sid].state == Registered
                 && sh'.tokens == if env.redisOk then sh.tokens[f.phone := token] else sh.tokens)
            && (short || out ==> sh'.tokens == sh.tokens && sh'.sess[sid].state == sh.sess[sid].state)
            && sh'.closers == sh.closers + (if !short && out then multiset{sid} else multiset{})
            && (Device.JudgeRegistration(Ok(g)) == Device.Running <==> !short && !out)
  {
    hide Dispatch, Read, Brings, AckBody, Decimal, Deserved, AnswerTo, Judged, Spoken, Written, Enrols, Refuses, Admits;
    var sh', seqNum := Dispatch(sh, sid, f, env), (sh.sess[sid].outSeq + 1) % 4294967296 % 65536;
    var answer := AnswerTo(sh.tokens, f, env);
    RegistrationDecision(sh.tokens, f, env, sh.sess[sid]);
    AnswerBrings(sh, sid, f, env, answer.msgId, answer.body);
    DispatchDeserves(sh, sid, f, env);
    DeservedRegistration(sh, sh', sid, f, env);
    g := Message(answer.msgId, sh'.sess[sid].phone, seqNum, answer.body).Received();
    LowHalf(sh.sess[sid].outSeq);
    JudgedState(sh, sh', sid, f, env);
  }

  lemma RegistrationDecision(tokens: map<Text, Text>, f: Frame, env: Env, s: Sess)
    requires f.msgId == 0x0100
    ensures var short, out := |f.body| < 17, env.check == Blocked || env.check == CheckFailed;
            var a, j, token := AnswerTo(tokens, f, env), Judged(s, tokens, f, env), f.phone + [0x5f] + Decimal(env.now);
            && a.Say?
            && (short ==> a.msgId == 0x8001 && a.body == ResultBytes(f.seqNum, 0x0100, 0x02))
            && (!short && out ==> a.msgId == 0x8100 && a.body == [f.seqNum / 256, f.seqNum % 256, 0x04])
            && (!short && !out ==> a.msgId == 0x8100 && a.body == [f.seqNum / 256, f.seqNum % 256, 0x00] + token)
            && (!short && !out ==> j.authToken == token && j.phone == f.phone && j.state == Registered)
            && (short || out ==> j.state == s.state)
            && (Enrols(f, env) <==> !short && !out) && (Refuses(tokens, f, env) <==> !short && out)
  {
    hide Decimal;
    Registration.RegistrationFromBytes(f.body);
    hide Registration.Decode;
    AckIs(f, MESSAGE_ERROR);
  }

  lemma DeservedRegistration(sh: Shared, sh': Shared, sid: Sid, f: Frame, env: Env)
    requires sid in sh.sess && Deserved(sh, sh', sid, f, env)
    ensures sh'.tokens == if Enrols(f, env) && env.redisOk then sh.tokens[f.phone := f.phone + [0x5f] + Decimal(env.now)] else sh.tokens
    ensures sh'.closers == sh.closers + if Refuses(sh.tokens, f, env) then multiset{sid} else multiset{}
  {
    hide Enrols, Refuses, Spoken, Judged, Decimal;
  }

  /**
    Every other message but 0001 is answered by a frame 8001 with its number, its id and result 0,
    in every state of the session; the client takes it for an acknowledgement. Nothing else about
    the session changes.
  */
  lemma OtherAnswer(sh: Shared, sid: Sid, f: Frame, env: Env) returns (g: Frame)
    requires sid in sh.sess && sh.sess[sid].open && env.writeOk
    requires f.msgId != 0x0001 && f.msgId != 0x0100 && f.msgId != 0x0102
    ensures var s, s' := sh.sess[sid], Dispatch(sh, sid, f, env).sess[sid];
            && Brings(sh, Dispatch(sh, sid, f, env), sid, g)
            && g.msgId == 0x8001 && g.seqNum == (s.outSeq + 1) % 65536 && g.body == ResultBytes(f.seqNum, f.msgId, 0x00)
            && Device.JudgeAck(Ok(g), f.msgId) == Device.Running
            && s' == s.(outSeq := s'.outSeq, wire := s'.wire)
  {
    hide Dispatch, Read, Brings, AckBody, Registration.Decode, Written;
    AckIs(f, OK);
    var sh', seqNum := Dispatch(sh, sid, f, env), (sh.sess[sid].outSeq + 1) % 4294967296 % 65536;
    var body := AckBody(f.seqNum, f.msgId, OK);
    AnswerBrings(sh, sid, f, env, PLATFORM_RESP, body);
    DispatchDeserves(sh, sid, f, env);
    g := Message(PLATFORM_RESP, sh'.sess[sid].phone, seqNum, body).Received();
    LowHalf(sh.sess[sid].outSeq);
    Exchange.AckFields(f.seqNum, f.msgId, OK);
  }

  /** A message 0001 is not answered and leaves the session as it is; without a connection, nothing is written at all. */
  lemma NoAnswer(sh: Shared, sid: Sid, f: Frame, env: Env)
    requires sid in sh.sess
    ensures var s, s' := sh.sess[sid], Dispatch(sh, sid, f, env).sess[sid];
            && (f.msgId == 0x0001 ==> s' == s)
            && (!s.open || !env.writeOk ==> s'.wire == s.wire)
  {
    hide Dispatch, AckBody, Registration.Decode, Token, Written;
    DispatchDeserves(sh, sid, f, env);
  }

  // ---- the gate and the counters ----

  /** States in which a session is let through: an authenticated one, and one that is closing. */
  predicate Awake(state: State) {
    state == Authenticated || state == Closing
  }

  predicate Listed(msgId: U16) {
    msgId in {0x0001, 0x0002, 0x0100, 0x0102, 0x0120, 0x0121, 0x0200, 0x0304, 0x0704}
  }

  /** Before that, five types of messages pass. */
  lemma GateInNumbers(state: State, msgId: U16)
    ensures Passes(state, msgId) <==> Awake(state) || msgId in {0x0001, 0x0100, 0x0102, 0x0200, 0x0704}
  {
  }

  /** What every dispatch counts and queues, but for locations. */
  lemma DispatchInNumbers(sh: Shared, sid: Sid, f: Frame, env: Env)
    requires sid in sh.sess
    ensures var sh', awake := Dispatch(sh, sid, f, env), Awake(sh.sess[sid].state);
            var right := RightToken(sh.tokens, f, env);
            && sh'.jobs == sh.jobs + (if (f.msgId == 0x0102 && right) || (f.msgId == 0x0002 && awake) then [GoOnline(sid)] else [])
            && Counted(sh', Frames) == Counted(sh, Frames) + 1
            && Counted(sh', Heartbeats) == Counted(sh, Heartbeats) + (if f.msgId == 0x0002 && awake then 1 else 0)
            && Counted(sh', AuthSuccesses) == Counted(sh, AuthSuccesses) + (if f.msgId == 0x0102 && right then 1 else 0)
            && Counted(sh', AuthViolations) == Counted(sh, AuthViolations) + (if f.msgId == 0x0102 && !right then 1 else 0)
            && Counted(sh', UnknownMessages) == Counted(sh, UnknownMessages) + if awake && !Listed(f.msgId) then 1 else 0
  {
    hide Dispatch, Counted, Good, Bad, Fixes, BodiesOut, AlarmsOut, Displaced;
    DispatchIsBooked(sh, sid, f, env);
    GateInNumbers(sh.sess[sid].state, f.msgId);
    var books := BooksFor(sh, sid, f, env);
    assert [] + books.jobs == books.jobs;
  }

  /** What a single report 0200 counts and publishes once its acknowledgement is written. */
  lemma ReportInNumbers(sh: Shared, sid: Sid, f: Frame, env: Env)
    requires sid in sh.sess && f.msgId == 0x0200
    ensures var s, sh' := sh.sess[sid], Dispatch(sh, sid, f, env);
            var phone := if s.phone == [] then f.phone else s.phone;
            var out := s.open && env.writeOk && phone != [];
            && Counted(sh', LocationReports) == Counted(sh, LocationReports) + (if out && |f.body| >= 28 then 1 else 0)
            && Counted(sh', DecodeErrors) == Counted(sh, DecodeErrors) + (if out && |f.body| < 28 then 1 else 0)
            && Counted(sh', SosAlarms) == Counted(sh, SosAlarms) + (if out && |f.body| >= 28 && f.body[3] % 2 == 1 then 1 else 0)
            && sh'.published == sh.published + if out && |f.body| >= 28 then multiset{(phone, Location.Decode(f.body).value)} else multiset{}
  {
    hide Dispatch, Counted;
    DispatchIsBooked(sh, sid, f, env);
    LocationTheorems.ShortReport(f.body);
    if |f.body| >= 28 {
      LocationTheorems.ReportFromBytes(f.body);
    }
    OneItem(PhoneOut(sh.sess[sid], f), f.body);
    hide Location.Decode, Good, Bad, Fixes;
  }

  // ---- tokens that expire ----

  /** Once the token of a phone has expired, no authentication of that phone is admitted as long as the store answers. */
  lemma ExpiredIsRefused(run: seq<Action>, phone: Text, sid: Sid, f: Frame, env: Env)
    requires phone in Execute(run).shared.tokens && sid in Execute(run).shared.sess
    requires f.msgId == 0x0102 && f.phone == phone && env.redisOk
    ensures var sh := Execute(run + [Expire(phone)]).shared;
            && sh == Execute(run).shared.(tokens := Execute(run).shared.tokens - {phone})
            && Dispatch(sh, sid, f, env).sess[sid].state == sh.sess[sid].state
            && Dispatch(sh, sid, f, env).closers == sh.closers + multiset{sid}
  {
    hide Execute, Dispatch, AckBody, Registration.Decode, Spoken;
    OneMore(run, Expire(phone));
    var sh := Execute(run + [Expire(phone)]).shared;
    DispatchDeserves(sh, sid, f, env);
    JudgedState(sh, Dispatch(sh, sid, f, env), sid, f, env);
  }
}
