/** What one dispatch amounts to for the session, the token store and the peer, whatever the frame. */
module Verdicts {
  import opened Bytes
  import opened Wire
  import opened World
  import opened Sequential
  import Closing
  import Registration
  import Runs
  import Tokens

  // ---- what a frame deserves ----

  /** A registration that decodes, of a device that may connect; a pending one may. */
  predicate Enrols(f: Frame, env: Env) {
    f.msgId == REGISTRATION && Registration.Decode(f.body).Ok? && (env.check == Approved || env.check == AutoCreated)
  }

  /** An authentication with the token stored for its phone, or one whose token cannot be looked up. */
  predicate Admits(tokens: map<Text, Text>, f: Frame, env: Env) {
    f.msgId == AUTHENTICATION && (!env.redisOk || Stores(tokens, f))
  }

  /** Messages after which the connection is closed within half a second. */
  predicate Refuses(tokens: map<Text, Text>, f: Frame, env: Env) {
    || (f.msgId == REGISTRATION && Registration.Decode(f.body).Ok? && !Enrols(f, env))
    || (f.msgId == AUTHENTICATION && !Admits(tokens, f, env))
  }

  datatype Answer = Silence | Say(msgId: U16, body: Text)

  /** The answer; for all but registrations and authentications it is OK, whether the frame was let through or not. */
  function AnswerTo(tokens: map<Text, Text>, f: Frame, env: Env): Answer {
    if f.msgId == TERMINAL_RESP then Silence
    else if Enrols(f, env) then Say(REGISTRATION_RESP, RegistrationAckBody(f.seqNum, REG_SUCCESS, Token(f.phone, env.now)))
    else if f.msgId == REGISTRATION && Refuses(tokens, f, env) then
      Say(REGISTRATION_RESP, RegistrationAckBody(f.seqNum, NOT_IN_DB, []))
    else
      Say(PLATFORM_RESP, AckBody(f.seqNum, f.msgId,
        if f.msgId == REGISTRATION then MESSAGE_ERROR else if Refuses(tokens, f, env) then FAIL else OK))
  }

  /** The session as the answer finds it. */
  function Judged(s: Sess, tokens: map<Text, Text>, f: Frame, env: Env): Sess {
    if Enrols(f, env) then
      s.(phone := f.phone, imei := Registration.Decode(f.body).value.deviceId, authToken := Token(f.phone, env.now),
         state := Registered)
    else if f.msgId == AUTHENTICATION then
      s.(phone := PhoneFor(s, f.phone),
         state := if Admits(tokens, f, env) then Authenticated else s.state)
    else s
  }

  /** The session as the answer leaves it. */
  function Spoken(s: Sess, a: Answer, env: Env): Sess {
    match a
    case Silence => s
    case Say(msgId, body) => Own(s, Reply(msgId, body, []), env)
  }

  /** From before to after the frame got what it deserves. */
  ghost predicate Deserved(before: Shared, after: Shared, sid: Sid, f: Frame, env: Env)
    requires sid in before.sess
  {
    && sid in after.sess
    && after.sess[sid] == Spoken(Judged(before.sess[sid], before.tokens, f, env), AnswerTo(before.tokens, f, env), env)
    && after.tokens == (if Enrols(f, env) && env.redisOk then before.tokens[f.phone := Token(f.phone, env.now)] else before.tokens)
    && after.closers == before.closers + (if Refuses(before.tokens, f, env) then multiset{sid} else multiset{})
    && after.local == (if Admits(before.tokens, f, env) then before.local[after.sess[sid].phone := sid] else before.local)
  }

  // ---- operations as seen from the session ----

  lemma OneSimple(sh: Shared, sid: Sid, op: Op, env: Env)
    requires sid in sh.sess && !op.Register? && !op.Unregister?
    ensures var sh' := After(sh, sid, op, env);
            && sid in sh'.sess && sh'.sess[sid] == Own(sh.sess[sid], op, env) && sh'.local == sh.local
            && sh'.tokens == (if op.StoreToken? && env.redisOk then sh.tokens[op.phone := op.token] else sh.tokens)
            && sh'.closers == if op.ScheduleClose? then sh.closers + multiset{sid} else sh.closers
  {
    hide After, Own;
    SessionAfter(sh, sid, op, env, sid);
    Tokens.TokensAfter(sh, sid, op, env);
    Runs.RegistryAfter(sh, sid, op, env);
    Runs.ClosersAfter(sh, sid, op, env);
  }

  // ---- one dispatch ----

  /**
    Every dispatch, of any frame on any session and with anything the outside may answer, does
    to the session, the tokens, the registry and the peer just what the frame deserves.
  */
  lemma DispatchDeserves(sh: Shared, sid: Sid, f: Frame, env: Env)
    requires sid in sh.sess
    ensures Deserved(sh, Dispatch(sh, sid, f, env), sid, f, env)
  {
    hide Dispatch, RunOps, After, Own, Deserved, Handle, AckBody, RegistrationAckBody, Token;
    var sh1 := After(sh, sid, Count(Frames), env);
    DispatchIs(sh, sid, f, env);
    CountingIsAside(sh, sid, f, env, Dispatch(sh, sid, f, env));
    if !Passes(sh.sess[sid].state, f.msgId) {
      JustAcknowledged(sh1, sid, f, env);
    } else if f.msgId == REGISTRATION {
      RegistrationDeserves(sh1, sid, f, env);
    } else if f.msgId == AUTHENTICATION {
      AuthenticationDeserves(sh1, sid, f, env);
    } else {
      ServiceDeserves(sh1, sid, f, env);
    }
  }

  lemma CountingIsAside(sh: Shared, sid: Sid, f: Frame, env: Env, after: Shared)
    requires sid in sh.sess
    ensures Deserved(After(sh, sid, Count(Frames), env), after, sid, f, env) ==> Deserved(sh, after, sid, f, env)
    ensures After(sh, sid, Count(Frames), env).sess == sh.sess
  {
  }

  lemma JustAcknowledged(sh: Shared, sid: Sid, f: Frame, env: Env)
    requires sid in sh.sess && f.msgId != REGISTRATION && f.msgId != AUTHENTICATION && f.msgId != TERMINAL_RESP
    ensures Deserved(sh, RunOps(sh, sid, [Ack(f, OK)], env), sid, f, env)
    ensures Deserved(sh, RunOps(sh, sid, [Count(UnknownMessages), Ack(f, OK)], env), sid, f, env)
    ensures Deserved(sh, RunOps(sh, sid, [Beat, Ack(f, OK), Count(Heartbeats)], env), sid, f, env)
  {
    hide RunOps, After, Own, AckBody;
    var ack := Ack(f, OK);
    RunOne(sh, sid, ack, env);
    OneSimple(sh, sid, ack, env);
    RunTwo(sh, sid, Count(UnknownMessages), ack, env);
    var sh1 := After(sh, sid, Count(UnknownMessages), env);
    OneSimple(sh, sid, Count(UnknownMessages), env);
    OneSimple(sh1, sid, ack, env);
    RunThree(sh, sid, Beat, ack, Count(Heartbeats), env);
    var sh2 := After(sh, sid, Beat, env);
    var sh3 := After(sh2, sid, ack, env);
    OneSimple(sh, sid, Beat, env);
    OneSimple(sh2, sid, ack, env);
    OneSimple(sh3, sid, Count(Heartbeats), env);
    OwnOf(sh.sess[sid], f, env);
  }

  lemma RegistrationDeserves(sh: Shared, sid: Sid, f: Frame, env: Env)
    requires sid in sh.sess && f.msgId == REGISTRATION
    ensures Deserved(sh, RunOps(sh, sid, Handle(f, env), env), sid, f, env)
  {
    hide RunOps, After, Deserved, AckBody, RegistrationAckBody, Token, Registration.Decode;
    if Registration.Decode(f.body).Err? {
      MalformedDeserves(sh, sid, f, env);
    } else if !Enrols(f, env) {
      RejectedDeserves(sh, sid, f, env);
    } else {
      EnrolledDeserves(sh, sid, f, env);
    }
  }

  lemma MalformedDeserves(sh: Shared, sid: Sid, f: Frame, env: Env)
    requires sid in sh.sess && f.msgId == REGISTRATION && Registration.Decode(f.body).Err?
    ensures Deserved(sh, RunOps(sh, sid, [Ack(f, MESSAGE_ERROR)], env), sid, f, env)
  {
    hide RunOps, After, Own, AckBody, Registration.Decode;
    RunOne(sh, sid, Ack(f, MESSAGE_ERROR), env);
    OneSimple(sh, sid, Ack(f, MESSAGE_ERROR), env);
  }

  lemma RejectedDeserves(sh: Shared, sid: Sid, f: Frame, env: Env)
    requires sid in sh.sess && f.msgId == REGISTRATION && Registration.Decode(f.body).Ok? && !Enrols(f, env)
    ensures Deserved(sh, RunOps(sh, sid, HandleRegistration(f, env), env), sid, f, env)
  {
    hide RunOps, After, Own, AckBody, RegistrationAckBody, Registration.Decode;
    var reply := Reply(REGISTRATION_RESP, RegistrationAckBody(f.seqNum, NOT_IN_DB, []), []);
    RunTwo(sh, sid, reply, ScheduleClose, env);
    OneSimple(sh, sid, reply, env);
    OneSimple(After(sh, sid, reply, env), sid, ScheduleClose, env);
    OwnOf(sh.sess[sid], f, env);
  }

  lemma EnrolledDeserves(sh: Shared, sid: Sid, f: Frame, env: Env)
    requires sid in sh.sess && Enrols(f, env)
    ensures Deserved(sh, RunOps(sh, sid, HandleRegistration(f, env), env), sid, f, env)
  {
    hide RunOps, After, Own, Deserved, RegistrationAckBody, Token, Registration.Decode, HandleRegistration;
    var token, imei := Token(f.phone, env.now), Registration.Decode(f.body).value.deviceId;
    var a, b, c := Identify(f.phone, imei), StoreToken(f.phone, token), MarkRegistered(token);
    var d := Reply(REGISTRATION_RESP, RegistrationAckBody(f.seqNum, REG_SUCCESS, token), []);
    EnrolmentOps(f, env);
    RunFour(sh, sid, a, b, c, d, env);
    var sh1 := After(sh, sid, a, env);
    var sh2 := After(sh1, sid, b, env);
    var sh3 := After(sh2, sid, c, env);
    OneSimple(sh, sid, a, env);
    OneSimple(sh1, sid, b, env);
    OneSimple(sh2, sid, c, env);
    OneSimple(sh3, sid, d, env);
    EnrolmentOf(sh.sess[sid], f.phone, imei, token, env);
    EnrolmentSums(sh, After(sh3, sid, d, env), sid, f, env);
  }

  lemma EnrolmentOps(f: Frame, env: Env)
    requires Enrols(f, env)
    ensures var token := Token(f.phone, env.now);
            HandleRegistration(f, env) ==
            [Identify(f.phone, Registration.Decode(f.body).value.deviceId), StoreToken(f.phone, token), MarkRegistered(token),
             Reply(REGISTRATION_RESP, RegistrationAckBody(f.seqNum, REG_SUCCESS, token), [])]
  {
    hide Token, RegistrationAckBody, Registration.Decode;
  }

  lemma EnrolmentSums(sh: Shared, after: Shared, sid: Sid, f: Frame, env: Env)
    requires sid in sh.sess && Enrols(f, env) && sid in after.sess
    requires var token := Token(f.phone, env.now);
             && after.sess[sid] ==
                Own(sh.sess[sid].(phone := f.phone, imei := Registration.Decode(f.body).value.deviceId, authToken := token,
                                  state := Registered),
                    Reply(REGISTRATION_RESP, RegistrationAckBody(f.seqNum, REG_SUCCESS, token), []), env)
             && after.tokens == (if env.redisOk then sh.tokens[f.phone := token] else sh.tokens)
             && after.closers == sh.closers && after.local == sh.local
    ensures Deserved(sh, after, sid, f, env)
  {
    hide Token, RegistrationAckBody, Registration.Decode, Own;
  }

  lemma EnrolmentOf(s: Sess, phone: Text, imei: Text, token: Text, env: Env)
    ensures Own(Own(Own(s, Identify(phone, imei), env), StoreToken(phone, token), env), MarkRegistered(token), env)
         == s.(phone := phone, imei := imei, authToken := token, state := Registered)
  {
  }

  lemma AuthenticationDeserves(sh: Shared, sid: Sid, f: Frame, env: Env)
    requires sid in sh.sess && f.msgId == AUTHENTICATION
    ensures Deserved(sh, RunOps(sh, sid, Handle(f, env), env), sid, f, env)
  {
    hide RunOps, After, Own, AckBody, Deserved;
    var sh1 := After(sh, sid, AdoptPhone(f.phone), env);
    RunAuthentication(sh, sid, f, env);
    OneSimple(sh, sid, AdoptPhone(f.phone), env);
    if Admits(sh.tokens, f, env) {
      AdmissionRuns(sh1, sid, f, env);
    } else {
      RefusalRuns(sh1, sid, f, env);
    }
    AuthenticationSums(sh, sh1, RunOps(sh1, sid, Then(sh1, sid, Validate(f), env), env), sid, f, env);
  }

  /** The state after either branch, given the one before it. */
  ghost predicate Judges(before: Shared, after: Shared, sid: Sid, f: Frame, env: Env)
    requires sid in before.sess
  {
    var ok, s := Admits(before.tokens, f, env), before.sess[sid];
    && sid in after.sess
    && after.sess[sid] == Own(if ok then s.(state := Authenticated) else s, Ack(f, if ok then OK else FAIL), env)
    && after.tokens == before.tokens
    && after.closers == before.closers + (if ok then multiset{} else multiset{sid})
    && after.local == (if ok then before.local[s.phone := sid] else before.local)
  }

  lemma AuthenticationSums(sh: Shared, sh1: Shared, after: Shared, sid: Sid, f: Frame, env: Env)
    requires sid in sh.sess && f.msgId == AUTHENTICATION && sid in sh1.sess
    requires sh1.sess[sid] == Own(sh.sess[sid], AdoptPhone(f.phone), env)
    requires sh1.local == sh.local && sh1.tokens == sh.tokens && sh1.closers == sh.closers
    requires Judges(sh1, after, sid, f, env)
    ensures Deserved(sh, after, sid, f, env)
  {
    hide Written, AckBody;
  }

  lemma AdmissionRuns(sh: Shared, sid: Sid, f: Frame, env: Env)
    requires sid in sh.sess && Admits(sh.tokens, f, env)
    ensures Judges(sh, RunOps(sh, sid, Then(sh, sid, Validate(f), env), env), sid, f, env)
  {
    hide RunOps, After, Own, AckBody;
    var a, b, c, d := MarkAuthenticated, Register, Ack(f, OK), Count(AuthSuccesses);
    RunFour(sh, sid, a, b, c, d, env);
    var sh1 := After(sh, sid, a, env);
    var sh2 := After(sh1, sid, b, env);
    var sh3 := After(sh2, sid, c, env);
    OneSimple(sh, sid, a, env);
    SessionAfter(sh1, sid, b, env, sid);
    Tokens.TokensAfter(sh1, sid, b, env);
    Runs.RegistryAfter(sh1, sid, b, env);
    Runs.ClosersAfter(sh1, sid, b, env);
    OneSimple(sh2, sid, c, env);
    OneSimple(sh3, sid, d, env);
    OwnOf(sh.sess[sid], f, env);
  }

  lemma OwnOf(s: Sess, f: Frame, env: Env)
    ensures Own(s, MarkAuthenticated, env) == s.(state := Authenticated)
    ensures Own(s.(state := Authenticated), Register, env) == s.(state := Authenticated)
    ensures forall t: Sess, c: Counter :: Own(t, Count(c), env) == t
    ensures forall t: Sess :: Own(t, ScheduleClose, env) == t && Own(t, Beat, env) == t
  {
  }

  lemma RefusalRuns(sh: Shared, sid: Sid, f: Frame, env: Env)
    requires sid in sh.sess && f.msgId == AUTHENTICATION && !Admits(sh.tokens, f, env)
    ensures Judges(sh, RunOps(sh, sid, Then(sh, sid, Validate(f), env), env), sid, f, env)
  {
    hide RunOps, After, Own, AckBody;
    var a, b, c := Ack(f, FAIL), Count(AuthViolations), ScheduleClose;
    RunThree(sh, sid, a, b, c, env);
    var sh1 := After(sh, sid, a, env);
    var sh2 := After(sh1, sid, b, env);
    OneSimple(sh, sid, a, env);
    OneSimple(sh1, sid, b, env);
    OneSimple(sh2, sid, c, env);
    OwnOf(sh.sess[sid], f, env);
  }

  /** All other messages: acknowledged with OK at most, and nothing else happens to the session. */
  lemma ServiceDeserves(sh: Shared, sid: Sid, f: Frame, env: Env)
    requires sid in sh.sess && f.msgId != REGISTRATION && f.msgId != AUTHENTICATION
    ensures Deserved(sh, RunOps(sh, sid, Handle(f, env), env), sid, f, env)
  {
    hide RunOps, After, Own, AckBody, Deserved;
    if f.msgId == LOCATION_REPORT {
      ReportDeserves(sh, sid, f, Publish(f), env);
    } else if f.msgId == BATCH_LOCATION {
      ReportDeserves(sh, sid, f, PublishBatch(f), env);
    } else if f.msgId == TERMINAL_RESP {
      RunNone(sh, sid, env);
      NothingDeserved(sh, sid, f, env);
    } else {
      JustAcknowledged(sh, sid, f, env);
    }
  }

  lemma NothingDeserved(sh: Shared, sid: Sid, f: Frame, env: Env)
    requires sid in sh.sess && f.msgId == TERMINAL_RESP
    ensures Deserved(sh, sh, sid, f, env)
  {
  }

  lemma ReportDeserves(sh: Shared, sid: Sid, f: Frame, op: Op, env: Env)
    requires sid in sh.sess && (f.msgId == LOCATION_REPORT || f.msgId == BATCH_LOCATION)
    requires op == Publish(f) || op == PublishBatch(f)
    ensures Deserved(sh, RunOps(sh, sid, [Reply(PLATFORM_RESP, AckBody(f.seqNum, f.msgId, OK), [op])], env), sid, f, env)
  {
    hide RunOps, After, Written, AckBody;
    var body := AckBody(f.seqNum, f.msgId, OK);
    var reply := Reply(PLATFORM_RESP, body, [op]);
    RunReply(sh, sid, PLATFORM_RESP, body, op, env);
    OneSimple(sh, sid, reply, env);
    OneSimple(After(sh, sid, reply, env), sid, op, env);
  }

  // ---- a consequence ----

  /**
    Registering again under another phone leaves the old entry behind: when the connection then
    ends, the registry goes on naming its session exactly if the phones differ.
  */
  lemma RenamingLeavesEntry(sh: Shared, sid: Sid, f: Frame, env: Env, first: Text)
    requires sid in sh.sess && first in sh.local && sh.local[first] == sid && first != [] && Enrols(f, env)
    ensures var l := Leave(Dispatch(sh, sid, f, env), sid, env).local;
            (first in l && l[first] == sid) <==> f.phone != first
  {
    hide Dispatch, Leave, RegistrationAckBody, Token, Registration.Decode, Written;
    DispatchDeserves(sh, sid, f, env);
    Closing.LeavingCloses(Dispatch(sh, sid, f, env), sid, env);
  }
}
