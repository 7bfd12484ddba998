/** The handlers and the connection loop, run by one goroutine on the shared objects. */
module Server {
  import opened Bytes
  import opened Wire
  import opened World
  import opened Sessions
  import opened Sequential
  import Closing
  import Codec
  import Location
  import Registration

  class Server {
    const reg: Registry
    var metrics: map<Counter, nat>
    var published: multiset<(Text, Location.Fix)>
    /** Connections whose authentication timer is armed. */
    var authTimers: set<Sid>
    /** Delayed calls of Session.Close that are pending. */
    var closers: multiset<Sid>

    ghost predicate Valid()
      reads reg
    {
      reg.Valid()
    }

    /** s is a session of this server. */
    ghost predicate Serves(s: Session)
      reads reg
    {
      reg.Valid() && reg.Has(s)
    }

    /** Everything the goroutines share, as a value. */
    ghost function Now(): Shared
      reads this, reg, reg.all.Values, ConnsOf(reg.all)
    {
      Shared(reg.Views(), NamesOf(reg.local), reg.tokens, reg.jobs, authTimers, closers, metrics, published)
    }

    constructor ()
      ensures Valid() && fresh(reg)
      ensures Now() == Shared(map[], map[], map[], [], {}, multiset{}, map[], multiset{})
    {
      reg := new Registry();
      metrics, published, authTimers, closers := map[], multiset{}, {}, multiset{};
    }

    lemma ViewOf(s: Session)
      requires Serves(s)
      ensures Now().tokens == reg.tokens
      ensures s.id in Now().sess && Now().sess[s.id] == s.View()
    {
    }

    /** When only the session s changed, only its entry of the state did. */
    twostate lemma OnlySession(s: Session)
      requires old(Serves(s)) && reg.all == old(reg.all)
      requires forall i :: i in reg.all && i != s.id ==> unchanged(reg.all[i]) && unchanged(reg.all[i].conn)
      ensures old(s.id in Now().sess) && old(Now().sess[s.id] == s.View())
      ensures Now().sess == old(Now().sess)[s.id := s.View()]
      ensures reg.local == old(reg.local) ==> Now().local == old(Now().local)
    {
      forall i | i in reg.all ensures Now().sess[i] == old(Now().sess)[s.id := s.View()][i] {
      }
    }

    twostate lemma NoSession()
      requires old(Valid()) && reg.all == old(reg.all)
      requires forall i :: i in reg.all ==> unchanged(reg.all[i]) && unchanged(reg.all[i].conn)
      ensures Now().sess == old(Now().sess)
      ensures reg.local == old(reg.local) ==> Now().local == old(Now().local)
    {
      forall i | i in reg.all ensures Now().sess[i] == old(Now().sess)[i] {
      }
    }

    /** Allocating and changing other objects leaves the state alone. */
    twostate lemma Untouched()
      requires old(Valid()) && unchanged(this) && unchanged(reg)
      requires forall i :: i in reg.all ==> unchanged(reg.all[i]) && unchanged(reg.all[i].conn)
      ensures Now() == old(Now()) && Valid()
    {
      NoSession();
    }

    // ---- the operations, on the objects ----

    method Inc(s: Session, c: Counter, env: Env)
      requires Serves(s)
      modifies this, reg, reg.all.Values, ConnsOf(reg.all)
      ensures Serves(s) && reg.all == old(reg.all)
      ensures s.id in old(Now()).sess && Now() == After(old(Now()), s.id, Count(c), env)
      ensures Now().sess == old(Now()).sess
    {
      metrics := Bump(metrics, c, 1);
    }

    method Beat(s: Session, env: Env)
      requires Serves(s)
      modifies this, reg, reg.all.Values, ConnsOf(reg.all)
      ensures Serves(s) && reg.all == old(reg.all)
      ensures s.id in old(Now()).sess && Now() == After(old(Now()), s.id, Op.Beat, env)
    {
      reg.Heartbeat(s);
    }

    method Identify(s: Session, phone: Text, imei: Text, env: Env)
      requires Serves(s)
      modifies this, reg, reg.all.Values, ConnsOf(reg.all)
      ensures Serves(s) && reg.all == old(reg.all)
      ensures s.id in old(Now()).sess && Now() == After(old(Now()), s.id, Op.Identify(phone, imei), env)
    {
      s.phone := phone;
      s.imei := imei;
      OnlySession(s);
    }

    method AdoptPhone(s: Session, phone: Text, env: Env)
      requires Serves(s)
      modifies this, reg, reg.all.Values, ConnsOf(reg.all)
      ensures Serves(s) && reg.all == old(reg.all)
      ensures s.id in old(Now()).sess && Now() == After(old(Now()), s.id, Op.AdoptPhone(phone), env)
    {
      if s.phone == [] {
        s.phone := phone;
      }
      OnlySession(s);
    }

    method StoreToken(s: Session, phone: Text, token: Text, env: Env)
      requires Serves(s)
      modifies this, reg, reg.all.Values, ConnsOf(reg.all)
      ensures Serves(s) && reg.all == old(reg.all)
      ensures s.id in old(Now()).sess && Now() == After(old(Now()), s.id, Op.StoreToken(phone, token), env)
    {
      var _ := reg.StoreAuthToken(phone, token, env);
    }

    method MarkRegistered(s: Session, token: Text, env: Env)
      requires Serves(s)
      modifies this, reg, reg.all.Values, ConnsOf(reg.all)
      ensures Serves(s) && reg.all == old(reg.all)
      ensures s.id in old(Now()).sess && Now() == After(old(Now()), s.id, Op.MarkRegistered(token), env)
    {
      s.authToken := token;
      s.SetState(Registered);
      OnlySession(s);
    }

    method MarkAuthenticated(s: Session, env: Env)
      requires Serves(s)
      modifies this, reg, reg.all.Values, ConnsOf(reg.all)
      ensures Serves(s) && reg.all == old(reg.all)
      ensures s.id in old(Now()).sess && Now() == After(old(Now()), s.id, Op.MarkAuthenticated, env)
    {
      s.SetState(Authenticated);
      OnlySession(s);
    }

    method CloseLater(s: Session, env: Env)
      requires Serves(s)
      modifies this, reg, reg.all.Values, ConnsOf(reg.all)
      ensures Serves(s) && reg.all == old(reg.all)
      ensures s.id in old(Now()).sess && Now() == After(old(Now()), s.id, ScheduleClose, env)
    {
      closers := closers + multiset{s.id};
    }

    method StopTimer(s: Session, env: Env)
      requires Serves(s)
      modifies this, reg, reg.all.Values, ConnsOf(reg.all)
      ensures Serves(s) && reg.all == old(reg.all)
      ensures s.id in old(Now()).sess && Now() == After(old(Now()), s.id, Op.StopTimer, env)
    {
      authTimers := authTimers - {s.id};
    }

    method Shut(s: Session, env: Env)
      requires Serves(s)
      modifies this, reg, reg.all.Values, ConnsOf(reg.all)
      ensures Serves(s) && reg.all == old(reg.all)
      ensures s.id in old(Now()).sess && Now() == After(old(Now()), s.id, Op.Shut, env)
    {
      s.conn.open := false;
      OnlySession(s);
    }

    /** Session.Send as a step of the whole; what follows a written reply is up to the caller. */
    method Send(s: Session, msgId: U16, body: Text, ghost next: seq<Op>, env: Env) returns (ok: bool)
      requires Serves(s)
      modifies this, reg, reg.all.Values, ConnsOf(reg.all)
      ensures Serves(s) && reg.all == old(reg.all)
      ensures s.id in old(Now()).sess && Now() == After(old(Now()), s.id, Op.Reply(msgId, body, next), env)
      ensures ok == (old(Now()).sess[s.id].open && env.writeOk)
    {
      hide Written;
      ok := s.Send(msgId, body, env);
      OnlySession(s);
    }

    method Acknowledge(s: Session, f: Frame, result: Byte, ghost next: seq<Op>, env: Env) returns (ok: bool)
      requires Serves(s)
      modifies this, reg, reg.all.Values, ConnsOf(reg.all)
      ensures Serves(s) && reg.all == old(reg.all)
      ensures s.id in old(Now()).sess
      ensures Now() == After(old(Now()), s.id, Op.Reply(PLATFORM_RESP, AckBody(f.seqNum, f.msgId, result), next), env)
      ensures ok == (old(Now()).sess[s.id].open && env.writeOk)
    {
      hide Written;
      ok := s.ACK(f, result, env);
      OnlySession(s);
    }

    method Register(s: Session, env: Env)
      requires Serves(s)
      modifies this, reg, reg.all.Values, ConnsOf(reg.all)
      ensures Serves(s) && reg.all == old(reg.all)
      ensures s.id in old(Now()).sess && Now() == After(old(Now()), s.id, Op.Register, env)
    {
      hide After, CloseSess;
      ViewOf(s);
      AfterRegister(Now(), s.id, env);
      NameOf(s.phone);
      NamesUpdate(reg.local, s.phone, s);
      reg.Register(s);
    }

    method Unregister(s: Session, env: Env)
      requires Serves(s)
      modifies this, reg, reg.all.Values, ConnsOf(reg.all)
      ensures Serves(s) && reg.all == old(reg.all)
      ensures s.id in old(Now()).sess && Now() == After(old(Now()), s.id, Op.Unregister, env)
    {
      hide After, Own;
      ViewOf(s);
      AfterUnregister(Now(), s.id, env);
      NameOf(s.phone);
      NamesUpdate(reg.local, s.phone, s);
      reg.Unregister(s);
      NoSession();
    }

    lemma NameOf(phone: Text)
      requires Valid()
      ensures phone in Now().local <==> phone in reg.local
      ensures phone in reg.local ==> Now().local[phone] == reg.local[phone].id && reg.Has(reg.local[phone])
    {
    }

    // ---- handlers ----

    method HandleHeartbeat(s: Session, f: Frame, env: Env)
      requires Serves(s)
      modifies this, reg, reg.all.Values, ConnsOf(reg.all)
      ensures Serves(s) && reg.all == old(reg.all)
      ensures s.id in old(Now()).sess && Now() == RunOps(old(Now()), s.id, [Op.Beat, Ack(f, OK), Count(Heartbeats)], env)
    {
      hide RunOps, After, Server.Now, ConnsOf, Registry.Valid, Registry.Has;
      ViewOf(s);
      RunThree(Now(), s.id, Op.Beat, Ack(f, OK), Count(Heartbeats), env);
      Beat(s, env);
      var _ := Acknowledge(s, f, OK, [], env);
      Inc(s, Heartbeats, env);
    }

    method HandleRegistration(s: Session, f: Frame, env: Env)
      requires Serves(s)
      modifies this, reg, reg.all.Values, ConnsOf(reg.all)
      ensures Serves(s) && reg.all == old(reg.all)
      ensures s.id in old(Now()).sess && Now() == RunOps(old(Now()), s.id, World.HandleRegistration(f, env), env)
    {
      hide RunOps, After, Server.Now, ConnsOf, Registry.Valid, Registry.Has, Registration.Decode;
      ghost var sh := Now();
      ViewOf(s);
      var decoded := Registration.DecodeRegistration(f.body);
      Untouched();
      if decoded.Err? {
        RunOne(sh, s.id, Ack(f, MESSAGE_ERROR), env);
        var _ := Acknowledge(s, f, MESSAGE_ERROR, [], env);
        return;
      }
      if env.check == CheckFailed || env.check == Blocked {
        Reject(s, f, env);
      } else {
        Enroll(s, f, decoded.value.deviceId, env);
      }
    }

    method Reject(s: Session, f: Frame, env: Env)
      requires Serves(s)
      modifies this, reg, reg.all.Values, ConnsOf(reg.all)
      ensures Serves(s) && reg.all == old(reg.all)
      ensures s.id in old(Now()).sess
      ensures Now() == RunOps(old(Now()), s.id,
                [Op.Reply(REGISTRATION_RESP, RegistrationAckBody(f.seqNum, NOT_IN_DB, []), []), ScheduleClose], env)
    {
      hide RunOps, After, Server.Now, ConnsOf, Registry.Valid, Registry.Has;
      ViewOf(s);
      var body := BuildRegistrationACK(f.seqNum, NOT_IN_DB, []);
      Untouched();
      RunTwo(Now(), s.id, Op.Reply(REGISTRATION_RESP, body, []), ScheduleClose, env);
      var _ := Send(s, REGISTRATION_RESP, body, [], env);
      CloseLater(s, env);
    }

    method Enroll(s: Session, f: Frame, deviceId: Text, env: Env)
      requires Serves(s)
      modifies this, reg, reg.all.Values, ConnsOf(reg.all)
      ensures Serves(s) && reg.all == old(reg.all)
      ensures s.id in old(Now()).sess
      ensures var token := Token(f.phone, env.now);
              Now() == RunOps(old(Now()), s.id,
                [Op.Identify(f.phone, deviceId), Op.StoreToken(f.phone, token), Op.MarkRegistered(token),
                 Op.Reply(REGISTRATION_RESP, RegistrationAckBody(f.seqNum, REG_SUCCESS, token), [])], env)
    {
      hide RunOps, After, Server.Now, ConnsOf, Registry.Valid, Registry.Has;
      ViewOf(s);
      var token := Token(f.phone, env.now);
      var body := BuildRegistrationACK(f.seqNum, REG_SUCCESS, token);
      Untouched();
      RunFour(Now(), s.id, Op.Identify(f.phone, deviceId), Op.StoreToken(f.phone, token), Op.MarkRegistered(token),
              Op.Reply(REGISTRATION_RESP, body, []), env);
      Identify(s, f.phone, deviceId, env);
      StoreToken(s, f.phone, token, env);
      MarkRegistered(s, token, env);
      var _ := Send(s, REGISTRATION_RESP, body, [], env);
    }

    method HandleAuthentication(s: Session, f: Frame, env: Env)
      requires Serves(s)
      modifies this, reg, reg.all.Values, ConnsOf(reg.all)
      ensures Serves(s) && reg.all == old(reg.all)
      ensures s.id in old(Now()).sess && Now() == RunOps(old(Now()), s.id, [Op.AdoptPhone(f.phone), Validate(f)], env)
    {
      hide RunOps, After, Server.Now, ConnsOf, Registry.Valid, Registry.Has;
      ViewOf(s);
      RunAuthentication(Now(), s.id, f, env);
      AdoptPhone(s, f.phone, env);
      ghost var sh := Now();
      label asked:
      var valid, ok := reg.ValidateAuthToken(f.phone, f.body, env);
      Untouched@asked();
      if !ok {
        valid := true;
      }
      assert valid == (!env.redisOk || Stores(sh.tokens, f)) by {
        ViewOf(s);
      }
      if !valid {
        Refuse(s, f, env);
      } else {
        Admit(s, f, env);
      }
    }

    method Refuse(s: Session, f: Frame, env: Env)
      requires Serves(s)
      modifies this, reg, reg.all.Values, ConnsOf(reg.all)
      ensures Serves(s) && reg.all == old(reg.all)
      ensures s.id in old(Now()).sess
      ensures Now() == RunOps(old(Now()), s.id, [Ack(f, FAIL), Count(AuthViolations), ScheduleClose], env)
    {
      hide RunOps, After, Server.Now, ConnsOf, Registry.Valid, Registry.Has;
      ViewOf(s);
      RunThree(Now(), s.id, Ack(f, FAIL), Count(AuthViolations), ScheduleClose, env);
      var _ := Acknowledge(s, f, FAIL, [], env);
      Inc(s, AuthViolations, env);
      CloseLater(s, env);
    }

    method Admit(s: Session, f: Frame, env: Env)
      requires Serves(s)
      modifies this, reg, reg.all.Values, ConnsOf(reg.all)
      ensures Serves(s) && reg.all == old(reg.all)
      ensures s.id in old(Now()).sess
      ensures Now() == RunOps(old(Now()), s.id, [Op.MarkAuthenticated, Op.Register, Ack(f, OK), Count(AuthSuccesses)], env)
    {
      hide RunOps, After, Server.Now, ConnsOf, Registry.Valid, Registry.Has;
      ViewOf(s);
      RunFour(Now(), s.id, Op.MarkAuthenticated, Op.Register, Ack(f, OK), Count(AuthSuccesses), env);
      MarkAuthenticated(s, env);
      Register(s, env);
      var _ := Acknowledge(s, f, OK, [], env);
      Inc(s, AuthSuccesses, env);
    }

    method HandleLocation(s: Session, f: Frame, env: Env)
      requires Serves(s)
      modifies this, reg, reg.all.Values, ConnsOf(reg.all)
      ensures Serves(s) && reg.all == old(reg.all)
      ensures s.id in old(Now()).sess
      ensures Now() == RunOps(old(Now()), s.id, [Op.Reply(PLATFORM_RESP, AckBody(f.seqNum, f.msgId, OK), [Publish(f)])], env)
    {
      hide RunOps, After, Server.Now, ConnsOf, Registry.Valid, Registry.Has, Location.Decode;
      ViewOf(s);
      RunReply(Now(), s.id, PLATFORM_RESP, AckBody(f.seqNum, f.msgId, OK), Publish(f), env);
      var ok := Acknowledge(s, f, OK, [Publish(f)], env);
      if !ok {
        return;
      }
      PublishReported(s, f, env);
    }

    /** What handling a location comes to once it is acknowledged. */
    method PublishReported(s: Session, f: Frame, env: Env)
      requires Serves(s)
      modifies this
      ensures Serves(s) && reg.all == old(reg.all)
      ensures s.id in old(Now()).sess && Now() == After(old(Now()), s.id, Publish(f), env)
    {
      hide After, Server.Now, ConnsOf, Registry.Valid, Registry.Has, Location.Decode, Bump;
      ghost var sh := Now();
      ViewOf(s);
      PublishIs(sh, s.id, f, env);
      var phone := s.phone;
      if phone == [] {
        phone := f.phone;
      }
      if phone == [] {
        return;
      }
      label decoding:
      var loc := Location.DecodeLocation(f.body);
      Untouched@decoding();
      if loc.Err? {
        Tally(DecodeErrors);
        return;
      }
      Tally(LocationReports);
      if loc.value.Sos() {
        Tally(SosAlarms);
      }
      PublishLocation(phone, loc.value);
    }

    method Tally(c: Counter)
      requires Valid()
      modifies this`metrics
      ensures Now() == old(Now()).(metrics := Bump(old(Now()).metrics, c, 1))
    {
      metrics := Bump(metrics, c, 1);
      NoSession();
    }

    method PublishLocation(phone: Text, fix: Location.Fix)
      requires Valid()
      modifies this`published
      ensures Now() == old(Now()).(published := old(Now()).published + multiset{(phone, fix)})
    {
      published := published + multiset{(phone, fix)};
      NoSession();
    }

    method HandleBatchLocation(s: Session, f: Frame, env: Env)
      requires Serves(s)
      modifies this, reg, reg.all.Values, ConnsOf(reg.all)
      ensures Serves(s) && reg.all == old(reg.all)
      ensures s.id in old(Now()).sess
      ensures Now() == RunOps(old(Now()), s.id, [Op.Reply(PLATFORM_RESP, AckBody(f.seqNum, f.msgId, OK), [PublishBatch(f)])], env)
    {
      hide RunOps, After, Server.Now, ConnsOf, Registry.Valid, Registry.Has, Location.Decode, BatchItems, GetU16, PublishItems;
      ViewOf(s);
      RunReply(Now(), s.id, PLATFORM_RESP, AckBody(f.seqNum, f.msgId, OK), PublishBatch(f), env);
      var ok := Acknowledge(s, f, OK, [PublishBatch(f)], env);
      if !ok {
        return;
      }
      PublishBatched(s, f, env);
    }

    /** The batch loop: it stops at the declared count, at the end of the body, or at an item cut short. */
    method PublishBatched(s: Session, f: Frame, env: Env)
      requires Serves(s)
      modifies this
      ensures Serves(s) && reg.all == old(reg.all)
      ensures s.id in old(Now()).sess && Now() == After(old(Now()), s.id, PublishBatch(f), env)
    {
      hide After, Server.Now, ConnsOf, Registry.Valid, Registry.Has, BatchItems, GetU16, PublishItems, PublishItem;
      ghost var sh := Now();
      ViewOf(s);
      PublishBatchIs(sh, s.id, f, env);
      PublishNothing(sh, s.phone);
      if |f.body| < 3 {
        return;
      }
      var count := GetU16(f.body, 0);
      var offset, i := 3, 0;
      ghost var done: seq<Text> := [];
      assert done + BatchOf(f.body) == BatchOf(f.body);
      while i < count && offset + 2 <= |f.body|
        invariant 0 <= i <= count && 3 <= offset <= |f.body|
        invariant BatchOf(f.body) == done + BatchItems(f.body[offset..], count - i)
        invariant Valid() && Now() == PublishItems(sh, s.phone, done)
        modifies this`metrics, this`published
      {
        BatchNext(f.body, offset, count - i);
        var itemLen := GetU16(f.body, offset);
        if offset + 2 + itemLen > |f.body| {
          break;
        }
        offset := offset + 2;
        var body := f.body[offset..offset + itemLen];
        offset := offset + itemLen;
        i := i + 1;
        PublishOneMore(sh, s.phone, done, body);
        assert done + [body] + BatchItems(f.body[offset..], count - i)
            == done + ([body] + BatchItems(f.body[offset..], count - i));
        done := done + [body];
        PublishOne(s.phone, body);
      }
      BatchNext(f.body, offset, count - i);
      assert done + [] == done;
    }

    method PublishOne(phone: Text, body: Text)
      requires Valid()
      modifies this`metrics, this`published
      ensures Valid() && Now() == PublishItem(old(Now()), phone, body)
    {
      hide Server.Now, ConnsOf, Registry.Valid, Registry.Has, Location.Decode, Bump;
      var loc := Location.DecodeLocation(body);
      Untouched();
      if loc.Err? {
        Tally(DecodeErrors);
        return;
      }
      Tally(LocationReports);
      PublishLocation(phone, loc.value);
    }

    method Dispatch(s: Session, f: Frame, env: Env)
      requires Serves(s)
      modifies this, reg, reg.all.Values, ConnsOf(reg.all)
      ensures Serves(s) && reg.all == old(reg.all)
      ensures s.id in old(Now()).sess && Now() == World.Dispatch(old(Now()), s.id, f, env)
    {
      hide World.Dispatch, World.Handle, RunOps, After, Server.Now, ConnsOf, Registry.Valid, Registry.Has;
      ViewOf(s);
      DispatchIs(Now(), s.id, f, env);
      Inc(s, Frames, env);
      ViewOf(s);
      if s.state.Rank() < Authenticated.Rank() && !PreAuth(f.msgId) {
        RunOne(Now(), s.id, Ack(f, OK), env);
        var _ := Acknowledge(s, f, OK, [], env);
      } else {
        Route(s, f, env);
      }
    }

    method Route(s: Session, f: Frame, env: Env)
      requires Serves(s)
      modifies this, reg, reg.all.Values, ConnsOf(reg.all)
      ensures Serves(s) && reg.all == old(reg.all)
      ensures s.id in old(Now()).sess && Now() == RunOps(old(Now()), s.id, World.Handle(f, env), env)
    {
      hide RunOps, After, Server.Now, ConnsOf, Registry.Valid, Registry.Has, World.HandleRegistration;
      ViewOf(s);
      ghost var sh := Now();
      if f.msgId == HEARTBEAT {
        HandleHeartbeat(s, f, env);
      } else if f.msgId == REGISTRATION {
        HandleRegistration(s, f, env);
      } else if f.msgId == AUTHENTICATION {
        HandleAuthentication(s, f, env);
      } else if f.msgId == LOCATION_REPORT {
        HandleLocation(s, f, env);
      } else if f.msgId == BATCH_LOCATION {
        HandleBatchLocation(s, f, env);
      } else if f.msgId == TERMINAL_RESP {
        RunNone(sh, s.id, env);
      } else if f.msgId == TERMINAL_PROPS || f.msgId == UPGRADE_RESULT || f.msgId == ACC_STATUS {
        RunOne(sh, s.id, Ack(f, OK), env);
        var _ := Acknowledge(s, f, OK, [], env);
      } else {
        RunTwo(sh, s.id, Count(UnknownMessages), Ack(f, OK), env);
        Inc(s, UnknownMessages, env);
        var _ := Acknowledge(s, f, OK, [], env);
      }
    }

    /**
      One connection from its acceptance to its end: frames are read and dispatched until one
      cannot be read; then the timer is stopped, the session unregistered, the connection closed.
    */
    method HandleConn(conn: Codec.Conn, src: Codec.ByteSource, envs: nat -> Env)
      requires Valid() && src.Valid()
      requires conn.id !in reg.all && conn.open && conn.written == []
      modifies this, reg, reg.all.Values, ConnsOf(reg.all), conn, src
      ensures Valid()
      ensures Now() == Serve(Accepted(old(Now()), conn.id), conn.id, old(src.Rest()), envs, 0)
      ensures !conn.open && conn.id !in authTimers
    {
      hide Serve;
      var s := Accept(conn);
      ServeStream(s, src, envs);
      Closing.ServeCloses(Accepted(old(Now()), conn.id), conn.id, old(src.Rest()), envs, 0);
      ViewOf(s);
    }

    method ServeStream(s: Session, src: Codec.ByteSource, envs: nat -> Env)
      requires Serves(s) && src.Valid()
      modifies this, reg, reg.all.Values, ConnsOf(reg.all), src
      ensures Serves(s) && reg.all == old(reg.all)
      ensures s.id in old(Now()).sess && Now() == Serve(old(Now()), s.id, old(src.Rest()), envs, 0)
    {
      hide Server.Now, ConnsOf, Registry.Valid, Registry.Has, Read, World.Dispatch, Leave;
      ghost var start, input := Now(), src.Rest();
      ViewOf(s);
      var k := 0;
      while true
        invariant Serves(s) && src.Valid() && reg.all == old(reg.all) && s.id in Now().sess
        invariant Serve(start, s.id, input, envs, 0) == Serve(Now(), s.id, src.Rest(), envs, k)
        decreases |src.Rest()|
      {
        label reading:
        var r := Codec.ReadFrame(src);
        Untouched@reading();
        if r.Err? {
          break;
        }
        Dispatch(s, r.value, envs(k));
        ViewOf(s);
        k := k + 1;
      }
      Hangup(s, envs(k));
    }

    /** The deferred calls, last one first. */
    method Hangup(s: Session, env: Env)
      requires Serves(s)
      modifies this, reg, reg.all.Values, ConnsOf(reg.all)
      ensures Serves(s) && reg.all == old(reg.all)
      ensures s.id in old(Now()).sess && Now() == Leave(old(Now()), s.id, env)
    {
      hide RunOps, After, Server.Now, ConnsOf, Registry.Valid, Registry.Has;
      ViewOf(s);
      RunThree(Now(), s.id, Op.StopTimer, Op.Unregister, Op.Shut, env);
      StopTimer(s, env);
      Unregister(s, env);
      Shut(s, env);
    }

    method Accept(conn: Codec.Conn) returns (s: Session)
      requires Valid() && conn.id !in reg.all && conn.open && conn.written == []
      modifies this`authTimers, reg`all
      ensures Serves(s) && fresh(s) && s.conn == conn && s.id == conn.id && reg.all == old(reg.all)[conn.id := s]
      ensures Now() == Accepted(old(Now()), conn.id)
    {
      hide Registry.Views, Registry.Valid;
      authTimers := authTimers + {conn.id};
      s := new Session(conn);
      reg.SameSessions();
      reg.Know(s);
    }
  }

  // ---- batches on values ----

  lemma PublishNothing(sh: Shared, phone: Text)
    ensures PublishItems(sh, phone, []) == sh
  {
  }

  lemma PublishOneMore(sh: Shared, phone: Text, items: seq<Text>, item: Text)
    ensures PublishItems(sh, phone, items + [item]) == PublishItem(PublishItems(sh, phone, items), phone, item)
  {
    hide PublishItem;
    assert (items + [item])[..|items|] == items;
  }

  /** The items of a batch from offset on: none if nothing complete is left, else the first and the rest. */
  lemma BatchNext(body: Text, offset: nat, count: nat)
    requires offset <= |body|
    ensures var items := BatchItems(body[offset..], count);
            if count == 0 || offset + 2 > |body| || offset + 2 + GetU16(body, offset) > |body| then items == []
            else
              var end := offset + 2 + GetU16(body, offset);
              items == [body[offset + 2..end]] + BatchItems(body[end..], count - 1)
  {
    hide GetU16;
    var s := body[offset..];
    if offset + 2 <= |body| {
      WordAt(body, offset);
      var n: nat := GetU16(body, offset);
      if offset + 2 + n <= |body| {
        assert s[2..2 + n] == body[offset + 2..offset + 2 + n] && s[2 + n..] == body[offset + 2 + n..];
      }
    }
  }

  lemma WordAt(body: Text, offset: nat)
    requires offset + 2 <= |body|
    ensures GetU16(body[offset..], 0) == GetU16(body, offset)
  {
  }
}
