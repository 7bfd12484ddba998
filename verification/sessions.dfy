/** A session and the registry of sessions as objects, updated in place. */
module Sessions {
  import opened Bytes
  import opened Wire
  import opened World
  import Codec

  // ---- replies ----

  method BuildPlatformACK(replySeq: U16, replyMsgId: U16, result: Byte) returns (body: Text)
    ensures body == AckBody(replySeq, replyMsgId, result)
  {
    var b := new Byte[5](_ => 0);
    b[0], b[1] := replySeq / 0x100, replySeq % 0x100;
    b[2], b[3] := replyMsgId / 0x100, replyMsgId % 0x100;
    b[4] := result;
    body := b[..];
  }

  method BuildRegistrationACK(replySeq: U16, result: Byte, token: Text) returns (body: Text)
    ensures body == RegistrationAckBody(replySeq, result, token)
  {
    var b := new Byte[3 + |token|](_ => 0);
    b[0], b[1] := replySeq / 0x100, replySeq % 0x100;
    b[2] := result;
    forall i | 0 <= i < |token| {
      b[3 + i] := token[i];
    }
    body := b[..];
    assert body[3..] == token;
    assert body[..2] == PutU16(replySeq);
    assert body == body[..2] + [body[2]] + body[3..];
  }

  // ---- sessions ----

  class Session {
    const id: Sid
    const conn: Codec.Conn
    var phone: Text
    var imei: Text
    var authToken: Text
    var state: State
    var outSeq: U32

    /** A session as a value. */
    ghost function View(): Sess
      reads this, conn
    {
      Sess(phone, imei, authToken, state, outSeq, conn.open, conn.written)
    }

    constructor (conn: Codec.Conn)
      ensures this.conn == conn && id == conn.id
      ensures View() == FRESH.(open := conn.open, wire := conn.written)
    {
      this.id, this.conn := conn.id, conn;
      phone, imei, authToken := [], [], [];
      state, outSeq := Connected, 0;
    }

    method SetState(st: State)
      modifies this`state
      ensures View() == old(View()).(state := st)
    {
      state := st;
    }

    /** Numbers the message and writes it. A failing write uses up its number. */
    method Send(msgId: U16, body: Text, env: Env) returns (ok: bool)
      modifies this`outSeq, conn`written
      ensures ok == (conn.open && env.writeOk)
      ensures View() == Own(old(View()), Reply(msgId, body, []), env)
    {
      hide Written;
      outSeq := (outSeq + 1) % 0x1_0000_0000;
      var seqNum := outSeq % 0x1_0000;
      ok := Codec.WriteFrame(conn, msgId, phone, seqNum, body, env.writeOk);
    }

    method ACK(f: Frame, result: Byte, env: Env) returns (ok: bool)
      modifies this`outSeq, conn`written
      ensures ok == (conn.open && env.writeOk)
      ensures View() == Own(old(View()), Ack(f, result), env)
    {
      var body := BuildPlatformACK(f.seqNum, f.msgId, result);
      ok := Send(PLATFORM_RESP, body, env);
    }

    method Close()
      modifies this`state, conn`open
      ensures View() == CloseSess(old(View()))
    {
      state := Closing;
      conn.open := false;
    }
  }

  // ---- the registry ----

  ghost function ConnsOf(all: map<Sid, Session>): set<Codec.Conn> {
    set i | i in all :: all[i].conn
  }

  /** Who is registered, by name. */
  ghost function NamesOf(local: map<Text, Session>): map<Text, Sid> {
    map p | p in local :: local[p].id
  }

  lemma NamesUpdate(local: map<Text, Session>, phone: Text, s: Session)
    ensures NamesOf(local[phone := s]) == NamesOf(local)[phone := s.id]
    ensures NamesOf(local - {phone}) == NamesOf(local) - {phone}
  {
  }

  class Registry {
    var local: map<Text, Session>
    var tokens: map<Text, Text>
    var jobs: seq<Job>
    /** Every session there has been. */
    ghost var all: map<Sid, Session>

    /** Sessions are told apart by their names, and so are their connections. */
    ghost predicate Valid()
      reads this
    {
      && (forall i :: i in all ==> all[i].id == i && all[i].conn.id == i)
      && (forall p :: p in local ==> Has(local[p]))
    }

    ghost predicate Has(s: Session)
      reads this
    {
      s.id in all && all[s.id] == s
    }

    ghost function Views(): map<Sid, Sess>
      reads this, all.Values, ConnsOf(all)
    {
      map i | i in all :: all[i].View()
    }

    constructor ()
      ensures Valid() && all == map[] && local == map[] && tokens == map[] && jobs == []
    {
      local, tokens, jobs, all := map[], map[], [], map[];
    }

    /** When only the session s changed, only its view did. */
    twostate lemma OnlySession(s: Session)
      requires old(Valid() && Has(s)) && all == old(all)
      requires forall i :: i in all && i != s.id ==> unchanged(all[i]) && unchanged(all[i].conn)
      ensures Views() == old(Views())[s.id := s.View()]
    {
      forall i | i in all ensures Views()[i] == old(Views())[s.id := s.View()][i] {
      }
    }

    twostate lemma SameSessions()
      requires all == old(all)
      requires forall i :: i in all ==> unchanged(all[i]) && unchanged(all[i].conn)
      ensures Views() == old(Views())
    {
    }

    /** From now on s is one of the sessions. */
    ghost method Know(s: Session)
      requires Valid() && s.id !in all && s.conn.id == s.id
      modifies this`all
      ensures Valid() && Has(s) && all == old(all)[s.id := s]
      ensures Views() == old(Views())[s.id := s.View()]
    {
      all := all[s.id := s];
    }

    /** Closing one session closes that one only. */
    method CloseOne(s: Session)
      requires Valid() && Has(s)
      modifies s`state, s.conn`open
      ensures Views() == old(Views())[s.id := CloseSess(old(Views())[s.id])]
    {
      s.Close();
      OnlySession(s);
    }

    /** Another session under the same phone is closed; whether it is another one is told by identity. */
    method Register(s: Session)
      requires Valid() && Has(s)
      modifies this`local, this`jobs, all.Values, ConnsOf(all)
      ensures Valid() && Has(s)
      ensures local == old(local)[old(s.phone) := s] && jobs == old(jobs) + [GoOnline(s.id)]
      ensures var phone := old(s.phone);
              Views() ==
              if phone in old(local) && old(local)[phone] != s then
                old(Views())[old(local)[phone].id := CloseSess(old(Views())[old(local)[phone].id])]
              else old(Views())
    {
      hide CloseSess, Registry.Views;
      if s.phone in local && local[s.phone] != s {
        CloseOne(local[s.phone]);
        label closed:
        local := local - {s.phone};
        SameSessions@closed();
      }
      label vacant:
      local := local[s.phone := s];
      jobs := jobs + [GoOnline(s.id)];
      SameSessions@vacant();
    }

    method Unregister(s: Session)
      requires Valid() && Has(s)
      modifies this`local, this`jobs
      ensures Valid()
      ensures local == if s.phone != [] && s.phone in old(local) && old(local)[s.phone] == s
                       then old(local) - {s.phone} else old(local)
      ensures jobs == old(jobs) + if s.phone != [] then [GoOffline(s.id)] else []
    {
      if s.phone == [] {
        return;
      }
      if s.phone in local && local[s.phone] == s {
        local := local - {s.phone};
      }
      jobs := jobs + [GoOffline(s.id)];
    }

    method Heartbeat(s: Session)
      modifies this`jobs
      ensures jobs == old(jobs) + [GoOnline(s.id)]
    {
      jobs := jobs + [GoOnline(s.id)];
    }

    method StoreAuthToken(phone: Text, token: Text, env: Env) returns (ok: bool)
      modifies this`tokens
      ensures ok == env.redisOk
      ensures tokens == if env.redisOk then old(tokens)[phone := token] else old(tokens)
    {
      ok := env.redisOk;
      if ok {
        tokens := tokens[phone := token];
      }
    }

    /** An error is reported only for a failing lookup: a missing token is just not valid. */
    method ValidateAuthToken(phone: Text, token: Text, env: Env) returns (valid: bool, ok: bool)
      ensures ok == env.redisOk
      ensures valid == (env.redisOk && phone in tokens && tokens[phone] == token)
    {
      ok := env.redisOk;
      valid := ok && phone in tokens && tokens[phone] == token;
    }
  }
}
