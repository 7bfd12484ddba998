/** One reply for each request, in order, with consecutive sequence numbers, over whole runs. */
module Discipline {
  import opened Bytes
  import opened Wire
  import opened World
  import opened Runs

  // ---- the record ----

  /** The frames of sid that are owed a reply: all but terminal responses. */
  function Requests(log: seq<Event>, sid: Sid): seq<Frame> {
    if log == [] then []
    else
      var e := log[|log| - 1];
      Requests(log[..|log| - 1], sid) +
      if e.Request? && e.sid == sid && e.frame.msgId != TERMINAL_RESP then [e.frame] else []
  }

  /** The frames the server tried to send on sid. */
  function Sends(log: seq<Event>, sid: Sid): (sends: seq<Event>)
    ensures forall k :: 0 <= k < |sends| ==> sends[k].Sent?
  {
    if log == [] then []
    else
      var e := log[|log| - 1];
      Sends(log[..|log| - 1], sid) + if e.Sent? && e.sid == sid then [e] else []
  }

  lemma {:induction false} RequestsConcat(a: seq<Event>, b: seq<Event>, sid: Sid)
    ensures Requests(a + b, sid) == Requests(a, sid) + Requests(b, sid)
  {
    if b == [] {
      assert a + b == a;
    } else {
      assert (a + b)[..|a + b| - 1] == a + b[..|b| - 1];
      RequestsConcat(a, b[..|b| - 1], sid);
    }
  }

  lemma {:induction false} SendsConcat(a: seq<Event>, b: seq<Event>, sid: Sid)
    ensures Sends(a + b, sid) == Sends(a, sid) + Sends(b, sid)
  {
    if b == [] {
      assert a + b == a;
    } else {
      assert (a + b)[..|a + b| - 1] == a + b[..|b| - 1];
      SendsConcat(a, b[..|b| - 1], sid);
    }
  }

  /** A reply to f: it repeats the sequence number of f and, in a general response, its message id. */
  predicate Echoes(msgId: U16, body: Text, f: Frame) {
    || (msgId == PLATFORM_RESP && |body| == 5 && body[..4] == PutU16(f.seqNum) + PutU16(f.msgId))
    || (msgId == REGISTRATION_RESP && f.msgId == REGISTRATION && |body| >= 3 && body[..2] == PutU16(f.seqNum))
  }

  // ---- what is still to be sent ----

  /** How many replies an operation is going to attempt. */
  function Owed(op: Op): nat {
    match op
    case Reply(_, _, _) => 1
    case Validate(_) => 1
    case _ => 0
  }

  function TotalOwed(ops: seq<Op>): nat {
    if ops == [] then 0 else Owed(ops[0]) + TotalOwed(ops[1..])
  }

  lemma {:induction false} TotalOwedConcat(a: seq<Op>, b: seq<Op>)
    ensures TotalOwed(a + b) == TotalOwed(a) + TotalOwed(b)
  {
    if a == [] {
      assert a + b == b;
    } else {
      assert (a + b)[1..] == a[1..] + b;
      TotalOwedConcat(a[1..], b);
    }
  }

  /** Whatever op replies, it replies to f, and nothing it leads to on success replies again. */
  ghost predicate Directed(op: Op, f: Frame) {
    match op
    case Reply(msgId, body, onSuccess) => Echoes(msgId, body, f) && forall x :: x in onSuccess ==> Owed(x) == 0
    case Validate(g) => g == f
    case _ => true
  }

  ghost predicate AllDirected(ops: seq<Op>, f: Frame) {
    forall op :: op in ops ==> Directed(op, f)
  }

  lemma {:induction false} NothingOwed(ops: seq<Op>, f: Frame)
    requires forall op :: op in ops ==> Owed(op) == 0
    ensures TotalOwed(ops) == 0 && AllDirected(ops, f)
  {
    if ops != [] {
      NothingOwed(ops[1..], f);
    }
  }

  lemma AckEchoes(f: Frame, result: Byte)
    ensures Directed(Ack(f, result), f)
  {
    assert AckBody(f.seqNum, f.msgId, result)[..4] == PutU16(f.seqNum) + PutU16(f.msgId);
  }

  lemma RegistrationAckEchoes(f: Frame, result: Byte, token: Text)
    requires f.msgId == REGISTRATION
    ensures Echoes(REGISTRATION_RESP, RegistrationAckBody(f.seqNum, result, token), f)
  {
    assert RegistrationAckBody(f.seqNum, result, token)[..2] == PutU16(f.seqNum);
  }

  lemma OwedOf(a: Op, b: Op, c: Op)
    ensures TotalOwed([a]) == Owed(a)
    ensures TotalOwed([a, b]) == Owed(a) + Owed(b)
    ensures TotalOwed([a, b, c]) == Owed(a) + Owed(b) + Owed(c)
  {
    TotalOwedConcat([a], [b]);
    TotalOwedConcat([a] + [b], [c]);
    assert [a] + [b] == [a, b] && [a] + [b] + [c] == [a, b, c];
  }

  /** Each dispatched frame but a terminal response is owed exactly one reply; that one is owed none. */
  lemma ProgramOwes(state: State, f: Frame, env: Env)
    ensures TotalOwed(Program(state, f, env)) == if f.msgId == TERMINAL_RESP then 0 else 1
    ensures AllDirected(Program(state, f, env), f)
  {
    var rest := Program(state, f, env)[1..];
    assert Program(state, f, env) == [Count(Frames)] + rest;
    TotalOwedConcat([Count(Frames)], rest);
    OwedOf(Count(Frames), Count(Frames), Count(Frames));
    forall result ensures Directed(Ack(f, result), f) {
      AckEchoes(f, result);
    }
    if Passes(state, f.msgId) {
      assert rest == Handle(f, env);
      HandleOwes(f, env);
    } else {
      assert rest == [Ack(f, OK)];
      OwedOf(Ack(f, OK), Ack(f, OK), Ack(f, OK));
    }
  }

  lemma HandleOwes(f: Frame, env: Env)
    ensures TotalOwed(Handle(f, env)) == if f.msgId == TERMINAL_RESP then 0 else 1
    ensures AllDirected(Handle(f, env), f)
  {
    hide TotalOwed, Echoes;
    forall result ensures Directed(Ack(f, result), f) {
      AckEchoes(f, result);
    }
    var ops := Handle(f, env);
    if f.msgId == REGISTRATION {
      RegistrationOwes(f, env);
    } else if ops == [] {
      NothingOwed(ops, f);
    } else {
      var last := ops[|ops| - 1];
      OwedOf(ops[0], last, last);
      if |ops| == 3 {
        OwedOf(ops[0], ops[1], ops[2]);
        assert ops == [ops[0], ops[1], ops[2]];
      } else {
        assert ops == [ops[0]] || ops == [ops[0], last];
      }
    }
  }

  lemma RegistrationOwes(f: Frame, env: Env)
    requires f.msgId == REGISTRATION
    ensures TotalOwed(HandleRegistration(f, env)) == 1 && AllDirected(HandleRegistration(f, env), f)
  {
    hide TotalOwed, Echoes;
    forall result ensures Directed(Ack(f, result), f) {
      AckEchoes(f, result);
    }
    forall result, token ensures Echoes(REGISTRATION_RESP, RegistrationAckBody(f.seqNum, result, token), f) {
      RegistrationAckEchoes(f, result, token);
    }
    var ops := HandleRegistration(f, env);
    if |ops| == 4 {
      OwedOf(ops[0], ops[1], ops[2]);
      OwedOf(ops[3], ops[3], ops[3]);
      TotalOwedConcat([ops[0], ops[1], ops[2]], [ops[3]]);
      assert ops == [ops[0], ops[1], ops[2]] + [ops[3]];
    } else {
      var last := ops[|ops| - 1];
      OwedOf(ops[0], last, last);
      assert ops == [ops[0]] || ops == [ops[0], last];
    }
  }

  // ---- one operation ----

  lemma FewEvents(events: seq<Event>, sid: Sid)
    requires |events| <= 2
    ensures (forall k :: 0 <= k < |events| ==> !events[k].Request?) ==> Requests(events, sid) == []
    ensures (forall k :: 0 <= k < |events| ==> !events[k].Sent? || events[k].sid != sid) ==> Sends(events, sid) == []
    ensures |events| == 1 && events[0].Sent? && events[0].sid == sid ==> Sends(events, sid) == events
  {
    if |events| > 0 {
      assert events[..|events| - 1] == [] || events[..|events| - 1] == [events[0]];
      assert [events[0]][..0] == [];
    }
  }

  /** An operation records no request, and a send only on its own session: the one reply it is. */
  lemma RecordSends(sh: Shared, sid: Sid, op: Op, env: Env, other: Sid)
    requires sid in sh.sess
    ensures Requests(Record(sh, sid, op, env), other) == []
    ensures Sends(Record(sh, sid, op, env), other) == if op.Reply? && other == sid then Record(sh, sid, op, env) else []
  {
    hide Requests, Sends;
    FewEvents(Record(sh, sid, op, env), other);
  }

  /** What is owed is either sent now or still owed. */
  lemma ThenOwes(sh: Shared, sid: Sid, op: Op, env: Env, f: Frame)
    requires sid in sh.sess && Directed(op, f)
    ensures AllDirected(Then(sh, sid, op, env), f)
    ensures TotalOwed(Then(sh, sid, op, env)) == if op.Reply? then 0 else Owed(op)
  {
    hide TotalOwed, Echoes;
    if op.Validate? {
      AckEchoes(f, OK);
      AckEchoes(f, FAIL);
      OwedOf(Ack(f, FAIL), Count(AuthViolations), ScheduleClose);
      OwedOf(MarkAuthenticated, Register, Ack(f, OK));
      OwedOf(Count(AuthSuccesses), ScheduleClose, ScheduleClose);
      TotalOwedConcat([MarkAuthenticated, Register, Ack(f, OK)], [Count(AuthSuccesses)]);
      assert [MarkAuthenticated, Register, Ack(f, OK)] + [Count(AuthSuccesses)]
          == [MarkAuthenticated, Register, Ack(f, OK), Count(AuthSuccesses)];
    } else {
      NothingOwed(Then(sh, sid, op, env), f);
    }
  }

  // ---- whole runs ----

  /** The state of the exchange on one session. */
  ghost predicate InStep(reqs: seq<Frame>, sends: seq<Event>, todo: seq<Op>, outSeq: U32) {
    && |sends| + TotalOwed(todo) == |reqs|
    && TotalOwed(todo) <= 1
    && (TotalOwed(todo) == 1 ==> AllDirected(todo, reqs[|reqs| - 1]))
    && outSeq == |sends| % 0x1_0000_0000
    && Answered(reqs, sends)
  }

  /** Each send so far answers the request at its own position and carries that position as its number. */
  ghost predicate Answered(reqs: seq<Frame>, sends: seq<Event>) {
    && |sends| <= |reqs|
    && forall k :: 0 <= k < |sends| ==>
         sends[k].Sent? && Echoes(sends[k].msgId, sends[k].body, reqs[k]) && sends[k].seqNum == (k + 1) % 0x1_0000
  }

  ghost predicate Disciplined(sys: System) {
    forall sid ::
      if sid in sys.shared.sess && sid in sys.threads
      then InStep(Requests(sys.log, sid), Sends(sys.log, sid), sys.threads[sid].todo, sys.shared.sess[sid].outSeq)
      else Requests(sys.log, sid) == [] && Sends(sys.log, sid) == []
  }

  /** A reply goes out: the owed one, under the number that follows, even where the counter wraps. */
  lemma ReplyInStep(reqs: seq<Frame>, sends: seq<Event>, todo: seq<Op>, outSeq: U32, sent: Event, rest: seq<Op>)
    requires InStep(reqs, sends, todo, outSeq) && todo != [] && todo[0].Reply?
    requires sent.Sent? && sent.msgId == todo[0].msgId && sent.body == todo[0].body
    requires sent.seqNum == (outSeq + 1) % 0x1_0000_0000 % 0x1_0000
    requires TotalOwed(rest) == TotalOwed(todo[1..])
    ensures InStep(reqs, sends + [sent], rest, (outSeq + 1) % 0x1_0000_0000)
  {
    hide Echoes, AllDirected;
    var n := |sends|;
    assert Directed(todo[0], reqs[n]) by { AllDirectedHas(todo, reqs[n]); }
    SeqWraps(n);
    assert |sends + [sent]| == n + 1;
    forall k | 0 <= k < n + 1
      ensures (sends + [sent])[k].Sent? && Echoes((sends + [sent])[k].msgId, (sends + [sent])[k].body, reqs[k])
      ensures (sends + [sent])[k].seqNum == (k + 1) % 0x1_0000
    {
    }
  }

  lemma AllDirectedHas(ops: seq<Op>, f: Frame)
    requires ops != [] && AllDirected(ops, f)
    ensures Directed(ops[0], f)
  {
  }

  /** The 32-bit counter wraps at a multiple of 2^16, so its low half goes on counting. */
  lemma SeqWraps(n: nat)
    ensures (n % 0x1_0000_0000 + 1) % 0x1_0000_0000 == (n + 1) % 0x1_0000_0000
    ensures (n % 0x1_0000_0000 + 1) % 0x1_0000_0000 % 0x1_0000 == (n + 1) % 0x1_0000
  {
    var q, r := n / 0x1_0000_0000, n % 0x1_0000_0000;
    assert n == 0x1_0000_0000 * q + r;
    if r == 0xffff_ffff {
      assert n + 1 == 0x1_0000_0000 * (q + 1) == 0x1_0000 * (0x1_0000 * (q + 1));
    } else {
      var u, v := (r + 1) / 0x1_0000, (r + 1) % 0x1_0000;
      assert n + 1 == 0x1_0000 * (0x1_0000 * q + u) + v;
    }
  }

  /** What the operation leads to owes what the operation did not pay itself. */
  lemma DebtMoves(sh: Shared, sid: Sid, todo: seq<Op>, env: Env, f: Frame)
    requires sid in sh.sess && todo != [] && TotalOwed(todo) <= 1 && (TotalOwed(todo) == 1 ==> AllDirected(todo, f))
    ensures var rest := Then(sh, sid, todo[0], env) + todo[1..];
            && TotalOwed(rest) == TotalOwed(todo) - (if todo[0].Reply? then 1 else 0)
            && (TotalOwed(todo) == 1 ==> AllDirected(rest, f))
            && (todo[0].Reply? ==> TotalOwed(rest) == TotalOwed(todo[1..]))
  {
    hide Then, TotalOwed, Echoes;
    var op, rest := todo[0], todo[1..];
    assert todo == [op] + rest;
    TotalOwedConcat([op], rest);
    TotalOwedConcat(Then(sh, sid, op, env), rest);
    OwedOf(op, op, op);
    if TotalOwed(todo) == 1 {
      ThenOwes(sh, sid, op, env, f);
    } else {
      NothingThen(sh, sid, op, env);
    }
  }

  lemma StepInStep(sys: System, sid: Sid, env: Env)
    requires Enabled(sys, Run(sid, env))
    requires InStep(Requests(sys.log, sid), Sends(sys.log, sid), sys.threads[sid].todo, sys.shared.sess[sid].outSeq)
    ensures var sys' := Next(sys, Run(sid, env));
            sid in sys'.shared.sess && sid in sys'.threads &&
            InStep(Requests(sys'.log, sid), Sends(sys'.log, sid), sys'.threads[sid].todo, sys'.shared.sess[sid].outSeq)
  {
    hide After, Then, Record, TotalOwed, Requests, Sends, Echoes, Own, AllDirected, Answered;
    var sh, todo := sys.shared, sys.threads[sid].todo;
    var op, rest := todo[0], Then(sh, sid, todo[0], env) + todo[1..];
    var reqs, sends := Requests(sys.log, sid), Sends(sys.log, sid);
    var events := Record(sh, sid, op, env);
    RequestsConcat(sys.log, events, sid);
    SendsConcat(sys.log, events, sid);
    RecordSends(sh, sid, op, env, sid);
    SessionAfter(sh, sid, op, env, sid);
    OutSeqStays(sh.sess[sid], op, env);
    assert reqs + [] == reqs && sends + [] == sends;
    DebtMoves(sh, sid, todo, env, if reqs == [] then Frame(0, [], 0, [], false, 0, 0) else reqs[|reqs| - 1]);
    if op.Reply? {
      ReplySends(sh, sid, op, env);
      ReplyInStep(reqs, sends, todo, sh.sess[sid].outSeq, events[0], rest);
    }
  }

  lemma NothingThen(sh: Shared, sid: Sid, op: Op, env: Env)
    requires sid in sh.sess && Owed(op) == 0
    ensures TotalOwed(Then(sh, sid, op, env)) == 0
  {
  }

  lemma OutSeqStays(s: Sess, op: Op, env: Env)
    ensures Own(s, op, env).outSeq == if op.Reply? then (s.outSeq + 1) % 0x1_0000_0000 else s.outSeq
  {
  }

  lemma ReplySends(sh: Shared, sid: Sid, op: Op, env: Env)
    requires sid in sh.sess && op.Reply?
    ensures var s := sh.sess[sid];
            Record(sh, sid, op, env) == [Sent(sid, op.msgId, s.phone, op.body, (s.outSeq + 1) % 0x1_0000_0000 % 0x1_0000, s.open && env.writeOk)]
    ensures Own(sh.sess[sid], op, env).outSeq == (sh.sess[sid].outSeq + 1) % 0x1_0000_0000
  {
  }

  lemma OthersInStep(sys: System, sid: Sid, env: Env, other: Sid)
    requires Enabled(sys, Run(sid, env)) && other != sid
    ensures var sys' := Next(sys, Run(sid, env));
            && Requests(sys'.log, other) == Requests(sys.log, other) && Sends(sys'.log, other) == Sends(sys.log, other)
            && (other in sys'.shared.sess <==> other in sys.shared.sess)
            && (other in sys'.threads <==> other in sys.threads)
            && (other in sys.threads ==> sys'.threads[other] == sys.threads[other])
            && (other in sys.shared.sess ==> sys'.shared.sess[other].outSeq == sys.shared.sess[other].outSeq)
  {
    hide After, Then, Record, Requests, Sends, Own;
    var op := sys.threads[sid].todo[0];
    RequestsConcat(sys.log, Record(sys.shared, sid, op, env), other);
    SendsConcat(sys.log, Record(sys.shared, sid, op, env), other);
    RecordSends(sys.shared, sid, op, env, other);
    assert Requests(sys.log, other) + [] == Requests(sys.log, other) && Sends(sys.log, other) + [] == Sends(sys.log, other);
    if other in sys.shared.sess {
      SessionAfter(sys.shared, sid, op, env, other);
    }
  }

  lemma RecordSnoc(log: seq<Event>, e: Event, sid: Sid)
    ensures Requests(log + [e], sid) ==
            if e.Request? && e.sid == sid && e.frame.msgId != TERMINAL_RESP then Requests(log, sid) + [e.frame] else Requests(log, sid)
    ensures Sends(log + [e], sid) == if e.Sent? && e.sid == sid then Sends(log, sid) + [e] else Sends(log, sid)
  {
    assert (log + [e])[..|log|] == log;
  }

  lemma RequestInStep(reqs: seq<Frame>, sends: seq<Event>, outSeq: U32, state: State, f: Frame, env: Env)
    requires InStep(reqs, sends, [], outSeq)
    ensures InStep(if f.msgId != TERMINAL_RESP then reqs + [f] else reqs, sends, Program(state, f, env), outSeq)
  {
    ProgramOwes(state, f, env);
    hide Program, Echoes, AllDirected;
  }

  lemma FarewellOwesNothing()
    ensures TotalOwed(FAREWELL) == 0 && TotalOwed([]) == 0
  {
    OwedOf(StopTimer, Unregister, Shut);
  }

  lemma NextDisciplined(sys: System, a: Action)
    requires WellFormed(sys) && Disciplined(sys) && Enabled(sys, a)
    ensures Disciplined(Next(sys, a))
  {
    hide After, Then, Record, Requests, Sends, Program, InStep, TotalOwed;
    var sys' := Next(sys, a);
    forall sid
      ensures if sid in sys'.shared.sess && sid in sys'.threads
              then InStep(Requests(sys'.log, sid), Sends(sys'.log, sid), sys'.threads[sid].todo, sys'.shared.sess[sid].outSeq)
              else Requests(sys'.log, sid) == [] && Sends(sys'.log, sid) == []
    {
      if a.Run? {
        if sid == a.sid {
          StepInStep(sys, sid, a.env);
        } else {
          OthersInStep(sys, a.sid, a.env, sid);
        }
      } else {
        if sys'.log != sys.log {
          RecordSnoc(sys.log, sys'.log[|sys.log|], sid);
        }
        if a.Receive? && sid == a.sid {
          RequestInStep(Requests(sys.log, sid), Sends(sys.log, sid), sys.shared.sess[sid].outSeq,
                        sys.shared.sess[sid].state, a.frame, a.env);
        } else if (a.ReadFail? || a.Accept?) && sid == a.sid {
          QuietInStep(Requests(sys.log, sid), Sends(sys.log, sid), sys'.shared.sess[sid].outSeq);
          if a.ReadFail? {
            IdleInStep(Requests(sys.log, sid), Sends(sys.log, sid), sys'.shared.sess[sid].outSeq);
          }
        }
      }
    }
  }

  lemma QuietInStep(reqs: seq<Frame>, sends: seq<Event>, outSeq: U32)
    ensures reqs == [] && sends == [] && outSeq == 0 ==> InStep(reqs, sends, [], outSeq)
  {
  }

  lemma IdleInStep(reqs: seq<Frame>, sends: seq<Event>, outSeq: U32)
    ensures InStep(reqs, sends, [], outSeq) ==> InStep(reqs, sends, FAREWELL, outSeq)
  {
    FarewellOwesNothing();
  }

  /**
    Request and response, over whole runs of all sessions together: the frames a session tries
    to send answer its requests one for one and in order, each echoing its request, numbered
    1, 2, 3, ... modulo 2^16 without end, and whenever the session is idle none is outstanding.
  */
  lemma {:induction false} OneReplyEach(run: seq<Action>)
    ensures Disciplined(Execute(run))
  {
    if run != [] {
      var sys, a := Execute(run[..|run| - 1]), run[|run| - 1];
      OneReplyEach(run[..|run| - 1]);
      AlwaysWellFormed(run[..|run| - 1]);
      if Enabled(sys, a) {
        NextDisciplined(sys, a);
      }
    }
  }

  /** An idle session has answered everything. */
  lemma IdleHasAnswered(run: seq<Action>, sid: Sid)
    requires Idle(Execute(run), sid)
    ensures var log := Execute(run).log;
            |Sends(log, sid)| == |Requests(log, sid)| && Answered(Requests(log, sid), Sends(log, sid))
  {
    OneReplyEach(run);
    AlwaysWellFormed(run);
    FarewellOwesNothing();
  }
}
