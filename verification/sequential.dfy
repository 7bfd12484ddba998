/** A connection's goroutine running on its own: what a dispatch amounts to, and a whole connection. */
module Sequential {
  import opened Bytes
  import opened Wire
  import opened World
  import opened Runs
  import opened WireTheorems

  // ---- running operations one after another ----

  lemma RunNone(sh: Shared, sid: Sid, env: Env)
    requires sid in sh.sess
    ensures RunOps(sh, sid, [], env) == sh
  {
  }

  lemma RunFirst(sh: Shared, sid: Sid, op: Op, rest: seq<Op>, env: Env)
    requires sid in sh.sess
    ensures RunOps(sh, sid, [op] + rest, env) == RunOps(After(sh, sid, op, env), sid, Then(sh, sid, op, env) + rest, env)
  {
    assert ([op] + rest)[1..] == rest;
  }

  /** Operations that leave nothing to decide. */
  predicate Plain(op: Op) {
    !op.Validate? && (op.Reply? ==> op.onSuccess == [])
  }

  lemma RunPlain(sh: Shared, sid: Sid, op: Op, rest: seq<Op>, env: Env)
    requires sid in sh.sess && Plain(op)
    ensures RunOps(sh, sid, [op] + rest, env) == RunOps(After(sh, sid, op, env), sid, rest, env)
  {
    hide RunOps, After;
    RunFirst(sh, sid, op, rest, env);
    assert Then(sh, sid, op, env) + rest == rest;
  }

  lemma RunOne(sh: Shared, sid: Sid, op: Op, env: Env)
    requires sid in sh.sess && Plain(op)
    ensures RunOps(sh, sid, [op], env) == After(sh, sid, op, env)
  {
    hide RunOps, After;
    RunPlain(sh, sid, op, [], env);
    RunNone(After(sh, sid, op, env), sid, env);
    assert [op] + [] == [op];
  }

  lemma RunTwo(sh: Shared, sid: Sid, a: Op, b: Op, env: Env)
    requires sid in sh.sess && Plain(a) && Plain(b)
    ensures RunOps(sh, sid, [a, b], env) == After(After(sh, sid, a, env), sid, b, env)
  {
    hide RunOps, After;
    RunPlain(sh, sid, a, [b], env);
    RunOne(After(sh, sid, a, env), sid, b, env);
    assert [a] + [b] == [a, b];
  }

  lemma RunThree(sh: Shared, sid: Sid, a: Op, b: Op, c: Op, env: Env)
    requires sid in sh.sess && Plain(a) && Plain(b) && Plain(c)
    ensures RunOps(sh, sid, [a, b, c], env) == After(After(After(sh, sid, a, env), sid, b, env), sid, c, env)
  {
    hide RunOps, After;
    RunPlain(sh, sid, a, [b, c], env);
    RunTwo(After(sh, sid, a, env), sid, b, c, env);
    assert [a] + [b, c] == [a, b, c];
  }

  lemma RunFour(sh: Shared, sid: Sid, a: Op, b: Op, c: Op, d: Op, env: Env)
    requires sid in sh.sess && Plain(a) && Plain(b) && Plain(c) && Plain(d)
    ensures RunOps(sh, sid, [a, b, c, d], env)
         == After(After(After(After(sh, sid, a, env), sid, b, env), sid, c, env), sid, d, env)
  {
    hide RunOps, After;
    RunPlain(sh, sid, a, [b, c, d], env);
    RunThree(After(sh, sid, a, env), sid, b, c, d, env);
    assert [a] + [b, c, d] == [a, b, c, d];
  }

  /** A reply with something to do once it is written. */
  lemma RunReply(sh: Shared, sid: Sid, msgId: U16, body: Text, op: Op, env: Env)
    requires sid in sh.sess && Plain(op)
    ensures var reply := Reply(msgId, body, [op]);
            var sh' := After(sh, sid, reply, env);
            RunOps(sh, sid, [reply], env) ==
            if sh.sess[sid].open && env.writeOk then After(sh', sid, op, env) else sh'
  {
    hide RunOps, After;
    var reply := Reply(msgId, body, [op]);
    var sh' := After(sh, sid, reply, env);
    RunFirst(sh, sid, reply, [], env);
    assert [reply] + [] == [reply];
    if sh.sess[sid].open && env.writeOk {
      assert Then(sh, sid, reply, env) + [] == [op];
      RunOne(sh', sid, op, env);
    } else {
      assert Then(sh, sid, reply, env) + [] == [];
      RunNone(sh', sid, env);
    }
  }

  /** Authentication: adopting a phone, then either branch. */
  lemma RunAuthentication(sh: Shared, sid: Sid, f: Frame, env: Env)
    requires sid in sh.sess
    ensures var sh1 := After(sh, sid, AdoptPhone(f.phone), env);
            RunOps(sh, sid, [AdoptPhone(f.phone), Validate(f)], env) ==
            RunOps(sh1, sid, Then(sh1, sid, Validate(f), env), env)
  {
    var sh1 := After(sh, sid, AdoptPhone(f.phone), env);
    RunPlain(sh, sid, AdoptPhone(f.phone), [Validate(f)], env);
    RunFirst(sh1, sid, Validate(f), [], env);
    hide RunOps;
    assert [AdoptPhone(f.phone)] + [Validate(f)] == [AdoptPhone(f.phone), Validate(f)];
    assert [Validate(f)] + [] == [Validate(f)];
    assert Then(sh1, sid, Validate(f), env) + [] == Then(sh1, sid, Validate(f), env);
    ValidateChangesNothing(sh1, sid, f, env);
  }

  lemma ValidateChangesNothing(sh: Shared, sid: Sid, f: Frame, env: Env)
    requires sid in sh.sess
    ensures After(sh, sid, Validate(f), env) == sh
  {
    assert sh.sess[sid := sh.sess[sid]] == sh.sess;
  }

  lemma AfterRegister(sh: Shared, sid: Sid, env: Env)
    requires sid in sh.sess
    ensures var phone := sh.sess[sid].phone;
            After(sh, sid, Register, env) ==
            sh.(sess := if Displaces(sh, sid) then sh.sess[sh.local[phone] := CloseSess(sh.sess[sh.local[phone]])] else sh.sess,
                local := sh.local[phone := sid],
                jobs := sh.jobs + [GoOnline(sid)])
  {
  }

  lemma AfterUnregister(sh: Shared, sid: Sid, env: Env)
    requires sid in sh.sess
    ensures var phone := sh.sess[sid].phone;
            After(sh, sid, Unregister, env) ==
            if phone == [] then sh
            else sh.(local := if phone in sh.local && sh.local[phone] == sid then sh.local - {phone} else sh.local,
                     jobs := sh.jobs + [GoOffline(sid)])
  {
  }

  lemma PublishIs(sh: Shared, sid: Sid, f: Frame, env: Env)
    requires sid in sh.sess
    ensures var phone := PhoneFor(sh.sess[sid], f.phone);
            After(sh, sid, Publish(f), env) == if phone == [] then sh else PublishReport(sh, phone, f.body)
  {
    hide PublishReport;
  }

  lemma PublishBatchIs(sh: Shared, sid: Sid, f: Frame, env: Env)
    requires sid in sh.sess
    ensures After(sh, sid, PublishBatch(f), env) == PublishItems(sh, sh.sess[sid].phone, BatchOf(f.body))
  {
    hide PublishItems, PublishReport, BatchOf, Own, Bump, Displaces, CloseSess;
  }

  lemma DispatchIs(sh: Shared, sid: Sid, f: Frame, env: Env)
    requires sid in sh.sess
    ensures var sh1 := After(sh, sid, Count(Frames), env);
            Dispatch(sh, sid, f, env) ==
            RunOps(sh1, sid, if Passes(sh.sess[sid].state, f.msgId) then Handle(f, env) else [Ack(f, OK)], env)
  {
    hide RunOps, After, Handle;
    RunPlain(sh, sid, Count(Frames), if Passes(sh.sess[sid].state, f.msgId) then Handle(f, env) else [Ack(f, OK)], env);
  }

  // ---- a goroutine that is not interrupted, in the transition system ----

  function RunAlone(sys: System, sid: Sid, env: Env, steps: nat): System
    decreases steps
  {
    if steps == 0 || !Enabled(sys, Run(sid, env)) then sys
    else RunAlone(Next(sys, Run(sid, env)), sid, env, steps - 1)
  }

  /** Left to itself, a goroutine finishes its operations, and the state is then as RunOps says. */
  lemma {:induction false} Uninterrupted(sys: System, sid: Sid, env: Env) returns (steps: nat)
    requires sid in sys.threads && sid in sys.shared.sess
    ensures Finished(sys, RunAlone(sys, sid, env, steps), sid, env)
    decreases Weights(sys.threads[sid].todo)
  {
    hide RunAlone, Next, Finished;
    if sys.threads[sid].todo == [] {
      steps := 0;
      NothingToDo(sys, sid, env);
    } else {
      OneStep(sys, sid, env);
      var sys1 := Next(sys, Run(sid, env));
      var more := Uninterrupted(sys1, sid, env);
      steps := more + 1;
      RunAloneStep(sys, sid, env, more);
      FinishedBefore(sys, sid, env, RunAlone(sys1, sid, env, more));
    }
  }

  /** From sys to after the goroutine did all it had to do. */
  predicate Finished(sys: System, after: System, sid: Sid, env: Env) {
    && sid in sys.threads && sid in sys.shared.sess
    && after.shared == RunOps(sys.shared, sid, sys.threads[sid].todo, env)
    && after.threads == sys.threads[sid := Thread([], sys.threads[sid].serving)]
  }

  lemma NothingToDo(sys: System, sid: Sid, env: Env)
    requires sid in sys.threads && sid in sys.shared.sess && sys.threads[sid].todo == []
    ensures Finished(sys, RunAlone(sys, sid, env, 0), sid, env)
  {
    hide Enabled, Next;
    RunNone(sys.shared, sid, env);
    var t := sys.threads[sid];
    assert t == Thread([], t.serving);
    assert sys.threads[sid := t] == sys.threads;
  }

  lemma OneStep(sys: System, sid: Sid, env: Env)
    requires sid in sys.threads && sid in sys.shared.sess && sys.threads[sid].todo != []
    ensures var sys1 := Next(sys, Run(sid, env));
            && sid in sys1.threads && sid in sys1.shared.sess
            && Weights(sys1.threads[sid].todo) < Weights(sys.threads[sid].todo)
  {
    hide Next, After, Then;
    var op, rest := sys.threads[sid].todo[0], sys.threads[sid].todo[1..];
    NextRun(sys, sid, env);
    NextIsLighter(sys.shared, sid, op, env);
    WeightsConcat(Then(sys.shared, sid, op, env), rest);
  }

  lemma FinishedBefore(sys: System, sid: Sid, env: Env, after: System)
    requires sid in sys.threads && sid in sys.shared.sess && sys.threads[sid].todo != []
    requires Finished(Next(sys, Run(sid, env)), after, sid, env)
    ensures Finished(sys, after, sid, env)
  {
    hide Next, After, Then, RunOps;
    var op, rest := sys.threads[sid].todo[0], sys.threads[sid].todo[1..];
    assert sys.threads[sid].todo == [op] + rest;
    NextRun(sys, sid, env);
    RunFirst(sys.shared, sid, op, rest, env);
  }

  lemma RunAloneStep(sys: System, sid: Sid, env: Env, more: nat)
    requires Enabled(sys, Run(sid, env))
    ensures RunAlone(sys, sid, env, more + 1) == RunAlone(Next(sys, Run(sid, env)), sid, env, more)
  {
    hide Next, Enabled;
  }

  /** A frame received when the goroutine is idle and handled without interruption is dispatched. */
  lemma ReceivedIsDispatched(sys: System, sid: Sid, f: Frame, env: Env) returns (steps: nat)
    requires Enabled(sys, Receive(sid, f, env))
    ensures var sys' := RunAlone(Next(sys, Receive(sid, f, env)), sid, env, steps);
            sys'.shared == Dispatch(sys.shared, sid, f, env) && Idle(sys', sid)
  {
    hide RunOps, After, Then, RunAlone, Program, Handle;
    steps := Uninterrupted(Next(sys, Receive(sid, f, env)), sid, env);
  }

  // ---- a whole connection ----

  function DispatchAll(sh: Shared, sid: Sid, frames: seq<Frame>, envs: nat -> Env, k: nat): (r: Shared)
    requires sid in sh.sess
    ensures r.sess.Keys == sh.sess.Keys
    decreases |frames|
  {
    if frames == [] then sh
    else DispatchAll(Dispatch(sh, sid, frames[0], envs(k)), sid, frames[1..], envs, k + 1)
  }

  /** Serving a connection: frames are read and dispatched until one cannot be read. */
  function Serve(sh: Shared, sid: Sid, input: seq<Byte>, envs: nat -> Env, k: nat): Shared
    requires sid in sh.sess
    decreases |input|
  {
    var r := Read(input);
    match r.outcome
    case Err(_) => Leave(sh, sid, envs(k))
    case Ok(f) => Serve(Dispatch(sh, sid, f, envs(k)), sid, input[r.used..], envs, k + 1)
  }

  /** An accepted connection: a fresh session whose authentication timer runs. */
  function Accepted(sh: Shared, sid: Sid): Shared {
    sh.(sess := sh.sess[sid := FRESH], authTimers := sh.authTimers + {sid})
  }

  /** A connection dispatches what can be read, in order, and then takes its leave. */
  lemma {:induction false} ServeIsReadAll(sh: Shared, sid: Sid, input: seq<Byte>, envs: nat -> Env, k: nat)
    requires sid in sh.sess
    ensures var frames := ReadAll(input).frames;
            Serve(sh, sid, input, envs, k) == Leave(DispatchAll(sh, sid, frames, envs, k), sid, envs(k + |frames|))
    decreases |input|
  {
    hide Read, Dispatch, Leave;
    var r := Read(input);
    if r.outcome.Ok? {
      var f, rest := r.outcome.value, input[r.used..];
      ServeIsReadAll(Dispatch(sh, sid, f, envs(k)), sid, rest, envs, k + 1);
      assert ([f] + ReadAll(rest).frames)[1..] == ReadAll(rest).frames;
    }
  }

  lemma ServeFrames(sh: Shared, sid: Sid, input: seq<Byte>, frames: seq<Frame>, envs: nat -> Env)
    requires sid in sh.sess && ReadAll(input).frames == frames
    ensures Serve(sh, sid, input, envs, 0) == Leave(DispatchAll(sh, sid, frames, envs, 0), sid, envs(|frames|))
  {
    hide Serve, Leave, DispatchAll, ReadAll;
    ServeIsReadAll(sh, sid, input, envs, 0);
  }

  /** What a peer writes is dispatched message by message, whatever flag-free garbage lies between. */
  lemma WrittenIsServed(
      sh: Shared, sid: Sid, messages: seq<Message>, garbage: seq<seq<Byte>>, trailer: seq<Byte>, envs: nat -> Env)
    requires sid in sh.sess && |garbage| == |messages|
    requires FLAG !in trailer && forall g :: g in garbage ==> FLAG !in g
    ensures Serve(sh, sid, Transmission(messages, garbage) + trailer, envs, 0)
         == Leave(DispatchAll(sh, sid, AllReceived(messages), envs, 0), sid, envs(|messages|))
  {
    hide ReadAll, Transmission, Message.Received;
    StreamRoundTrip(messages, garbage, trailer);
    ServeFrames(sh, sid, Transmission(messages, garbage) + trailer, AllReceived(messages), envs);
  }

  /** A connection whose bytes start inside a frame ends at once, and dispatches nothing. */
  lemma LateJoinEndsConnection(sh: Shared, sid: Sid, first: Message, more: seq<Message>, at: nat, envs: nat -> Env)
    requires sid in sh.sess && 0 < at < |first.Bytes()|
    ensures Serve(sh, sid, (first.Bytes() + BackToBack(more))[at..], envs, 0) == Leave(sh, sid, envs(0))
  {
    hide Leave, ReadAll, Read, BackToBack;
    LateJoin(first, more, at);
  }
}
