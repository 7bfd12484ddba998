/**
  The server as a transition system. One goroutine per connection performs its operations one
  at a time; timers, queued Redis updates, expiry and pruning happen in between, at any point.
*/
module Runs {
  import opened Bytes
  import opened Wire
  import opened World

  /** A connection's goroutine: the operations still to do, and whether it still serves frames. */
  datatype Thread = Thread(todo: seq<Op>, serving: bool)

  datatype System = System(
    shared: Shared,
    threads: map<Sid, Thread>,
    shutters: multiset<Sid>,   // Close calls that have set the state but not yet closed the connection
    online: set<Text>,
    log: seq<Event>)

  const INIT: System := System(
    Shared(map[], map[], map[], [], {}, multiset{}, map[], multiset{}), map[], multiset{}, {}, [])

  datatype Action =
    | Accept(sid: Sid)
    | Receive(sid: Sid, frame: Frame, env: Env)
    | ReadFail(sid: Sid)
    | Run(sid: Sid, env: Env)
    | AuthTimeout(sid: Sid)
    | CloseStart(sid: Sid)
    | CloseEnd(sid: Sid)
    | RunJob(index: nat, done: bool)
    | Prune(phones: set<Text>)
    | Expire(phone: Text)

  predicate Idle(sys: System, sid: Sid) {
    sid in sys.threads && sys.threads[sid].serving && sys.threads[sid].todo == []
  }

  predicate Enabled(sys: System, a: Action) {
    match a
    case Accept(sid) => sid !in sys.shared.sess
    case Receive(sid, _, _) => Idle(sys, sid) && sid in sys.shared.sess
    case ReadFail(sid) => Idle(sys, sid)
    case Run(sid, _) => sid in sys.threads && sys.threads[sid].todo != [] && sid in sys.shared.sess
    case AuthTimeout(sid) => sid in sys.shared.authTimers && sid in sys.shared.sess
    case CloseStart(sid) => sid in sys.shared.closers && sid in sys.shared.sess
    case CloseEnd(sid) => sid in sys.shutters && sid in sys.shared.sess
    case RunJob(i, _) => i < |sys.shared.jobs|
    case Prune(_) => true
    case Expire(phone) => phone in sys.shared.tokens
  }

  function PhoneOf(sess: map<Sid, Sess>, sid: Sid): Text {
    if sid in sess then sess[sid].phone else []
  }

  /** A queued update reads the phone when it runs. */
  function Perform(sess: map<Sid, Sess>, online: set<Text>, job: Job): set<Text> {
    match job
    case GoOnline(sid) => online + {PhoneOf(sess, sid)}
    case GoOffline(sid) => online - {PhoneOf(sess, sid)}
  }

  function Next(sys: System, a: Action): System
    requires Enabled(sys, a)
  {
    var sh := sys.shared;
    match a
    case Accept(sid) =>
      sys.(shared := sh.(sess := sh.sess[sid := FRESH], authTimers := sh.authTimers + {sid}),
           threads := sys.threads[sid := Thread([], true)])
    case Receive(sid, f, env) =>
      var state := sh.sess[sid].state;
      sys.(threads := sys.threads[sid := Thread(Program(state, f, env), true)],
           log := sys.log + [Request(sid, f, Passes(state, f.msgId))])
    case ReadFail(sid) => sys.(threads := sys.threads[sid := Thread(FAREWELL, false)])
    case Run(sid, env) =>
      var t := sys.threads[sid];
      var op := t.todo[0];
      sys.(shared := After(sh, sid, op, env),
           threads := sys.threads[sid := t.(todo := Then(sh, sid, op, env) + t.todo[1..])],
           log := sys.log + Record(sh, sid, op, env))
    case AuthTimeout(sid) =>
      var late := sh.sess[sid].state.Rank() < Authenticated.Rank();
      sys.(shared := sh.(authTimers := sh.authTimers - {sid},
                         closers := if late then sh.closers + multiset{sid} else sh.closers))
    case CloseStart(sid) =>
      sys.(shared := sh.(sess := sh.sess[sid := sh.sess[sid].(state := Closing)], closers := sh.closers - multiset{sid}),
           shutters := sys.shutters + multiset{sid},
           log := sys.log + [Dropped(sid)])
    case CloseEnd(sid) =>
      sys.(shared := sh.(sess := sh.sess[sid := sh.sess[sid].(open := false)]),
           shutters := sys.shutters - multiset{sid})
    case RunJob(i, done) =>
      sys.(shared := sh.(jobs := sh.jobs[..i] + sh.jobs[i + 1..]),
           online := if done then Perform(sh.sess, sys.online, sh.jobs[i]) else sys.online)
    case Prune(phones) => sys.(online := sys.online - phones)
    case Expire(phone) =>
      sys.(shared := sh.(tokens := sh.tokens - {phone}), log := sys.log + [Expired(phone)])
  }

  /** The state after a run; an action that is not enabled is skipped, so every sequence is a run. */
  function Execute(run: seq<Action>): System {
    if run == [] then INIT
    else
      var sys, a := Execute(run[..|run| - 1]), run[|run| - 1];
      if Enabled(sys, a) then Next(sys, a) else sys
  }

  lemma OneMore(run: seq<Action>, a: Action)
    ensures var sys := Execute(run); Execute(run + [a]) == if Enabled(sys, a) then Next(sys, a) else sys
  {
    hide Next, Enabled;
    assert (run + [a])[..|run|] == run;
  }

  lemma NextRun(sys: System, sid: Sid, env: Env)
    requires Enabled(sys, Run(sid, env))
    ensures var sys', sh, t := Next(sys, Run(sid, env)), sys.shared, sys.threads[sid];
            && sys'.shared == After(sh, sid, t.todo[0], env)
            && sys'.threads == sys.threads[sid := Thread(Then(sh, sid, t.todo[0], env) + t.todo[1..], t.serving)]
            && sys'.log == sys.log + Record(sh, sid, t.todo[0], env)
            && sys'.online == sys.online
  {
  }

  lemma CanRun(sys: System, sid: Sid, env: Env)
    ensures Enabled(sys, Run(sid, env)) <==> sid in sys.threads && sys.threads[sid].todo != [] && sid in sys.shared.sess
  {
  }

  // ---- facts that hold in every run ----

  /** Each session has its goroutine, and the registry knows only sessions. */
  predicate WellFormed(sys: System) {
    && sys.threads.Keys == sys.shared.sess.Keys
    && forall p :: p in sys.shared.local ==> sys.shared.local[p] in sys.shared.sess
  }

  lemma RegistryAfter(sh: Shared, sid: Sid, op: Op, env: Env)
    requires sid in sh.sess
    ensures var l, phone := After(sh, sid, op, env).local, sh.sess[sid].phone;
            if op.Register? then l == sh.local[phone := sid]
            else if op.Unregister? && phone != [] && phone in sh.local && sh.local[phone] == sid then l == sh.local - {phone}
            else l == sh.local
  {
    hide PublishItems, PublishReport, BatchOf, Bump, Written;
  }

  lemma ClosersAfter(sh: Shared, sid: Sid, op: Op, env: Env)
    requires sid in sh.sess
    ensures After(sh, sid, op, env).closers == if op.ScheduleClose? then sh.closers + multiset{sid} else sh.closers
  {
    hide PublishItems, PublishReport, BatchOf, Bump, Written;
  }

  lemma {:induction false} AlwaysWellFormed(run: seq<Action>)
    ensures WellFormed(Execute(run))
  {
    if run != [] {
      var sys, a := Execute(run[..|run| - 1]), run[|run| - 1];
      AlwaysWellFormed(run[..|run| - 1]);
      if Enabled(sys, a) {
        NextWellFormed(sys, a);
      }
    }
  }

  lemma NextWellFormed(sys: System, a: Action)
    requires WellFormed(sys) && Enabled(sys, a)
    ensures WellFormed(Next(sys, a))
  {
    hide After, Then, Record, Program;
    if a.Run? {
      RegistryAfter(sys.shared, a.sid, sys.threads[a.sid].todo[0], a.env);
    }
  }

  // ---- the gate ----

  /** The state a session is in after an event, by the record. */
  function Mark(state: State, e: Event, sid: Sid): State {
    match e
    case Enrolled(t) => if t == sid then Registered else state
    case Admitted(t) => if t == sid then Authenticated else state
    case Dropped(t) => if t == sid then Closing else state
    case _ => state
  }

  /** The state the latest registration, admission or closing of sid in events left it in. */
  function Marked(state: State, events: seq<Event>, sid: Sid): State {
    if events == [] then state else Mark(Marked(state, events[..|events| - 1], sid), events[|events| - 1], sid)
  }

  lemma MarkedFew(state: State, e: Event, f: Event, sid: Sid)
    ensures Marked(state, [], sid) == state
    ensures Marked(state, [e], sid) == Mark(state, e, sid)
    ensures Marked(state, [e] + [f], sid) == Mark(Mark(state, e, sid), f, sid)
  {
    assert [e][..0] == [] && ([e] + [f])[..1] == [e];
  }

  lemma {:induction false} MarkedConcat(state: State, a: seq<Event>, b: seq<Event>, sid: Sid)
    ensures Marked(state, a + b, sid) == Marked(Marked(state, a, sid), b, sid)
  {
    if b == [] {
      assert a + b == a;
    } else {
      assert (a + b)[..|a + b| - 1] == a + b[..|b| - 1];
      MarkedConcat(state, a, b[..|b| - 1], sid);
    }
  }

  /** What the record of an operation makes of the state of a session. */
  lemma RecordMarks(sh: Shared, sid: Sid, op: Op, env: Env, state: State, other: Sid)
    requires sid in sh.sess
    ensures Marked(state, Record(sh, sid, op, env), other) ==
            if op.MarkRegistered? && other == sid then Registered
            else if op.MarkAuthenticated? && other == sid then Authenticated
            else if op.Register? && Displaces(sh, sid) && other == sh.local[sh.sess[sid].phone] then Closing
            else state
  {
    hide Marked, Displaces;
    var events := Record(sh, sid, op, env);
    if events == [] {
      MarkedFew(state, Admitted(sid), Admitted(sid), other);
    } else {
      var last := events[|events| - 1];
      MarkedFew(state, events[0], last, other);
      assert events == [events[0]] || events == [events[0]] + [last];
    }
  }

  /** Operations change states only as they record it. */
  lemma StatesMarked(sh: Shared, sid: Sid, op: Op, env: Env, other: Sid)
    requires sid in sh.sess
    ensures if other in sh.sess
            then After(sh, sid, op, env).sess[other].state == Marked(sh.sess[other].state, Record(sh, sid, op, env), other)
            else Marked(Connected, Record(sh, sid, op, env), other) == Connected
  {
    hide After, Written, Marked, Record, AckBody;
    if other in sh.sess {
      SessionAfter(sh, sid, op, env, other);
      RecordMarks(sh, sid, op, env, sh.sess[other].state, other);
    } else {
      RecordMarks(sh, sid, op, env, Connected, other);
    }
  }

  function StateOf(sys: System, sid: Sid): State {
    if sid in sys.shared.sess then sys.shared.sess[sid].state else Connected
  }

  /** Every request so far passed the gate exactly when it should have, given the record before it. */
  ghost predicate GateRecord(log: seq<Event>) {
    forall i :: 0 <= i < |log| && log[i].Request? ==>
      log[i].passed == (PreAuth(log[i].frame.msgId) || Marked(Connected, log[..i], log[i].sid) in {Authenticated, Closing})
  }

  ghost predicate GateInvariant(sys: System) {
    && GateRecord(sys.log)
    && forall sid :: Marked(Connected, sys.log, sid) == StateOf(sys, sid)
  }

  lemma GateRecordGrows(log: seq<Event>, more: seq<Event>)
    requires GateRecord(log) && forall k :: 0 <= k < |more| ==> !more[k].Request?
    ensures GateRecord(log + more)
  {
    hide Marked;
    forall i | 0 <= i < |log + more| && (log + more)[i].Request?
      ensures (log + more)[i].passed == (PreAuth((log + more)[i].frame.msgId) ||
                Marked(Connected, (log + more)[..i], (log + more)[i].sid) in {Authenticated, Closing})
    {
      assert (log + more)[..i] == log[..i];
    }
  }

  lemma NextKeepsGate(sys: System, a: Action)
    requires WellFormed(sys) && GateInvariant(sys) && Enabled(sys, a)
    ensures GateInvariant(Next(sys, a))
  {
    var sys' := Next(sys, a);
    if a.Receive? {
      var e := Request(a.sid, a.frame, Passes(sys.shared.sess[a.sid].state, a.frame.msgId));
      forall i | 0 <= i < |sys'.log| && sys'.log[i].Request?
        ensures sys'.log[i].passed == (PreAuth(sys'.log[i].frame.msgId) ||
                  Marked(Connected, sys'.log[..i], sys'.log[i].sid) in {Authenticated, Closing})
      {
        assert sys'.log[..i] == sys.log[..i];
        assert i == |sys.log| ==> sys.log[..i] == sys.log;
      }
    } else {
      var more := sys'.log[|sys.log|..];
      assert sys'.log == sys.log + more;
      NoRequests(sys, a);
      GateRecordGrows(sys.log, more);
    }
    forall sid ensures Marked(Connected, sys'.log, sid) == StateOf(sys', sid) {
      NextMarks(sys, a, sid);
    }
  }

  lemma NoRequests(sys: System, a: Action)
    requires Enabled(sys, a) && !a.Receive?
    ensures var l := Next(sys, a).log; sys.log <= l && forall k :: |sys.log| <= k < |l| ==> !l[k].Request?
  {
    hide After, Program;
  }

  lemma NextMarks(sys: System, a: Action, sid: Sid)
    requires WellFormed(sys) && Enabled(sys, a)
    requires Marked(Connected, sys.log, sid) == StateOf(sys, sid)
    ensures Marked(Connected, Next(sys, a).log, sid) == StateOf(Next(sys, a), sid)
  {
    hide After, Then, Record, Program, Marked;
    var more := Next(sys, a).log[|sys.log|..];
    match a {
      case Run(t, env) =>
        var op := sys.threads[t].todo[0];
        MarkedConcat(Connected, sys.log, Record(sys.shared, t, op, env), sid);
        StatesMarked(sys.shared, t, op, env, sid);
      case Receive(t, f, _) =>
        MarkedSnoc(sys.log, more[0], sid);
      case CloseStart(t) =>
        MarkedSnoc(sys.log, more[0], sid);
      case Expire(_) =>
        MarkedSnoc(sys.log, more[0], sid);
      case _ =>
    }
  }

  lemma MarkedSnoc(log: seq<Event>, e: Event, sid: Sid)
    ensures Marked(Connected, log + [e], sid) == Mark(Marked(Connected, log, sid), e, sid)
  {
    assert (log + [e])[..|log|] == log;
  }

  /**
    The gate, over whole runs: a message passes exactly when it is one of the five that need no
    authentication, or the latest event that set the session's state was a successful
    authentication or a close, whatever registrations, timers and displacements came before.
  */
  lemma {:induction false} GateIsExact(run: seq<Action>)
    ensures GateInvariant(Execute(run))
  {
    if run != [] {
      var sys, a := Execute(run[..|run| - 1]), run[|run| - 1];
      GateIsExact(run[..|run| - 1]);
      AlwaysWellFormed(run[..|run| - 1]);
      if Enabled(sys, a) {
        NextKeepsGate(sys, a);
      }
    }
  }
}
