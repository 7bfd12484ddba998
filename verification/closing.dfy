/** How connections come to their end: by their goroutine, by displacement, or by a delayed close. */
module Closing {
  import opened Bytes
  import opened Wire
  import opened World
  import opened Runs
  import opened Sequential

  // ---- leaving ----

  /** The other sessions stay as they are, and all phones. */
  ghost predicate OthersSame(before: Shared, after: Shared, sid: Sid)
    requires sid in before.sess
  {
    && after.sess.Keys == before.sess.Keys && after.sess[sid].phone == before.sess[sid].phone
    && forall t :: t in before.sess && t != sid ==> after.sess[t] == before.sess[t]
  }

  lemma FarewellStep(sh: Shared, sid: Sid, op: Op, env: Env)
    requires sid in sh.sess && (op.StopTimer? || op.Unregister? || op.Shut?)
    ensures var sh' := After(sh, sid, op, env);
            && OthersSame(sh, sh', sid)
            && sh'.sess[sid] == (if op.Shut? then sh.sess[sid].(open := false) else sh.sess[sid])
            && sh'.authTimers == (if op.StopTimer? then sh.authTimers - {sid} else sh.authTimers)
            && sh'.jobs == sh.jobs + (if op.Unregister? && sh.sess[sid].phone != [] then [GoOffline(sid)] else [])
            && sh'.closers == sh.closers && sh'.tokens == sh.tokens && sh'.metrics == sh.metrics && sh'.published == sh.published
            && sh'.local == if op.Unregister? && sh.sess[sid].phone != [] && sh.sess[sid].phone in sh.local
                               && sh.local[sh.sess[sid].phone] == sid
                            then sh.local - {sh.sess[sid].phone} else sh.local
  {
    hide PublishItems, PublishReport, BatchOf, Bump, Displaces, CloseSess;
    assert sh.jobs + [] == sh.jobs;
  }

  /**
    A connection that ends: its socket is closed, its timer is stopped, its entry in the registry
    is gone if it is its own, its phone, if it has one, is taken off the online set. Nothing else
    changes.
  */
  lemma LeavingCloses(sh: Shared, sid: Sid, env: Env)
    requires sid in sh.sess
    ensures var s, sh' := sh.sess[sid], Leave(sh, sid, env);
            && sh'.sess == sh.sess[sid := s.(open := false)]
            && sh'.authTimers == sh.authTimers - {sid}
            && sh'.jobs == sh.jobs + (if s.phone != [] then [GoOffline(sid)] else [])
            && sh'.closers == sh.closers && sh'.tokens == sh.tokens && sh'.metrics == sh.metrics && sh'.published == sh.published
            && sh'.local == if s.phone != [] && s.phone in sh.local && sh.local[s.phone] == sid
                            then sh.local - {s.phone} else sh.local
  {
    hide RunOps, After;
    RunThree(sh, sid, StopTimer, Unregister, Shut, env);
    var sh1 := After(sh, sid, StopTimer, env);
    var sh2 := After(sh1, sid, Unregister, env);
    FarewellStep(sh, sid, StopTimer, env);
    FarewellStep(sh1, sid, Unregister, env);
    FarewellStep(sh2, sid, Shut, env);
    assert Leave(sh, sid, env).sess == sh.sess[sid := sh.sess[sid].(open := false)];
    assert sh.jobs + [] == sh.jobs && forall j: seq<Job> :: j + [] == j;
  }

  // ---- what happened in a run ----

  predicate Early(state: State) {
    state == Connected || state == Registered
  }

  /** a orders a delayed close of sid: its timer fires before it is authenticated, or it is refused. */
  predicate Orders(sys: System, a: Action, sid: Sid) {
    Enabled(sys, a) &&
    match a
    case AuthTimeout(t) => t == sid && Early(sys.shared.sess[sid].state)
    case Run(t, _) => t == sid && sys.threads[sid].todo[0].ScheduleClose?
    case _ => false
  }

  /** a registers another session under the phone sid is registered for. */
  predicate Ousts(sys: System, a: Action, sid: Sid) {
    Enabled(sys, a) && a.Run? && a.sid != sid && sys.threads[a.sid].todo[0].Register? &&
    var phone := sys.shared.sess[a.sid].phone;
    phone in sys.shared.local && sys.shared.local[phone] == sid
  }

  /** How often something happened to sid in a run. */
  datatype Past = Past(ordered: nat, begun: nat, ended: nat, fired: nat, ousted: nat)

  function PastOf(run: seq<Action>, sid: Sid): Past {
    if run == [] then Past(0, 0, 0, 0, 0)
    else
      Later(PastOf(run[..|run| - 1], sid), Execute(run[..|run| - 1]), run[|run| - 1], sid)
  }

  function Later(p: Past, sys: System, a: Action, sid: Sid): Past {
    Past(p.ordered + (if Orders(sys, a, sid) then 1 else 0),
         p.begun + (if Enabled(sys, a) && a == CloseStart(sid) then 1 else 0),
         p.ended + (if Enabled(sys, a) && a == CloseEnd(sid) then 1 else 0),
         p.fired + (if Enabled(sys, a) && a == AuthTimeout(sid) then 1 else 0),
         p.ousted + (if Ousts(sys, a, sid) then 1 else 0))
  }

  /** A goroutine that serves has no farewell to perform; one that does not serve has only that, or what is left of it. */
  predicate Staged(t: Thread) {
    if t.serving then
      forall op :: op in t.todo ==>
        !op.StopTimer? && !op.Unregister? && !op.Shut? && (op.Reply? ==> OnlyPublishes(op.onSuccess))
    else t.todo == FAREWELL || t.todo == [Unregister, Shut] || t.todo == [Shut] || t.todo == []
  }

  predicate Gone(t: Thread) {
    !t.serving && t.todo == []
  }

  predicate TimerStopped(t: Thread) {
    !t.serving && t.todo != FAREWELL
  }

  /** How a session stands, given its past. */
  ghost predicate Stands(sys: System, sid: Sid, p: Past)
    requires WellFormed(sys)
  {
    if sid !in sys.shared.sess then
      && p == Past(0, 0, 0, 0, 0) && sid !in sys.shared.authTimers
      && sys.shared.closers[sid] == 0 && sys.shutters[sid] == 0
    else
      var t := sys.threads[sid];
      && Staged(t)
      && sys.shared.closers[sid] + p.begun == p.ordered
      && sys.shutters[sid] + p.ended == p.begun
      && (sys.shared.sess[sid].open <==> p.ended == 0 && p.ousted == 0 && !Gone(t))
      && (sid in sys.shared.authTimers <==> p.fired == 0 && !TimerStopped(t))
  }

  // ---- one operation ----

  lemma StagedProgram(state: State, f: Frame, env: Env)
    ensures Staged(Thread(Program(state, f, env), true)) && Staged(Thread(FAREWELL, false)) && Staged(Thread([], true))
  {
    hide Registration.Decode, Token, AckBody, RegistrationAckBody;
  }

  lemma StagedGoesOn(sh: Shared, sid: Sid, t: Thread, env: Env)
    requires sid in sh.sess && Staged(t) && t.todo != []
    ensures Staged(Thread(Then(sh, sid, t.todo[0], env) + t.todo[1..], t.serving))
    ensures !t.serving ==> Then(sh, sid, t.todo[0], env) + t.todo[1..] == t.todo[1..]
    ensures !t.serving ==> t.todo[0] == (if |t.todo| == 3 then StopTimer else if |t.todo| == 2 then Unregister else Shut)
  {
    hide AckBody;
    assert t.todo[0] in t.todo;
    var next := Then(sh, sid, t.todo[0], env);
    if t.serving {
      forall op | op in next + t.todo[1..]
        ensures !op.StopTimer? && !op.Unregister? && !op.Shut? && (op.Reply? ==> OnlyPublishes(op.onSuccess))
      {
        assert op in next || op in t.todo;
      }
    }
  }

  /** What an operation does to whether its own session is open. */
  lemma OwnOpen(s: Sess, op: Op, env: Env)
    ensures Own(s, op, env).open == (s.open && !op.Shut?)
  {
  }

  lemma TimersAfter(sh: Shared, sid: Sid, op: Op, env: Env)
    requires sid in sh.sess
    ensures After(sh, sid, op, env).authTimers == if op.StopTimer? then sh.authTimers - {sid} else sh.authTimers
  {
    hide PublishItems, PublishReport, BatchOf, Bump, Written;
  }

  lemma RunStands(sys: System, actor: Sid, env: Env, sid: Sid, p: Past)
    requires WellFormed(sys) && Enabled(sys, Run(actor, env)) && WellFormed(Next(sys, Run(actor, env))) && Stands(sys, sid, p)
    ensures Stands(Next(sys, Run(actor, env)), sid, Later(p, sys, Run(actor, env), sid))
  {
    hide Next, After, Then, Record, Own, Staged;
    CanRun(sys, actor, env);
    NextRun(sys, actor, env);
    RunKeepsShutters(sys, actor, env);
    var sh, t := sys.shared, sys.threads[actor];
    var op := t.todo[0];
    ClosersAfter(sh, actor, op, env);
    TimersAfter(sh, actor, op, env);
    if sid in sh.sess {
      SessionAfter(sh, actor, op, env, sid);
      if sid == actor {
        OwnOpen(sh.sess[sid], op, env);
        StagedGoesOn(sh, sid, t, env);
        StagedHead(t);
      }
    }
  }

  lemma StagedHead(t: Thread)
    requires Staged(t) && t.todo != []
    ensures t.serving ==> !t.todo[0].StopTimer? && !t.todo[0].Shut?
    ensures !t.serving ==> |t.todo| <= 3 && (t.todo == FAREWELL <==> |t.todo| == 3)
    ensures !t.serving ==> |t.todo[1..]| == |t.todo| - 1
  {
    assert t.todo[0] in t.todo;
  }

  lemma RunKeepsShutters(sys: System, actor: Sid, env: Env)
    requires Enabled(sys, Run(actor, env))
    ensures Next(sys, Run(actor, env)).shutters == sys.shutters
  {
  }

  // ---- the other actions ----

  /** The kinds of actions of the surroundings that concern a connection. */
  predicate Concerns(a: Action, sid: Sid) {
    match a
    case Accept(t) => t == sid
    case Receive(t, _, _) => t == sid
    case ReadFail(t) => t == sid
    case AuthTimeout(t) => t == sid
    case CloseStart(t) => t == sid
    case CloseEnd(t) => t == sid
    case _ => false
  }

  lemma UnconcernedStands(sys: System, a: Action, sid: Sid, p: Past)
    requires WellFormed(sys) && Enabled(sys, a) && !a.Run? && WellFormed(Next(sys, a)) && Stands(sys, sid, p) && !Concerns(a, sid)
    ensures Stands(Next(sys, a), sid, Later(p, sys, a, sid))
  {
    hide Staged, WellFormed;
    Unconcerned(sys, a, sid);
    assert Later(p, sys, a, sid) == p;
    hide Next, Enabled;
  }

  lemma Unconcerned(sys: System, a: Action, sid: Sid)
    requires Enabled(sys, a) && !a.Run? && !Concerns(a, sid)
    ensures var sh, sh' := sys.shared, Next(sys, a).shared;
            && (sid in sh.sess <==> sid in sh'.sess) && (sid in sh.sess ==> sh'.sess[sid] == sh.sess[sid])
            && (sid in sys.threads ==> sid in Next(sys, a).threads && Next(sys, a).threads[sid] == sys.threads[sid])
            && sh'.closers[sid] == sh.closers[sid] && Next(sys, a).shutters[sid] == sys.shutters[sid]
            && (sid in sh'.authTimers <==> sid in sh.authTimers)
    ensures !Orders(sys, a, sid) && !Ousts(sys, a, sid)
  {
    hide Program, Perform;
    match a {
      case Accept(t) =>
      case Receive(t, f, env) =>
      case ReadFail(t) =>
      case AuthTimeout(t) =>
      case CloseStart(t) =>
      case CloseEnd(t) =>
      case RunJob(_, _) =>
      case Prune(_) =>
      case Expire(_) =>
      case Run(_, _) =>
    }
  }

  lemma GoroutineStands(sys: System, a: Action, sid: Sid, p: Past)
    requires WellFormed(sys) && Enabled(sys, a) && WellFormed(Next(sys, a)) && Stands(sys, sid, p)
    requires a == Accept(sid) || (a.Receive? && a.sid == sid) || a == ReadFail(sid)
    ensures Stands(Next(sys, a), sid, Later(p, sys, a, sid))
  {
    hide Program, Staged;
    var state := if a.Receive? then sys.shared.sess[sid].state else Connected;
    var f := if a.Receive? then a.frame else NOTHING;
    var env := if a.Receive? then a.env else CALM;
    StagedProgram(state, f, env);
    assert Later(p, sys, a, sid) == p;
  }

  lemma TimerStands(sys: System, sid: Sid, p: Past)
    requires WellFormed(sys) && Enabled(sys, AuthTimeout(sid)) && WellFormed(Next(sys, AuthTimeout(sid))) && Stands(sys, sid, p)
    ensures Stands(Next(sys, AuthTimeout(sid)), sid, Later(p, sys, AuthTimeout(sid), sid))
  {
    hide Staged;
  }

  lemma CloseStands(sys: System, a: Action, sid: Sid, p: Past)
    requires WellFormed(sys) && Enabled(sys, a) && WellFormed(Next(sys, a)) && Stands(sys, sid, p)
    requires a == CloseStart(sid) || a == CloseEnd(sid)
    ensures Stands(Next(sys, a), sid, Later(p, sys, a, sid))
  {
    hide Staged;
  }

  lemma OtherStands(sys: System, a: Action, sid: Sid, p: Past)
    requires WellFormed(sys) && Enabled(sys, a) && !a.Run? && WellFormed(Next(sys, a)) && Stands(sys, sid, p)
    ensures Stands(Next(sys, a), sid, Later(p, sys, a, sid))
  {
    hide Next, Enabled, Stands, Later, WellFormed;
    if !Concerns(a, sid) {
      UnconcernedStands(sys, a, sid, p);
    } else if a.AuthTimeout? {
      TimerStands(sys, sid, p);
    } else if a.CloseStart? || a.CloseEnd? {
      CloseStands(sys, a, sid, p);
    } else {
      GoroutineStands(sys, a, sid, p);
    }
  }

  const NOTHING: Frame := Frame(0, [], 0, [], false, 0, 0)
  const CALM: Env := Env(true, true, Approved, 0)

  // ---- whole runs ----

  /**
    In every run: each close that was ordered is pending or has begun, and each that has begun is
    under way or has ended; a connection is open exactly if no close of it has ended, nobody
    ousted it and its goroutine has not finished; its timer is armed exactly if it has neither
    fired nor been stopped by the goroutine's farewell.
  */
  lemma {:induction false} EveryConnectionStands(run: seq<Action>, sid: Sid)
    ensures WellFormed(Execute(run)) && Stands(Execute(run), sid, PastOf(run, sid))
  {
    hide Next, Enabled, Stands, Later;
    AlwaysWellFormed(run);
    if run == [] {
      AtFirst(sid);
    } else {
      var init := run[..|run| - 1];
      var sys, a := Execute(init), run[|run| - 1];
      EveryConnectionStands(init, sid);
      if Enabled(sys, a) {
        if a.Run? {
          RunStands(sys, a.sid, a.env, sid, PastOf(init, sid));
        } else {
          OtherStands(sys, a, sid, PastOf(init, sid));
        }
      } else {
        NothingHappens(sys, a, sid, PastOf(init, sid));
      }
    }
  }

  lemma NothingHappens(sys: System, a: Action, sid: Sid, p: Past)
    requires !Enabled(sys, a)
    ensures Later(p, sys, a, sid) == p
  {
  }

  lemma AtFirst(sid: Sid)
    ensures Stands(INIT, sid, Past(0, 0, 0, 0, 0))
  {
  }

  /** So in every run a goroutine that has finished has left a closed connection and no armed timer. */
  lemma GoneIsClosed(run: seq<Action>, sid: Sid)
    requires var sys := Execute(run); sid in sys.threads && !sys.threads[sid].serving && sys.threads[sid].todo == []
    ensures var sys := Execute(run); sid in sys.shared.sess && !sys.shared.sess[sid].open && sid !in sys.shared.authTimers
  {
    hide Execute, PastOf;
    EveryConnectionStands(run, sid);
  }

  /** A connection that stays silent is closed once its timer has fired: there is such a run, and it ends in the state Closing. */
  lemma SilenceIsClosed(sid: Sid) returns (run: seq<Action>)
    ensures run == [Accept(sid), AuthTimeout(sid), CloseStart(sid), CloseEnd(sid)]
    ensures var sys := Execute(run);
            && sid in sys.shared.sess && !sys.shared.sess[sid].open && sys.shared.sess[sid].state == World.Closing
            && PastOf(run, sid) == Past(1, 1, 1, 1, 0)
  {
    hide PastOf, Execute, Next, Later, Enabled;
    var a, b, c, d := Accept(sid), AuthTimeout(sid), CloseStart(sid), CloseEnd(sid);
    run := [a, b, c, d];
    assert [a] == [] + [a] && [a, b] == [a] + [b] && [a, b, c] == [a, b] + [c] && run == [a, b, c] + [d];
    NoPast(sid);
    OneMore([], a);
    PastSnoc([], a, sid);
    AfterAccept(sid);
    OneMore([a], b);
    PastSnoc([a], b, sid);
    AfterTimeout(Execute([a]), sid, PastOf([a], sid));
    OneMore([a, b], c);
    PastSnoc([a, b], c, sid);
    AfterClose(Execute([a, b]), sid, PastOf([a, b], sid));
    OneMore([a, b, c], d);
    PastSnoc([a, b, c], d, sid);
  }

  /** A connection starts without phone, IMEI and token, unauthenticated, its counter at zero, nothing written, its timer armed. */
  lemma StartsFresh(run: seq<Action>, sid: Sid)
    requires sid !in Execute(run).shared.sess
    ensures var sys, sys' := Execute(run), Execute(run + [Accept(sid)]);
            && sys'.shared == sys.shared.(sess := sys.shared.sess[sid := Sess([], [], [], Connected, 0, true, [])],
                                          authTimers := sys.shared.authTimers + {sid})
            && sys'.shared == Accepted(sys.shared, sid) && Idle(sys', sid)
  {
    OneMore(run, Accept(sid));
  }

  lemma AfterAccept(sid: Sid)
    ensures Enabled(INIT, Accept(sid))
    ensures var sys := Next(INIT, Accept(sid));
            && sid in sys.shared.sess && sys.shared.sess[sid] == FRESH && sid in sys.shared.authTimers
            && sys.shared.closers == multiset{} && sys.shutters == multiset{}
    ensures Later(Past(0, 0, 0, 0, 0), INIT, Accept(sid), sid) == Past(0, 0, 0, 0, 0)
  {
  }

  lemma AfterTimeout(sys: System, sid: Sid, p: Past)
    requires sid in sys.shared.sess && sys.shared.sess[sid] == FRESH && sid in sys.shared.authTimers
    requires sys.shared.closers == multiset{} && sys.shutters == multiset{}
    ensures Enabled(sys, AuthTimeout(sid))
    ensures var sys' := Next(sys, AuthTimeout(sid));
            && sys'.shared.sess == sys.shared.sess && sys'.shared.closers == multiset{sid} && sys'.shutters == multiset{}
    ensures Later(p, sys, AuthTimeout(sid), sid) == p.(ordered := p.ordered + 1, fired := p.fired + 1)
  {
  }

  lemma AfterClose(sys: System, sid: Sid, p: Past)
    requires sid in sys.shared.sess && sys.shared.closers == multiset{sid} && sys.shutters == multiset{}
    ensures Enabled(sys, CloseStart(sid)) && Enabled(Next(sys, CloseStart(sid)), CloseEnd(sid))
    ensures var sess := Next(Next(sys, CloseStart(sid)), CloseEnd(sid)).shared.sess;
            sid in sess && !sess[sid].open && sess[sid].state == World.Closing
    ensures Later(Later(p, sys, CloseStart(sid), sid), Next(sys, CloseStart(sid)), CloseEnd(sid), sid)
         == p.(begun := p.begun + 1, ended := p.ended + 1)
  {
  }

  lemma NoPast(sid: Sid)
    ensures PastOf([], sid) == Past(0, 0, 0, 0, 0) && Execute([]) == INIT
  {
  }

  lemma PastSnoc(run: seq<Action>, a: Action, sid: Sid)
    ensures PastOf(run + [a], sid) == Later(PastOf(run, sid), Execute(run), a, sid)
  {
    assert (run + [a])[..|run|] == run;
  }

  /** A whole connection, run without interruption, ends closed and without a timer. */
  lemma {:induction false} ServeCloses(sh: Shared, sid: Sid, input: seq<Byte>, envs: nat -> Env, k: nat)
    requires sid in sh.sess
    ensures var sh' := Serve(sh, sid, input, envs, k);
            sid in sh'.sess && !sh'.sess[sid].open && sid !in sh'.authTimers
    decreases |input|
  {
    hide Read, Dispatch, Leave;
    var r := Read(input);
    match r.outcome {
      case Ok(f) => ServeCloses(Dispatch(sh, sid, f, envs(k)), sid, input[r.used..], envs, k + 1);
      case Err(_) => LeavingCloses(sh, sid, envs(k));
    }
  }
}
