/** What the registry of live connections keeps under every interleaving. */
module RegistrySafety {
  import opened Bytes
  import opened Wire
  import opened World
  import opened Runs

  // ---- the registry follows the record ----

  datatype Holder = Nobody | Held(sid: Sid)

  /** Who holds a phone by the record: the last to join under it, unless that session has since left under it. */
  function HolderOf(log: seq<Event>, phone: Text): Holder {
    if log == [] then Nobody
    else
      var e, before := log[|log| - 1], HolderOf(log[..|log| - 1], phone);
      if e.Joined? && e.phone == phone then Held(e.sid)
      else if e.Left? && e.phone == phone && phone != [] && before == Held(e.sid) then Nobody
      else before
  }

  lemma HolderSnoc(log: seq<Event>, e: Event, phone: Text)
    ensures var before := HolderOf(log, phone);
            HolderOf(log + [e], phone) ==
            if e.Joined? && e.phone == phone then Held(e.sid)
            else if e.Left? && e.phone == phone && phone != [] && before == Held(e.sid) then Nobody
            else before
  {
    assert (log + [e])[..|log|] == log;
  }

  /** A session that joined under a phone at i and is the last to have done so, and has not left under it. */
  predicate LastJoined(log: seq<Event>, phone: Text, sid: Sid, i: nat) {
    && i < |log| && log[i] == Joined(sid, phone)
    && forall j :: i < j < |log| ==>
         !(log[j].Joined? && log[j].phone == phone) && !(log[j] == Left(sid, phone) && phone != [])
  }

  /** The same said of the record as a whole. */
  lemma {:induction false} HolderMeans(log: seq<Event>, phone: Text, sid: Sid)
    ensures HolderOf(log, phone) == Held(sid) <==> exists i :: LastJoined(log, phone, sid, i)
  {
    if log != [] {
      var n := |log| - 1;
      var init, e := log[..n], log[n];
      HolderMeans(init, phone, sid);
      if HolderOf(log, phone) == Held(sid) {
        if e.Joined? && e.phone == phone {
          assert LastJoined(log, phone, sid, n);
        } else {
          var i :| LastJoined(init, phone, sid, i);
          assert LastJoined(log, phone, sid, i);
        }
      }
      if i: nat :| LastJoined(log, phone, sid, i) {
        if i < n {
          assert LastJoined(init, phone, sid, i);
        }
      }
    }
  }

  function EntryOf(local: map<Text, Sid>, phone: Text): Holder {
    if phone in local then Held(local[phone]) else Nobody
  }

  lemma EntryAfter(sh: Shared, actor: Sid, op: Op, env: Env, log: seq<Event>, phone: Text)
    requires actor in sh.sess && EntryOf(sh.local, phone) == HolderOf(log, phone)
    ensures EntryOf(After(sh, actor, op, env).local, phone) == HolderOf(log + Record(sh, actor, op, env), phone)
  {
    hide After, HolderOf;
    var r := Record(sh, actor, op, env);
    RegistryAfter(sh, actor, op, env);
    if |r| == 1 {
      HolderSnoc(log, r[0], phone);
      assert log + r == log + [r[0]];
    } else if |r| == 2 {
      HolderSnoc(log, r[0], phone);
      HolderSnoc(log + [r[0]], r[1], phone);
      assert log + r == log + [r[0]] + [r[1]];
    } else {
      assert log + r == log;
    }
  }

  lemma EntryStays(sys: System, a: Action, phone: Text)
    requires Enabled(sys, a) && !a.Run? && EntryOf(sys.shared.local, phone) == HolderOf(sys.log, phone)
    ensures EntryOf(Next(sys, a).shared.local, phone) == HolderOf(Next(sys, a).log, phone)
  {
    hide Next, Enabled, HolderOf;
    var sys' := Next(sys, a);
    QuietAction(sys, a, 0);
    QuietLog(sys, a);
    if sys'.log != sys.log {
      var e :| sys'.log == sys.log + [e] && (e.Request? || e.Dropped? || e.Expired?);
      HolderSnoc(sys.log, e, phone);
    }
  }

  /**
    The exact content of the registry, in every run, whatever phones the connections use: a phone
    is registered for the session that was the last to join under it and has not left under it.
  */
  lemma {:induction false} RegistryIsRecord(run: seq<Action>, phone: Text)
    ensures EntryOf(Execute(run).shared.local, phone) == HolderOf(Execute(run).log, phone)
  {
    hide Next, Enabled;
    if run == [] {
      assert INIT.log == [];
    } else {
      var sys, a := Execute(run[..|run| - 1]), run[|run| - 1];
      RegistryIsRecord(run[..|run| - 1], phone);
      if Enabled(sys, a) {
        if a.Run? {
          CanRun(sys, a.sid, a.env);
          NextRun(sys, a.sid, a.env);
          EntryAfter(sys.shared, a.sid, sys.threads[a.sid].todo[0], a.env, sys.log, phone);
        } else {
          EntryStays(sys, a, phone);
        }
      }
    }
  }

  /**
    So in every run a late unregistration leaves the phones of all successors registered to them,
    however often phones and sessions changed before.
  */
  lemma UnregisterSparesSuccessor(run: seq<Action>, sid: Sid, env: Env, phone: Text, successor: Sid)
    requires Enabled(Execute(run), Run(sid, env)) && Execute(run).threads[sid].todo[0].Unregister?
    requires HolderOf(Execute(run).log, phone) == Held(successor) && successor != sid
    ensures EntryOf(Execute(run + [Run(sid, env)]).shared.local, phone) == Held(successor)
  {
    hide Next, HolderOf, Execute;
    var sys, s := Execute(run), Execute(run).shared.sess[sid];
    RegistryIsRecord(run + [Run(sid, env)], phone);
    OneMore(run, Run(sid, env));
    NextRun(sys, sid, env);
    HolderSnoc(sys.log, Left(sid, s.phone), phone);
    assert Record(sys.shared, sid, Unregister, env) == [Left(sid, s.phone)];
  }

  // ---- the life of a session, by the record ----

  datatype Life = Life(admitted: bool, joined: bool, left: bool)

  const UNBORN: Life := Life(false, false, false)

  function Live(l: Life, e: Event, sid: Sid): Life {
    match e
    case Admitted(t) => if t == sid then l.(admitted := true) else l
    case Joined(t, _) => if t == sid then l.(joined := true) else l
    case Left(t, _) => if t == sid then l.(left := true) else l
    case _ => l
  }

  function LifeOf(log: seq<Event>, sid: Sid): Life {
    if log == [] then UNBORN else Live(LifeOf(log[..|log| - 1], sid), log[|log| - 1], sid)
  }

  lemma LifeSnoc(log: seq<Event>, e: Event, sid: Sid)
    ensures LifeOf(log + [e], sid) == Live(LifeOf(log, sid), e, sid)
  {
    assert (log + [e])[..|log|] == log;
  }

  /** How an operation of sid changes the lives on record. */
  function OwnLife(l: Life, op: Op): Life {
    match op
    case MarkAuthenticated => l.(admitted := true)
    case Register => l.(joined := true)
    case Unregister => l.(left := true)
    case _ => l
  }

  lemma LifeAfter(log: seq<Event>, sh: Shared, sid: Sid, op: Op, env: Env, other: Sid)
    requires sid in sh.sess
    ensures LifeOf(log + Record(sh, sid, op, env), other) == if other == sid then OwnLife(LifeOf(log, other), op) else LifeOf(log, other)
  {
    hide LifeOf;
    var r := Record(sh, sid, op, env);
    if |r| == 1 {
      LifeSnoc(log, r[0], other);
      assert log + r == log + [r[0]];
    } else if |r| == 2 {
      LifeSnoc(log, r[0], other);
      LifeSnoc(log + [r[0]], r[1], other);
      assert log + r == log + [r[0]] + [r[1]];
    } else {
      assert log + r == log;
    }
  }

  // ---- what a goroutine may still do ----

  predicate Names(op: Op) {
    op.Identify? || op.AdoptPhone?
  }

  /** May op come next in a serving session that has, or has not yet, its phone and its admission? */
  predicate InPlace(op: Op, named: bool, admitted: bool, owner: Text) {
    match op
    case Identify(phone, _) => phone == owner
    case AdoptPhone(phone) => phone == owner
    case Validate(_) => named
    case Register => named && admitted
    case Reply(_, _, onSuccess) => OnlyPublishes(onSuccess)
    case StopTimer => false
    case Unregister => false
    case Shut => false
    case _ => true
  }

  /** The operations left keep to the phone of the connection and come in order. */
  predicate Serving(ops: seq<Op>, named: bool, admitted: bool, owner: Text) {
    ops == [] ||
    (InPlace(ops[0], named, admitted, owner) &&
     Serving(ops[1..], named || Names(ops[0]), admitted || ops[0].MarkAuthenticated?, owner))
  }

  predicate Orderly(todo: seq<Op>, serving: bool, phone: Text, l: Life, owner: Text) {
    if serving then !l.left && Serving(todo, phone != [], l.admitted, owner)
    else if l.left then todo == [Shut] || todo == []
    else todo == FAREWELL || todo == [Unregister, Shut]
  }

  lemma ServingCons(op: Op, rest: seq<Op>, named: bool, admitted: bool, owner: Text)
    ensures Serving([op] + rest, named, admitted, owner) <==>
            InPlace(op, named, admitted, owner) && Serving(rest, named || Names(op), admitted || op.MarkAuthenticated?, owner)
  {
    assert ([op] + rest)[1..] == rest;
  }

  lemma {:induction false} ServingMonotone(ops: seq<Op>, named: bool, admitted: bool, named': bool, admitted': bool, owner: Text)
    requires Serving(ops, named, admitted, owner) && (named ==> named') && (admitted ==> admitted')
    ensures Serving(ops, named', admitted', owner)
  {
    if ops != [] {
      ServingMonotone(ops[1..], named || Names(ops[0]), admitted || ops[0].MarkAuthenticated?,
                      named' || Names(ops[0]), admitted' || ops[0].MarkAuthenticated?, owner);
    }
  }

  lemma {:induction false} ServingConcat(a: seq<Op>, b: seq<Op>, named: bool, admitted: bool, owner: Text)
    requires Serving(a, named, admitted, owner) && Serving(b, named, admitted, owner)
    ensures Serving(a + b, named, admitted, owner)
  {
    if a == [] {
      assert a + b == b;
    } else {
      assert (a + b)[1..] == a[1..] + b;
      ServingMonotone(b, named, admitted, named || Names(a[0]), admitted || a[0].MarkAuthenticated?, owner);
      ServingConcat(a[1..], b, named || Names(a[0]), admitted || a[0].MarkAuthenticated?, owner);
    }
  }

  lemma {:induction false} SimpleServes(ops: seq<Op>, named: bool, admitted: bool, owner: Text)
    requires forall op :: op in ops ==> InPlace(op, false, false, owner)
    ensures Serving(ops, named, admitted, owner)
  {
    if ops != [] {
      assert InPlace(ops[0], false, false, owner);
      SimpleServes(ops[1..], named || Names(ops[0]), admitted || ops[0].MarkAuthenticated?, owner);
    }
  }

  lemma ProgramServes(state: State, f: Frame, env: Env, named: bool, admitted: bool)
    ensures Serving(Program(state, f, env), named, admitted, f.phone)
  {
    hide Serving;
    var ops := Program(state, f, env);
    if Passes(state, f.msgId) && f.msgId == AUTHENTICATION {
      SimpleServes([], true, admitted, f.phone);
      ServingCons(Validate(f), [], true, admitted, f.phone);
      ServingCons(AdoptPhone(f.phone), [Validate(f)] + [], named, admitted, f.phone);
      ServingCons(Count(Frames), [AdoptPhone(f.phone)] + ([Validate(f)] + []), named, admitted, f.phone);
      assert ops == [Count(Frames)] + ([AdoptPhone(f.phone)] + ([Validate(f)] + []));
    } else {
      SimpleServes(ops, named, admitted, f.phone);
    }
  }

  lemma NextServes(sh: Shared, sid: Sid, op: Op, env: Env, named: bool, admitted: bool, owner: Text)
    requires sid in sh.sess && InPlace(op, named, admitted, owner)
    ensures Serving(Then(sh, sid, op, env), named, admitted, owner)
  {
    hide Serving;
    var next := Then(sh, sid, op, env);
    if op.Validate? && next[0].MarkAuthenticated? {
      var tail := [Ack(op.frame, OK), Count(AuthSuccesses)];
      SimpleServes(tail, true, true, owner);
      ServingCons(Register, tail, true, true, owner);
      ServingCons(MarkAuthenticated, [Register] + tail, true, admitted, owner);
      assert next == [MarkAuthenticated] + ([Register] + tail);
    } else {
      SimpleServes(next, named, admitted, owner);
    }
  }

  /** Performing the first operation leaves the rest in order. */
  lemma RestServes(sh: Shared, sid: Sid, todo: seq<Op>, env: Env, l: Life, owner: Text)
    requires sid in sh.sess && todo != [] && owner != []
    requires Serving(todo, sh.sess[sid].phone != [], l.admitted, owner)
    ensures Serving(Then(sh, sid, todo[0], env) + todo[1..], Own(sh.sess[sid], todo[0], env).phone != [], OwnLife(l, todo[0]).admitted, owner)
  {
    hide Then;
    var s, op, rest := sh.sess[sid], todo[0], todo[1..];
    var named, admitted := s.phone != [], l.admitted;
    var named', admitted' := named || Names(op), admitted || op.MarkAuthenticated?;
    NextServes(sh, sid, op, env, named, admitted, owner);
    ServingMonotone(Then(sh, sid, op, env), named, admitted, named', admitted', owner);
    ServingConcat(Then(sh, sid, op, env), rest, named', admitted', owner);
  }

  // ---- whole runs ----

  /** Every connection keeps one phone, and a non-empty one. */
  ghost predicate OnePhone(run: seq<Action>, owner: Sid -> Text) {
    && (forall sid :: owner(sid) != [])
    && forall i :: 0 <= i < |run| && run[i].Receive? ==> run[i].frame.phone == owner(run[i].sid)
  }

  /** A session that has registered, has not unregistered and whose connection is open. */
  predicate Present(sys: System, sid: Sid)
    requires sid in sys.shared.sess
  {
    var l := LifeOf(sys.log, sid);
    l.joined && !l.left && sys.shared.sess[sid].open
  }

  /** The registry holds sessions under their own phone only: admitted, registered, not unregistered. */
  ghost predicate Sound(sys: System) {
    forall p :: p in sys.shared.local ==>
      var sid := sys.shared.local[p];
      sid in sys.shared.sess && sys.shared.sess[sid].phone == p && p != [] &&
      LifeOf(sys.log, sid) == Life(true, true, false)
  }

  /** Every session that is present is the one the registry holds for its phone. */
  ghost predicate Complete(sys: System) {
    forall sid :: sid in sys.shared.sess && Present(sys, sid) ==>
      sys.shared.sess[sid].phone in sys.shared.local && sys.shared.local[sys.shared.sess[sid].phone] == sid
  }

  ghost predicate Kept(sys: System, owner: Sid -> Text) {
    && WellFormed(sys) && Sound(sys) && Complete(sys)
    && (forall sid :: sid !in sys.shared.sess ==> LifeOf(sys.log, sid) == UNBORN)
    && (forall sid :: sid in sys.shared.sess ==> InOrder(sys, sid, owner(sid)))
  }

  ghost predicate InOrder(sys: System, sid: Sid, owner: Text)
    requires WellFormed(sys) && sid in sys.shared.sess
  {
    var phone, l, t := sys.shared.sess[sid].phone, LifeOf(sys.log, sid), sys.threads[sid];
    && (phone == [] || phone == owner)
    && (l.joined ==> phone != [])
    && Orderly(t.todo, t.serving, phone, l, owner)
  }

  /** What an operation that is in place does to the phone and the life of its session. */
  lemma OwnInOrder(sys: System, sid: Sid, env: Env, owner: Text)
    requires WellFormed(sys) && Enabled(sys, Run(sid, env)) && InOrder(sys, sid, owner) && owner != []
    requires WellFormed(Next(sys, Run(sid, env)))
    ensures var sys' := Next(sys, Run(sid, env)); sid in sys'.shared.sess && InOrder(sys', sid, owner)
    ensures var op, s, l := sys.threads[sid].todo[0], sys.shared.sess[sid], LifeOf(sys.log, sid);
            && (op.Register? ==> s.phone != [] && l.admitted && !l.left)
            && (s.phone != [] ==> Own(s, op, env).phone == s.phone)
  {
    hide Next, Enabled, After, Then, Record, LifeOf, Serving;
    NextRun(sys, sid, env);
    CanRun(sys, sid, env);
    var sh, todo, l := sys.shared, sys.threads[sid].todo, LifeOf(sys.log, sid);
    var op := todo[0];
    LifeAfter(sys.log, sh, sid, op, env, sid);
    SessionAfter(sh, sid, op, env, sid);
    if sys.threads[sid].serving {
      RestServes(sh, sid, todo, env, l, owner);
      HeadInPlace(todo, sh.sess[sid].phone != [], l.admitted, owner);
    } else {
      FarewellGoesOn(sh, sid, todo, env);
    }
  }

  lemma HeadInPlace(ops: seq<Op>, named: bool, admitted: bool, owner: Text)
    requires ops != [] && Serving(ops, named, admitted, owner)
    ensures InPlace(ops[0], named, admitted, owner)
  {
  }

  lemma FarewellGoesOn(sh: Shared, sid: Sid, todo: seq<Op>, env: Env)
    requires sid in sh.sess && (todo == FAREWELL || todo == [Unregister, Shut] || todo == [Shut])
    ensures Then(sh, sid, todo[0], env) + todo[1..] == todo[1..]
    ensures FAREWELL[1..] == [Unregister, Shut] && [Unregister, Shut][1..] == [Shut] && [Shut][1..] == []
    ensures Own(sh.sess[sid], todo[0], env).phone == sh.sess[sid].phone
  {
  }

  /** How an operation of another session shows on sid: at most as a close by displacement. */
  lemma OthersAfter(sys: System, actor: Sid, env: Env, sid: Sid)
    requires Enabled(sys, Run(actor, env)) && sid in sys.shared.sess && sid != actor
    ensures var sys', s, op := Next(sys, Run(actor, env)), sys.shared.sess[sid], sys.threads[actor].todo[0];
            && sid in sys'.shared.sess && LifeOf(sys'.log, sid) == LifeOf(sys.log, sid)
            && (sid in sys.threads ==> sid in sys'.threads && sys'.threads[sid] == sys.threads[sid])
            && sys'.shared.sess[sid].phone == s.phone
            && (sys'.shared.sess[sid].open ==> s.open)
            && (op.Register? && s.phone == sys.shared.sess[actor].phone && s.phone in sys.shared.local && sys.shared.local[s.phone] == sid
                ==> !sys'.shared.sess[sid].open)
  {
    hide After, Then, Record, LifeOf;
    LifeAfter(sys.log, sys.shared, actor, sys.threads[actor].todo[0], env, sid);
    SessionAfter(sys.shared, actor, sys.threads[actor].todo[0], env, sid);
  }

  lemma RunSound(sys: System, sid: Sid, env: Env, owner: Sid -> Text)
    requires Kept(sys, owner) && owner(sid) != [] && Enabled(sys, Run(sid, env))
    ensures Sound(Next(sys, Run(sid, env)))
  {
    hide After, Then, Record, LifeOf, Serving, Orderly;
    var sys', op := Next(sys, Run(sid, env)), sys.threads[sid].todo[0];
    NextWellFormed(sys, Run(sid, env));
    RegistryAfter(sys.shared, sid, op, env);
    OwnInOrder(sys, sid, env, owner(sid));
    LifeAfter(sys.log, sys.shared, sid, op, env, sid);
    SessionAfter(sys.shared, sid, op, env, sid);
    forall p | p in sys'.shared.local
      ensures var t := sys'.shared.local[p];
              t in sys'.shared.sess && sys'.shared.sess[t].phone == p && p != [] && LifeOf(sys'.log, t) == Life(true, true, false)
    {
      var t := sys'.shared.local[p];
      if t != sid {
        OthersAfter(sys, sid, env, t);
      }
    }
  }

  lemma RunComplete(sys: System, sid: Sid, env: Env, owner: Sid -> Text)
    requires Kept(sys, owner) && owner(sid) != [] && Enabled(sys, Run(sid, env))
    ensures Complete(Next(sys, Run(sid, env)))
  {
    hide After, Then, Record, LifeOf, Serving, Orderly, Sound;
    var sys', op := Next(sys, Run(sid, env)), sys.threads[sid].todo[0];
    NextWellFormed(sys, Run(sid, env));
    RegistryAfter(sys.shared, sid, op, env);
    OwnInOrder(sys, sid, env, owner(sid));
    LifeAfter(sys.log, sys.shared, sid, op, env, sid);
    SessionAfter(sys.shared, sid, op, env, sid);
    OpenStays(sys.shared.sess[sid], op, env);
    forall t | t in sys'.shared.sess && Present(sys', t)
      ensures sys'.shared.sess[t].phone in sys'.shared.local && sys'.shared.local[sys'.shared.sess[t].phone] == t
    {
      if t != sid {
        OthersAfter(sys, sid, env, t);
        assert Present(sys, t);
      } else if !op.Register? {
        assert Present(sys, t);
      }
    }
  }

  lemma OpenStays(s: Sess, op: Op, env: Env)
    ensures Own(s, op, env).open ==> s.open
  {
  }

  lemma NextKept(sys: System, a: Action, owner: Sid -> Text)
    requires Kept(sys, owner) && (forall sid :: owner(sid) != []) && Enabled(sys, a)
    requires a.Receive? ==> a.frame.phone == owner(a.sid)
    ensures Kept(Next(sys, a), owner)
  {
    var sys' := Next(sys, a);
    NextWellFormed(sys, a);
    if a.Run? {
      RunSound(sys, a.sid, a.env, owner);
      RunComplete(sys, a.sid, a.env, owner);
      hide After, Then, Record, LifeOf, Serving, Orderly, Sound, Complete;
      forall sid | sid !in sys'.shared.sess ensures LifeOf(sys'.log, sid) == UNBORN {
        LifeAfter(sys.log, sys.shared, a.sid, sys.threads[a.sid].todo[0], a.env, sid);
      }
      forall sid | sid in sys'.shared.sess ensures InOrder(sys', sid, owner(sid)) {
        if sid == a.sid {
          OwnInOrder(sys, sid, a.env, owner(sid));
        } else {
          OthersAfter(sys, a.sid, a.env, sid);
        }
      }
    } else {
      OtherKept(sys, a, owner);
    }
  }

  /** Whatever is not an operation of a goroutine leaves the registry alone, and of a session at most closes it. */
  lemma QuietAction(sys: System, a: Action, sid: Sid)
    requires Enabled(sys, a) && !a.Run?
    ensures var sys' := Next(sys, a);
            && sys'.shared.local == sys.shared.local
            && (sid in sys.shared.sess ==>
                 && sid in sys'.shared.sess
                 && sys'.shared.sess[sid].phone == sys.shared.sess[sid].phone
                 && (sys'.shared.sess[sid].open ==> sys.shared.sess[sid].open))
            && (sid in sys'.shared.sess && sid !in sys.shared.sess ==> sys'.shared.sess[sid] == FRESH)
  {
    hide Program, After, Then, Record, Perform;
    var sess, sess' := sys.shared.sess, Next(sys, a).shared.sess;
    match a {
      case Accept(t) => assert sess' == sess[t := FRESH];
      case CloseStart(t) => assert sess' == sess[t := sess[t].(state := Closing)];
      case CloseEnd(t) => assert sess' == sess[t := sess[t].(open := false)];
      case Run(_, _) =>
      case _ => assert sess' == sess;
    }
  }

  lemma QuietLog(sys: System, a: Action)
    requires Enabled(sys, a) && !a.Run?
    ensures var l := Next(sys, a).log;
            l == sys.log || exists e :: l == sys.log + [e] && (e.Request? || e.Dropped? || e.Expired?)
  {
    hide Program, After, Then, Record, Perform;
    var l := Next(sys, a).log;
    if l != sys.log {
      assert l == sys.log + [l[|sys.log|]];
    }
  }

  /** And what it changes in the goroutines. */
  lemma QuietThread(sys: System, a: Action, sid: Sid)
    requires WellFormed(sys) && Enabled(sys, a) && !a.Run? && sid in Next(sys, a).shared.sess
    ensures sid in Next(sys, a).threads
    ensures var t := Next(sys, a).threads[sid];
            if sid !in sys.shared.sess then t == Thread([], true)
            else
              || t == sys.threads[sid]
              || (Idle(sys, sid) && a == ReadFail(sid) && t == Thread(FAREWELL, false))
              || (Idle(sys, sid) && a.Receive? && a.sid == sid &&
                  t == Thread(Program(sys.shared.sess[sid].state, a.frame, a.env), true))
  {
    hide Program, After, Then, Record, Perform;
  }

  lemma LivesUnchanged(log: seq<Event>, log': seq<Event>, sid: Sid)
    requires log' == log || exists e :: log' == log + [e] && (e.Request? || e.Dropped? || e.Expired?)
    ensures LifeOf(log', sid) == LifeOf(log, sid)
  {
    if log' != log {
      var e :| log' == log + [e] && (e.Request? || e.Dropped? || e.Expired?);
      LifeSnoc(log, e, sid);
    }
  }

  lemma OtherKept(sys: System, a: Action, owner: Sid -> Text)
    requires Kept(sys, owner) && Enabled(sys, a) && !a.Run?
    requires a.Receive? ==> a.frame.phone == owner(a.sid)
    requires WellFormed(Next(sys, a))
    ensures Kept(Next(sys, a), owner)
  {
    hide Next, Enabled, LifeOf, Orderly, Serving, Program;
    var sys' := Next(sys, a);
    QuietLog(sys, a);
    forall sid ensures LifeOf(sys'.log, sid) == LifeOf(sys.log, sid) {
      LivesUnchanged(sys.log, sys'.log, sid);
    }
    forall p | p in sys'.shared.local
      ensures var sid := sys'.shared.local[p];
              sid in sys'.shared.sess && sys'.shared.sess[sid].phone == p && p != [] && LifeOf(sys'.log, sid) == Life(true, true, false)
    {
      QuietAction(sys, a, sys'.shared.local[p]);
    }
    forall sid | sid in sys'.shared.sess && Present(sys', sid)
      ensures sys'.shared.sess[sid].phone in sys'.shared.local && sys'.shared.local[sys'.shared.sess[sid].phone] == sid
    {
      QuietAction(sys, a, sid);
      assert Present(sys, sid);
    }
    forall sid | sid in sys'.shared.sess ensures InOrder(sys', sid, owner(sid)) {
      QuietAction(sys, a, sid);
      QuietThread(sys, a, sid);
      if sid in sys.shared.sess {
        IdleGoesOn(sys, sid, a, owner(sid));
      } else {
        FreshInOrder(owner(sid));
      }
    }
    forall sid | sid !in sys'.shared.sess ensures LifeOf(sys'.log, sid) == UNBORN {
      QuietAction(sys, a, sid);
    }
  }

  lemma FreshInOrder(owner: Text)
    ensures Orderly([], true, [], UNBORN, owner)
  {
  }

  /** An idle goroutine that takes a frame of its phone, or leaves, is in order. */
  lemma IdleGoesOn(sys: System, sid: Sid, a: Action, owner: Text)
    requires WellFormed(sys) && sid in sys.shared.sess && InOrder(sys, sid, owner)
    ensures var phone, l := sys.shared.sess[sid].phone, LifeOf(sys.log, sid);
            && (Idle(sys, sid) ==> Orderly(FAREWELL, false, phone, l, owner))
            && (Idle(sys, sid) && a.Receive? && a.frame.phone == owner ==>
                 Orderly(Program(sys.shared.sess[sid].state, a.frame, a.env), true, phone, l, owner))
  {
    hide Program, LifeOf, Serving;
    if a.Receive? && a.frame.phone == owner {
      ProgramServes(sys.shared.sess[sid].state, a.frame, a.env, sys.shared.sess[sid].phone != [], LifeOf(sys.log, sid).admitted);
    }
  }

  lemma {:induction false} AlwaysKept(run: seq<Action>, owner: Sid -> Text)
    requires OnePhone(run, owner)
    ensures Kept(Execute(run), owner)
  {
    if run != [] {
      var init := run[..|run| - 1];
      var sys, a := Execute(init), run[|run| - 1];
      assert forall i :: 0 <= i < |init| ==> init[i] == run[i];
      AlwaysKept(init, owner);
      if Enabled(sys, a) {
        NextKept(sys, a, owner);
      }
    }
  }

  /**
    Registry safety: in every run in which each connection keeps one non-empty phone, whatever
    the interleaving of goroutines and timers, the registry is sound and complete. It may go on
    holding a session whose connection was closed by a timer until that session unregisters.
  */
  lemma RegistryIsSafe(run: seq<Action>, owner: Sid -> Text)
    requires OnePhone(run, owner)
    ensures Sound(Execute(run)) && Complete(Execute(run))
  {
    AlwaysKept(run, owner);
  }

  /** So at most one session of a phone is present at a time. */
  lemma OnePresentPerPhone(run: seq<Action>, owner: Sid -> Text, a: Sid, b: Sid)
    requires OnePhone(run, owner)
    requires var sys := Execute(run);
             a in sys.shared.sess && b in sys.shared.sess && Present(sys, a) && Present(sys, b) &&
             sys.shared.sess[a].phone == sys.shared.sess[b].phone
    ensures a == b
  {
    RegistryIsSafe(run, owner);
  }

  /**
    Without the one-phone rule the registry can keep a session that is gone. Unregistering
    removes every entry of the session exactly when it has no entry but under its current phone.
  */
  lemma UnregisterClearsSession(sh: Shared, sid: Sid, env: Env)
    requires sid in sh.sess
    ensures (forall p :: p in After(sh, sid, Unregister, env).local ==> After(sh, sid, Unregister, env).local[p] != sid) <==>
            (forall p :: p in sh.local && sh.local[p] == sid ==> p == sh.sess[sid].phone && p != [])
  {
    var l, phone := After(sh, sid, Unregister, env).local, sh.sess[sid].phone;
    if forall p :: p in l ==> l[p] != sid {
      forall p | p in sh.local && sh.local[p] == sid ensures p == phone && p != [] {
        assert p !in l;
      }
    }
  }
}
