/** When the set of online phones in Redis mirrors the registry, and how it stops doing so. */
module Mirror {
  import opened Bytes
  import opened Wire
  import opened World
  import opened Runs
  import opened RegistrySafety

  /** The online set once all queued updates have been performed in order. */
  function Drain(sess: map<Sid, Sess>, online: set<Text>, jobs: seq<Job>): set<Text> {
    if jobs == [] then online
    else Perform(sess, Drain(sess, online, jobs[..|jobs| - 1]), jobs[|jobs| - 1])
  }

  lemma DrainSnoc(sess: map<Sid, Sess>, online: set<Text>, jobs: seq<Job>, job: Job)
    ensures Drain(sess, online, jobs + [job]) == Perform(sess, Drain(sess, online, jobs), job)
  {
    assert (jobs + [job])[..|jobs|] == jobs;
  }

  lemma {:induction false} DrainHead(sess: map<Sid, Sess>, online: set<Text>, jobs: seq<Job>)
    requires jobs != []
    ensures Drain(sess, online, jobs) == Drain(sess, Perform(sess, online, jobs[0]), jobs[1..])
  {
    if |jobs| > 1 {
      var init := jobs[..|jobs| - 1];
      DrainHead(sess, online, init);
      assert init[1..] == jobs[1..][..|jobs| - 2] && init[0] == jobs[0];
    }
  }

  /** Only the phones of the sessions that have updates queued matter. */
  lemma {:induction false} DrainSame(sess: map<Sid, Sess>, sess': map<Sid, Sess>, online: set<Text>, jobs: seq<Job>)
    requires forall i :: 0 <= i < |jobs| ==> PhoneOf(sess, jobs[i].sid) == PhoneOf(sess', jobs[i].sid)
    ensures Drain(sess, online, jobs) == Drain(sess', online, jobs)
  {
    if jobs != [] {
      DrainSame(sess, sess', online, jobs[..|jobs| - 1]);
    }
  }

  ghost predicate Mirrors(sys: System) {
    Drain(sys.shared.sess, sys.online, sys.shared.jobs) == sys.shared.local.Keys
  }

  // ---- exactly which operations keep the mirror ----

  /** The updates queued so far concern sessions whose phone is set and will not change. */
  ghost predicate JobsNamed(sh: Shared) {
    forall i :: 0 <= i < |sh.jobs| ==> sh.jobs[i].sid in sh.sess && sh.sess[sh.jobs[i].sid].phone != []
  }

  ghost predicate MirrorsIn(sh: Shared, online: set<Text>) {
    Drain(sh.sess, online, sh.jobs) == sh.local.Keys
  }

  /** A heartbeat keeps the mirror exactly when the registry knows the phone. */
  lemma BeatMirror(sh: Shared, online: set<Text>, sid: Sid, env: Env)
    requires sid in sh.sess && MirrorsIn(sh, online)
    ensures MirrorsIn(After(sh, sid, Beat, env), online) <==> sh.sess[sid].phone in sh.local
  {
    HeartbeatRepairs(sh, online, sid, env);
    hide After, Drain;
    var phone := sh.sess[sid].phone;
    assert phone in sh.local.Keys + {phone};
    assert phone in sh.local ==> sh.local.Keys + {phone} == sh.local.Keys;
  }

  /** In any state, mirrored or not: a heartbeat restores the mirror exactly when its phone was all that was missing. */
  lemma HeartbeatRepairs(sh: Shared, online: set<Text>, sid: Sid, env: Env)
    requires sid in sh.sess
    ensures MirrorsIn(After(sh, sid, Beat, env), online) <==>
            Drain(sh.sess, online, sh.jobs) + {sh.sess[sid].phone} == sh.local.Keys
  {
    assert After(sh, sid, Beat, env) == sh.(jobs := sh.jobs + [GoOnline(sid)]);
    hide After, Drain;
    DrainSnoc(sh.sess, online, sh.jobs, GoOnline(sid));
  }

  /** An unregistration keeps it exactly when it does not meet another session under its phone. */
  lemma UnregisterMirror(sh: Shared, online: set<Text>, sid: Sid, env: Env)
    requires sid in sh.sess && MirrorsIn(sh, online)
    ensures var phone := sh.sess[sid].phone;
            MirrorsIn(After(sh, sid, Unregister, env), online) <==> phone == [] || phone !in sh.local || sh.local[phone] == sid
  {
    hide After, Drain;
    var phone, sh' := sh.sess[sid].phone, After(sh, sid, Unregister, env);
    RegistryAfter(sh, sid, Unregister, env);
    JobsAfter(sh, sid, Unregister, env);
    UnregisterKeepsSessions(sh, sid, env);
    if phone != [] {
      DrainSnoc(sh.sess, online, sh.jobs, GoOffline(sid));
      KeysWithout(sh.local, phone);
    }
  }

  lemma KeysWithout(local: map<Text, Sid>, phone: Text)
    ensures (local - {phone}).Keys == local.Keys - {phone}
    ensures local.Keys - {phone} == local.Keys <==> phone !in local
  {
    if phone in local {
      assert phone in local.Keys && phone !in local.Keys - {phone};
    }
  }

  /** A registration always keeps it. */
  lemma RegisterMirror(sh: Shared, online: set<Text>, sid: Sid, env: Env)
    requires sid in sh.sess && MirrorsIn(sh, online)
    ensures MirrorsIn(After(sh, sid, Register, env), online)
  {
    var sh' := After(sh, sid, Register, env);
    forall i | 0 <= i < |sh.jobs| ensures PhoneOf(sh.sess, sh.jobs[i].sid) == PhoneOf(sh'.sess, sh.jobs[i].sid) {
    }
    DrainSame(sh.sess, sh'.sess, online, sh.jobs);
    DrainSnoc(sh'.sess, online, sh.jobs, GoOnline(sid));
    assert sh'.local.Keys == sh.local.Keys + {sh.sess[sid].phone};
  }

  // ---- the queue ----

  /** Performing the queue in order empties it and leaves the drained set online; nothing else changes. */
  lemma {:induction false} QueueDrains(run: seq<Action>) returns (longer: seq<Action>)
    ensures run <= longer && forall i :: |run| <= i < |longer| ==> longer[i] == RunJob(0, true)
    ensures var sys, sys' := Execute(run), Execute(longer);
            sys' == sys.(shared := sys.shared.(jobs := []), online := Drain(sys.shared.sess, sys.online, sys.shared.jobs))
    decreases |Execute(run).shared.jobs|
  {
    hide Execute, Drain, Perform;
    var sys, a := Execute(run), RunJob(0, true);
    if sys.shared.jobs == [] {
      longer := run;
      DrainsNothing(sys.shared.sess, sys.online);
    } else {
      OneMore(run, a);
      assert sys.shared.jobs[..0] + sys.shared.jobs[1..] == sys.shared.jobs[1..];
      DrainHead(sys.shared.sess, sys.online, sys.shared.jobs);
      longer := QueueDrains(run + [a]);
      forall i | |run| <= i < |longer| ensures longer[i] == a {
        assert i == |run| ==> longer[i] == (run + [a])[i];
      }
    }
  }

  lemma DrainsNothing(sess: map<Sid, Sess>, online: set<Text>)
    ensures Drain(sess, online, []) == online
  {
  }

  /** Some queued update concerns the phone. */
  predicate Queued(sess: map<Sid, Sess>, jobs: seq<Job>, phone: Text) {
    exists i :: 0 <= i < |jobs| && PhoneOf(sess, jobs[i].sid) == phone
  }

  /** Pruning takes a phone off what will be online exactly unless an update of it is still queued. */
  lemma {:induction false} PruningDrains(sess: map<Sid, Sess>, online: set<Text>, phones: set<Text>, jobs: seq<Job>, phone: Text)
    ensures phone in Drain(sess, online - phones, jobs) <==>
            phone in Drain(sess, online, jobs) && (phone !in phones || Queued(sess, jobs, phone))
  {
    if jobs != [] {
      var init, last := jobs[..|jobs| - 1], jobs[|jobs| - 1];
      PruningDrains(sess, online, phones, init, phone);
      if PhoneOf(sess, last.sid) == phone {
        assert Queued(sess, jobs, phone);
      } else if Queued(sess, jobs, phone) {
        var i :| 0 <= i < |jobs| && PhoneOf(sess, jobs[i].sid) == phone;
        assert init[i] == jobs[i];
      }
      assert forall i :: 0 <= i < |init| ==> jobs[i] == init[i];
    }
  }

  /** So after a pruning, in any run, what will be online is what would have been, but for the pruned phones with nothing queued. */
  lemma PruneDrains(run: seq<Action>, phones: set<Text>, phone: Text)
    ensures var sys, sys' := Execute(run), Execute(run + [Prune(phones)]);
            && sys'.shared == sys.shared
            && (phone in Drain(sys'.shared.sess, sys'.online, sys'.shared.jobs) <==>
                 phone in Drain(sys.shared.sess, sys.online, sys.shared.jobs)
                 && (phone !in phones || Queued(sys.shared.sess, sys.shared.jobs, phone)))
  {
    hide Execute, Drain, Queued;
    OneMore(run, Prune(phones));
    PruningDrains(Execute(run).shared.sess, Execute(run).online, phones, Execute(run).shared.jobs, phone);
  }

  // ---- whole runs: exactly when the mirror holds throughout ----

  /** Nothing is pruned, and an update is performed in its turn and without error. */
  predicate InOrderOfIssue(a: Action) {
    !a.Prune? && (a.RunJob? ==> a.index == 0 && a.done)
  }

  /** A heartbeat of a phone that is not registered, or an unregistration that meets another session under its phone. */
  predicate Upsets(sys: System, a: Action) {
    a.Run? && Enabled(sys, a) &&
    var op, phone, local := sys.threads[a.sid].todo[0], sys.shared.sess[a.sid].phone, sys.shared.local;
    || (op.Beat? && phone !in local)
    || (op.Unregister? && phone != [] && phone in local && local[phone] != a.sid)
  }

  lemma RunMirrorsExactly(sys: System, sid: Sid, env: Env, owner: Sid -> Text)
    requires Kept(sys, owner) && owner(sid) != [] && Enabled(sys, Run(sid, env)) && Mirrors(sys) && JobsNamed(sys.shared)
    ensures Mirrors(Next(sys, Run(sid, env))) <==> !Upsets(sys, Run(sid, env))
    ensures !Upsets(sys, Run(sid, env)) ==> JobsNamed(Next(sys, Run(sid, env)).shared)
  {
    hide Next, After, Then, Record, LifeOf, Drain, Orderly, Serving, Own, JobsNamed, Complete, Enabled;
    CanRun(sys, sid, env);
    var sh, op := sys.shared, sys.threads[sid].todo[0];
    NextRun(sys, sid, env);
    OwnInOrder(sys, sid, env, owner(sid)) by {
      NextWellFormed(sys, Run(sid, env));
    }
    if op.Beat? {
      BeatMirror(sh, sys.online, sid, env);
    }
    if op.Unregister? {
      UnregisterMirror(sh, sys.online, sid, env);
    }
    if !Upsets(sys, Run(sid, env)) {
      forall t | t in sh.sess && sh.sess[t].phone != [] ensures After(sh, sid, op, env).sess[t].phone == sh.sess[t].phone {
        PhonesStay(sys, sid, env, owner(sid), t);
      }
      OperationMirrors(sh, sys.online, sid, op, env);
    }
  }

  lemma {:induction false} UnupsetMirrors(run: seq<Action>, owner: Sid -> Text)
    requires OnePhone(run, owner) && forall i :: 0 <= i < |run| ==> InOrderOfIssue(run[i])
    requires forall n :: 0 <= n < |run| ==> !Upsets(Execute(run[..n]), run[n])
    ensures Mirrors(Execute(run)) && JobsNamed(Execute(run).shared)
  {
    hide Next, Enabled, Upsets;
    if run != [] {
      var n := |run| - 1;
      var sys, a := Execute(run[..n]), run[n];
      forall i | 0 <= i < n ensures run[..n][i] == run[i] && run[..n][..i] == run[..i] {
      }
      UnupsetMirrors(run[..n], owner);
      AlwaysKept(run[..n], owner);
      assert !Upsets(sys, a);
      if Enabled(sys, a) {
        if a.Run? {
          RunMirrorsExactly(sys, a.sid, a.env, owner);
        } else {
          OtherMirrors(sys, a);
        }
      }
    }
  }

  /**
    The online mirror, exactly: in a run in which each connection keeps one phone and Redis performs
    its updates in order, the online set, once the queue is drained, is the set of registered
    phones at every moment if and only if no heartbeat comes from a phone that is not registered
    and no unregistration meets another session under its phone.
  */
  lemma {:induction false} MirrorIsExact(run: seq<Action>, owner: Sid -> Text)
    requires OnePhone(run, owner) && forall i :: 0 <= i < |run| ==> InOrderOfIssue(run[i])
    ensures (forall n :: 0 <= n <= |run| ==> Mirrors(Execute(run[..n]))) <==>
            (forall n :: 0 <= n < |run| ==> !Upsets(Execute(run[..n]), run[n]))
  {
    hide Next, Upsets, Mirrors, Execute;
    if forall n :: 0 <= n < |run| ==> !Upsets(Execute(run[..n]), run[n]) {
      forall n | 0 <= n <= |run| ensures Mirrors(Execute(run[..n])) {
        forall i | 0 <= i < n ensures run[..n][i] == run[i] && run[..n][..i] == run[..i] {
        }
        UnupsetMirrors(run[..n], owner);
      }
    }
    if forall n :: 0 <= n <= |run| ==> Mirrors(Execute(run[..n])) {
      forall n | 0 <= n < |run| ensures !Upsets(Execute(run[..n]), run[n]) {
        FirstUpset(run, owner, n);
      }
    }
  }

  /** Up to n nothing was upset if the mirror held all the while. */
  lemma {:induction false} FirstUpset(run: seq<Action>, owner: Sid -> Text, n: nat)
    requires OnePhone(run, owner) && (forall i :: 0 <= i < |run| ==> InOrderOfIssue(run[i])) && n < |run|
    requires forall i :: 0 <= i <= |run| ==> Mirrors(Execute(run[..i]))
    ensures forall i :: 0 <= i <= n ==> !Upsets(Execute(run[..i]), run[i])
    decreases n
  {
    hide Next, Upsets, Mirrors, Execute, Enabled;
    if n > 0 {
      FirstUpset(run, owner, n - 1);
    }
    var sys, a := Execute(run[..n]), run[n];
    forall i | 0 <= i < n ensures run[..n][i] == run[i] && run[..n][..i] == run[..i] {
    }
    UnupsetMirrors(run[..n], owner);
    AlwaysKept(run[..n], owner);
    OneMore(run[..n], a);
    assert run[..n] + [a] == run[..n + 1];
    if a.Run? && Enabled(sys, a) {
      RunMirrorsExactly(sys, a.sid, a.env, owner);
    } else {
      OnlyRunsUpset(sys, a);
    }
  }

  lemma OnlyRunsUpset(sys: System, a: Action)
    ensures Upsets(sys, a) ==> a.Run? && Enabled(sys, a)
  {
  }

  // ---- whole runs: a condition on the connections ----

  /**
    Sessions of one phone do not overlap: a connection is accepted only once every earlier one
    of that phone has unregistered.
  */
  ghost predicate NonOverlapping(run: seq<Action>, owner: Sid -> Text) {
    forall i :: 0 <= i < |run| && run[i].Accept? ==>
      var sys := Execute(run[..i]);
      forall t :: t in sys.shared.sess && owner(t) == owner(run[i].sid) ==> t == run[i].sid || LifeOf(sys.log, t).left
  }

  /** Redis performs every update, in the order of issue; no close timer fires and nothing is pruned. */
  ghost predicate Undisturbed(run: seq<Action>) {
    forall i :: 0 <= i < |run| ==> InOrderOfIssue(run[i]) && !run[i].CloseStart?
  }

  predicate RegistersNext(todo: seq<Op>, i: nat) {
    i + 1 < |todo| && todo[i + 1].Register?
  }

  /** Heartbeats come from registered sessions only, and what admits a session registers it next. */
  ghost predicate Paced(todo: seq<Op>, joined: bool) {
    forall i :: 0 <= i < |todo| ==> (todo[i].Beat? ==> joined) && (todo[i].MarkAuthenticated? ==> RegistersNext(todo, i))
  }

  ghost predicate Rhythm(todo: seq<Op>, state: State, joined: bool) {
    && state != Closing
    && (state == Authenticated && !joined ==> todo != [] && todo[0].Register?)
    && Paced(todo, joined)
  }

  ghost predicate Apart(sys: System, owner: Sid -> Text) {
    forall s, t :: s in sys.shared.sess && t in sys.shared.sess && s != t && owner(s) == owner(t) ==>
      LifeOf(sys.log, s).left || LifeOf(sys.log, t).left
  }

  ghost predicate Steady(sys: System, sid: Sid)
    requires sid in sys.shared.sess && sid in sys.threads
  {
    var s, l := sys.shared.sess[sid], LifeOf(sys.log, sid);
    (l.left || s.open) && Rhythm(sys.threads[sid].todo, s.state, l.joined)
  }

  ghost predicate Calm(sys: System, owner: Sid -> Text) {
    && Kept(sys, owner) && Apart(sys, owner)
    && Mirrors(sys) && JobsNamed(sys.shared)
    && sys.shutters == multiset{}
    && forall sid :: sid in sys.shared.sess ==> Steady(sys, sid)
  }

  lemma ProgramRhythm(state: State, f: Frame, env: Env, joined: bool)
    requires state != Closing && (state == Authenticated ==> joined)
    ensures Rhythm(Program(state, f, env), state, joined)
  {
  }

  lemma PacedRest(todo: seq<Op>, joined: bool, joined': bool)
    requires todo != [] && Paced(todo, joined) && (joined ==> joined')
    ensures Paced(todo[1..], joined')
  {
    forall i | 0 <= i < |todo| - 1
      ensures (todo[1..][i].Beat? ==> joined') && (todo[1..][i].MarkAuthenticated? ==> RegistersNext(todo[1..], i))
    {
      assert todo[1..][i] == todo[i + 1];
      assert RegistersNext(todo, i + 1) ==> todo[1..][i + 1] == todo[i + 2];
    }
  }

  lemma PacedConcat(a: seq<Op>, b: seq<Op>, joined: bool)
    requires Paced(a, joined) && Paced(b, joined)
    ensures Paced(a + b, joined)
  {
    var c := a + b;
    forall i | 0 <= i < |c| ensures (c[i].Beat? ==> joined) && (c[i].MarkAuthenticated? ==> RegistersNext(c, i)) {
      if i < |a| {
        assert c[i] == a[i];
        assert RegistersNext(a, i) ==> c[i + 1] == a[i + 1];
      } else {
        assert c[i] == b[i - |a|];
        assert RegistersNext(b, i - |a|) ==> c[i + 1] == b[i - |a| + 1];
      }
    }
  }

  lemma PacedThen(sh: Shared, sid: Sid, op: Op, env: Env, joined: bool)
    requires sid in sh.sess && LeadsToPublishing(op)
    ensures Paced(Then(sh, sid, op, env), joined)
  {
    var next := Then(sh, sid, op, env);
    if op.Reply? {
      assert forall i :: 0 <= i < |next| ==> next[i] in op.onSuccess;
    }
  }

  lemma RestRhythm(sh: Shared, sid: Sid, todo: seq<Op>, env: Env, l: Life)
    requires sid in sh.sess && todo != [] && LeadsToPublishing(todo[0])
    requires Rhythm(todo, sh.sess[sid].state, l.joined)
    ensures Rhythm(Then(sh, sid, todo[0], env) + todo[1..], Own(sh.sess[sid], todo[0], env).state, OwnLife(l, todo[0]).joined)
  {
    var op, joined := todo[0], OwnLife(l, todo[0]).joined;
    PacedRest(todo, l.joined, joined);
    PacedThen(sh, sid, op, env, joined);
    PacedConcat(Then(sh, sid, op, env), todo[1..], joined);
    assert op.MarkAuthenticated? ==> RegistersNext(todo, 0);
    hide Paced;
  }

  predicate LeadsToPublishing(op: Op) {
    op.Reply? ==> OnlyPublishes(op.onSuccess)
  }

  lemma HeadIsReady(sys: System, sid: Sid, owner: Text)
    requires WellFormed(sys) && sid in sys.shared.sess && InOrder(sys, sid, owner) && sys.threads[sid].todo != []
    ensures LeadsToPublishing(sys.threads[sid].todo[0])
    ensures sys.threads[sid].todo[0].Beat? || sys.threads[sid].todo[0].Register? ==> !LifeOf(sys.log, sid).left
    ensures sys.threads[sid].todo[0].Unregister? ==> !LifeOf(sys.log, sid).left
    ensures sys.threads[sid].todo[0].Shut? ==> LifeOf(sys.log, sid).left
  {
  }

  lemma JobsAfter(sh: Shared, sid: Sid, op: Op, env: Env)
    requires sid in sh.sess
    ensures After(sh, sid, op, env).jobs ==
            if op.Register? || op.Beat? then sh.jobs + [GoOnline(sid)]
            else if op.Unregister? && sh.sess[sid].phone != [] then sh.jobs + [GoOffline(sid)]
            else sh.jobs
  {
    hide PublishItems, PublishReport, BatchOf, Bump, Written;
  }

  /** In a calm system a registration meets no other session of its phone, and neither does an unregistration. */
  lemma MeetsNobody(sys: System, owner: Sid -> Text, sid: Sid)
    requires Calm(sys, owner) && sid in sys.shared.sess && !LifeOf(sys.log, sid).left
    ensures var phone := sys.shared.sess[sid].phone; phone in sys.shared.local ==> sys.shared.local[phone] == sid
  {
    hide LifeOf, Orderly, Rhythm;
    var phone := sys.shared.sess[sid].phone;
    if phone in sys.shared.local {
      var t := sys.shared.local[phone];
      assert InOrder(sys, t, owner(t)) && InOrder(sys, sid, owner(sid));
    }
  }

  lemma PhonesStay(sys: System, sid: Sid, env: Env, owner: Text, t: Sid)
    requires WellFormed(sys) && sid in sys.shared.sess && InOrder(sys, sid, owner) && owner != [] && Enabled(sys, Run(sid, env))
    requires t in sys.shared.sess && sys.shared.sess[t].phone != []
    ensures var sess' := Next(sys, Run(sid, env)).shared.sess; t in sess' && sess'[t].phone == sys.shared.sess[t].phone
  {
    hide Next, After, Then, Record, LifeOf, Own, InOrder;
    NextRun(sys, sid, env);
    NextWellFormed(sys, Run(sid, env));
    OwnInOrder(sys, sid, env, owner);
    SessionAfter(sys.shared, sid, sys.threads[sid].todo[0], env, t);
  }

  /** Every operation keeps the mirror, if heartbeats and unregistrations meet the conditions found above. */
  lemma OperationMirrors(sh: Shared, online: set<Text>, sid: Sid, op: Op, env: Env)
    requires sid in sh.sess && MirrorsIn(sh, online) && JobsNamed(sh)
    requires forall t :: t in sh.sess && sh.sess[t].phone != [] ==> After(sh, sid, op, env).sess[t].phone == sh.sess[t].phone
    requires var phone := sh.sess[sid].phone;
             && (op.Beat? ==> phone in sh.local && phone != [])
             && (op.Register? ==> phone != [])
             && (op.Unregister? ==> phone == [] || phone !in sh.local || sh.local[phone] == sid)
    ensures MirrorsIn(After(sh, sid, op, env), online) && JobsNamed(After(sh, sid, op, env))
  {
    JobsAfter(sh, sid, op, env);
    NamedAfter(sh, sid, op, env);
    hide After, Drain, JobsNamed;
    if op.Beat? {
      BeatMirror(sh, online, sid, env);
    } else if op.Register? {
      RegisterMirror(sh, online, sid, env);
    } else if op.Unregister? {
      UnregisterMirror(sh, online, sid, env);
    } else {
      RegistryAfter(sh, sid, op, env);
      assert forall i :: 0 <= i < |sh.jobs| ==> sh.jobs[i].sid in sh.sess && sh.sess[sh.jobs[i].sid].phone != [] by {
        NamedMeans(sh);
      }
      DrainSame(sh.sess, After(sh, sid, op, env).sess, online, sh.jobs);
    }
  }

  lemma NamedMeans(sh: Shared)
    requires JobsNamed(sh)
    ensures forall i :: 0 <= i < |sh.jobs| ==> sh.jobs[i].sid in sh.sess && sh.sess[sh.jobs[i].sid].phone != []
  {
  }

  lemma NamedAfter(sh: Shared, sid: Sid, op: Op, env: Env)
    requires sid in sh.sess && JobsNamed(sh)
    requires forall t :: t in sh.sess && sh.sess[t].phone != [] ==> After(sh, sid, op, env).sess[t].phone == sh.sess[t].phone
    requires op.Beat? || op.Register? ==> sh.sess[sid].phone != []
    ensures JobsNamed(After(sh, sid, op, env))
  {
    JobsAfter(sh, sid, op, env);
    hide After;
    var sh' := After(sh, sid, op, env);
    forall i | 0 <= i < |sh'.jobs| ensures sh'.jobs[i].sid in sh'.sess && sh'.sess[sh'.jobs[i].sid].phone != [] {
      assert i < |sh.jobs| ==> sh'.jobs[i] == sh.jobs[i];
    }
  }

  lemma RunMirrors(sys: System, sid: Sid, env: Env, owner: Sid -> Text)
    requires Calm(sys, owner) && owner(sid) != [] && Enabled(sys, Run(sid, env))
    ensures Mirrors(Next(sys, Run(sid, env))) && JobsNamed(Next(sys, Run(sid, env)).shared)
  {
    hide Next, After, Then, Record, LifeOf, Drain, Orderly, Serving, Own, Sound, JobsNamed;
    var op := sys.threads[sid].todo[0];
    HeadIsReady(sys, sid, owner(sid));
    if op.Beat? {
      assert Steady(sys, sid) && InOrder(sys, sid, owner(sid));
      assert Present(sys, sid);
    }
    if op.Unregister? {
      MeetsNobody(sys, owner, sid);
    }
    RunMirrorsExactly(sys, sid, env, owner);
  }

  lemma RunSteady(sys: System, sid: Sid, env: Env, owner: Sid -> Text, t: Sid)
    requires Calm(sys, owner) && Enabled(sys, Run(sid, env)) && t in sys.shared.sess
    ensures var sys' := Next(sys, Run(sid, env)); t in sys'.shared.sess && t in sys'.threads && Steady(sys', t)
  {
    hide Next, Enabled, After, Then, Record, LifeOf, Orderly, Serving, Own, Rhythm, Sound, Complete, Mirrors, JobsNamed, Displaces;
    CanRun(sys, sid, env);
    var sh, op := sys.shared, sys.threads[sid].todo[0];
    NextRun(sys, sid, env);
    HeadIsReady(sys, sid, owner(sid));
    MeetsNobodyIfStaying(sys, owner, sid);
    LifeAfter(sys.log, sh, sid, op, env, t);
    SessionAfter(sh, sid, op, env, t);
    assert Steady(sys, t);
    if t == sid {
      RestRhythm(sh, sid, sys.threads[sid].todo, env, LifeOf(sys.log, sid));
      OnlyShutCloses(sh.sess[sid], op, env);
    }
  }

  lemma RunApart(sys: System, sid: Sid, env: Env, owner: Sid -> Text)
    requires Apart(sys, owner) && Enabled(sys, Run(sid, env))
    ensures Apart(Next(sys, Run(sid, env)), owner)
  {
    hide Next, Enabled, After, Then, Record, LifeOf, OwnLife;
    CanRun(sys, sid, env);
    NextRun(sys, sid, env);
    var sys', op := Next(sys, Run(sid, env)), sys.threads[sid].todo[0];
    LeavesOnce(LifeOf(sys.log, sid), op);
    forall t ensures LifeOf(sys.log, t).left ==> LifeOf(sys'.log, t).left {
      LifeAfter(sys.log, sys.shared, sid, op, env, t);
    }
  }

  lemma RunCalm(sys: System, sid: Sid, env: Env, owner: Sid -> Text)
    requires Calm(sys, owner) && (forall t :: owner(t) != []) && Enabled(sys, Run(sid, env))
    ensures Calm(Next(sys, Run(sid, env)), owner)
  {
    RegistrySafety.NextKept(sys, Run(sid, env), owner);
    RunMirrors(sys, sid, env, owner);
    Shutters(sys, sid, env);
    RunApart(sys, sid, env, owner);
    var sys' := Next(sys, Run(sid, env));
    hide Next, Enabled, Kept, Apart, Mirrors, JobsNamed, Steady;
    forall t | t in sys'.shared.sess ensures Steady(sys', t) {
      RunKeepsKeys(sys, sid, env);
      RunSteady(sys, sid, env, owner, t);
    }
  }

  lemma RunKeepsKeys(sys: System, sid: Sid, env: Env)
    requires Enabled(sys, Run(sid, env))
    ensures Next(sys, Run(sid, env)).shared.sess.Keys == sys.shared.sess.Keys
  {
  }

  lemma Shutters(sys: System, sid: Sid, env: Env)
    requires Enabled(sys, Run(sid, env))
    ensures Next(sys, Run(sid, env)).shutters == sys.shutters
  {
  }

  lemma MeetsNobodyIfStaying(sys: System, owner: Sid -> Text, sid: Sid)
    requires Calm(sys, owner) && sid in sys.shared.sess
    ensures !LifeOf(sys.log, sid).left ==> !Displaces(sys.shared, sid)
  {
    if !LifeOf(sys.log, sid).left {
      MeetsNobody(sys, owner, sid);
    }
  }

  lemma LeavesOnce(l: Life, op: Op)
    ensures l.left ==> OwnLife(l, op).left
  {
  }

  lemma OnlyShutCloses(s: Sess, op: Op, env: Env)
    ensures s.open && !op.Shut? ==> Own(s, op, env).open
  {
  }

  /** What may happen next without disturbing the mirror. */
  ghost predicate Gentle(sys: System, a: Action, owner: Sid -> Text) {
    match a
    case Accept(sid) => forall t :: t in sys.shared.sess && owner(t) == owner(sid) ==> t == sid || LifeOf(sys.log, t).left
    case Receive(sid, f, _) => f.phone == owner(sid)
    case CloseStart(_) => false
    case _ => InOrderOfIssue(a)
  }

  lemma GentleSessions(sys: System, a: Action, owner: Sid -> Text)
    requires Enabled(sys, a) && !a.Run? && Gentle(sys, a, owner) && sys.shutters == multiset{}
    ensures var sys' := Next(sys, a);
            && sys'.shared.sess == (if a.Accept? then sys.shared.sess[a.sid := FRESH] else sys.shared.sess)
            && sys'.shutters == multiset{} && sys'.shared.local == sys.shared.local
            && (if a.RunJob? then
                 sys.shared.jobs != [] && sys'.shared.jobs == sys.shared.jobs[1..] &&
                 sys'.online == Perform(sys.shared.sess, sys.online, sys.shared.jobs[0])
               else sys'.shared.jobs == sys.shared.jobs && sys'.online == sys.online)
  {
    hide Program, After, Then, Record, Perform;
    match a {
      case Accept(_) =>
      case Receive(_, _, _) =>
      case ReadFail(_) =>
      case AuthTimeout(_) =>
      case RunJob(_, _) => assert sys.shared.jobs[..0] + sys.shared.jobs[1..] == sys.shared.jobs[1..];
      case Expire(_) =>
      case _ =>
    }
  }

  /** What is neither an operation nor a pruning keeps the mirror, if queued updates are performed in order. */
  lemma OtherMirrors(sys: System, a: Action)
    requires Mirrors(sys) && JobsNamed(sys.shared) && Enabled(sys, a) && !a.Run? && InOrderOfIssue(a)
    ensures Mirrors(Next(sys, a)) && JobsNamed(Next(sys, a).shared)
  {
    hide Next, Enabled, Drain, Perform;
    var sys', jobs := Next(sys, a), sys.shared.jobs;
    InTurn(sys, a);
    forall t ensures t in sys.shared.sess ==>
                       t in sys'.shared.sess && sys'.shared.sess[t].phone == sys.shared.sess[t].phone {
      QuietAction(sys, a, t);
    }
    QuietAction(sys, a, 0);
    DrainSame(sys.shared.sess, sys'.shared.sess, sys'.online, sys'.shared.jobs);
    if a.RunJob? {
      DrainHead(sys.shared.sess, sys.online, jobs);
    }
  }

  lemma InTurn(sys: System, a: Action)
    requires Enabled(sys, a) && !a.Run? && InOrderOfIssue(a)
    ensures var sys' := Next(sys, a);
            if a.RunJob? then
              sys.shared.jobs != [] && sys'.shared.jobs == sys.shared.jobs[1..] &&
              sys'.online == Perform(sys.shared.sess, sys.online, sys.shared.jobs[0])
            else sys'.shared.jobs == sys.shared.jobs && sys'.online == sys.online
  {
    hide Program, After, Then, Record, Perform;
    if a.RunJob? {
      assert sys.shared.jobs[..0] + sys.shared.jobs[1..] == sys.shared.jobs[1..];
    }
  }

  lemma EnabledAccept(sys: System, a: Action)
    requires Enabled(sys, a)
    ensures a.Accept? ==> a.sid !in sys.shared.sess
  {
  }

  lemma OtherSteady(sys: System, a: Action, owner: Sid -> Text, t: Sid)
    requires Calm(sys, owner) && Enabled(sys, a) && !a.Run? && Gentle(sys, a, owner) && t in Next(sys, a).shared.sess
    requires LifeOf(Next(sys, a).log, t) == LifeOf(sys.log, t)
    ensures t in Next(sys, a).threads && Steady(Next(sys, a), t)
  {
    GentleSessions(sys, a, owner);
    EnabledAccept(sys, a);
    QuietThread(sys, a, t);
    hide Next, Enabled, LifeOf, Mirrors, JobsNamed, InOrder, Sound, Complete, Paced, Program;
    PacedQuiet(LifeOf(sys.log, t).joined);
    if t in sys.shared.sess {
      assert Steady(sys, t);
      if a.Receive? && t == a.sid && Idle(sys, t) {
        ProgramRhythm(sys.shared.sess[t].state, a.frame, a.env, LifeOf(sys.log, t).joined);
      }
    }
  }

  lemma LivesStay(sys: System, a: Action)
    requires Enabled(sys, a) && !a.Run?
    ensures forall t :: LifeOf(Next(sys, a).log, t) == LifeOf(sys.log, t)
  {
    hide Next, Enabled, LifeOf;
    QuietLog(sys, a);
    forall t ensures LifeOf(Next(sys, a).log, t) == LifeOf(sys.log, t) {
      LivesUnchanged(sys.log, Next(sys, a).log, t);
    }
  }

  lemma OtherApart(sys: System, a: Action, owner: Sid -> Text)
    requires Apart(sys, owner) && sys.shutters == multiset{} && Enabled(sys, a) && !a.Run? && Gentle(sys, a, owner)
    ensures Apart(Next(sys, a), owner)
  {
    GentleSessions(sys, a, owner);
    LivesStay(sys, a);
    hide Next, Enabled, LifeOf;
  }

  lemma OtherCalm(sys: System, a: Action, owner: Sid -> Text)
    requires Calm(sys, owner) && (forall t :: owner(t) != []) && Enabled(sys, a) && !a.Run? && Gentle(sys, a, owner)
    ensures Calm(Next(sys, a), owner)
  {
    RegistrySafety.NextKept(sys, a, owner);
    OtherMirrors(sys, a);
    OtherApart(sys, a, owner);
    GentleSessions(sys, a, owner);
    LivesStay(sys, a);
    var sys' := Next(sys, a);
    hide Next, Enabled, LifeOf, Mirrors, JobsNamed, Kept, Steady, Apart, Gentle;
    forall t | t in sys'.shared.sess ensures t in sys'.threads && Steady(sys', t) {
      OtherSteady(sys, a, owner, t);
    }
  }

  lemma PacedQuiet(joined: bool)
    ensures Paced(FAREWELL, joined) && Paced([], joined)
  {
  }

  lemma {:induction false} AlwaysCalm(run: seq<Action>, owner: Sid -> Text)
    requires OnePhone(run, owner) && NonOverlapping(run, owner) && Undisturbed(run)
    ensures Calm(Execute(run), owner)
  {
    if run != [] {
      var n := |run| - 1;
      var sys, a := Execute(run[..n]), run[n];
      forall i | 0 <= i < n ensures run[..n][i] == run[i] && run[..n][..i] == run[..i] {
      }
      AlwaysCalm(run[..n], owner);
      assert Gentle(sys, a, owner) || a.Run?;
      if Enabled(sys, a) {
        if a.Run? {
          RunCalm(sys, a.sid, a.env, owner);
        } else {
          OtherCalm(sys, a, owner);
        }
      }
    }
  }

  /**
    The online mirror: in every run in which each connection keeps one phone, sessions of one
    phone do not overlap and Redis is undisturbed, the online set equals the registered phones
    whenever the queue is empty; and at any time once the queue is drained.
  */
  lemma OnlineMirrorsRegistry(run: seq<Action>, owner: Sid -> Text)
    requires OnePhone(run, owner) && NonOverlapping(run, owner) && Undisturbed(run)
    ensures Mirrors(Execute(run))
    ensures Execute(run).shared.jobs == [] ==> Execute(run).online == Execute(run).shared.local.Keys
  {
    AlwaysCalm(run, owner);
  }

  /**
    What upsets the mirror in practice: a device reconnects and the displaced session then
    leaves. The phone is registered for the new session and yet not online, until the next
    heartbeat of the new session.
  */
  lemma ReconnectBreaksMirror(sh: Shared, online: set<Text>, first: Sid, second: Sid, env: Env)
    requires first in sh.sess && second in sh.sess && first != second && MirrorsIn(sh, online)
    requires var phone := sh.sess[first].phone;
             phone != [] && sh.sess[second].phone == phone && phone in sh.local && sh.local[phone] == first
    ensures var phone, sh1 := sh.sess[first].phone, After(sh, second, Register, env);
            var sh2 := After(sh1, first, Unregister, env);
            && MirrorsIn(sh1, online) && !MirrorsIn(sh2, online)
            && phone in sh2.local && sh2.local[phone] == second && phone !in Drain(sh2.sess, online, sh2.jobs)
  {
    RegisterMirror(sh, online, second, env);
    var sh1 := After(sh, second, Register, env);
    RegistryAfter(sh, second, Register, env);
    SessionAfter(sh, second, Register, env, first);
    hide After, Drain;
    UnregisterMirror(sh1, online, first, env);
    RegistryAfter(sh1, first, Unregister, env);
    JobsAfter(sh1, first, Unregister, env);
    UnregisterKeepsSessions(sh1, first, env);
    DrainSnoc(sh1.sess, online, sh1.jobs, GoOffline(first));
  }

  lemma UnregisterKeepsSessions(sh: Shared, sid: Sid, env: Env)
    requires sid in sh.sess
    ensures After(sh, sid, Unregister, env).sess == sh.sess
  {
  }
}