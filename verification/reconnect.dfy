/** A run in which a device reconnects, drops out of the online set although registered, and comes back with its heartbeat. */
module Reconnect {
  import opened Bytes
  import opened Wire
  import opened World
  import opened Runs
  import opened Sequential
  import opened Verdicts
  import opened Accounts
  import opened Mirror
  import opened Closing
  import opened RegistrySafety
  import Registration

  // ---- making a goroutine finish, as part of a run ----

  /** longer goes on from run with operations of sid alone. */
  ghost predicate Attends(run: seq<Action>, longer: seq<Action>, sid: Sid) {
    run <= longer && forall i :: |run| <= i < |longer| ==> longer[i].Run? && longer[i].sid == sid
  }

  lemma {:induction false} AloneIsRun(run: seq<Action>, sid: Sid, env: Env, steps: nat) returns (longer: seq<Action>)
    ensures Attends(run, longer, sid) && Execute(longer) == RunAlone(Execute(run), sid, env, steps)
    decreases steps
  {
    hide Next, Enabled, Execute;
    var a := Run(sid, env);
    if steps == 0 || !Enabled(Execute(run), a) {
      longer := run;
    } else {
      OneMore(run, a);
      longer := AloneIsRun(run + [a], sid, env, steps - 1);
      forall i | |run| <= i < |longer| ensures longer[i].Run? && longer[i].sid == sid {
        if i == |run| {
          assert (run + [a])[i] == longer[i];
        }
      }
    }
  }

  lemma {:induction false} AloneStaysOnline(sys: System, sid: Sid, env: Env, steps: nat)
    ensures RunAlone(sys, sid, env, steps).online == sys.online
    decreases steps
  {
    hide Next, Enabled;
    if steps > 0 && Enabled(sys, Run(sid, env)) {
      NextRun(sys, sid, env);
      AloneStaysOnline(Next(sys, Run(sid, env)), sid, env, steps - 1);
    }
  }

  /** After run the goroutine of sid finishes what it has to do. */
  lemma Finishing(run: seq<Action>, sid: Sid, env: Env) returns (longer: seq<Action>)
    requires var sys := Execute(run); sid in sys.threads && sid in sys.shared.sess
    ensures Attends(run, longer, sid)
    ensures var sys, sys' := Execute(run), Execute(longer);
            && sys'.shared == RunOps(sys.shared, sid, sys.threads[sid].todo, env)
            && sys'.threads == sys.threads[sid := Thread([], sys.threads[sid].serving)]
            && sys'.online == sys.online
  {
    hide Execute, RunOps, RunAlone;
    var steps := Uninterrupted(Execute(run), sid, env);
    AloneStaysOnline(Execute(run), sid, env, steps);
    longer := AloneIsRun(run, sid, env, steps);
  }

  // ---- the run ----

  const FAIR: Env := Env(true, true, Approved, 0)

  /** The frames of the device. */
  function Enrolment(phone: Text): Frame {
    Frame(REGISTRATION, phone, 1, Repeat(0, 17), false, 0, 0)
  }

  function Admission(phone: Text): Frame {
    Frame(AUTHENTICATION, phone, 2, Token(phone, FAIR.now), false, 0, 0)
  }

  function Sign(phone: Text): Frame {
    Frame(HEARTBEAT, phone, 3, [], false, 0, 0)
  }

  /** One frame of a connection, taken and handled without interruption. */
  lemma Served(run: seq<Action>, sid: Sid, f: Frame) returns (longer: seq<Action>)
    requires Idle(Execute(run), sid) && sid in Execute(run).shared.sess
    ensures Attends(run + [Receive(sid, f, FAIR)], longer, sid)
    ensures var sys, sys' := Execute(run), Execute(longer);
            && Deserved(sys.shared, sys'.shared, sid, f, FAIR)
            && Booked(sys.shared, sys'.shared, sid, BLANK.(counts := multiset{Frames}).Plus(BooksFor(sys.shared, sid, f, FAIR)))
            && sys'.threads == sys.threads[sid := Thread([], true)] && sys'.online == sys.online
  {
    hide Execute, RunOps, Program, Deserved, Booked, BooksFor;
    var sys, a := Execute(run), Receive(sid, f, FAIR);
    OneMore(run, a);
    longer := Finishing(run + [a], sid, FAIR);
    DispatchDeserves(sys.shared, sid, f, FAIR);
    DispatchIsBooked(sys.shared, sid, f, FAIR);
  }

  /** Only frames of the phone are received, and no queued update is performed. */
  ghost predicate Clean(run: seq<Action>, phone: Text) {
    forall i :: 0 <= i < |run| ==> (run[i].Receive? ==> run[i].frame.phone == phone) && !run[i].Prune? && !run[i].RunJob?
  }

  lemma CleanOn(run: seq<Action>, a: Action, longer: seq<Action>, phone: Text)
    requires Clean(run, phone) && (a.Receive? ==> a.frame.phone == phone) && !a.Prune? && !a.RunJob?
    requires exists sid :: Attends(run + [a], longer, sid)
    ensures Clean(longer, phone) && run <= longer
  {
    var sid :| Attends(run + [a], longer, sid);
    forall i | 0 <= i < |longer|
      ensures (longer[i].Receive? ==> longer[i].frame.phone == phone) && !longer[i].Prune? && !longer[i].RunJob?
    {
      if i < |run| {
        assert longer[i] == (run + [a])[i] == run[i];
      } else if i == |run| {
        assert longer[i] == (run + [a])[i] == a;
      }
    }
    assert run <= run + [a];
  }

  // ---- what each frame does ----

  /** The phones of the other sessions stay. */
  ghost predicate OthersNamed(before: Shared, after: Shared, sid: Sid) {
    && after.sess.Keys == before.sess.Keys
    && forall t :: t in before.sess && t != sid ==> after.sess[t].phone == before.sess[t].phone
  }

  lemma EnrolmentDoes(before: Shared, after: Shared, sid: Sid, phone: Text)
    requires sid in before.sess && Deserved(before, after, sid, Enrolment(phone), FAIR)
    requires Booked(before, after, sid, BLANK.(counts := multiset{Frames}).Plus(BooksFor(before, sid, Enrolment(phone), FAIR)))
    ensures OthersNamed(before, after, sid) && after.sess[sid].phone == phone
    ensures after.tokens == before.tokens[phone := Token(phone, FAIR.now)] && after.local == before.local && after.jobs == before.jobs
  {
    hide Token, RegistrationAckBody, Written;
    assert Registration.Decode(Enrolment(phone).body).Ok?;
    hide Registration.Decode;
    assert before.jobs + ([] + []) == before.jobs;
  }

  lemma AdmissionDoes(before: Shared, after: Shared, sid: Sid, phone: Text)
    requires sid in before.sess && Deserved(before, after, sid, Admission(phone), FAIR)
    requires Booked(before, after, sid, BLANK.(counts := multiset{Frames}).Plus(BooksFor(before, sid, Admission(phone), FAIR)))
    requires phone in before.tokens && before.tokens[phone] == Token(phone, FAIR.now)
    requires before.sess[sid].phone == [] || before.sess[sid].phone == phone
    ensures OthersNamed(before, after, sid) && after.sess[sid].phone == phone && after.sess[sid].state == Authenticated
    ensures after.tokens == before.tokens && after.local == before.local[phone := sid] && after.jobs == before.jobs + [GoOnline(sid)]
  {
    hide Token, AckBody, Written;
    assert before.jobs + ([] + [GoOnline(sid)]) == before.jobs + [GoOnline(sid)];
  }

  lemma SignDoes(before: Shared, after: Shared, sid: Sid, phone: Text)
    requires sid in before.sess && Deserved(before, after, sid, Sign(phone), FAIR)
    requires Booked(before, after, sid, BLANK.(counts := multiset{Frames}).Plus(BooksFor(before, sid, Sign(phone), FAIR)))
    requires before.sess[sid].state == Authenticated
    ensures OthersNamed(before, after, sid) && after.sess[sid].phone == before.sess[sid].phone
    ensures after.local == before.local && after.jobs == before.jobs + [GoOnline(sid)]
  {
    hide AckBody, Written;
    assert before.jobs + ([] + [GoOnline(sid)]) == before.jobs + [GoOnline(sid)];
  }

  // ---- the stages ----

  lemma Accepting(run: seq<Action>, sid: Sid, phone: Text)
    requires sid !in Execute(run).shared.sess && Clean(run, phone)
    ensures var sys, sys' := Execute(run), Execute(run + [Accept(sid)]);
            && sys'.shared == sys.shared.(sess := sys.shared.sess[sid := FRESH], authTimers := sys.shared.authTimers + {sid})
            && sys'.threads == sys.threads[sid := Thread([], true)] && sys'.online == sys.online
            && Clean(run + [Accept(sid)], phone)
  {
    OneMore(run, Accept(sid));
  }

  /** The device is registered on session 0. */
  ghost predicate FirstIn(run: seq<Action>, phone: Text) {
    var sys := Execute(run);
    var sh := sys.shared;
    && Clean(run, phone) && sh.sess.Keys == {0} && sh.sess[0].phone == phone && Idle(sys, 0) && sys.online == {}
    && phone in sh.tokens && sh.tokens[phone] == Token(phone, FAIR.now)
    && sh.local == map[phone := 0] && sh.jobs == [GoOnline(0)]
  }

  lemma FirstComesIn(phone: Text) returns (run: seq<Action>)
    requires phone != []
    ensures FirstIn(run, phone)
  {
    hide Execute, Deserved, Booked, BooksFor, Enrolment, Admission, Token, Clean;
    assert Execute([]) == INIT && Clean([], phone) by {
      Beginning(phone);
    }
    Accepting([], 0, phone);
    var run0 := [] + [Accept(0)];
    var run1 := Served(run0, 0, Enrolment(phone));
    FramesOf(phone);
    CleanOn(run0, Receive(0, Enrolment(phone), FAIR), run1, phone);
    EnrolmentDoes(Execute(run0).shared, Execute(run1).shared, 0, phone);
    run := Served(run1, 0, Admission(phone));
    CleanOn(run1, Receive(0, Admission(phone), FAIR), run, phone);
    AdmissionDoes(Execute(run1).shared, Execute(run).shared, 0, phone);
    assert [] + [GoOnline(0)] == [GoOnline(0)];
  }

  lemma Beginning(phone: Text)
    ensures Execute([]) == INIT && Clean([], phone)
  {
  }

  lemma FramesOf(phone: Text)
    ensures Enrolment(phone).phone == phone && Admission(phone).phone == phone && Sign(phone).phone == phone
  {
  }

  /** The device has come back on session 1, and session 0 has left. */
  ghost predicate SecondIn(run: seq<Action>, phone: Text) {
    var sys := Execute(run);
    var sh := sys.shared;
    && Clean(run, phone) && sh.sess.Keys == {0, 1} && sh.sess[0].phone == phone && sh.sess[1].phone == phone
    && sh.sess[1].state == Authenticated && Idle(sys, 1) && sys.online == {}
    && sh.local == map[phone := 1] && sh.jobs == [GoOnline(0), GoOnline(1), GoOffline(0)]
  }

  lemma SecondComesIn(run: seq<Action>, phone: Text) returns (longer: seq<Action>)
    requires phone != [] && FirstIn(run, phone)
    ensures SecondIn(longer, phone)
  {
    hide Execute, Deserved, Booked, BooksFor, Admission, Token, Clean, Leave;
    Accepting(run, 1, phone);
    var run1 := run + [Accept(1)];
    var run2 := Served(run1, 1, Admission(phone));
    FramesOf(phone);
    CleanOn(run1, Receive(1, Admission(phone), FAIR), run2, phone);
    AdmissionDoes(Execute(run1).shared, Execute(run2).shared, 1, phone);
    longer := Departing(run2, 0, phone);
    LeavingCloses(Execute(run2).shared, 0, FAIR);
    assert [GoOnline(0)] + [GoOnline(1)] + [GoOffline(0)] == [GoOnline(0), GoOnline(1), GoOffline(0)];
  }

  lemma Departing(run: seq<Action>, sid: Sid, phone: Text) returns (longer: seq<Action>)
    requires Idle(Execute(run), sid) && sid in Execute(run).shared.sess && Clean(run, phone)
    ensures Clean(longer, phone) && run <= longer
    ensures var sys, sys' := Execute(run), Execute(longer);
            && sys'.shared == Leave(sys.shared, sid, FAIR) && sys'.threads == sys.threads[sid := Thread([], false)]
            && sys'.online == sys.online
  {
    hide Execute, RunOps, Clean;
    OneMore(run, ReadFail(sid));
    longer := Finishing(run + [ReadFail(sid)], sid, FAIR);
    CleanOn(run, ReadFail(sid), longer, phone);
  }

  lemma DrainsTo(sh: Shared, phone: Text)
    requires 0 in sh.sess && 1 in sh.sess && sh.sess[0].phone == phone && sh.sess[1].phone == phone
    ensures Drain(sh.sess, {}, [GoOnline(0), GoOnline(1), GoOffline(0)]) == {}
    ensures Drain(sh.sess, {}, [GoOnline(0), GoOnline(1), GoOffline(0), GoOnline(1)]) == {phone}
  {
    var a, b, c, d := GoOnline(0), GoOnline(1), GoOffline(0), GoOnline(1);
    hide Drain;
    assert [] + [a] == [a] && [a] + [b] == [a, b] && [a, b] + [c] == [a, b, c] && [a, b, c] + [d] == [a, b, c, d];
    DrainsNothing(sh.sess, {});
    DrainSnoc(sh.sess, {}, [], a);
    DrainSnoc(sh.sess, {}, [a], b);
    DrainSnoc(sh.sess, {}, [a, b], c);
    DrainSnoc(sh.sess, {}, [a, b, c], d);
  }

  /** The device is registered and will not be online. */
  ghost predicate Lost(run: seq<Action>, phone: Text) {
    var sys := Execute(run);
    phone in sys.shared.local && phone !in Drain(sys.shared.sess, sys.online, sys.shared.jobs) && !Mirrors(sys)
  }

  /** A run of one device, with updates performed in order. */
  ghost predicate OneDevice(run: seq<Action>, phone: Text) {
    OnePhone(run, (sid: Sid) => phone) && forall i :: 0 <= i < |run| ==> InOrderOfIssue(run[i])
  }

  /**
    The mirror lost and regained: for every phone there is a run, of one device with two
    connections and a working store, after which the device is registered and will not be
    online, and a longer one, with a heartbeat of the new connection, after which it will.
  */
  lemma ReconnectRun(phone: Text) returns (broken: seq<Action>, repaired: seq<Action>)
    requires phone != []
    ensures broken <= repaired && OneDevice(repaired, phone) && Lost(broken, phone)
    ensures Mirrors(Execute(repaired)) && Execute(repaired).shared.local.Keys == {phone}
  {
    hide Execute, Deserved, Booked, BooksFor, Drain, Sign;
    var first := FirstComesIn(phone);
    broken := SecondComesIn(first, phone);
    var sys := Execute(broken);
    DrainsTo(sys.shared, phone);
    repaired := Served(broken, 1, Sign(phone));
    FramesOf(phone);
    CleanOn(broken, Receive(1, Sign(phone), FAIR), repaired, phone);
    var sys' := Execute(repaired);
    SignDoes(sys.shared, sys'.shared, 1, phone);
    DrainsTo(sys'.shared, phone);
    assert [GoOnline(0), GoOnline(1), GoOffline(0)] + [GoOnline(1)] == [GoOnline(0), GoOnline(1), GoOffline(0), GoOnline(1)];
    assert map[phone := 1].Keys == {phone};
  }

  /** With all updates performed the device is in fact not online after the first of these runs, and online after the second. */
  lemma ReconnectShows(phone: Text) returns (gone: seq<Action>, back: seq<Action>)
    requires phone != []
    ensures phone in Execute(gone).shared.local && Execute(gone).shared.jobs == [] && phone !in Execute(gone).online
    ensures Execute(back).shared.jobs == [] && Execute(back).online == {phone} == Execute(back).shared.local.Keys
  {
    hide Execute, Drain;
    var broken, repaired := ReconnectRun(phone);
    gone := QueueDrains(broken);
    back := QueueDrains(repaired);
  }
}
