/** Which token admits whom, over whole runs. */
module Tokens {
  import opened Bytes
  import opened Wire
  import opened World
  import opened Runs
  import Bcd
  import WireTheorems

  datatype Option<+T> = None | Some(value: T)

  // ---- the token store follows the record ----

  /** The token the record says is held for phone: the one last stored, unless it has expired since. */
  function Held(log: seq<Event>, phone: Text): Option<Text> {
    if log == [] then None
    else
      var e := log[|log| - 1];
      if e.Stored? && e.phone == phone then Some(e.token)
      else if e.Expired? && e.phone == phone then None
      else Held(log[..|log| - 1], phone)
  }

  function Lookup(tokens: map<Text, Text>, phone: Text): Option<Text> {
    if phone in tokens then Some(tokens[phone]) else None
  }

  /** How far the authentication of a session has come, by the record. */
  datatype Standing =
    | Nothing
    | Asked(frame: Frame)     // the latest frame is waiting for its answer
    | Shown(frame: Frame)     // it presented the token held for its phone
    | Waived(frame: Frame)    // the token could not be looked up

  function Progress(st: Standing, e: Event, sid: Sid): Standing {
    match e
    case Request(t, f, _) => if t == sid then Asked(f) else st
    case Presented(t, phone, token, valid) =>
      if t != sid then st
      else if valid && st.Asked? && st.frame.phone == phone && st.frame.body == token then Shown(st.frame) else Nothing
    case Unchecked(t, phone, token) =>
      if t != sid then st
      else if st.Asked? && st.frame.phone == phone && st.frame.body == token then Waived(st.frame) else Nothing
    case _ => st
  }

  function StandingOf(log: seq<Event>, sid: Sid): Standing {
    if log == [] then Nothing else Progress(StandingOf(log[..|log| - 1], sid), log[|log| - 1], sid)
  }

  /** Every token presented so far was judged by the record before it, and every admission rests on such a judgement. */
  ghost predicate Justified(log: seq<Event>) {
    && (forall i :: 0 <= i < |log| && log[i].Presented? ==>
         log[i].valid == (Held(log[..i], log[i].phone) == Some(log[i].token)))
    && (forall i :: 0 <= i < |log| && log[i].Admitted? ==>
         var st := StandingOf(log[..i], log[i].sid);
         (st.Shown? || st.Waived?) && st.frame.msgId == AUTHENTICATION)
  }

  /** The operations left can only admit the session for the frame it stands by. */
  ghost predicate Guarded(ops: seq<Op>, st: Standing) {
    forall i :: 0 <= i < |ops| ==>
      && (ops[i].Validate? ==> st == Asked(ops[i].frame) && ops[i].frame.msgId == AUTHENTICATION && i == |ops| - 1)
      && (ops[i].MarkAuthenticated? ==> (st.Shown? || st.Waived?) && st.frame.msgId == AUTHENTICATION)
      && (ops[i].Reply? ==> Harmless(ops[i].onSuccess))
  }

  ghost predicate Harmless(ops: seq<Op>) {
    forall op :: op in ops ==> !op.Validate? && !op.MarkAuthenticated? && !op.Reply? && !op.StoreToken?
  }

  lemma ProgramGuarded(state: State, f: Frame, env: Env)
    ensures Guarded(Program(state, f, env), Asked(f))
  {
  }

  lemma ThenGuarded(sh: Shared, sid: Sid, ops: seq<Op>, env: Env, st: Standing)
    requires sid in sh.sess && ops != [] && Guarded(ops, st)
    ensures var e := Record(sh, sid, ops[0], env);
            Guarded(Then(sh, sid, ops[0], env) + ops[1..], if e == [] then st else Progress(st, e[|e| - 1], sid))
  {
  }

  // ---- whole runs ----

  ghost predicate TokensKept(sys: System) {
    && Justified(sys.log)
    && (forall phone :: Held(sys.log, phone) == Lookup(sys.shared.tokens, phone))
    && forall sid :: sid in sys.threads ==> Guarded(sys.threads[sid].todo, StandingOf(sys.log, sid))
  }

  lemma LogSnoc(log: seq<Event>, e: Event, phone: Text, sid: Sid)
    ensures Held(log + [e], phone) ==
            if e.Stored? && e.phone == phone then Some(e.token) else if e.Expired? && e.phone == phone then None else Held(log, phone)
    ensures StandingOf(log + [e], sid) == Progress(StandingOf(log, sid), e, sid)
  {
    assert (log + [e])[..|log|] == log;
  }

  lemma JustifiedSnoc(log: seq<Event>, e: Event)
    requires Justified(log)
    requires e.Presented? ==> e.valid == (Held(log, e.phone) == Some(e.token))
    requires e.Admitted? ==> var st := StandingOf(log, e.sid); (st.Shown? || st.Waived?) && st.frame.msgId == AUTHENTICATION
    ensures Justified(log + [e])
  {
    hide Held, StandingOf;
    var log' := log + [e];
    forall i | 0 <= i < |log'| ensures log'[..i] == log[..i] {
    }
    assert log[..|log|] == log;
  }

  /** One event, with the bookkeeping that goes with it. */
  lemma EventKept(log: seq<Event>, e: Event, tokens: map<Text, Text>, tokens': map<Text, Text>)
    requires Justified(log) && forall phone :: Held(log, phone) == Lookup(tokens, phone)
    requires e.Presented? ==> e.valid == (Held(log, e.phone) == Some(e.token))
    requires e.Admitted? ==> var st := StandingOf(log, e.sid); (st.Shown? || st.Waived?) && st.frame.msgId == AUTHENTICATION
    requires tokens' == if e.Stored? then tokens[e.phone := e.token] else if e.Expired? then tokens - {e.phone} else tokens
    ensures Justified(log + [e]) && forall phone :: Held(log + [e], phone) == Lookup(tokens', phone)
  {
    JustifiedSnoc(log, e);
    forall phone ensures Held(log + [e], phone) == Lookup(tokens', phone) {
      LogSnoc(log, e, phone, 0);
    }
  }

  lemma TokensAfter(sh: Shared, sid: Sid, op: Op, env: Env)
    requires sid in sh.sess
    ensures After(sh, sid, op, env).tokens ==
            if op.StoreToken? && env.redisOk then sh.tokens[op.phone := op.token] else sh.tokens
  {
    hide PublishItems, PublishReport, BatchOf, Bump, Written;
  }

  /** What each operation may put on record. */
  lemma RecordShape(sh: Shared, sid: Sid, op: Op, env: Env)
    requires sid in sh.sess
    ensures var r := Record(sh, sid, op, env);
            && |r| <= 2
            && (|r| == 2 ==> op.Register? && r[0].Dropped? && r[1].Joined?)
            && (|r| == 0 ==> !(op.StoreToken? && env.redisOk) && !op.Validate?)
            && (|r| == 1 ==>
                 && (r[0].Stored? <==> op.StoreToken?) && (r[0].Stored? ==> env.redisOk && r[0].phone == op.phone && r[0].token == op.token)
                 && (r[0].Presented? ==> op.Validate? && r[0].phone == op.frame.phone && r[0].token == op.frame.body &&
                                         r[0].valid == Stores(sh.tokens, op.frame))
                 && (r[0].Admitted? ==> op.MarkAuthenticated?)
                 && (r[0].Presented? || r[0].Unchecked? || r[0].Admitted? ==> r[0].sid == sid)
                 && !r[0].Expired? && !r[0].Request?)
  {
  }

  lemma RunKept(sys: System, sid: Sid, env: Env)
    requires WellFormed(sys) && TokensKept(sys) && Enabled(sys, Run(sid, env))
    ensures TokensKept(Next(sys, Run(sid, env)))
  {
    hide After, Then, Record, Held, StandingOf, Justified, Guarded;
    var sh, todo, log := sys.shared, sys.threads[sid].todo, sys.log;
    var op, sys' := todo[0], Next(sys, Run(sid, env));
    var r := Record(sh, sid, op, env);
    TokensAfter(sh, sid, op, env);
    RecordShape(sh, sid, op, env);
    HeadGuarded(todo, StandingOf(log, sid));
    if |r| == 1 {
      EventKept(log, r[0], sh.tokens, sys'.shared.tokens);
      assert sys'.log == log + [r[0]];
    } else if |r| == 2 {
      EventKept(log, r[0], sh.tokens, sh.tokens);
      EventKept(log + [r[0]], r[1], sh.tokens, sh.tokens);
      assert sys'.log == log + [r[0]] + [r[1]];
    } else {
      assert sys'.log == log;
    }
    forall t | t in sys'.threads ensures Guarded(sys'.threads[t].todo, StandingOf(sys'.log, t)) {
      StandingAfter(log, r, t, sid);
      if t == sid {
        ThenGuarded(sh, sid, todo, env, StandingOf(log, sid));
      }
    }
  }

  lemma HeadGuarded(ops: seq<Op>, st: Standing)
    requires ops != [] && Guarded(ops, st)
    ensures ops[0].MarkAuthenticated? ==> (st.Shown? || st.Waived?) && st.frame.msgId == AUTHENTICATION
  {
  }

  lemma StandingAfter(log: seq<Event>, r: seq<Event>, t: Sid, sid: Sid)
    requires |r| <= 2 && (|r| == 2 ==> r[0].Dropped? && r[1].Joined?)
    requires |r| == 1 ==> !r[0].Request? && (r[0].Presented? || r[0].Unchecked? ==> r[0].sid == sid)
    ensures StandingOf(log + r, t) ==
            if t != sid || r == [] then StandingOf(log, t) else Progress(StandingOf(log, t), r[|r| - 1], t)
  {
    if |r| == 1 {
      LogSnoc(log, r[0], [], t);
      assert log + r == log + [r[0]];
    } else if |r| == 2 {
      LogSnoc(log, r[0], [], t);
      LogSnoc(log + [r[0]], r[1], [], t);
      assert log + r == log + [r[0]] + [r[1]];
    } else {
      assert log + r == log;
    }
  }

  lemma NextKept(sys: System, a: Action)
    requires WellFormed(sys) && TokensKept(sys) && Enabled(sys, a)
    ensures TokensKept(Next(sys, a))
  {
    if a.Run? {
      RunKept(sys, a.sid, a.env);
    } else {
      hide Next, Enabled, Held, StandingOf, Justified, Guarded;
      OneEventAtMost(sys, a);
      var sys' := Next(sys, a);
      if sys'.log != sys.log {
        EventKept(sys.log, sys'.log[|sys.log|], sys.shared.tokens, sys'.shared.tokens);
      }
      forall t | t in sys'.threads ensures Guarded(sys'.threads[t].todo, StandingOf(sys'.log, t)) {
        ThreadGuarded(sys, a, t);
      }
    }
  }

  lemma OneEventAtMost(sys: System, a: Action)
    requires Enabled(sys, a) && !a.Run?
    ensures var sys' := Next(sys, a);
            if sys'.log == sys.log then sys'.shared.tokens == sys.shared.tokens
            else
              && |sys'.log| == |sys.log| + 1 && sys'.log == sys.log + [sys'.log[|sys.log|]]
              && var e := sys'.log[|sys.log|];
                 (e.Request? || e.Dropped? || e.Expired?)
                 && sys'.shared.tokens == if e.Expired? then sys.shared.tokens - {e.phone} else sys.shared.tokens
  {
    hide Program;
  }

  lemma ThreadGuarded(sys: System, a: Action, t: Sid)
    requires TokensKept(sys) && Enabled(sys, a) && !a.Run? && t in Next(sys, a).threads
    ensures Guarded(Next(sys, a).threads[t].todo, StandingOf(Next(sys, a).log, t))
  {
    hide Held, StandingOf, Justified, Guarded, Program;
    var sys' := Next(sys, a);
    FarewellGuarded(StandingOf(sys'.log, t));
    if sys'.log != sys.log {
      LogSnoc(sys.log, sys'.log[|sys.log|], [], t);
    }
    if a.Receive? && t == a.sid {
      ProgramGuarded(sys.shared.sess[t].state, a.frame, a.env);
    }
  }

  lemma FarewellGuarded(st: Standing)
    ensures Guarded(FAREWELL, st) && Guarded([], st)
  {
  }

  /**
    Over whole runs: a presented token is found valid exactly when it is the one last stored for
    that phone and not expired since; and a session is admitted only for an authentication frame
    whose own token was just found valid, or could not be looked up.
  */
  lemma {:induction false} AdmissionIsJustified(run: seq<Action>)
    ensures TokensKept(Execute(run))
  {
    if run != [] {
      var sys, a := Execute(run[..|run| - 1]), run[|run| - 1];
      AdmissionIsJustified(run[..|run| - 1]);
      AlwaysWellFormed(run[..|run| - 1]);
      if Enabled(sys, a) {
        NextKept(sys, a);
      }
    } else {
      assert TokensKept(INIT);
    }
  }

  // ---- without store errors ----

  ghost predicate StoreWorks(run: seq<Action>) {
    forall i :: 0 <= i < |run| && run[i].Run? ==> run[i].env.redisOk
  }

  lemma {:induction false} NothingUnchecked(run: seq<Action>)
    requires StoreWorks(run)
    ensures forall i :: 0 <= i < |Execute(run).log| ==> !Execute(run).log[i].Unchecked?
  {
    if run != [] {
      var init := run[..|run| - 1];
      var sys, a := Execute(init), run[|run| - 1];
      assert forall i :: 0 <= i < |init| ==> init[i] == run[i];
      NothingUnchecked(init);
      if Enabled(sys, a) {
        hide After, Program;
      }
    }
  }

  /** A frame that was shown to hold the right token did present it, on this session, at a recorded moment. */
  lemma {:induction false} ShownWasPresented(log: seq<Event>, sid: Sid) returns (j: nat)
    requires StandingOf(log, sid).Shown?
    ensures var f := StandingOf(log, sid).frame;
            j < |log| && log[j] == Presented(sid, f.phone, f.body, true)
  {
    var init, e := log[..|log| - 1], log[|log| - 1];
    if StandingOf(init, sid).Shown? && Progress(StandingOf(init, sid), e, sid) == StandingOf(init, sid) {
      j := ShownWasPresented(init, sid);
    } else {
      j := |log| - 1;
    }
  }

  lemma {:induction false} NeverWaived(log: seq<Event>, sid: Sid)
    requires forall i :: 0 <= i < |log| ==> !log[i].Unchecked?
    ensures !StandingOf(log, sid).Waived?
  {
    if log != [] {
      NeverWaived(log[..|log| - 1], sid);
    }
  }

  /**
    Token binding: while the store answers, every admission goes back to a token presented for
    the phone of the frame, the very one stored last for that phone and not expired in between.
  */
  lemma TokenBinding(run: seq<Action>, i: nat) returns (f: Frame, j: nat)
    requires StoreWorks(run) && i < |Execute(run).log| && Execute(run).log[i].Admitted?
    ensures var log := Execute(run).log;
            && j < i && log[j] == Presented(log[i].sid, f.phone, f.body, true)
            && StandingOf(log[..i], log[i].sid) == Shown(f) && f.msgId == AUTHENTICATION
            && Held(log[..j], f.phone) == Some(f.body)
  {
    var log := Execute(run).log;
    AdmissionIsJustified(run);
    NothingUnchecked(run);
    NeverWaived(log[..i], log[i].sid);
    f := StandingOf(log[..i], log[i].sid).frame;
    j := ShownWasPresented(log[..i], log[i].sid);
  }

  // ---- a token is good for one phone only ----

  /** Every frame a run receives came through the frame reader, so its phone is made of nibble characters. */
  ghost predicate FromWire(run: seq<Action>) {
    forall i :: 0 <= i < |run| && run[i].Receive? ==> Bcd.Packable(run[i].frame.phone)
  }

  lemma ReaderYieldsPackable(s: seq<Byte>)
    requires Read(s).outcome.Ok?
    ensures Bcd.Packable(Read(s).outcome.value.phone)
  {
    var g, p, r := WireTheorems.ReadWasFramed(s);
    Bcd.DecodeByNibbles(p[4..10]);
    Bcd.DigitsPackable(Bcd.Nibbles(p[4..10]));
  }

  lemma {:induction false} DecimalInjective(n: nat, m: nat)
    requires Decimal(n) == Decimal(m)
    ensures n == m
  {
    var a, b := Decimal(n), Decimal(m);
    assert a[|a| - 1] == 0x30 + n % 10 && b[|b| - 1] == 0x30 + m % 10;
    if n >= 10 && m >= 10 {
      assert Decimal(n / 10) == a[..|a| - 1] == b[..|b| - 1] == Decimal(m / 10);
      DecimalInjective(n / 10, m / 10);
    } else {
      DecimalLength(n);
      DecimalLength(m);
    }
  }

  lemma {:induction false} DecimalLength(n: nat)
    ensures |Decimal(n)| >= 1 && (|Decimal(n)| == 1 <==> n < 10)
  {
    if n >= 10 {
      DecimalLength(n / 10);
    }
  }

  /** Phones cannot contain the separator, so a token names its phone and its second. */
  lemma TokenInjective(p: Text, n: nat, q: Text, m: nat)
    requires Bcd.Packable(p) && Bcd.Packable(q) && Token(p, n) == Token(q, m)
    ensures p == q && n == m
  {
    hide Decimal;
    var t, u := Token(p, n), Token(q, m);
    assert t[|p|] == UNDERSCORE && u[|q|] == UNDERSCORE;
    assert forall i :: 0 <= i < |p| ==> t[i] == p[i] != UNDERSCORE;
    assert forall i :: 0 <= i < |q| ==> u[i] == q[i] != UNDERSCORE;
    assert |p| == |q|;
    assert p == t[..|p|] == u[..|q|] == q;
    assert Decimal(n) == t[|p| + 1..] == u[|q| + 1..] == Decimal(m);
    DecimalInjective(n, m);
  }

  ghost predicate Issued(phone: Text, token: Text) {
    Bcd.Packable(phone) && exists n :: token == Token(phone, n)
  }

  ghost predicate AllIssued(sys: System) {
    && (forall i :: 0 <= i < |sys.log| && sys.log[i].Stored? ==> Issued(sys.log[i].phone, sys.log[i].token))
    && (forall sid :: sid in sys.threads ==> IssuedIn(sys.threads[sid].todo))
  }

  ghost predicate IssuedIn(ops: seq<Op>) {
    forall op :: op in ops && op.StoreToken? ==> Issued(op.phone, op.token)
  }

  lemma ProgramIssued(state: State, f: Frame, env: Env)
    requires Bcd.Packable(f.phone)
    ensures IssuedIn(Program(state, f, env))
  {
    assert Issued(f.phone, Token(f.phone, env.now));
    hide Issued, Token;
  }

  lemma ThenIssued(sh: Shared, sid: Sid, ops: seq<Op>, env: Env, st: Standing)
    requires sid in sh.sess && ops != [] && Guarded(ops, st) && IssuedIn(ops)
    ensures IssuedIn(Then(sh, sid, ops[0], env) + ops[1..])
  {
    hide Issued;
  }

  lemma NextIssued(sys: System, a: Action)
    requires TokensKept(sys) && AllIssued(sys) && Enabled(sys, a)
    requires a.Receive? ==> Bcd.Packable(a.frame.phone)
    ensures AllIssued(Next(sys, a))
  {
    hide After, Then, Record, Program, Issued, Held, Justified, Guarded, IssuedIn, StandingOf;
    var sys' := Next(sys, a);
    HeadIssued();
    if a.Run? {
      var todo := sys.threads[a.sid].todo;
      RecordShape(sys.shared, a.sid, todo[0], a.env);
      ThenIssued(sys.shared, a.sid, todo, a.env, StandingOf(sys.log, a.sid));
    } else if a.Receive? {
      ProgramIssued(sys.shared.sess[a.sid].state, a.frame, a.env);
    }
  }

  lemma HeadIssued()
    ensures forall ops: seq<Op> :: ops != [] && IssuedIn(ops) && ops[0].StoreToken? ==> Issued(ops[0].phone, ops[0].token)
    ensures IssuedIn(FAREWELL) && IssuedIn([])
  {
  }

  lemma {:induction false} AlwaysIssued(run: seq<Action>)
    requires FromWire(run)
    ensures AllIssued(Execute(run))
  {
    if run != [] {
      var init := run[..|run| - 1];
      var sys, a := Execute(init), run[|run| - 1];
      assert forall i :: 0 <= i < |init| ==> init[i] == run[i];
      AlwaysIssued(init);
      AdmissionIsJustified(init);
      if Enabled(sys, a) {
        NextIssued(sys, a);
      }
    }
  }

  lemma {:induction false} HeldWasStored(log: seq<Event>, phone: Text) returns (k: nat)
    requires Held(log, phone).Some?
    ensures k < |log| && log[k].Stored? && log[k].phone == phone && log[k].token == Held(log, phone).value
  {
    var e := log[|log| - 1];
    if e.Stored? && e.phone == phone {
      k := |log| - 1;
    } else {
      k := HeldWasStored(log[..|log| - 1], phone);
    }
  }

  /** A token issued to one phone is never found valid for another, in any run and at any time. */
  lemma TokenServesOnePhone(run: seq<Action>, i: nat, j: nat)
    requires FromWire(run)
    requires var log := Execute(run).log;
             i < |log| && j < |log| && log[i].Stored? && log[j].Presented? && log[j].valid && log[j].token == log[i].token
    ensures Execute(run).log[i].phone == Execute(run).log[j].phone
  {
    var log := Execute(run).log;
    AlwaysIssued(run);
    AdmissionIsJustified(run);
    var k := HeldWasStored(log[..j], log[j].phone);
    assert log[k].Stored? && log[k].phone == log[j].phone && log[k].token == log[j].token;
    var n :| log[i].token == Token(log[i].phone, n);
    var m :| log[k].token == Token(log[k].phone, m);
    TokenInjective(log[i].phone, n, log[k].phone, m);
  }
}
