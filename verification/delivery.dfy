/** What the peer of a connection gets to read, over whole runs. */
module Delivery {
  import opened Bytes
  import opened Wire
  import opened WireTheorems
  import opened World
  import opened Runs
  import opened Discipline

  /** The messages among the attempts that went out. */
  function Delivered(sends: seq<Event>): seq<Message>
    requires forall k :: 0 <= k < |sends| ==> sends[k].Sent?
  {
    if sends == [] then []
    else
      var e := sends[|sends| - 1];
      Delivered(sends[..|sends| - 1]) + if e.delivered then [Message(e.msgId, e.phone, e.seqNum, e.body)] else []
  }

  /** The bytes on every wire are the delivered messages, back to back. */
  ghost predicate WiresTell(sys: System) {
    forall sid ::
      if sid in sys.shared.sess then sys.shared.sess[sid].wire == BackToBack(Delivered(Sends(sys.log, sid)))
      else Sends(sys.log, sid) == []
  }

  lemma SendsSnoc(log: seq<Event>, e: Event, sid: Sid)
    ensures Sends(log + [e], sid) == Sends(log, sid) + if e.Sent? && e.sid == sid then [e] else []
  {
    assert (log + [e])[..|log|] == log;
  }

  /** An operation writes on its own wire what it puts on record as delivered, and on no other. */
  lemma OperationTells(sh: Shared, actor: Sid, op: Op, env: Env, log: seq<Event>, sid: Sid)
    requires actor in sh.sess && sid in sh.sess && sh.sess[sid].wire == BackToBack(Delivered(Sends(log, sid)))
    ensures var sh' := After(sh, actor, op, env);
            sh'.sess[sid].wire == BackToBack(Delivered(Sends(log + Record(sh, actor, op, env), sid)))
  {
    hide After, Record, Own, Written, BackToBack, Delivered, Sends;
    SessionAfter(sh, actor, op, env, sid);
    SendsConcat(log, Record(sh, actor, op, env), sid);
    if op.Reply? && actor == sid {
      ReplyTells(sh, sid, op, env, Sends(log, sid));
    } else {
      NothingSentBy(sh, actor, op, env, sid);
      OnlyRepliesWrite(sh.sess[actor], op, env);
      assert Sends(log, sid) + [] == Sends(log, sid);
    }
  }

  lemma OnlyRepliesWrite(s: Sess, op: Op, env: Env)
    ensures !op.Reply? ==> Own(s, op, env).wire == s.wire
    ensures CloseSess(s).wire == s.wire
  {
  }

  lemma NothingSentBy(sh: Shared, actor: Sid, op: Op, env: Env, sid: Sid)
    requires actor in sh.sess && (!op.Reply? || actor != sid)
    ensures Sends(Record(sh, actor, op, env), sid) == []
  {
    hide Sends;
    RecordSends(sh, actor, op, env, sid);
  }

  lemma ReplyTells(sh: Shared, sid: Sid, op: Op, env: Env, sends: seq<Event>)
    requires sid in sh.sess && op.Reply? && (forall k :: 0 <= k < |sends| ==> sends[k].Sent?)
    requires sh.sess[sid].wire == BackToBack(Delivered(sends))
    ensures Own(sh.sess[sid], op, env).wire == BackToBack(Delivered(sends + Sends(Record(sh, sid, op, env), sid)))
  {
    hide Written, BackToBack;
    var s, r := sh.sess[sid], Record(sh, sid, op, env);
    ReplySends(sh, sid, op, env);
    var e := r[0];
    assert r == [] + [e];
    SendsSnoc([], e, sid);
    assert (sends + [e])[..|sends|] == sends;
    if s.open && env.writeOk {
      BackToBackSnoc(Delivered(sends), Message(e.msgId, e.phone, e.seqNum, e.body));
    } else {
      assert Delivered(sends) + [] == Delivered(sends);
    }
  }

  lemma RunTells(sys: System, actor: Sid, env: Env, sid: Sid)
    requires WiresTell(sys) && Enabled(sys, Run(actor, env))
    ensures var sys' := Next(sys, Run(actor, env));
            if sid in sys'.shared.sess then sys'.shared.sess[sid].wire == BackToBack(Delivered(Sends(sys'.log, sid)))
            else Sends(sys'.log, sid) == []
  {
    hide Next, Enabled, After, Record, BackToBack, Delivered, Sends;
    CanRun(sys, actor, env);
    NextRun(sys, actor, env);
    var op := sys.threads[actor].todo[0];
    if sid in sys.shared.sess {
      OperationTells(sys.shared, actor, op, env, sys.log, sid);
    } else {
      NothingSentBy(sys.shared, actor, op, env, sid);
      SendsConcat(sys.log, Record(sys.shared, actor, op, env), sid);
    }
  }

  /** Other actions write nothing. */
  lemma QuietTells(sys: System, a: Action, sid: Sid)
    requires WiresTell(sys) && Enabled(sys, a) && !a.Run?
    ensures var sys' := Next(sys, a);
            if sid in sys'.shared.sess then sys'.shared.sess[sid].wire == BackToBack(Delivered(Sends(sys'.log, sid)))
            else Sends(sys'.log, sid) == []
  {
    hide Program, BackToBack, Delivered, Sends;
    var sys' := Next(sys, a);
    if sys'.log != sys.log {
      SendsSnoc(sys.log, sys'.log[|sys.log|], sid);
      assert Sends(sys.log, sid) + [] == Sends(sys.log, sid);
    }
    NothingWritten();
  }

  lemma NothingWritten()
    ensures BackToBack(Delivered([])) == []
  {
  }

  lemma {:induction false} WiresAlwaysTell(run: seq<Action>)
    ensures WiresTell(Execute(run))
  {
    hide Next, Enabled, Sends;
    if run == [] {
      assert forall sid :: Sends(INIT.log, sid) == [] by {
        NothingAtFirst();
      }
    } else {
      var sys, a := Execute(run[..|run| - 1]), run[|run| - 1];
      WiresAlwaysTell(run[..|run| - 1]);
      if Enabled(sys, a) {
        forall sid
          ensures var sys' := Next(sys, a);
                  if sid in sys'.shared.sess then sys'.shared.sess[sid].wire == BackToBack(Delivered(Sends(sys'.log, sid)))
                  else Sends(sys'.log, sid) == []
        {
          if a.Run? {
            RunTells(sys, a.sid, a.env, sid);
          } else {
            QuietTells(sys, a, sid);
          }
        }
      }
    }
  }

  lemma NothingAtFirst()
    ensures forall sid :: Sends([], sid) == []
  {
  }

  /**
    In every run, what a peer can read from its connection is exactly the replies that were
    delivered to it, in order, each as it was sent, and then a clean end.
  */
  lemma PeerReads(run: seq<Action>, sid: Sid)
    requires sid in Execute(run).shared.sess
    ensures var sys := Execute(run);
            ReadAll(sys.shared.sess[sid].wire) == Stream(AllReceived(Delivered(Sends(sys.log, sid))), EndOfInput)
  {
    hide Execute, ReadAll, BackToBack, Delivered, Sends, AllReceived;
    WiresAlwaysTell(run);
    BackToBackIsRead(Delivered(Sends(Execute(run).log, sid)));
  }

  /** How many of the first k attempts were delivered. */
  function Landed(sends: seq<Event>): nat
    requires forall k :: 0 <= k < |sends| ==> sends[k].Sent?
  {
    |Delivered(sends)|
  }

  /** The reply delivered for attempt k is read in its place among those delivered. */
  lemma {:induction false} DeliveredAt(sends: seq<Event>, k: nat)
    requires k < |sends| && (forall i :: 0 <= i < |sends| ==> sends[i].Sent?) && sends[k].delivered
    ensures Landed(sends[..k]) < |Delivered(sends)|
    ensures Delivered(sends)[Landed(sends[..k])] == Message(sends[k].msgId, sends[k].phone, sends[k].seqNum, sends[k].body)
  {
    var n := |sends| - 1;
    if k < n {
      assert sends[..n][..k] == sends[..k];
      DeliveredAt(sends[..n], k);
    }
  }

  /**
    Request and reply over the wire: in every run, the answer to request k of a connection, if
    it was delivered, is among the frames the peer reads, in the place of its delivery; it
    carries sequence number k + 1, counted from zero, and echoes the request.
  */
  lemma RepliesAreRead(run: seq<Action>, sid: Sid, k: nat)
    requires sid in Execute(run).shared.sess
    requires var sends := Sends(Execute(run).log, sid); k < |sends| && sends[k].delivered
    ensures var sys := Execute(run);
            var sends, frames := Sends(sys.log, sid), ReadAll(sys.shared.sess[sid].wire).frames;
            var at := Landed(sends[..k]);
            && at < |frames| && k < |Requests(sys.log, sid)|
            && frames[at].seqNum == (k + 1) % 0x1_0000
            && Echoes(frames[at].msgId, frames[at].body, Requests(sys.log, sid)[k])
  {
    hide Execute, ReadAll, Sends, Requests, Delivered, Echoes;
    var sys := Execute(run);
    PeerReads(run, sid);
    DeliveredAt(Sends(sys.log, sid), k);
    OneReplyEach(run);
    AlwaysWellFormed(run);
    assert InStep(Requests(sys.log, sid), Sends(sys.log, sid), sys.threads[sid].todo, sys.shared.sess[sid].outSeq);
  }
}
