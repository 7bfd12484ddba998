/** A batch of locations against the same locations sent one by one (JT/T 808-2013 section 8.49). */
module Batch {
  import opened Bytes
  import opened Wire
  import opened World
  import opened Sequential
  import Location

  // ---- the batch format ----

  predicate Sendable(items: seq<Text>) {
    forall i :: 0 <= i < |items| ==> |items[i]| < 0x1_0000
  }

  function PutItems(items: seq<Text>): seq<Byte>
    requires Sendable(items)
  {
    if items == [] then [] else PutU16(|items[0]|) + items[0] + PutItems(items[1..])
  }

  function PutBatch(kind: Byte, items: seq<Text>): Text
    requires Sendable(items) && |items| < 0x1_0000
  {
    PutU16(|items|) + [kind] + PutItems(items)
  }

  lemma PutItemsCons(item: Text, more: seq<Text>)
    requires |item| < 0x1_0000 && Sendable(more)
    ensures Sendable([item] + more) && PutItems([item] + more) == PutU16(|item|) + item + PutItems(more)
  {
    assert ([item] + more)[1..] == more;
  }

  lemma BatchHead(item: Text, rest: seq<Byte>, count: nat)
    requires |item| < 0x1_0000 && count > 0
    ensures BatchItems(PutU16(|item|) + item + rest, count) == [item] + BatchItems(rest, count - 1)
  {
    var s := PutU16(|item|) + item + rest;
    U16RoundTrip([], |item|, item + rest);
    assert s == [] + PutU16(|item|) + (item + rest);
    assert s[2..2 + |item|] == item && s[2 + |item|..] == rest;
  }

  lemma {:induction false} ItemsOfBatch(items: seq<Text>, rest: seq<Byte>)
    requires Sendable(items)
    ensures BatchItems(PutItems(items) + rest, |items|) == items
  {
    hide BatchItems, PutItems, PutU16;
    BatchEnd(rest, 0);
    if items == [] {
      assert PutItems([]) + rest == rest;
    } else {
      var item, more := items[0], items[1..];
      assert items == [item] + more;
      ItemsOfBatch(more, rest);
      BatchHead(item, PutItems(more) + rest, |items|);
      PutItemsCons(item, more);
      assert PutU16(|item|) + item + PutItems(more) + rest == PutU16(|item|) + item + (PutItems(more) + rest);
    }
  }

  /** A batch body decodes to its items, whatever follows them. */
  lemma BatchTrip(kind: Byte, items: seq<Text>, trailer: seq<Byte>)
    requires Sendable(items) && |items| < 0x1_0000
    ensures BatchOf(PutBatch(kind, items) + trailer) == items
  {
    var body := PutBatch(kind, items) + trailer;
    U16RoundTrip([], |items|, [kind] + PutItems(items) + trailer);
    assert body == [] + PutU16(|items|) + ([kind] + PutItems(items) + trailer);
    assert body[3..] == PutItems(items) + trailer;
    ItemsOfBatch(items, trailer);
  }

  /** What is left of a batch when nothing complete follows: too short for a length, or for what the length says. */
  predicate Incomplete(tail: seq<Byte>) {
    |tail| < 2 || |tail| - 2 < 256 * (tail[0] as int) + tail[1]
  }

  lemma {:induction false} ItemsUpTo(items: seq<Text>, tail: seq<Byte>, count: nat)
    requires Sendable(items)
    ensures count <= |items| ==> BatchItems(PutItems(items) + tail, count) == items[..count]
    ensures count > |items| && Incomplete(tail) ==> BatchItems(PutItems(items) + tail, count) == items
  {
    hide BatchItems, PutItems, PutU16;
    if items == [] || count == 0 {
      BatchEnd(PutItems(items) + tail, count);
      assert PutItems([]) + tail == tail by {
        BatchEnd(tail, 0);
      }
    } else {
      var item, more := items[0], items[1..];
      assert items == [item] + more;
      assert count <= |items| ==> items[..count] == [item] + more[..count - 1];
      ItemsUpTo(more, tail, count - 1);
      BatchHead(item, PutItems(more) + tail, count);
      PutItemsCons(item, more);
      assert PutU16(|item|) + item + PutItems(more) + tail == PutU16(|item|) + item + (PutItems(more) + tail);
    }
  }

  /**
    A batch that declares count items: the first count of those it holds are taken, or all of
    them when it is cut short; the two high bytes are the count, the third does not matter.
  */
  lemma BatchCut(high: Byte, low: Byte, kind: Byte, items: seq<Text>, tail: seq<Byte>)
    requires Sendable(items)
    ensures var count := 256 * (high as int) + low;
            var r := BatchOf([high, low, kind] + PutItems(items) + tail);
            && (count <= |items| ==> r == items[..count])
            && (count > |items| && Incomplete(tail) ==> r == items)
  {
    hide BatchOf, PutItems, BatchItems, Incomplete;
    BodyOfBatch(high, low, kind, PutItems(items) + tail);
    assert [high, low, kind] + PutItems(items) + tail == [high, low, kind] + (PutItems(items) + tail);
    ItemsUpTo(items, tail, 256 * (high as int) + low);
  }

  lemma BodyOfBatch(high: Byte, low: Byte, kind: Byte, rest: seq<Byte>)
    ensures BatchOf([high, low, kind] + rest) == BatchItems(rest, 256 * (high as int) + low)
  {
    hide BatchItems;
    assert ([high, low, kind] + rest)[3..] == rest;
  }

  /** The bytes of an item: its length, high byte first, and itself. */
  lemma ItemBytes(item: Text, more: seq<Text>)
    requires |item| < 65536 && Sendable(more)
    ensures Sendable([item] + more) && PutItems([item] + more) == [|item| / 256, |item| % 256] + item + PutItems(more)
    ensures PutItems([]) == []
  {
    PutItemsCons(item, more);
  }

  /** A body without a whole head holds nothing. */
  lemma HeadlessBatch(body: Text)
    requires |body| < 3
    ensures BatchOf(body) == []
  {
  }

  /**
    On any body, the items decoded lie end to end behind its head, at most as many as it
    declares, and fewer only if no complete item follows.
  */
  lemma {:induction false} BatchSplit(s: seq<Byte>, count: nat) returns (rest: seq<Byte>)
    ensures var items := BatchItems(s, count);
            && Sendable(items) && |items| <= count && s == PutItems(items) + rest
            && (|items| < count ==> |rest| < 2 || |rest| < 2 + GetU16(rest, 0))
    decreases count
  {
    hide PutItems, BatchItems;
    BatchEnd(s, count);
    if count == 0 || |s| < 2 || |s| < 2 + GetU16(s, 0) {
      rest := s;
    } else {
      var n: nat := GetU16(s, 0);
      var item, tail := s[2..2 + n], s[2 + n..];
      rest := BatchSplit(tail, count - 1);
      U16Inverse(s, 0);
      assert s == PutU16(n) + item + tail;
      BatchHead(item, tail, count);
      var more := BatchItems(tail, count - 1);
      PutItemsCons(item, more);
      assert PutU16(n) + item + (PutItems(more) + rest) == PutU16(n) + item + PutItems(more) + rest;
    }
  }

  lemma BatchEnd(s: seq<Byte>, count: nat)
    ensures count == 0 || |s| < 2 || |s| < 2 + GetU16(s, 0) ==> BatchItems(s, count) == []
    ensures PutItems([]) == []
  {
  }

  // ---- what publishing adds up to ----

  function Counted(sh: Shared, c: Counter): nat {
    if c in sh.metrics then sh.metrics[c] else 0
  }

  function Good(items: seq<Text>): nat {
    if items == [] then 0 else Good(items[..|items| - 1]) + if Location.Decode(items[|items| - 1]).Ok? then 1 else 0
  }

  function Bad(items: seq<Text>): (n: nat)
    ensures n == |items| - Good(items)
  {
    if items == [] then 0 else Bad(items[..|items| - 1]) + if Location.Decode(items[|items| - 1]).Ok? then 0 else 1
  }

  /** What the items publish under a phone. */
  function Fixes(phone: Text, items: seq<Text>): multiset<(Text, Location.Fix)> {
    if items == [] then multiset{}
    else
      match Location.Decode(items[|items| - 1])
      case Err(_) => Fixes(phone, items[..|items| - 1])
      case Ok(fix) => Fixes(phone, items[..|items| - 1]) + multiset{(phone, fix)}
  }

  /** From one state to another the items were published under phone and counted. */
  ghost predicate Delivers(before: Shared, after: Shared, phone: Text, items: seq<Text>) {
    && after.published == before.published + Fixes(phone, items)
    && Counted(after, LocationReports) == Counted(before, LocationReports) + Good(items)
    && Counted(after, DecodeErrors) == Counted(before, DecodeErrors) + Bad(items)
  }

  lemma ItemDelivers(sh: Shared, phone: Text, item: Text)
    ensures Delivers(sh, PublishItem(sh, phone, item), phone, [item])
  {
    hide Location.Decode;
    OneItem(phone, item);
  }

  lemma OneItem(phone: Text, item: Text)
    ensures var r := Location.Decode(item);
            && Fixes(phone, [item]) == (if r.Ok? then multiset{(phone, r.value)} else multiset{})
            && Good([item]) == (if r.Ok? then 1 else 0) && Bad([item]) == (if r.Ok? then 0 else 1)
            && Fixes(phone, []) == multiset{} && Good([]) == 0 && Bad([]) == 0
  {
    assert [item][..0] == [];
  }

  lemma DeliversOneMore(a: Shared, b: Shared, c: Shared, phone: Text, items: seq<Text>, item: Text)
    requires Delivers(a, b, phone, items) && Delivers(b, c, phone, [item])
    ensures Delivers(a, c, phone, items + [item])
  {
    hide Location.Decode;
    OneItem(phone, item);
    assert (items + [item])[..|items|] == items;
  }

  lemma {:induction false} PublishItemsDelivers(sh: Shared, phone: Text, items: seq<Text>)
    ensures Delivers(sh, PublishItems(sh, phone, items), phone, items)
  {
    hide Delivers, PublishItem;
    if items == [] {
      NothingDelivered(sh, phone);
    } else {
      var before, item := PublishItems(sh, phone, items[..|items| - 1]), items[|items| - 1];
      PublishItemsDelivers(sh, phone, items[..|items| - 1]);
      ItemDelivers(before, phone, item);
      DeliversOneMore(sh, before, PublishItem(before, phone, item), phone, items[..|items| - 1], item);
      assert items[..|items| - 1] + [item] == items;
    }
  }

  lemma NothingDelivered(sh: Shared, phone: Text)
    ensures Delivers(sh, sh, phone, [])
  {
  }

  /** A single report delivers like an item of a batch; whether it is an alarm is counted besides. */
  lemma ReportDelivers(sh: Shared, phone: Text, body: Text)
    ensures Delivers(sh, PublishReport(sh, phone, body), phone, [body])
  {
    hide Location.Decode;
    OneItem(phone, body);
  }

  // ---- dispatching ----

  /** What a dispatch does before it answers: it counts the frame. */
  function FrameCounted(sh: Shared): Shared {
    sh.(metrics := Bump(sh.metrics, Frames, 1))
  }

  /** The state after a reply on sid. */
  function Replied(sh: Shared, sid: Sid, msgId: U16, body: Text, env: Env): Shared
    requires sid in sh.sess
  {
    sh.(sess := sh.sess[sid := Own(sh.sess[sid], Reply(msgId, body, []), env)])
  }

  lemma DispatchAcked(sh: Shared, sid: Sid, f: Frame, env: Env, op: Op)
    requires sid in sh.sess && sh.sess[sid].open && env.writeOk
    requires (f.msgId == LOCATION_REPORT && op == Publish(f)) || (f.msgId == BATCH_LOCATION && op == PublishBatch(f))
    ensures var sh' := Replied(FrameCounted(sh), sid, PLATFORM_RESP, AckBody(f.seqNum, f.msgId, OK), env);
            Dispatch(sh, sid, f, env) == After(sh', sid, op, env)
  {
    var ack := Reply(PLATFORM_RESP, AckBody(f.seqNum, f.msgId, OK), [op]);
    var sh1 := After(sh, sid, Count(Frames), env);
    assert Program(sh.sess[sid].state, f, env) == [Count(Frames)] + [ack];
    RunFirst(sh, sid, Count(Frames), [ack], env);
    assert [] + [ack] == [ack] + [];
    RunFirst(sh1, sid, ack, [], env);
    var sh2 := After(sh1, sid, ack, env);
    assert [op] + [] == [op];
    RunFirst(sh2, sid, op, [], env);
    RunNone(After(sh2, sid, op, env), sid, env);
    assert Then(sh2, sid, op, env) + [] == [];
  }

  /** Single reports on a session: one dispatch for each body. */
  function Singles(sh: Shared, sid: Sid, frames: seq<Frame>, env: Env): (r: Shared)
    requires sid in sh.sess
    ensures sid in r.sess
  {
    if frames == [] then sh
    else
      var before := Singles(sh, sid, frames[..|frames| - 1], env);
      Dispatch(before, sid, frames[|frames| - 1], env)
  }

  function Bodies(frames: seq<Frame>): seq<Text> {
    seq(|frames|, i requires 0 <= i < |frames| => frames[i].body)
  }

  /** Answering publishes nothing, counts nothing that a delivery counts, and leaves the session open. */
  lemma AnswerDelivers(sh: Shared, sid: Sid, msgId: U16, body: Text, env: Env, phone: Text)
    requires sid in sh.sess
    ensures var sh' := Replied(FrameCounted(sh), sid, msgId, body, env);
            && Delivers(sh, sh', phone, [])
            && sh'.sess[sid].phone == sh.sess[sid].phone && sh'.sess[sid].open == sh.sess[sid].open
  {
    hide Written;
  }

  lemma PublishDelivers(sh: Shared, sid: Sid, f: Frame, env: Env)
    requires sid in sh.sess
    ensures var sh', phone := After(sh, sid, Publish(f), env), PhoneFor(sh.sess[sid], f.phone);
            && Delivers(sh, sh', phone, if phone == [] then [] else [f.body])
            && sh'.sess == sh.sess
  {
    hide Delivers, PublishReport;
    var phone := PhoneFor(sh.sess[sid], f.phone);
    ReportDelivers(sh, phone, f.body);
    NothingDelivered(sh, phone);
  }

  lemma DeliversAfterNothing(a: Shared, b: Shared, c: Shared, phone: Text, items: seq<Text>)
    requires Delivers(a, b, phone, []) && Delivers(b, c, phone, items)
    ensures Delivers(a, c, phone, items)
  {
  }

  /** One report: nothing changes but the reply and, if there is a phone, what is published and counted. */
  lemma SingleDelivers(sh: Shared, sid: Sid, f: Frame, env: Env)
    requires sid in sh.sess && sh.sess[sid].open && env.writeOk && f.msgId == LOCATION_REPORT
    ensures var sh' := Dispatch(sh, sid, f, env);
            && sh'.sess[sid].open && sh'.sess[sid].phone == sh.sess[sid].phone
            && Delivers(sh, sh', PhoneFor(sh.sess[sid], f.phone), if PhoneFor(sh.sess[sid], f.phone) == [] then [] else [f.body])
  {
    hide Dispatch, Delivers, After, Own;
    var phone := PhoneFor(sh.sess[sid], f.phone);
    var ack := AckBody(f.seqNum, f.msgId, OK);
    var sh' := Replied(FrameCounted(sh), sid, PLATFORM_RESP, ack, env);
    DispatchAcked(sh, sid, f, env, Publish(f));
    AnswerDelivers(sh, sid, PLATFORM_RESP, ack, env, phone);
    PublishDelivers(sh', sid, f, env);
    DeliversAfterNothing(sh, sh', Dispatch(sh, sid, f, env), phone, if phone == [] then [] else [f.body]);
  }

  lemma {:induction false} SinglesDeliver(sh: Shared, sid: Sid, frames: seq<Frame>, phone: Text, env: Env)
    requires sid in sh.sess && sh.sess[sid].open && env.writeOk
    requires forall i :: 0 <= i < |frames| ==> frames[i].msgId == LOCATION_REPORT && frames[i].phone == phone
    ensures var sh', to := Singles(sh, sid, frames, env), PhoneFor(sh.sess[sid], phone);
            && sh'.sess[sid].open && sh'.sess[sid].phone == sh.sess[sid].phone
            && Delivers(sh, sh', to, if to == [] then [] else Bodies(frames))
  {
    hide Dispatch, Good, Bad, Fixes, Delivers;
    var to := PhoneFor(sh.sess[sid], phone);
    NothingDelivered(sh, to);
    if frames == [] {
      assert Bodies(frames) == [];
    } else {
      var n := |frames| - 1;
      SinglesDeliver(sh, sid, frames[..n], phone, env);
      var before := Singles(sh, sid, frames[..n], env);
      SingleDelivers(before, sid, frames[n], env);
      if to == [] {
        NothingTwice(sh, before, Dispatch(before, sid, frames[n], env), to);
      } else {
        DeliversOneMore(sh, before, Dispatch(before, sid, frames[n], env), to, Bodies(frames[..n]), frames[n].body);
        assert Bodies(frames) == Bodies(frames[..n]) + [frames[n].body];
      }
    }
  }

  lemma NothingTwice(a: Shared, b: Shared, c: Shared, phone: Text)
    requires Delivers(a, b, phone, []) && Delivers(b, c, phone, [])
    ensures Delivers(a, c, phone, [])
  {
  }

  lemma BatchDelivers(sh: Shared, sid: Sid, f: Frame, env: Env)
    requires sid in sh.sess && sh.sess[sid].open && env.writeOk && f.msgId == BATCH_LOCATION
    ensures Delivers(sh, Dispatch(sh, sid, f, env), sh.sess[sid].phone, BatchOf(f.body))
  {
    hide Dispatch, Delivers, After, BatchOf, PublishItems, Own;
    var phone, ack := sh.sess[sid].phone, AckBody(f.seqNum, f.msgId, OK);
    var sh' := Replied(FrameCounted(sh), sid, PLATFORM_RESP, ack, env);
    DispatchAcked(sh, sid, f, env, PublishBatch(f));
    AnswerDelivers(sh, sid, PLATFORM_RESP, ack, env, phone);
    PublishBatchIs(sh', sid, f, env);
    PublishItemsDelivers(sh', phone, BatchOf(f.body));
    DeliversAfterNothing(sh, sh', Dispatch(sh, sid, f, env), phone, BatchOf(f.body));
  }

  /** The same fixes published, the same reports and the same errors counted. */
  ghost predicate SameDelivery(a: Shared, b: Shared) {
    && a.published == b.published
    && Counted(a, LocationReports) == Counted(b, LocationReports)
    && Counted(a, DecodeErrors) == Counted(b, DecodeErrors)
  }

  lemma {:induction false} FixesOf(phone: Text, other: Text, items: seq<Text>)
    requires phone != other
    ensures |Fixes(phone, items)| == Good(items)
    ensures Fixes(phone, items) == Fixes(other, items) <==> Good(items) == 0
  {
    OnlyUnder(phone, items);
    OnlyUnder(other, items);
    FixesSize(phone, items);
    FixesSize(other, items);
    if Good(items) > 0 {
      var x :| x in Fixes(phone, items);
      assert x !in Fixes(other, items);
    }
  }

  lemma {:induction false} OnlyUnder(phone: Text, items: seq<Text>)
    ensures forall x :: x in Fixes(phone, items) ==> x.0 == phone
  {
    if items != [] {
      OnlyUnder(phone, items[..|items| - 1]);
    }
  }

  lemma {:induction false} FixesSize(phone: Text, items: seq<Text>)
    ensures |Fixes(phone, items)| == Good(items)
  {
    if items != [] {
      FixesSize(phone, items[..|items| - 1]);
    }
  }

  /**
    One batch delivers what the single reports deliver, the same fixes under the same phone and
    the same totals, exactly when the session has a phone, or there is nothing to publish and
    the frames name a phone, or there is nothing at all: a batch never falls back on the phone
    of its frame.
  */
  lemma BatchRefinesSingles(sh: Shared, sid: Sid, batch: Frame, kind: Byte, singles: seq<Frame>, phone: Text, env: Env)
    requires sid in sh.sess && sh.sess[sid].open && env.writeOk
    requires forall i :: 0 <= i < |singles| ==>
               singles[i].msgId == LOCATION_REPORT && singles[i].phone == phone && |singles[i].body| < 0x1_0000
    requires |singles| < 0x1_0000
    requires batch.msgId == BATCH_LOCATION && batch.body == PutBatch(kind, Bodies(singles))
    ensures SameDelivery(Dispatch(sh, sid, batch, env), Singles(sh, sid, singles, env)) <==>
            sh.sess[sid].phone != [] || singles == [] || (phone != [] && Good(Bodies(singles)) == 0)
  {
    hide Dispatch, Singles, Good, Bad, Fixes;
    var items, own := Bodies(singles), sh.sess[sid].phone;
    BatchTrip(kind, items, []);
    assert PutBatch(kind, items) + [] == PutBatch(kind, items);
    BatchDelivers(sh, sid, batch, env);
    SinglesDeliver(sh, sid, singles, phone, env);
    var to := PhoneFor(sh.sess[sid], phone);
    if to != own {
      FixesOf(own, to, items);
    }
    NothingSums(own, items);
    SamePublished(sh.published, Fixes(own, items), if to == [] then multiset{} else Fixes(to, items));
    NothingSums(to, []);
  }

  lemma NothingSums(phone: Text, items: seq<Text>)
    ensures Bad(items) == |items| - Good(items)
    ensures items == [] ==> Fixes(phone, items) == multiset{} && Good(items) == 0 && Bad(items) == 0
  {
  }

  lemma SamePublished(base: multiset<(Text, Location.Fix)>, a: multiset<(Text, Location.Fix)>, b: multiset<(Text, Location.Fix)>)
    ensures base + a == base + b <==> a == b
  {
    if base + a == base + b {
      forall x ensures a[x] == b[x] {
        assert (base + a)[x] == (base + b)[x];
      }
    }
  }

  // ---- where the two differ ----

  /** Whether a body reports an alarm that a single report would have counted. */
  predicate Alarming(item: Text) {
    Location.Decode(item).Ok? && Location.Decode(item).value.Sos()
  }

  lemma {:induction false} ItemsCountNoAlarm(sh: Shared, phone: Text, items: seq<Text>)
    ensures Counted(PublishItems(sh, phone, items), SosAlarms) == Counted(sh, SosAlarms)
  {
    hide Location.Decode;
    if items != [] {
      ItemsCountNoAlarm(sh, phone, items[..|items| - 1]);
    }
  }

  /** A batch never counts an alarm, a single report counts its own: in this the two are not alike. */
  lemma AlarmsCountSingly(sh: Shared, sid: Sid, batch: Frame, single: Frame, env: Env)
    requires sid in sh.sess && sh.sess[sid].open && env.writeOk
    requires batch.msgId == BATCH_LOCATION && single.msgId == LOCATION_REPORT
    ensures Counted(Dispatch(sh, sid, batch, env), SosAlarms) == Counted(sh, SosAlarms)
    ensures Counted(Dispatch(sh, sid, single, env), SosAlarms) == Counted(sh, SosAlarms) +
              if PhoneFor(sh.sess[sid], single.phone) != [] && Alarming(single.body) then 1 else 0
  {
    hide Dispatch, After, BatchOf, PublishItems, PublishReport, Own, Alarming, AckBody;
    var mid := Replied(FrameCounted(sh), sid, PLATFORM_RESP, AckBody(batch.seqNum, batch.msgId, OK), env);
    DispatchAcked(sh, sid, batch, env, PublishBatch(batch));
    PublishBatchIs(mid, sid, batch, env);
    ItemsCountNoAlarm(mid, mid.sess[sid].phone, BatchOf(batch.body));
    FrameCountsNoAlarm(sh);
    var mid' := Replied(FrameCounted(sh), sid, PLATFORM_RESP, AckBody(single.seqNum, single.msgId, OK), env);
    DispatchAcked(sh, sid, single, env, Publish(single));
    PublishIs(mid', sid, single, env);
    ReportCountsAlarm(mid', PhoneFor(sh.sess[sid], single.phone), single.body);
    RepliedKeepsPhone(FrameCounted(sh), sid, AckBody(single.seqNum, single.msgId, OK), env);
  }

  lemma RepliedKeepsPhone(sh: Shared, sid: Sid, body: Text, env: Env)
    requires sid in sh.sess
    ensures Replied(sh, sid, PLATFORM_RESP, body, env).sess[sid].phone == sh.sess[sid].phone
  {
    hide Written;
  }

  lemma FrameCountsNoAlarm(sh: Shared)
    ensures Counted(FrameCounted(sh), SosAlarms) == Counted(sh, SosAlarms)
  {
  }

  lemma ReportCountsAlarm(sh: Shared, phone: Text, body: Text)
    ensures Counted(PublishReport(sh, phone, body), SosAlarms) == Counted(sh, SosAlarms) + if Alarming(body) then 1 else 0
  {
    hide Location.Decode;
  }
}
