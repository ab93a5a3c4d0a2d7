/** How long the catcher remembers a finished transfer: the ring of completions over whole runs. */
module Remembering {
  import opened Bytes
  import opened Library
  import opened Landing
  import opened Machine
  import opened Invariant
  import opened Preserve
  import opened Runs
  import Wire

  function TimeOf(a: Action): int { a.now }

  /** The times of the events never go back, start at from and end at until. */
  ghost predicate Timely(events: seq<Event>, from: int, until: int)
  {
    if events == [] then from <= until
    else from <= TimeOf(events[0].action) && Timely(events[1..], TimeOf(events[0].action), until)
  }

  ghost predicate Distinct(ring: seq<Record>)
  {
    forall i, j | 0 <= i < j < |ring| :: ring[i] != ring[j]
  }

  ghost predicate Live(asm: Asm, r: Record) { r.id in asm.done && asm.done[r.id] == r.at }

  /** No record lies in the future, no two are equal, and a record whose ID is no longer remembered
      under its time has left the window. */
  ghost predicate RingFresh(asm: Asm, clock: int)
  {
    && Distinct(asm.doneOrder)
    && forall r | r in asm.doneOrder :: r.at <= clock && (!Live(asm, r) ==> r.at + DONE_REMEMBER < clock)
  }

  predicate SameRing(a: Asm, b: Asm)
  {
    a.done == b.done && a.doneOrder == b.doneOrder && a.doneNext == b.doneNext
  }

  /** How many more completions it takes until the record at index i is overwritten. */
  function Slack(asm: Asm, i: nat): int
  {
    if |asm.doneOrder| < MAX_REMEMBERED then MAX_REMEMBERED - |asm.doneOrder| + i
    else if i >= asm.doneNext then i - asm.doneNext
    else MAX_REMEMBERED - asm.doneNext + i
  }

  /** The index RememberDone writes. */
  function Slot(asm: Asm): nat
  {
    if |asm.doneOrder| < MAX_REMEMBERED then |asm.doneOrder| else asm.doneNext
  }

  /** A new completion gets a record of its own, 4095 completions away from being overwritten. */
  lemma RememberedFresh(asm: Asm, id: Data, now: int, clock: int)
    requires RingOk(asm) && RingFresh(asm, clock) && clock <= now && id !in asm.done
    ensures var r := RememberDone(asm, id, now);
      && RingOk(r) && RingFresh(r, now)
      && Slot(asm) < |r.doneOrder| && r.doneOrder[Slot(asm)] == Record(id, now) && Slack(r, Slot(asm)) == 4095
      && id in r.done && r.done[id] == now
  {
    var r := RememberDone(asm, id, now);
    var at := Slot(asm);
    forall x | x in asm.doneOrder ensures x != Record(id, now) {
      assert x.id == id ==> !Live(asm, x);
    }
    forall i, j | 0 <= i < j < |r.doneOrder| ensures r.doneOrder[i] != r.doneOrder[j] {
      if i != at && j != at {
        assert r.doneOrder[i] == asm.doneOrder[i] && r.doneOrder[j] == asm.doneOrder[j];
      }
    }
    RememberedLive(asm, id, now, clock);
  }

  lemma RememberedLive(asm: Asm, id: Data, now: int, clock: int)
    requires RingOk(asm) && RingFresh(asm, clock) && clock <= now && id !in asm.done
    ensures var r := RememberDone(asm, id, now);
      && RingOk(r)
      && forall x | x in r.doneOrder :: x.at <= now && (!Live(r, x) ==> x.at + DONE_REMEMBER < now)
  {
    var r := RememberDone(asm, id, now);
    var at := Slot(asm);
    assert r.doneOrder[at] == Record(id, now);
    forall x | x in r.doneOrder ensures x.at <= now && (!Live(r, x) ==> x.at + DONE_REMEMBER < now) {
      var i :| 0 <= i < |r.doneOrder| && r.doneOrder[i] == x;
      if i != at {
        assert x == asm.doneOrder[i] && x in asm.doneOrder;
      }
    }
    forall x | x in r.done ensures Record(x, r.done[x]) in r.doneOrder {
      if x != id {
        var i :| 0 <= i < |asm.doneOrder| && asm.doneOrder[i] == Record(x, asm.done[x]);
        assert i != at;
        assert r.doneOrder[i] == asm.doneOrder[i];
      }
    }
  }

  /** A completion of another transfer leaves a remembered ID alone while its record has slack, and
      uses up one unit of it; with none left the ID is forgotten. */
  lemma RememberOther(asm: Asm, id: Data, now: int, clock: int, i: nat)
    requires RingOk(asm) && RingFresh(asm, clock) && clock <= now && id !in asm.done
    requires i < |asm.doneOrder| && Live(asm, asm.doneOrder[i])
    ensures var x, r := asm.doneOrder[i], RememberDone(asm, id, now);
      && (Slack(asm, i) > 0 ==>
            i < |r.doneOrder| && r.doneOrder[i] == x && Live(r, x) && Slack(r, i) == Slack(asm, i) - 1)
      && (Slack(asm, i) == 0 ==> x.id !in r.done)
  {
    var x := asm.doneOrder[i];
    if |asm.doneOrder| == MAX_REMEMBERED && Slack(asm, i) > 0 {
      assert asm.doneNext != i;
      assert asm.doneOrder[asm.doneNext] != x;
    }
  }

  /** The sweep forgets exactly what left the window. */
  lemma ForgetFresh(asm: Asm, now: int, clock: int)
    requires RingOk(asm) && RingFresh(asm, clock) && clock <= now
    ensures RingOk(Forget(asm, now)) && RingFresh(Forget(asm, now), now)
    ensures forall id :: id in Forget(asm, now).done <==> id in asm.done && now - asm.done[id] <= DONE_REMEMBER
    ensures forall x | Live(asm, x) && now <= x.at + DONE_REMEMBER :: Live(Forget(asm, now), x)
  {
  }

  // ---- the machine only changes the ring this way ----

  /** What one action does to the ring. */
  ghost predicate RingStep(a: Asm, b: Asm, action: Action)
  {
    match action
    case Datagram(_, now, _) =>
      SameRing(a, b) || exists id :: id !in a.done && SameRing(b, RememberedRing(a, id, now))
    case Tick(_, _, now, _) => SameRing(b, Forget(a, now))
  }

  ghost function RememberedRing(a: Asm, id: Data, now: int): Asm
  {
    if RingFits(a) then RememberDone(a, id, now) else a
  }

  lemma EndRing(asm: Asm, t: Transfer, now: int)
    requires RingFits(asm)
    ensures SameRing(RememberDone(RemoveActive(asm, t), t.id, now), RememberDone(asm, t.id, now))
  {
    hide MapSum.Sum, Reserved;
  }

  lemma CompleteRing(lib: Lib, s: Sys, t: Transfer, bi: nat, b: Block, now: int, io: Io)
    requires RingFits(s.asm) && t.id !in s.asm.done
    ensures var r := Complete(lib, s, t, bi, b, now, io).asm;
      SameRing(s.asm, r) || exists id :: id !in s.asm.done && SameRing(r, RememberedRing(s.asm, id, now))
  {
    hide WriteShards, DataShards, Land, Remove, RememberDone, RemoveActive, Completed;
    var t1 := Completed(t, bi, b);
    CompletedFrame(t, bi, b);
    EndRing(s.asm, t, now);
    var r := Rebuffer(s, t, t1);
    EndRing(r.asm, t1, now);
    RingOnly(s.asm, r.asm, t.id, now);
    var c := Complete(lib, s, t, bi, b, now, io).asm;
    if !SameRing(s.asm, c) {
      assert SameRing(c, RememberedRing(s.asm, t.id, now));
    }
  }

  lemma RingOnly(a: Asm, b: Asm, id: Data, now: int)
    requires RingFits(a) && SameRing(a, b)
    ensures RingFits(b) && SameRing(RememberDone(a, id, now), RememberDone(b, id, now))
  {
  }

  lemma ReceiveRing(lib: Lib, s: Sys, p: Wire.Packet, now: int, io: Io)
    requires Inv(s) && Sane(p)
    ensures RingFits(s.asm)
    ensures var r := Receive(lib, s, p, now, io).asm;
      SameRing(s.asm, r) || exists id :: id !in s.asm.done && SameRing(r, RememberedRing(s.asm, id, now))
  {
    hide Inv, TransferFor, BlockFor, Complete, Sane, AddShard, RememberDone;
    RingFitsInv(s);
    RingStays(lib, s, p, now, io);
    if p.transferID !in s.asm.done {
      TransferForKeeps(lib, s, p, io);
      var f := TransferFor(lib, s, p, io);
      if f.transfer.Some? {
        var t := f.transfer.value.(lastSeen := now);
        TouchKeeps(f.sys, f.transfer.value, now);
        var s1 := WithTransfer(f.sys, t);
        if p.blockIndex !in t.blocksDone {
          BlockForKeeps(s1, t, p);
          BlockForRing(s1, t, p);
          var g := BlockFor(s1, t, p);
          if g.transfer.Some? {
            var b := g.transfer.value.blocks[p.blockIndex];
            if p.shardIndex !in b.shards && AddShard(b, p).have >= AddShard(b, p).dataShards {
              CompleteRing(lib, g.sys, g.transfer.value, p.blockIndex, AddShard(b, p), now, io);
              SameRemembered(s.asm, g.sys.asm, now);
            }
          }
        }
      }
    }
  }

  lemma SameRemembered(a: Asm, b: Asm, now: int)
    requires SameRing(a, b) && RingFits(a)
    ensures forall id :: SameRing(RememberedRing(a, id, now), RememberedRing(b, id, now))
  {
    forall id ensures SameRing(RememberedRing(a, id, now), RememberedRing(b, id, now)) {
      RingOnly(a, b, id, now);
    }
  }

  lemma BlockForRing(s: Sys, t: Transfer, p: Wire.Packet)
    requires Sane(p)
    ensures SameRing(s.asm, BlockFor(s, t, p).sys.asm)
  {
    hide Footprint, MakeRoom;
  }

  lemma {:induction false} ExpireAllRing(s: Sys, order: seq<Data>, now: int, io: Data -> Io)
    ensures SameRing(s.asm, ExpireAll(s, order, now, io).asm)
    decreases |order|
  {
    hide Persist, MapSum.Sum, Reserved;
    if order != [] {
      ExpireAllRing(Expire(s, order[0], now, io(order[0])), order[1..], now, io);
    }
  }

  /** One action of the catcher changes the ring by one new completion, by forgetting what left the
      window, or not at all. */
  lemma ActRing(lib: Lib, s: Sys, a: Action)
    requires Inv(s)
    ensures RingFits(s.asm) && RingStep(s.asm, Act(lib, s, a).asm, a)
  {
    hide Inv, Receive, ExpireAll, Reap, Wire.Parse, Sane, RememberedRing;
    RingFitsInv(s);
    match a
    case Datagram(b, now, io) =>
      if Wire.Parse(lib.crc, b).Accepted? {
        ParsedIsSane(lib.crc, b);
        ReceiveRing(lib, s, Wire.Parse(lib.crc, b).packet, now, io);
      }
    case Tick(order, listing, now, ios) =>
      ExpireAllRing(s, order, now, ios);
  }

  /** The number of transfers that ended (landed or failed) in a run. */
  ghost function Completions(lib: Lib, s: Sys, events: seq<Event>): nat
    requires Inv(s)
    decreases |events|
  {
    if events == [] then 0
    else
      hide Inv, Step;
      StepKeeps(lib, s, events[0]);
      var s1 := Step(lib, s, events[0]);
      (if s1.asm.doneOrder == s.asm.doneOrder && s1.asm.doneNext == s.asm.doneNext then 0 else 1)
        + Completions(lib, s1, events[1..])
  }

  lemma FreshStep(lib: Lib, s: Sys, e: Event, clock: int)
    requires Inv(s) && RingFresh(s.asm, clock) && clock <= TimeOf(e.action)
    ensures RingFits(s.asm) && RingFresh(Step(lib, s, e).asm, TimeOf(e.action))
  {
    hide Inv, Act, RingOk, RingFresh, RememberDone, Forget;
    ActRing(lib, s, e.action);
    RingOkInv(s);
    var asm := Act(lib, s, e.action).asm;
    var now := TimeOf(e.action);
    FreshLater(s.asm, clock, now);
    if e.Killed? {
      IdleFresh(now);
    } else if e.action.Datagram? {
      if SameRing(s.asm, asm) {
        FreshSame(s.asm, asm, now);
      } else {
        var id :| id !in s.asm.done && SameRing(asm, RememberedRing(s.asm, id, now));
        RememberedFresh(s.asm, id, now, clock);
        FreshSame(RememberDone(s.asm, id, now), asm, now);
      }
    } else {
      ForgetFresh(s.asm, now, clock);
      FreshSame(Forget(s.asm, now), asm, now);
    }
  }

  lemma RingOkInv(s: Sys)
    requires Inv(s)
    ensures RingOk(s.asm)
  {
  }

  lemma IdleFresh(clock: int)
    ensures RingFresh(IDLE, clock)
  {
  }

  lemma FreshLater(asm: Asm, clock: int, later: int)
    requires RingFresh(asm, clock) && clock <= later
    ensures RingFresh(asm, later)
  {
  }

  lemma FreshSame(a: Asm, b: Asm, clock: int)
    requires RingFresh(a, clock) && SameRing(a, b)
    ensures RingFresh(b, clock)
  {
  }

  lemma {:induction false} FreshRun(lib: Lib, s: Sys, events: seq<Event>, clock: int, until: int)
    requires Inv(s) && RingFresh(s.asm, clock) && Timely(events, clock, until)
    ensures RingFresh(Run(lib, s, events).asm, until)
    decreases |events|
  {
    hide Inv, Step, RingFresh, RingFits;
    if events == [] {
      FreshLater(s.asm, clock, until);
    } else {
      StepKeeps(lib, s, events[0]);
      FreshStep(lib, s, events[0], clock);
      FreshRun(lib, Step(lib, s, events[0]), events[1..], TimeOf(events[0].action), until);
    }
  }

  /** A record keeps its ID remembered through one more event inside the window. */
  lemma LiveStep(lib: Lib, s: Sys, e: Event, clock: int, i: nat)
    requires Inv(s) && RingFresh(s.asm, clock) && clock <= TimeOf(e.action) && e.Full?
    requires i < |s.asm.doneOrder| && Live(s.asm, s.asm.doneOrder[i])
    requires TimeOf(e.action) <= s.asm.doneOrder[i].at + DONE_REMEMBER
    ensures RingFits(s.asm)
    ensures var x, r := s.asm.doneOrder[i], Step(lib, s, e).asm;
      var same := r.doneOrder == s.asm.doneOrder && r.doneNext == s.asm.doneNext;
      (same || Slack(s.asm, i) > 0) ==>
        && i < |r.doneOrder| && r.doneOrder[i] == x && Live(r, x)
        && Slack(r, i) >= Slack(s.asm, i) - (if same then 0 else 1)
  {
    hide Inv, Act, RingOk, RingFresh, RememberDone, Forget;
    ActRing(lib, s, e.action);
    RingOkInv(s);
    var asm := Act(lib, s, e.action).asm;
    var now := TimeOf(e.action);
    if e.action.Datagram? {
      if !SameRing(s.asm, asm) {
        var id :| id !in s.asm.done && SameRing(asm, RememberedRing(s.asm, id, now));
        RememberOther(s.asm, id, now, clock, i);
        RememberMoves(s.asm, id, now, clock);
      }
    } else {
      ForgetFresh(s.asm, now, clock);
      ForgetRing(s.asm, now);
    }
  }

  lemma ForgetRing(asm: Asm, now: int)
    ensures Forget(asm, now).doneOrder == asm.doneOrder && Forget(asm, now).doneNext == asm.doneNext
  {
  }

  /** A completion is visible in the ring. */
  lemma RememberMoves(asm: Asm, id: Data, now: int, clock: int)
    requires RingOk(asm) && RingFits(asm) && RingFresh(asm, clock) && clock <= now && id !in asm.done
    ensures var r := RememberDone(asm, id, now);
      r.doneOrder != asm.doneOrder || r.doneNext != asm.doneNext
  {
    if |asm.doneOrder| < MAX_REMEMBERED {
      assert |RememberDone(asm, id, now).doneOrder| == |asm.doneOrder| + 1;
    }
  }

  lemma {:induction false} LiveRun(lib: Lib, s: Sys, events: seq<Event>, clock: int, i: nat)
    requires Inv(s) && RingFresh(s.asm, clock) && (forall e | e in events :: e.Full?)
    requires i < |s.asm.doneOrder| && Live(s.asm, s.asm.doneOrder[i])
    requires Timely(events, clock, s.asm.doneOrder[i].at + DONE_REMEMBER)
    requires Completions(lib, s, events) <= Slack(s.asm, i)
    ensures s.asm.doneOrder[i].id in Run(lib, s, events).asm.done
    decreases |events|
  {
    hide Inv, Step, RingFresh, RingFits, Slack;
    if events != [] {
      var x := s.asm.doneOrder[i];
      StepKeeps(lib, s, events[0]);
      var s1 := Step(lib, s, events[0]);
      EndsInTime(events, clock, x.at + DONE_REMEMBER);
      LiveStep(lib, s, events[0], clock, i);
      FreshStep(lib, s, events[0], clock);
      LiveRun(lib, s1, events[1..], TimeOf(events[0].action), i);
    }
  }

  lemma {:induction false} EndsInTime(events: seq<Event>, from: int, until: int)
    requires Timely(events, from, until)
    ensures from <= until
    ensures events != [] ==> TimeOf(events[0].action) <= until
  {
    if events != [] {
      EndsInTime(events[1..], TimeOf(events[0].action), until);
    }
  }

  /** A finished transfer's ID is remembered for ten minutes unless 4096 further transfers end in
      that time: while at most 4095 do, its late datagrams cannot open a ghost transfer. The run
      before the completion is arbitrary, crashes included, with a clock that never goes back. */
  lemma RememberedLongEnough(lib: Lib, base: Dir, before: seq<Event>, e: Event, after: seq<Event>, id: Data, start: int)
    requires var s := Run(lib, Started(base), before);
      && Timely(before, start, TimeOf(e.action)) && e.Full?
      && id !in s.asm.done && RingFits(s.asm) && id in Step(lib, s, e).asm.done
    requires Timely(after, TimeOf(e.action), TimeOf(e.action) + DONE_REMEMBER) && forall x | x in after :: x.Full?
    ensures var s := Run(lib, Started(base), before);
      && Inv(Step(lib, s, e))
      && (Completions(lib, Step(lib, s, e), after) <= 4095 ==> id in Run(lib, Step(lib, s, e), after).asm.done)
  {
    hide Inv, Step, RingFresh, RingFits, Slack, Run, Completions, Timely;
    var s := Run(lib, Started(base), before);
    var now := TimeOf(e.action);
    IdleFresh(start);
    FreshRun(lib, Started(base), before, start, now);
    StepKeeps(lib, s, e);
    FreshStep(lib, s, e, now);
    JustCompleted(lib, s, e, id);
    var s1 := Step(lib, s, e);
    if Completions(lib, s1, after) <= 4095 {
      LiveRun(lib, s1, after, now, Slot(s.asm));
    }
  }

  lemma JustCompleted(lib: Lib, s: Sys, e: Event, id: Data)
    requires Inv(s) && RingFresh(s.asm, TimeOf(e.action)) && e.Full? && id !in s.asm.done
    requires RingFits(s.asm) && id in Step(lib, s, e).asm.done
    ensures var r, i := Step(lib, s, e).asm, Slot(s.asm);
      i < |r.doneOrder| && r.doneOrder[i] == Record(id, TimeOf(e.action)) && Live(r, r.doneOrder[i]) && Slack(r, i) == 4095
  {
    hide Inv, Act, RingOk, RingFresh;
    ActRing(lib, s, e.action);
    RingOkInv(s);
    if e.action.Datagram? {
      var now := TimeOf(e.action);
      var asm := Act(lib, s, e.action).asm;
      var other :| other !in s.asm.done && SameRing(asm, RememberedRing(s.asm, other, now));
      RememberedFresh(s.asm, other, now, now);
      assert other == id;
    }
  }
}
