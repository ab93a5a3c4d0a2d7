/** The catcher's receive loop: one thread that owns the socket and the reassembler. */
module Catcher {
  import opened Bytes
  import opened Library
  import opened Landing
  import opened Machine
  import opened Invariant
  import opened Runs
  import opened Delivery
  import opened Progress
  import opened EndToEnd
  import opened Beside
  import Assembler

  const SWEEP_EVERY := 15_000_000_000

  /** What one read of the socket yields. A heartbeat is handled elsewhere. */
  datatype Read = Payload(bytes: Data, heartbeat: bool) | Idle | Failed | Closed

  /** One turn of the loop: the read, the time after it, and the operating system's answers. */
  datatype Turn = Turn(read: Read, now: int, io: Io, listing: seq<Data>, ios: Data -> Io)

  /** The files announced by the datagrams of some turns. */
  function Announcements(lib: Lib, turns: seq<Turn>): set<Announcement>
  {
    if turns == [] then {} else AnnouncedBy(lib, turns[0]) + Announcements(lib, turns[1..])
  }

  function AnnouncedBy(lib: Lib, turn: Turn): set<Announcement>
  {
    if turn.read.Payload? then Announced(lib, Datagram(turn.read.bytes, turn.now, turn.io)) else {}
  }

  // ---- what a turn amounts to ----

  /** The datagram of a turn, unless it is a heartbeat. */
  function FedBy(turn: Turn): seq<Event>
  {
    if turn.read.Payload? && !turn.read.heartbeat then [Full(Datagram(turn.read.bytes, turn.now, turn.io))] else []
  }

  /** Then a sweep, if it is due, of the active transfers in the order the map iteration takes. */
  function SweptBy(turn: Turn, sweepAt: int, order: seq<Data>): seq<Event>
  {
    if turn.now > sweepAt then [Full(Tick(order, turn.listing, turn.now, turn.ios))] else []
  }

  function NextSweep(turn: Turn, sweepAt: int): int { if turn.now > sweepAt then turn.now + 15_000_000_000 else sweepAt }

  function SweepAfter(turns: seq<Turn>, sweepAt: int): int
  {
    if turns == [] then sweepAt else NextSweep(turns[|turns| - 1], SweepAfter(turns[..|turns| - 1], sweepAt))
  }

  /** What turns with an open socket amount to, in order. */
  function OfTurns(turns: seq<Turn>, sweepAt: int, orders: seq<seq<Data>>): seq<Event>
    requires |orders| == |turns|
  {
    if turns == [] then []
    else
      var n := |turns| - 1;
      OfTurns(turns[..n], sweepAt, orders[..n]) + FedBy(turns[n]) + SweptBy(turns[n], SweepAfter(turns[..n], sweepAt), orders[n])
  }

  /** The number of turns before the socket is closed. */
  function Open(turns: seq<Turn>): (n: nat)
    ensures n <= |turns|
  {
    if turns == [] || turns[0].read.Closed? then 0 else 1 + Open(turns[1..])
  }

  lemma {:induction false} OpenIs(turns: seq<Turn>, n: nat)
    requires n <= |turns| && (n < |turns| ==> turns[n].read.Closed?) && forall k | 0 <= k < n :: !turns[k].read.Closed?
    ensures Open(turns) == n
  {
    if n > 0 {
      OpenIs(turns[1..], n - 1);
    }
  }

  /** A sweep visits every active transfer once. */
  ghost predicate Visits(s: Sys, order: seq<Data>)
  {
    |order| == |s.asm.active| && forall id | id in s.asm.active :: id in order
  }

  /** Every sweep among some events does. */
  ghost predicate AllVisited(lib: Lib, s: Sys, events: seq<Event>)
    requires Inv(s)
  {
    forall k | 0 <= k < |events| && events[k].action.Tick? :: Visits(Run(lib, s, events[..k]), events[k].action.order)
  }

  lemma VisitedMore(lib: Lib, s: Sys, first: seq<Event>, rest: seq<Event>)
    requires Inv(s) && AllVisited(lib, s, first) && AllVisited(lib, Run(lib, s, first), rest)
    ensures AllVisited(lib, s, first + rest)
  {
    hide Inv, Run, Visits;
    var all := first + rest;
    forall k | 0 <= k < |all| && all[k].action.Tick? ensures Visits(Run(lib, s, all[..k]), all[k].action.order) {
      if k < |first| {
        assert all[..k] == first[..k];
      } else {
        assert all[..k] == first + rest[..k - |first|];
        RunOn(lib, s, first, rest[..k - |first|]);
      }
    }
  }

  lemma NoEvents(lib: Lib, s: Sys)
    requires Inv(s)
    ensures Run(lib, s, []) == s && Heard(lib, []) == {}
  {
  }

  lemma {:induction false} OneEvent(lib: Lib, s: Sys, events: seq<Event>, e: Event)
    requires Inv(s)
    ensures RingFits(Run(lib, s, events).asm) && Run(lib, s, events + [e]) == Step(lib, Run(lib, s, events), e)
    ensures Heard(lib, events + [e]) == Heard(lib, events) + Announced(lib, e.action)
    decreases |events|
  {
    hide Inv, Step, Announced, RingFits;
    if events == [] {
      StepKeeps(lib, s, e);
      assert [e][1..] == [];
    } else {
      StepKeeps(lib, s, events[0]);
      OneEvent(lib, Step(lib, s, events[0]), events[1..], e);
      assert (events + [e])[1..] == events[1..] + [e];
    }
  }

  /** The part of receiveOne that feeds a datagram to the reassembler. */
  method Feed(asm: Assembler.Assembler, turn: Turn)
    requires asm.Valid()
    modifies asm.Repr()
    ensures asm.Valid() && fresh(asm.Repr() - old(asm.Repr()))
    ensures Inv(old(asm.Model())) && asm.Model() == Run(asm.lib, old(asm.Model()), FedBy(turn))
    ensures Heard(asm.lib, FedBy(turn)) <= AnnouncedBy(asm.lib, turn)
  {
    hide Inv, Run, Heard, Handle, RingFits, Announced;
    hide Assembler.Assembler.Shape, Assembler.Assembler.Model, Assembler.Assembler.Repr;
    ghost var s := asm.Model();
    NoEvents(asm.lib, s);
    if turn.read.Payload? && !turn.read.heartbeat {
      ghost var e := Full(Datagram(turn.read.bytes, turn.now, turn.io));
      OneEvent(asm.lib, s, [], e);
      asm.HandleDatagram(turn.read.bytes, turn.now, turn.io);
      assert [] + [e] == [e];
    }
  }

  /** receiveOne: the datagram that was read, if one was, then a sweep, if it is due. */
  method ReceiveOne(asm: Assembler.Assembler, turn: Turn, sweepAt: int)
    returns (closed: bool, nextSweep: int, ghost order: seq<Data>, ghost events: seq<Event>)
    requires asm.Valid()
    modifies asm.Repr()
    ensures asm.Valid() && fresh(asm.Repr() - old(asm.Repr()))
    ensures closed <==> turn.read.Closed?
    ensures events == if closed then [] else FedBy(turn) + SweptBy(turn, sweepAt, order)
    ensures nextSweep == if closed then sweepAt else NextSweep(turn, sweepAt)
    ensures Inv(old(asm.Model())) && asm.Model() == Run(asm.lib, old(asm.Model()), events)
    ensures AllVisited(asm.lib, old(asm.Model()), events) && Heard(asm.lib, events) <= AnnouncedBy(asm.lib, turn)
  {
    hide Inv, Run, Heard, Sweep, RingFits;
    hide Assembler.Assembler.Shape, Assembler.Assembler.Model, Assembler.Assembler.Repr;
    ghost var s := asm.Model();
    nextSweep, order, events := sweepAt, [], [];
    closed := turn.read.Closed?;
    if closed {
      NoEvents(asm.lib, s);
      return;
    }
    Feed(asm, turn);
    events := FedBy(turn);
    if turn.now > nextSweep {
      ghost var mid := asm.Model();
      SameActive(asm);
      order := asm.ExpireStale(turn.listing, turn.now, turn.ios);
      ghost var e := Full(Tick(order, turn.listing, turn.now, turn.ios));
      OneEvent(asm.lib, s, events, e);
      OneVisited(asm.lib, s, events, mid, e);
      events := events + [e];
      nextSweep := turn.now + SWEEP_EVERY;
    }
  }

  lemma SameActive(asm: Assembler.Assembler)
    requires asm.Valid()
    ensures asm.Model().asm.active.Keys == asm.active.Keys && |asm.Model().asm.active| == |asm.active|
  {
    hide Inv;
    assert asm.Transfers().Keys == asm.active.Keys;
    assert |asm.Transfers()| == |asm.active|;
  }

  lemma OneVisited(lib: Lib, s: Sys, events: seq<Event>, mid: Sys, e: Event)
    requires Inv(s) && mid == Run(lib, s, events) && (e.action.Tick? ==> Visits(mid, e.action.order))
    requires forall k | 0 <= k < |events| :: events[k].action.Datagram?
    ensures AllVisited(lib, s, events + [e])
  {
    hide Inv, Run, Visits;
    assert (events + [e])[..|events|] == events;
  }

  /** run, over the turns the environment takes until the socket is closed: what it does in place is the
      run of the state machine that these turns amount to. */
  method Serve(lib: Lib, files: Dir, turns: seq<Turn>, started: int)
    returns (asm: Assembler.Assembler, ghost orders: seq<seq<Data>>, ghost events: seq<Event>)
    ensures |orders| == Open(turns) && events == OfTurns(turns[..Open(turns)], started + 15_000_000_000, orders)
    ensures asm.Valid() && asm.lib == lib && asm.Model() == Run(lib, Started(files), events)
    ensures AllVisited(lib, Started(files), events) && Heard(lib, events) <= Announcements(lib, turns)
  {
    hide Inv, Run, Heard, AnnouncedBy, AllVisited, FedBy, SweptBy, NextSweep;
    hide Assembler.Assembler.Shape, Assembler.Assembler.Model, Assembler.Assembler.Repr;
    asm := new Assembler.Assembler(lib, Disk(files, []));
    ghost var s := Started(files);
    NoEvents(lib, s);
    NoneVisited(lib, s);
    orders, events := [], [];
    ghost var start := started + SWEEP_EVERY;
    var sweepAt, closed, i := started + SWEEP_EVERY, false, 0;
    assert turns[0..] == turns;
    while !closed && i < |turns|
      invariant i <= |turns| && asm.Valid() && asm.lib == lib && fresh(asm.Repr())
      invariant asm.Model() == Run(lib, s, events) && AllVisited(lib, s, events)
      invariant closed ==> i > 0 && turns[i - 1].read.Closed?
      invariant var n := if closed then i - 1 else i;
        && (forall k | 0 <= k < n :: !turns[k].read.Closed?) && |orders| == n
        && events == OfTurns(turns[..n], start, orders) && sweepAt == SweepAfter(turns[..n], start)
      invariant Heard(lib, events) + Announcements(lib, turns[i..]) <= Announcements(lib, turns)
      decreases |turns| - i
    {
      assert turns[i..][1..] == turns[i + 1..];
      ghost var more, order;
      ghost var prior := asm.Repr();
      label before:
      closed, sweepAt, order, more := ReceiveOne(asm, turns[i], sweepAt);
      assert forall o | o in asm.Repr() :: o in prior || fresh@before(o);
      RunOn(lib, s, events, more);
      VisitedMore(lib, s, events, more);
      events := events + more;
      if !closed {
        TurnsMore(turns, start, orders, i, order);
        orders := orders + [order];
      }
      i := i + 1;
    }
    OpenIs(turns, if closed then i - 1 else i);
  }

  lemma TurnsMore(turns: seq<Turn>, start: int, orders: seq<seq<Data>>, i: nat, order: seq<Data>)
    requires i < |turns| && |orders| == i
    ensures OfTurns(turns[..i + 1], start, orders + [order]) ==
      OfTurns(turns[..i], start, orders) + (FedBy(turns[i]) + SweptBy(turns[i], SweepAfter(turns[..i], start), order))
    ensures SweepAfter(turns[..i + 1], start) == NextSweep(turns[i], SweepAfter(turns[..i], start))
  {
    assert turns[..i + 1][..i] == turns[..i] && (orders + [order])[..i] == orders;
  }

  lemma NoneVisited(lib: Lib, s: Sys)
    requires Inv(s)
    ensures AllVisited(lib, s, [])
  {
  }

  lemma {:induction false} RunOn(lib: Lib, s: Sys, first: seq<Event>, rest: seq<Event>)
    requires Inv(s)
    ensures Run(lib, s, first + rest) == Run(lib, Run(lib, s, first), rest)
    ensures Heard(lib, first + rest) == Heard(lib, first) + Heard(lib, rest)
    decreases |rest|
  {
    hide Inv;
    NoEvents(lib, s);
    if rest == [] {
      assert first + rest == first;
      NoEvents(lib, Run(lib, s, first));
    } else {
      var init, last := rest[..|rest| - 1], rest[|rest| - 1];
      assert rest == init + [last] && first + rest == (first + init) + [last];
      RunOn(lib, s, first, init);
      OneEvent(lib, s, first + init, last);
      OneEvent(lib, Run(lib, s, first), init, last);
    }
  }

  /** The code in place, from start to end: whatever the socket yields, the landing directory holds
      only bundle files that were there or passed every gate, and the budgets hold. */
  method Catch(lib: Lib, files: Dir, turns: seq<Turn>, started: int) returns (asm: Assembler.Assembler)
    ensures SafeDir(lib, asm.disk.files, files, Announcements(lib, turns))
    ensures |asm.active| <= 16 && |asm.done| <= 4096 && 0 <= asm.buffered <= 256 * 1024 * 1024
    ensures 0 <= asm.activeSize <= 128 * 1024 * 1024 * 1024
  {
    hide Inv, Run, Heard, Assembler.Assembler.Shape, Assembler.Assembler.Valid, IsFinal, Verified;
    ghost var orders, events;
    asm, orders, events := Serve(lib, files, turns, started);
    LandingSafety(lib, files, events);
    Accounting(lib, files, events);
    assert asm.Transfers().Keys == asm.active.Keys;
    assert |asm.Transfers()| == |asm.active|;
    MoreHeard(lib, asm.disk.files, files, Heard(lib, events), Announcements(lib, turns));
  }

  lemma MoreHeard(lib: Lib, files: Dir, base: Dir, heard: set<Announcement>, more: set<Announcement>)
    requires SafeDir(lib, files, base, heard) && heard <= more
    ensures SafeDir(lib, files, base, more)
  {
  }

  /** The events are a reception of a file: in whatever order, with any losses, duplicates and corrupted
      datagrams, among other traffic and sweeps, nothing of it expires, the open blocks find room, and in
      the end every block is whole. */
  ghost predicate Receives(j: Job, lib: Lib, files: Dir, events: seq<Event>, arrivals: seq<Arrival>)
  {
    && JobOk(j) && j.lib == lib && TrueKept(j, files)
    && (forall a | a in arrivals :: OfJob(j, a)) && events == EventsOf(j, arrivals)
    && Smooth(j, HeldIn(j, files), {}, Started(files), arrivals) && Covered(j, HeldIn(j, files), SeenAfter({}, arrivals))
  }

  lemma ReceivedLands(j: Job, lib: Lib, files: Dir, events: seq<Event>, arrivals: seq<Arrival>)
    requires Receives(j, lib, files, events, arrivals)
    ensures var landed := Run(lib, Started(files), events).disk.files;
      j.meta.name in landed && landed[j.meta.name] == Plain(j.src)
  {
    hide JobOk, TrueKept, Smooth, Covered, OfJob, HeldIn, Run;
    NothingActive(files, j.meta.transferID, j.meta.name);
    EndToEndDelivery(j, Started(files), arrivals);
  }

  lemma NothingActive(files: Dir, id: Data, name: Data)
    ensures Sole(Started(files), id, name) && id !in Started(files).asm.active && Started(files).disk.files == files
  {
  }

  /** Delivery by the code in place: when the turns of the loop amount to a reception of a file, the file
      is in the landing directory, byte for byte. */
  method Deliver(lib: Lib, files: Dir, turns: seq<Turn>, started: int)
    returns (asm: Assembler.Assembler, ghost orders: seq<seq<Data>>, ghost events: seq<Event>)
    ensures |orders| == Open(turns) && events == OfTurns(turns[..Open(turns)], started + 15_000_000_000, orders)
    ensures forall j, arrivals | Receives(j, lib, files, events, arrivals) ::
      j.meta.name in asm.disk.files && asm.disk.files[j.meta.name] == Plain(j.src)
  {
    hide Inv, Run, Heard, AllVisited, OfTurns, Receives, Assembler.Assembler.Shape, Assembler.Assembler.Valid;
    asm, orders, events := Serve(lib, files, turns, started);
    forall j, arrivals | Receives(j, lib, files, events, arrivals)
      ensures j.meta.name in asm.disk.files && asm.disk.files[j.meta.name] == Plain(j.src)
    {
      ReceivedLands(j, lib, files, events, arrivals);
    }
  }
}
