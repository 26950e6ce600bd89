/** The NMDC peer handshake: each side announces with $Direction whether it wants to download or
    upload, and a tie between two downloaders is broken by the larger number. */
module Handshake {
  const UPLOAD := "Upload"
  const DOWNLOAD := "Download"

  datatype Msg = MyNick | Lock | Direction(dir: string, number: nat) | Key

  /** Handed: the connection went to the download or upload manager. */
  datatype State = CONNECT | SUPNICK | LOCK | DIRECTION | KEY | HANDED

  datatype Conn = Conn(state: State, download: bool, upload: bool, incoming: bool, number: nat, closed: bool)

  function NewOutgoing(number: nat): Conn { Conn(CONNECT, false, false, false, number, false) }
  function NewIncoming(number: nat): Conn { Conn(SUPNICK, false, false, true, number, false) }

  function DirectionString(c: Conn): string {
    if c.upload then UPLOAD else DOWNLOAD
  }

  /** Decisions of the queue and of the managers, which the handshake takes as they come. */
  datatype Oracle = Oracle(nickOk: bool, wanted: bool, slotWait: bool, accepted: bool)

  /** What the wire brings and what a handler answers. */
  datatype Outcome = Outcome(conn: Conn, sends: seq<Msg>)

  function Close(c: Conn): Outcome { Outcome(c.(closed := true), []) }
  function Ignore(c: Conn): Outcome { Outcome(c, []) }

  function OnConnected(c: Conn): Outcome {
    Outcome(c.(state := SUPNICK), [MyNick, Lock])
  }

  function OnMyNick(c: Conn, o: Oracle): Outcome {
    if c.state != SUPNICK then Ignore(c)
    else if !o.nickOk then Close(c)
    else Outcome(c.(download := o.wanted, upload := !o.wanted, state := LOCK),
                 if c.incoming then [MyNick, Lock] else [])
  }

  function OnLock(c: Conn): Outcome {
    if c.state != LOCK then Ignore(c)
    else Outcome(c.(state := DIRECTION), [Direction(DirectionString(c), c.number), Key])
  }

  function OnDirection(c: Conn, dir: string, number: nat, o: Oracle): Outcome {
    if c.state != DIRECTION then Ignore(c)
    else if dir == UPLOAD then
      if c.upload then Close(c) else Outcome(c.(state := KEY), [])
    else if c.download && c.number < number then
      if o.slotWait then Close(c) else Outcome(c.(download := false, upload := true, state := KEY), [])
    else if c.download && c.number == number then Close(c)
    else Outcome(c.(state := KEY), [])
  }

  function OnKey(c: Conn, o: Oracle): Outcome {
    if c.state != KEY then Ignore(c)
    else if !o.accepted then Close(c)
    else Outcome(c.(state := HANDED), [])
  }

  function Handle(c: Conn, m: Msg, o: Oracle): Outcome {
    match m
    case MyNick => OnMyNick(c, o)
    case Lock => OnLock(c)
    case Direction(dir, number) => OnDirection(c, dir, number, o)
    case Key => OnKey(c, o)
  }

  /** One end of the connection, as the connection manager's handlers change it. */
  class UserConnection {
    var state: State
    var download: bool
    var upload: bool
    const incoming: bool
    const number: nat
    var closed: bool
    var sent: seq<Msg>

    function Value(): Conn
      reads this
    {
      Conn(state, download, upload, incoming, number, closed)
    }

    constructor (incoming: bool, number: nat)
      ensures Value() == (if incoming then NewIncoming(number) else NewOutgoing(number)) && sent == []
    {
      this.incoming, this.number := incoming, number;
      state := if incoming then SUPNICK else CONNECT;
      download, upload, closed, sent := false, false, false, [];
    }

    method Connected()
      modifies this
      ensures var r := OnConnected(old(Value())); Value() == r.conn && sent == old(sent) + r.sends
    {
      sent := sent + [MyNick, Lock];
      state := SUPNICK;
    }

    method ReceiveMyNick(o: Oracle)
      modifies this
      ensures var r := OnMyNick(old(Value()), o); Value() == r.conn && sent == old(sent) + r.sends
    {
      if state != SUPNICK {
        return;
      }
      if !o.nickOk {
        closed := true;
        return;
      }
      download, upload := o.wanted, !o.wanted;
      if incoming {
        sent := sent + [MyNick, Lock];
      }
      state := LOCK;
    }

    method ReceiveLock()
      modifies this
      ensures var r := OnLock(old(Value())); Value() == r.conn && sent == old(sent) + r.sends
    {
      if state != LOCK {
        return;
      }
      state := DIRECTION;
      sent := sent + [Direction(if upload then UPLOAD else DOWNLOAD, number)];
      sent := sent + [Key];
    }

    method ReceiveDirection(dir: string, num: nat, o: Oracle)
      modifies this
      ensures var r := OnDirection(old(Value()), dir, num, o); Value() == r.conn && sent == old(sent) + r.sends
    {
      if state != DIRECTION {
        return;
      }
      if dir == UPLOAD {
        if upload {
          closed := true;
          return;
        }
      } else {
        if download {
          if number < num {
            if o.slotWait {
              closed := true;
              return;
            }
            download := false;
            upload := true;
          } else if number == num {
            closed := true;
            return;
          }
        }
      }
      state := KEY;
    }

    method ReceiveKey(o: Oracle)
      modifies this
      ensures var r := OnKey(old(Value()), o); Value() == r.conn && sent == old(sent) + r.sends
    {
      if state != KEY {
        return;
      }
      if o.accepted {
        state := HANDED;
      } else {
        closed := true;
      }
    }
  }

  // ----- two peers and two FIFO channels -----

  /** a connects, b accepts. fromA and fromB are everything ever sent; gotA and gotB count what
      the other end took off its channel. */
  datatype Sys = Sys(a: Conn, b: Conn, fromA: seq<Msg>, fromB: seq<Msg>, gotA: nat, gotB: nat)

  datatype Event = Connected | DeliverToA(o: Oracle) | DeliverToB(o: Oracle) | DropA | DropB

  function Start(numberA: nat, numberB: nat): Sys {
    Sys(NewOutgoing(numberA), NewIncoming(numberB), [], [], 0, 0)
  }

  function Step(s: Sys, e: Event): Sys {
    match e
    case Connected =>
      if s.a.closed || s.a.state != CONNECT then s
      else var r := OnConnected(s.a); s.(a := r.conn, fromA := s.fromA + r.sends)
    case DeliverToA(o) =>
      if s.a.closed || s.gotA >= |s.fromB| then s
      else var r := Handle(s.a, s.fromB[s.gotA], o);
           s.(a := r.conn, fromA := s.fromA + r.sends, gotA := s.gotA + 1)
    case DeliverToB(o) =>
      if s.b.closed || s.gotB >= |s.fromA| then s
      else var r := Handle(s.b, s.fromA[s.gotB], o);
           s.(b := r.conn, fromB := s.fromB + r.sends, gotB := s.gotB + 1)
    case DropA => s.(a := s.a.(closed := true))
    case DropB => s.(b := s.b.(closed := true))
  }

  function Run(s: Sys, events: seq<Event>): Sys {
    if events == [] then s else Step(Run(s, events[..|events| - 1]), events[|events| - 1])
  }

  // ----- the invariant -----

  /** What a peer has put on the wire by a given state. */
  ghost predicate Announced(c: Conn, wire: seq<Msg>) {
    if c.state == CONNECT || (c.state == SUPNICK && c.incoming) then wire == []
    else if c.state == SUPNICK || c.state == LOCK then wire == [MyNick, Lock]
    else
      && |wire| == 4 && wire[0] == MyNick && wire[1] == Lock && wire[3] == Key
      && wire[2].Direction? && wire[2].number == c.number
      && (wire[2].dir == UPLOAD || wire[2].dir == DOWNLOAD)
  }

  /** How many messages a peer has acted on by a given state. */
  function Taken(state: State): nat {
    match state
    case CONNECT => 0
    case SUPNICK => 0
    case LOCK => 1
    case DIRECTION => 2
    case KEY => 3
    case HANDED => 4
  }

  /** Two announcements under which a peer goes on: not both uploading, and no tie of numbers
      between two downloaders. */
  predicate Compatible(own: Msg, other: Msg)
    requires own.Direction? && other.Direction?
  {
    && !(own.dir == UPLOAD && other.dir == UPLOAD)
    && !(own.dir == DOWNLOAD && other.dir == DOWNLOAD && own.number == other.number)
  }

  /** The downloader among two compatible announcements. */
  predicate Downloads(own: Msg, other: Msg)
    requires own.Direction? && other.Direction?
  {
    own.dir == DOWNLOAD && (other.dir == UPLOAD || own.number > other.number)
  }

  ghost predicate RoleFits(c: Conn, wire: seq<Msg>, other: seq<Msg>)
    requires Announced(c, wire)
  {
    match c.state
    case CONNECT => !c.download && !c.upload
    case SUPNICK => !c.download && !c.upload
    case LOCK => c.download != c.upload
    case DIRECTION => c.download != c.upload && DirectionString(c) == wire[2].dir
    case _ =>
      && |other| == 4 && other[2].Direction?
      && Compatible(wire[2], other[2])
      && c.download == Downloads(wire[2], other[2]) && c.upload == !c.download
  }

  ghost predicate SideOk(c: Conn, wire: seq<Msg>, otherWire: seq<Msg>, got: nat) {
    && Announced(c, wire) && RoleFits(c, wire, otherWire) && got <= |otherWire|
    && (if c.closed then Taken(c.state) <= got <= Taken(c.state) + 1 else got == Taken(c.state))
  }

  ghost predicate Inv(s: Sys) {
    && !s.a.incoming && s.b.incoming && s.b.state != CONNECT
    && SideOk(s.a, s.fromA, s.fromB, s.gotA)
    && SideOk(s.b, s.fromB, s.fromA, s.gotB)
  }

  /** A peer handles the next message on its wire: it is the one its state waits for, and both
      sides stay in order. */
  lemma HandleKeeps(c: Conn, wire: seq<Msg>, other: Conn, otherWire: seq<Msg>, got: nat, o: Oracle)
    requires SideOk(c, wire, otherWire, got) && Announced(other, otherWire) && RoleFits(other, otherWire, wire)
    requires !c.closed && got < |otherWire| && c.state != CONNECT
    ensures var r := Handle(c, otherWire[got], o);
            && SideOk(r.conn, wire + r.sends, otherWire, got + 1)
            && RoleFits(other, otherWire, wire + r.sends)
            && r.conn.incoming == c.incoming && r.conn.state != CONNECT
            && (!r.conn.closed ==> Taken(r.conn.state) == Taken(c.state) + 1)
  {
  }

  lemma StepKeeps(s: Sys, e: Event)
    requires Inv(s)
    ensures Inv(Step(s, e))
    ensures Step(s, e).a.number == s.a.number && Step(s, e).b.number == s.b.number
  {
    match e
    case DeliverToA(o) =>
      if !s.a.closed && s.gotA < |s.fromB| {
        assert s.a.state != CONNECT ==> SideOk(s.a, s.fromA, s.fromB, s.gotA);
        if s.a.state != CONNECT { HandleKeeps(s.a, s.fromA, s.b, s.fromB, s.gotA, o); }
      }
    case DeliverToB(o) =>
      if !s.b.closed && s.gotB < |s.fromA| {
        HandleKeeps(s.b, s.fromB, s.a, s.fromA, s.gotB, o);
      }
    case _ =>
  }

  lemma {:induction false} RunKeeps(numberA: nat, numberB: nat, events: seq<Event>)
    ensures var s := Run(Start(numberA, numberB), events);
            Inv(s) && s.a.number == numberA && s.b.number == numberB
    decreases |events|
  {
    if events != [] {
      RunKeeps(numberA, numberB, events[..|events| - 1]);
      StepKeeps(Run(Start(numberA, numberB), events[..|events| - 1]), events[|events| - 1]);
    }
  }

  // ----- the results -----

  predicate Agreed(c: Conn) { c.state == KEY || c.state == HANDED }

  /** However the messages interleave and whatever gets dropped: once both peers got past
      $Direction, exactly one of them downloads and the other one uploads. */
  lemma RolesComplement(numberA: nat, numberB: nat, events: seq<Event>)
    ensures var s := Run(Start(numberA, numberB), events);
            Agreed(s.a) && Agreed(s.b)
            ==> s.a.download != s.b.download && s.a.upload == !s.a.download && s.b.upload == !s.b.download
  {
    RunKeeps(numberA, numberB, events);
  }

  /** The whole of a peer's wire is out, with this announcement in it. */
  predicate Said(wire: seq<Msg>, dir: string, number: nat) {
    |wire| == 4 && wire[2] == Direction(dir, number)
  }

  /** The larger number wins a tie between two downloaders. */
  lemma LargerNumberDownloads(numberA: nat, numberB: nat, events: seq<Event>)
    ensures var s := Run(Start(numberA, numberB), events);
            Agreed(s.a) && Agreed(s.b) && Said(s.fromA, DOWNLOAD, numberA) && Said(s.fromB, DOWNLOAD, numberB)
            ==> (s.a.download <==> numberA > numberB) && (s.b.download <==> numberB > numberA)
  {
    RunKeeps(numberA, numberB, events);
  }

  /** Two uploaders, or two downloaders with equal numbers, never get past $Direction. */
  lemma ConflictStopsBoth(numberA: nat, numberB: nat, events: seq<Event>)
    ensures var s := Run(Start(numberA, numberB), events);
            && (Said(s.fromA, UPLOAD, numberA) && Said(s.fromB, UPLOAD, numberB) ==> !Agreed(s.a) && !Agreed(s.b))
            && (Said(s.fromA, DOWNLOAD, numberA) && Said(s.fromB, DOWNLOAD, numberB) && numberA == numberB
                ==> !Agreed(s.a) && !Agreed(s.b))
  {
    RunKeeps(numberA, numberB, events);
  }

  /** Exactly when a peer hangs up on the other's $Direction: on a conflict, or when it lost the
      tie while it waits for a slot. */
  predicate HangsUp(own: Msg, other: Msg, o: Oracle)
    requires own.Direction? && other.Direction?
  {
    !Compatible(own, other) || (o.slotWait && own.dir == DOWNLOAD && other.dir == DOWNLOAD && own.number < other.number)
  }

  lemma DirectionDecides(numberA: nat, numberB: nat, events: seq<Event>, o: Oracle)
    ensures var s := Run(Start(numberA, numberB), events);
            && (!s.a.closed && s.a.state == DIRECTION && |s.fromB| == 4
                ==> && |s.fromA| == 4 && s.fromA[2].Direction? && s.fromB[2].Direction? && s.gotA == 2
                    && (Handle(s.a, s.fromB[2], o).conn.closed <==> HangsUp(s.fromA[2], s.fromB[2], o)))
            && (!s.b.closed && s.b.state == DIRECTION && |s.fromA| == 4
                ==> && |s.fromB| == 4 && s.fromA[2].Direction? && s.fromB[2].Direction? && s.gotB == 2
                    && (Handle(s.b, s.fromA[2], o).conn.closed <==> HangsUp(s.fromB[2], s.fromA[2], o)))
  {
    RunKeeps(numberA, numberB, events);
  }

  // ----- who gets what it wants -----

  /** Whenever a asks whether it wants anything of the peer the answer is wa, and the same for b and wb. */
  predicate Wanting(events: seq<Event>, wa: bool, wb: bool) {
    forall i :: 0 <= i < |events| ==>
      && (events[i].DeliverToA? ==> events[i].o.wanted == wa)
      && (events[i].DeliverToB? ==> events[i].o.wanted == wb)
  }

  /** A peer with a role has the one it wants, and has announced that. */
  predicate WantedRole(c: Conn, wire: seq<Msg>, wants: bool) {
    && (c.state == LOCK || c.state == DIRECTION ==> c.download == wants && c.upload == !wants)
    && (|wire| == 4 ==> wire[2].Direction? && wire[2].dir == if wants then DOWNLOAD else UPLOAD)
  }

  lemma StepWanted(s: Sys, e: Event, wa: bool, wb: bool)
    requires Inv(s) && WantedRole(s.a, s.fromA, wa) && WantedRole(s.b, s.fromB, wb) && Wanting([e], wa, wb)
    ensures var t := Step(s, e); WantedRole(t.a, t.fromA, wa) && WantedRole(t.b, t.fromB, wb)
  {
    assert Wanting([e], wa, wb) && [e][0] == e;
    StepKeeps(s, e);
  }

  lemma {:induction false} RunWanted(numberA: nat, numberB: nat, events: seq<Event>, wa: bool, wb: bool)
    requires Wanting(events, wa, wb)
    ensures var s := Run(Start(numberA, numberB), events); WantedRole(s.a, s.fromA, wa) && WantedRole(s.b, s.fromB, wb)
    decreases |events|
  {
    if events != [] {
      var n := |events| - 1;
      RunWanted(numberA, numberB, events[..n], wa, wb);
      RunKeeps(numberA, numberB, events[..n]);
      StepWanted(Run(Start(numberA, numberB), events[..n]), events[n], wa, wb);
    }
  }

  /** The one that downloads, of two peers of which each wants something of the other or not. */
  predicate GetsFile(wants: bool, otherWants: bool, number: nat, otherNumber: nat) {
    wants && (!otherWants || number > otherNumber)
  }

  /** In every run a peer announces Download if and only if it wants something of the other. Past the direction one of
      them does, and the one that downloads wants it: if both do, it has the larger number. */
  lemma WantedDecides(numberA: nat, numberB: nat, events: seq<Event>, wa: bool, wb: bool)
    requires Wanting(events, wa, wb)
    ensures var s := Run(Start(numberA, numberB), events);
            && (|s.fromA| == 4 ==> s.fromA[2] == Direction(if wa then DOWNLOAD else UPLOAD, numberA))
            && (|s.fromB| == 4 ==> s.fromB[2] == Direction(if wb then DOWNLOAD else UPLOAD, numberB))
            && (Agreed(s.a) ==> (wa || wb) && s.a.download == GetsFile(wa, wb, numberA, numberB))
            && (Agreed(s.b) ==> (wa || wb) && s.b.download == GetsFile(wb, wa, numberB, numberA))
  {
    RunKeeps(numberA, numberB, events);
    RunWanted(numberA, numberB, events, wa, wb);
  }

  /** Why a peer hangs up on a message: it does not know the nick, the direction does not suit it, or nobody takes the
      connection at the end. */
  predicate Unwelcome(m: Msg, own: Msg, o: Oracle)
    requires m.Direction? ==> own.Direction?
  {
    match m
    case MyNick => !o.nickOk
    case Lock => false
    case Direction(_, _) => HangsUp(own, m, o)
    case Key => !o.accepted
  }

  /** In every run an open peer hangs up on the next message exactly for these reasons, and otherwise moves on. */
  lemma DeliveryDecides(numberA: nat, numberB: nat, events: seq<Event>, o: Oracle)
    ensures var s := Run(Start(numberA, numberB), events);
            && (!s.a.closed && s.gotA < |s.fromB| ==>
                  var m, own := s.fromB[s.gotA], if |s.fromA| == 4 then s.fromA[2] else MyNick;
                  (m.Direction? ==> own.Direction?) && (Handle(s.a, m, o).conn.closed <==> Unwelcome(m, own, o)))
            && (!s.b.closed && s.gotB < |s.fromA| ==>
                  var m, own := s.fromA[s.gotB], if |s.fromB| == 4 then s.fromB[2] else MyNick;
                  (m.Direction? ==> own.Direction?) && (Handle(s.b, m, o).conn.closed <==> Unwelcome(m, own, o)))
  {
    RunKeeps(numberA, numberB, events);
  }

  predicate Quiet(s: Sys) {
    s.a.state != CONNECT && s.gotA == |s.fromB| && s.gotB == |s.fromA|
  }

  /** No deadlock: when nothing is under way and nobody hung up, the handshake is over on both
      sides. */
  lemma QuietMeansDone(numberA: nat, numberB: nat, events: seq<Event>)
    ensures var s := Run(Start(numberA, numberB), events);
            Quiet(s) && !s.a.closed && !s.b.closed ==> s.a.state == HANDED && s.b.state == HANDED
  {
    RunKeeps(numberA, numberB, events);
  }

  /** No message reaches an open peer in a state that would make it ignore the message. */
  lemma NothingIgnored(numberA: nat, numberB: nat, events: seq<Event>, o: Oracle)
    ensures var s := Run(Start(numberA, numberB), events);
            && (!s.a.closed && s.gotA < |s.fromB| ==> Handle(s.a, s.fromB[s.gotA], o) != Ignore(s.a))
            && (!s.b.closed && s.gotB < |s.fromA| ==> Handle(s.b, s.fromA[s.gotB], o) != Ignore(s.b))
  {
    RunKeeps(numberA, numberB, events);
    var s := Run(Start(numberA, numberB), events);
    if !s.a.closed && s.gotA < |s.fromB| { HandleKeeps(s.a, s.fromA, s.b, s.fromB, s.gotA, o); }
    if !s.b.closed && s.gotB < |s.fromA| { HandleKeeps(s.b, s.fromB, s.a, s.fromA, s.gotB, o); }
  }

  // ----- and it does come off -----

  /** Everything is delivered, first to b and then to a, and last the direction and the key to b. */
  function Deliveries(o: Oracle, p: Oracle): seq<Event> {
    [Connected, DeliverToB(p), DeliverToB(p), DeliverToA(o), DeliverToA(o), DeliverToA(o), DeliverToA(o), DeliverToB(p),
     DeliverToB(p)]
  }

  lemma RunFirst(s: Sys, events: seq<Event>)
    requires events != []
    ensures Run(s, events) == Run(Step(s, events[0]), events[1..])
    decreases |events|
  {
    var n := |events| - 1;
    if n > 0 {
      RunFirst(s, events[..n]);
      assert events[..n][0] == events[0] && events[..n][1..] == events[1..][..n - 1];
      assert events[1..][n - 1] == events[n];
    }
  }

  /** What either peer says and does when nothing is in the way. */
  function WireOf(wants: bool, number: nat): seq<Msg> {
    [MyNick, Lock, Direction(if wants then DOWNLOAD else UPLOAD, number), Key]
  }

  lemma FirstHalf(numberA: nat, numberB: nat, o: Oracle, p: Oracle)
    requires o.nickOk && p.nickOk
    ensures var s := Step(Step(Step(Step(Step(Start(numberA, numberB), Connected), DeliverToB(p)), DeliverToB(p)),
                               DeliverToA(o)), DeliverToA(o));
            s == Sys(Conn(DIRECTION, o.wanted, !o.wanted, false, numberA, false),
                     Conn(DIRECTION, p.wanted, !p.wanted, true, numberB, false),
                     WireOf(o.wanted, numberA), WireOf(p.wanted, numberB), 2, 2)
  {
  }

  /** If the peers know each other, one of them wants something, and the tie can be broken, they connect. */
  lemma PeersConnect(numberA: nat, numberB: nat, o: Oracle, p: Oracle)
    requires o.nickOk && p.nickOk && o.accepted && p.accepted && !o.slotWait && !p.slotWait
    requires (o.wanted || p.wanted) && (o.wanted && p.wanted ==> numberA != numberB)
    ensures var s := Run(Start(numberA, numberB), Deliveries(o, p)); s.a.state == HANDED && s.b.state == HANDED
  {
    var e := Deliveries(o, p);
    var s0 := Start(numberA, numberB);
    var s1 := Step(s0, Connected);
    var s2 := Step(s1, DeliverToB(p));
    var s3 := Step(s2, DeliverToB(p));
    var s4 := Step(s3, DeliverToA(o));
    var s5 := Step(s4, DeliverToA(o));
    RunFirst(s0, e);
    RunFirst(s1, e[1..]);
    RunFirst(s2, e[2..]);
    RunFirst(s3, e[3..]);
    RunFirst(s4, e[4..]);
    assert e[1..][1..] == e[2..] && e[2..][1..] == e[3..] && e[3..][1..] == e[4..] && e[4..][1..] == e[5..];
    FirstHalf(numberA, numberB, o, p);
    SecondHalf(s5, o, p, e[5..]);
  }

  lemma SecondHalf(s: Sys, o: Oracle, p: Oracle, e: seq<Event>)
    requires e == [DeliverToA(o), DeliverToA(o), DeliverToB(p), DeliverToB(p)]
    requires o.accepted && p.accepted && !o.slotWait && !p.slotWait
    requires s.a == Conn(DIRECTION, o.wanted, !o.wanted, false, s.a.number, false) && s.gotA == 2
    requires s.b == Conn(DIRECTION, p.wanted, !p.wanted, true, s.b.number, false) && s.gotB == 2
    requires s.fromA == WireOf(o.wanted, s.a.number) && s.fromB == WireOf(p.wanted, s.b.number)
    requires (o.wanted || p.wanted) && (o.wanted && p.wanted ==> s.a.number != s.b.number)
    ensures Run(s, e).a.state == HANDED && Run(s, e).b.state == HANDED
  {
    RunFirst(s, e);
    RunFirst(Step(s, e[0]), e[1..]);
    RunFirst(Step(Step(s, e[0]), e[1]), e[2..]);
    RunFirst(Step(Step(Step(s, e[0]), e[1]), e[2]), e[3..]);
    assert e[1..][0] == e[1] && e[2..][0] == e[2] && e[3..][0] == e[3] && e[3..][1..] == [];
    assert e[1..][1..] == e[2..] && e[2..][1..] == e[3..];
  }

  // ----- the two connection objects -----

  method Deliver(c: UserConnection, m: Msg, o: Oracle)
    modifies c
    ensures var r := Handle(old(c.Value()), m, o); c.Value() == r.conn && c.sent == old(c.sent) + r.sends
  {
    match m
    case MyNick => c.ReceiveMyNick(o);
    case Lock => c.ReceiveLock();
    case Direction(dir, number) => c.ReceiveDirection(dir, number, o);
    case Key => c.ReceiveKey(o);
  }

  /** The objects and how far each has read are in this state. */
  ghost predicate Shows(s: Sys, a: UserConnection, b: UserConnection, gotA: nat, gotB: nat)
    reads a, b
  {
    a.Value() == s.a && b.Value() == s.b && a.sent == s.fromA && b.sent == s.fromB && gotA == s.gotA && gotB == s.gotB
  }

  /** One step of a peer or of a channel. */
  method StepPeers(a: UserConnection, b: UserConnection, gotA: nat, gotB: nat, e: Event, ghost s: Sys)
    returns (gotA': nat, gotB': nat)
    requires a != b && Shows(s, a, b, gotA, gotB)
    modifies a, b
    ensures Shows(Step(s, e), a, b, gotA', gotB')
  {
    gotA', gotB' := gotA, gotB;
    match e
    case Connected =>
      if !a.closed && a.state == CONNECT {
        a.Connected();
      }
    case DeliverToA(o) =>
      if !a.closed && gotA < |b.sent| {
        Deliver(a, b.sent[gotA], o);
        gotA' := gotA + 1;
      }
    case DeliverToB(o) =>
      if !b.closed && gotB < |a.sent| {
        Deliver(b, a.sent[gotB], o);
        gotB' := gotB + 1;
      }
    case DropA => a.closed := true;
    case DropB => b.closed := true;
  }

  /** Two connections, one that connects and one that accepts, under any interleaving of connecting, deliveries and
      drops: past the direction they have complementary roles, the one that downloads being the one that wants it, a
      conflict stops both, and if nothing is under way and nobody hung up, both have been handed over. */
  method RunPeers(numberA: nat, numberB: nat, events: seq<Event>)
    returns (a: UserConnection, b: UserConnection, gotA: nat, gotB: nat)
    ensures a.incoming == false && b.incoming == true && a.number == numberA && b.number == numberB
    ensures Shows(Run(Start(numberA, numberB), events), a, b, gotA, gotB)
    ensures Agreed(a.Value()) && Agreed(b.Value()) ==>
              && a.download != b.download && a.upload == !a.download && b.upload == !b.download
              && (Said(a.sent, DOWNLOAD, numberA) && Said(b.sent, DOWNLOAD, numberB) ==>
                 (a.download <==> numberA > numberB))
    ensures forall wa, wb :: Wanting(events, wa, wb) && Agreed(a.Value()) && Agreed(b.Value()) ==>
              && (wa || wb) && a.download == GetsFile(wa, wb, numberA, numberB)
              && b.download == GetsFile(wb, wa, numberB, numberA)
    ensures (Said(a.sent, UPLOAD, numberA) && Said(b.sent, UPLOAD, numberB))
            || (Said(a.sent, DOWNLOAD, numberA) && Said(b.sent, DOWNLOAD, numberB) && numberA == numberB)
            ==> !Agreed(a.Value()) && !Agreed(b.Value())
    ensures a.state != CONNECT && gotA == |b.sent| && gotB == |a.sent| && !a.closed && !b.closed ==>
              a.state == HANDED && b.state == HANDED
  {
    a := new UserConnection(false, numberA);
    b := new UserConnection(true, numberB);
    gotA, gotB := 0, 0;
    for k := 0 to |events|
      invariant fresh(a) && fresh(b) && a != b && !a.incoming && b.incoming && a.number == numberA
                && b.number == numberB
      invariant Shows(Run(Start(numberA, numberB), events[..k]), a, b, gotA, gotB)
    {
      assert events[..k + 1][..k] == events[..k];
      gotA, gotB := StepPeers(a, b, gotA, gotB, events[k], Run(Start(numberA, numberB), events[..k]));
    }
    assert events[..|events|] == events;
    RolesComplement(numberA, numberB, events);
    LargerNumberDownloads(numberA, numberB, events);
    ConflictStopsBoth(numberA, numberB, events);
    QuietMeansDone(numberA, numberB, events);
    forall wa, wb | Wanting(events, wa, wb) ensures RolesWanted(Run(Start(numberA, numberB), events), wa, wb) {
      WantedDecides(numberA, numberB, events, wa, wb);
    }
  }

  predicate RolesWanted(s: Sys, wa: bool, wb: bool) {
    && (Agreed(s.a) ==> (wa || wb) && s.a.download == GetsFile(wa, wb, s.a.number, s.b.number))
    && (Agreed(s.b) ==> (wa || wb) && s.b.download == GetsFile(wb, wa, s.b.number, s.a.number))
  }
}
