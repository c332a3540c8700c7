/** What reaches the readers of the control channel, over every run: a yamux session
    reads its binary frames, a request body its own chunks, whatever else arrives. */
module Delivery {
  import opened Wire
  import opened ResponseFrame
  import opened Demux

  /** An account of one pipe: the bytes written to it, how it ended, whether the
      channel still writes to it, and whether it takes what is written. */
  datatype Account = Account(bytes: Bytes, end: End, owned: bool, open: bool)

  const FRESH := Account([], Flowing, true, true)

  // ----- Where each frame goes -----

  /** A frame goes to yamux exactly when it is binary and a session is installed, and
      then whole: neither an awaited body frame nor any message, in text or in legacy
      binary, can put a byte into a session. */
  lemma EachFrameHasOnePlace(c: Codec, s: State, f: Frame, starts: bool)
    requires Inv(s)
    ensures FrameEffect(c, s, f, starts).Feed? <==> f.Binary? && s.session.Some?
    ensures f.Binary? && s.session.Some? ==> FrameEffect(c, s, f, starts) == Feed(s.session.value, f.data)
    ensures forall r :: !AwaitedEffect(r, f).Feed?
    ensures forall yamux, m :: !MessageEffect(c, yamux, m, starts).Feed?
  {
  }

  /** The awaited frame hands over the request exactly when it is binary and carries
      the announced id, and then with exactly the bytes after the id; every other
      frame, a text message too, is consumed and the request is lost. */
  lemma AwaitedFrame(c: Codec, s: State, r: Announced, f: Frame, starts: bool, body: Bytes)
    requires Inv(s) && s.awaiting == Some(r)
    ensures FrameEffect(c, s, f, starts) == Dispatch(r.id, body, r.streaming) <==>
            f.Binary? && |r.id| < 0x1_0000 && f.data == U16(|r.id|) + r.id + body
    ensures f.Text? ==> Step(c, s, Received(f, starts)) == s.(awaiting := None)
  {
    BodyFrameAcceptedExactly(f.data, r.id, body);
  }

  ghost predicate SameRouting(s: State, t: State) {
    s.session == t.session && |s.sessions| == |t.sessions| && s.awaiting == t.awaiting
  }

  /** Where frames go never depends on the request bodies, on which ids are active or
      on what was read: two connections that differ only there do the same. */
  lemma {:induction false} RoutingIgnoresBodies(c: Codec, s: State, t: State, events: seq<Event>)
    requires Inv(s) && Inv(t) && SameRouting(s, t)
    ensures Effects(c, s, events) == Effects(c, t, events)
    ensures SameRouting(Run(c, s, events), Run(c, t, events))
    decreases |events|
  {
    if events != [] {
      var e := events[0];
      StepKeepsInv(c, s, e);
      StepKeepsInv(c, t, e);
      assert EffectOf(c, s, e) == EffectOf(c, t, e);
      SameRoutingStep(s, t, EffectOf(c, s, e));
      RoutingIgnoresBodies(c, Step(c, s, e), Step(c, t, e), events[1..]);
    }
  }

  lemma SameRoutingStep(s: State, t: State, effect: Effect)
    requires Inv(s) && Inv(t) && SameRouting(s, t)
    ensures SameRouting(Apply(s, effect), Apply(t, effect))
  {
  }

  // ----- The yamux session -----

  predicate Rehello(c: Codec, data: Bytes, starts: bool) {
    starts && c.parse(data) == Some(GatewayHello(true))
  }

  /** A session's account after one event, told from the event alone. */
  function NoteFrame(c: Codec, k: nat, a: Account, e: Event): Account {
    match e
    case Received(Binary(data), _) => if a.owned && a.open then a.(bytes := a.bytes + data) else a
    case Received(Text(data), starts) => if a.owned && Rehello(c, data, starts) then a.(owned := false) else a
    case StopYamux => if a.owned then a.(owned := false, end := AtEof, open := false) else a
    case SessionClosed(j) => if j == k then a.(end := AtEof, open := false) else a
    case _ => a
  }

  function FollowFrames(c: Codec, k: nat, a: Account, events: seq<Event>): Account
    decreases |events|
  {
    if events == [] then a else FollowFrames(c, k, NoteFrame(c, k, a, events[0]), events[1..])
  }

  function SessionAccount(s: State, k: nat): Account
    requires k < |s.sessions|
  {
    Account(s.sessions[k].Fed(), s.sessions[k].end, s.session == Some(k), s.sessions[k].Writable())
  }

  /** A session's account after one effect. */
  function NoteSession(k: nat, a: Account, effect: Effect): Account {
    match effect
    case Feed(j, data) => if j == k && a.open then a.(bytes := a.bytes + data) else a
    case Install => a.(owned := false)
    case Uninstall => if a.owned then a.(owned := false, end := AtEof, open := false) else a
    case CloseSession(j) => if j == k then a.(end := AtEof, open := false) else a
    case _ => a
  }

  lemma SessionEffect(s: State, k: nat, effect: Effect)
    requires Inv(s) && k < |s.sessions|
    ensures k < |Apply(s, effect).sessions|
    ensures SessionAccount(Apply(s, effect), k) == NoteSession(k, SessionAccount(s, k), effect)
  {
    match effect {
      case Feed(_, data) => WriteExtends(s.sessions[k], data);
      case ReadSession(_, n) => ReadConserves(s.sessions[k], n);
      case _ =>
    }
  }

  lemma FrameNote(c: Codec, s: State, k: nat, f: Frame, starts: bool)
    requires Inv(s) && k < |s.sessions|
    ensures var a := SessionAccount(s, k);
            NoteSession(k, a, FrameEffect(c, s, f, starts)) == NoteFrame(c, k, a, Received(f, starts))
  {
  }

  lemma SessionStep(c: Codec, s: State, k: nat, e: Event)
    requires Inv(s) && k < |s.sessions|
    ensures k < |Step(c, s, e).sessions|
    ensures SessionAccount(Step(c, s, e), k) == NoteFrame(c, k, SessionAccount(s, k), e)
  {
    var effect := EffectOf(c, s, e);
    SessionEffect(s, k, effect);
    if e.Received? {
      FrameNote(c, s, k, e.frame, e.starts);
    }
  }

  /** What was fed to a session is determined by the frames alone, whatever state the
      rest of the connection is in and however reads are interleaved. */
  lemma {:induction false} SessionFollowsFrames(c: Codec, s: State, k: nat, events: seq<Event>)
    requires Inv(s) && k < |s.sessions|
    ensures k < |Run(c, s, events).sessions|
    ensures SessionAccount(Run(c, s, events), k) == FollowFrames(c, k, SessionAccount(s, k), events)
    decreases |events|
  {
    if events != [] {
      StepKeepsInv(c, s, events[0]);
      SessionStep(c, s, k, events[0]);
      SessionFollowsFrames(c, Step(c, s, events[0]), k, events[1..]);
    }
  }

  /** The data of the binary frames, in order. */
  function BinaryData(events: seq<Event>): Bytes {
    if events == [] then []
    else (if events[0].Received? && events[0].frame.Binary? then events[0].frame.data else []) + BinaryData(events[1..])
  }

  /** Nothing is fed but binary frames: in order, without a gap, without any text. */
  lemma {:induction false} FedIsPrefix(c: Codec, k: nat, a: Account, events: seq<Event>)
    ensures FollowFrames(c, k, a, events).bytes <= a.bytes + BinaryData(events)
    ensures a.bytes <= FollowFrames(c, k, a, events).bytes
    ensures !a.owned || !a.open ==> FollowFrames(c, k, a, events).bytes == a.bytes
    decreases |events|
  {
    if events != [] {
      var b := NoteFrame(c, k, a, events[0]);
      FedIsPrefix(c, k, b, events[1..]);
      Assoc(a.bytes, if a.bytes == b.bytes then [] else events[0].frame.data, BinaryData(events[1..]));
    }
  }

  /** The session stays installed and open. */
  predicate Lasts(c: Codec, k: nat, events: seq<Event>) {
    forall e | e in events :: !e.StopYamux? && e != SessionClosed(k)
                              && !(e.Received? && e.frame.Text? && Rehello(c, e.frame.data, e.starts))
  }

  /** Until then it gets all of them. */
  lemma {:induction false} FedIsAll(c: Codec, k: nat, a: Account, events: seq<Event>)
    requires a.owned && a.open && Lasts(c, k, events)
    ensures FollowFrames(c, k, a, events) == a.(bytes := a.bytes + BinaryData(events))
    decreases |events|
  {
    if events == [] {
      assert a.bytes + [] == a.bytes;
    } else {
      var e := events[0];
      var b := NoteFrame(c, k, a, e);
      assert e in events;
      FedIsAll(c, k, b, events[1..]);
      Assoc(a.bytes, if e.Received? && e.frame.Binary? then e.frame.data else [], BinaryData(events[1..]));
    }
  }

  // ----- Readers -----

  datatype Port = SessionPort(k: nat) | BodyPort(k: nat)

  predicate Exists(s: State, p: Port) {
    match p
    case SessionPort(k) => k < |s.sessions|
    case BodyPort(k) => k < |s.bodies|
  }

  function PipeAt(s: State, p: Port): Pipe
    requires Exists(s, p)
  {
    match p
    case SessionPort(k) => s.sessions[k]
    case BodyPort(k) => s.bodies[k]
  }

  /** What the reader of this port gets when an effect takes place. */
  function Output(s: State, p: Port, effect: Effect): Bytes
    requires Exists(s, p)
  {
    match effect
    case ReadSession(k, n) => if p == SessionPort(k) then PipeAt(s, p).Read(n).data else []
    case ReadBody(k, n) => if p == BodyPort(k) then PipeAt(s, p).Read(n).data else []
    case _ => []
  }

  lemma PortStays(s: State, p: Port, effect: Effect)
    requires Inv(s) && Exists(s, p)
    ensures Exists(Apply(s, effect), p)
  {
  }

  /** What all the reads of a run return, one after the other. */
  function Reads(c: Codec, s: State, p: Port, events: seq<Event>): Bytes
    requires Inv(s) && Exists(s, p)
    decreases |events|
  {
    if events == [] then []
    else
      StepKeepsInv(c, s, events[0]);
      PortStays(s, p, EffectOf(c, s, events[0]));
      Output(s, p, EffectOf(c, s, events[0])) + Reads(c, Step(c, s, events[0]), p, events[1..])
  }

  lemma SessionOutputIsGot(s: State, k: nat, effect: Effect)
    requires Inv(s) && k < |s.sessions| && k < |Apply(s, effect).sessions|
    ensures Apply(s, effect).sessions[k].got == s.sessions[k].got + Output(s, SessionPort(k), effect)
  {
    assert s.sessions[k].got + [] == s.sessions[k].got;
    match effect {
      case ReadSession(_, n) => ReadConserves(s.sessions[k], n);
      case _ =>
    }
  }

  lemma BodyOutputIsGot(s: State, k: nat, effect: Effect)
    requires Inv(s) && k < |s.bodies| && k < |Apply(s, effect).bodies|
    ensures Apply(s, effect).bodies[k].got == s.bodies[k].got + Output(s, BodyPort(k), effect)
  {
    assert s.bodies[k].got + [] == s.bodies[k].got;
    match effect {
      case ReadBody(_, n) => ReadConserves(s.bodies[k], n);
      case _ =>
    }
  }

  lemma OutputIsGot(s: State, p: Port, effect: Effect)
    requires Inv(s) && Exists(s, p)
    ensures Exists(Apply(s, effect), p)
    ensures PipeAt(Apply(s, effect), p).got == PipeAt(s, p).got + Output(s, p, effect)
  {
    PortStays(s, p, effect);
    match p {
      case SessionPort(k) => SessionOutputIsGot(s, k, effect);
      case BodyPort(k) => BodyOutputIsGot(s, k, effect);
    }
  }

  lemma {:induction false} ReadsAreGot(c: Codec, s: State, p: Port, events: seq<Event>)
    requires Inv(s) && Exists(s, p)
    ensures Exists(Run(c, s, events), p)
    ensures PipeAt(Run(c, s, events), p).got == PipeAt(s, p).got + Reads(c, s, p, events)
    decreases |events|
  {
    if events == [] {
      assert PipeAt(s, p).got + [] == PipeAt(s, p).got;
    } else {
      StepKeepsInv(c, s, events[0]);
      OutputIsGot(s, p, EffectOf(c, s, events[0]));
      ReadsAreGot(c, Step(c, s, events[0]), p, events[1..]);
      Assoc(PipeAt(s, p).got, Output(s, p, EffectOf(c, s, events[0])), Reads(c, Step(c, s, events[0]), p, events[1..]));
    }
  }

  /** From the moment a session is installed, in whatever state that happens, whatever
      follows: all that yamux reads is a prefix of the concatenated binary frames, and
      what it has not read yet is still there.  While the session lasts none is lost. */
  lemma YamuxDelivery(c: Codec, s: State, k: nat, start: State, events: seq<Event>)
    requires Inv(s) && s.awaiting.None? && k == |s.sessions| && start == Apply(s, Install)
    ensures Inv(start) && k < |start.sessions| && k < |Run(c, start, events).sessions|
    ensures Reads(c, start, SessionPort(k), events) <= BinaryData(events)
    ensures Lasts(c, k, events) ==>
              Reads(c, start, SessionPort(k), events) + Run(c, start, events).sessions[k].pending == BinaryData(events)
  {
    ApplyKeepsInv(s, Install);
    ReadsAreGot(c, start, SessionPort(k), events);
    SessionFollowsFrames(c, start, k, events);
    assert SessionAccount(start, k) == FRESH;
    assert [] + Reads(c, start, SessionPort(k), events) == Reads(c, start, SessionPort(k), events);
    FedIsPrefix(c, k, FRESH, events);
    assert [] + BinaryData(events) == BinaryData(events);
    if Lasts(c, k, events) {
      FedIsAll(c, k, FRESH, events);
    }
  }

  predicate Replaces(c: Codec, e: Event) {
    e.Received? && e.frame.Text? && Rehello(c, e.frame.data, e.starts)
  }

  /** A stop comes before any hello that replaces the session. */
  ghost predicate Stopped(c: Codec, events: seq<Event>) {
    exists i | 0 <= i < |events| :: events[i].StopYamux? && forall j | 0 <= j < i :: !Replaces(c, events[j])
  }

  /** yamux closed the session, or it was stopped while it was the installed one. */
  ghost predicate ShutBy(c: Codec, k: nat, owned: bool, events: seq<Event>) {
    SessionClosed(k) in events || (owned && Stopped(c, events))
  }

  lemma StoppedFirst(c: Codec, events: seq<Event>, e: Event, rest: seq<Event>)
    requires events == [e] + rest
    ensures Stopped(c, events) <==> e.StopYamux? || (!Replaces(c, e) && Stopped(c, rest))
  {
    assert events[0] == e && forall i | 0 <= i < |rest| :: events[i + 1] == rest[i];
    if !Replaces(c, e) && Stopped(c, rest) {
      var i :| 0 <= i < |rest| && rest[i].StopYamux? && forall j | 0 <= j < i :: !Replaces(c, rest[j]);
      forall j | 0 <= j < i + 1
        ensures !Replaces(c, events[j])
      {
        assert j > 0 ==> events[j] == rest[j - 1];
      }
      assert events[i + 1].StopYamux?;
    }
    if Stopped(c, events) && !e.StopYamux? {
      var i :| 0 <= i < |events| && events[i].StopYamux? && forall j | 0 <= j < i :: !Replaces(c, events[j]);
      assert rest[i - 1].StopYamux? && !Replaces(c, events[0]);
      forall j | 0 <= j < i - 1
        ensures !Replaces(c, rest[j])
      {
        assert rest[j] == events[j + 1];
      }
    }
  }

  lemma {:induction false} OpenUntilShut(c: Codec, k: nat, a: Account, events: seq<Event>)
    requires a.open
    ensures FollowFrames(c, k, a, events).open <==> !ShutBy(c, k, a.owned, events)
    decreases |events|
  {
    if events != [] {
      var e, b := events[0], NoteFrame(c, k, a, events[0]);
      assert events == [e] + events[1..];
      StoppedFirst(c, events, e, events[1..]);
      if b.open {
        OpenUntilShut(c, k, b, events[1..]);
      } else {
        StaysShut(c, k, b, events[1..]);
      }
    }
  }

  lemma {:induction false} StaysShut(c: Codec, k: nat, a: Account, events: seq<Event>)
    requires !a.open
    ensures !FollowFrames(c, k, a, events).open
    decreases |events|
  {
    if events != [] {
      StaysShut(c, k, NoteFrame(c, k, a, events[0]), events[1..]);
    }
  }

  /** What yamux is told after any run: its pipe is closed exactly when it closed the
      session itself or the session was stopped; else it gets data while there is some,
      and waits when there is none. */
  lemma YamuxIsTold(c: Codec, s: State, k: nat, start: State, events: seq<Event>, p: Pipe, n: nat)
    requires Inv(s) && s.awaiting.None? && k == |s.sessions| && start == Apply(s, Install) && Inv(start)
    requires k < |Run(c, start, events).sessions| && p == Run(c, start, events).sessions[k]
    ensures p.Read(n) == ReadResult([], ClosedPipe) <==> ShutBy(c, k, true, events)
    ensures !ShutBy(c, k, true, events) && p.pending == [] ==> p.Read(n) == ReadResult([], Wait)
    ensures !ShutBy(c, k, true, events) && p.pending != [] && n > 0 ==>
              p.Read(n).status == Data && p.Read(n).data != [] && p.Read(n).data <= p.pending
  {
    SessionFollowsFrames(c, start, k, events);
    assert SessionAccount(start, k) == FRESH;
    OpenUntilShut(c, k, FRESH, events);
  }

  /** A second hello does not close the session it replaces: its reader gets nothing
      more and no end either, unless yamux closes it itself. */
  lemma RehelloAbandons(c: Codec, s: State, k: nat, data: Bytes, events: seq<Event>)
    requires Inv(s) && s.session == Some(k) && Rehello(c, data, true) && s.sessions[k].Writable()
    requires SessionClosed(k) !in events
    ensures var t := Run(c, s, [Received(Text(data), true)] + events);
            k < |t.sessions| && t.sessions[k].Fed() == s.sessions[k].Fed() && t.sessions[k].Writable()
  {
    var all := [Received(Text(data), true)] + events;
    SessionFollowsFrames(c, s, k, all);
    var a := NoteFrame(c, k, SessionAccount(s, k), all[0]);
    assert all[1..] == events;
    Unowned(c, k, a, events);
  }

  lemma {:induction false} Unowned(c: Codec, k: nat, a: Account, events: seq<Event>)
    requires !a.owned && SessionClosed(k) !in events
    ensures FollowFrames(c, k, a, events) == a
    decreases |events|
  {
    if events != [] {
      assert events[0] in events;
      Unowned(c, k, a, events[1..]);
    }
  }
}
