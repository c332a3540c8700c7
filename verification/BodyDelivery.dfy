/** Streamed request bodies do not interfere: over every run the reader of a body gets
    the chunks of its own request, in order, and nothing else. */
module BodyDelivery {
  import opened Wire
  import opened Demux
  import opened Delivery

  /** The account of body `k`, opened for `id`, after one effect. */
  function NoteBody(id: Id, k: nat, a: Account, effect: Effect): Account {
    match effect
    case Append(i, data) => if i == id && a.owned && a.open then a.(bytes := a.bytes + data) else a
    case EndBody(i, end) => if i == id && a.owned then a.(end := end, owned := false) else a
    case Dispatch(i, _, streaming) => if i == id && streaming then a.(owned := false) else a
    case CloseBodyReader(j) => if j == k then a.(open := false) else a
    case _ => a
  }

  function FollowBody(id: Id, k: nat, a: Account, effects: seq<Effect>): Account
    decreases |effects|
  {
    if effects == [] then a else FollowBody(id, k, NoteBody(id, k, a, effects[0]), effects[1..])
  }

  function BodyAccount(s: State, id: Id, k: nat): Account
    requires k < |s.bodies|
  {
    Account(s.bodies[k].Fed(), s.bodies[k].end, id in s.active && s.active[id] == k, s.bodies[k].readerOpen)
  }

  /** No other id writes to this body. */
  ghost predicate OnlyFor(s: State, id: Id, k: nat) {
    forall i | i in s.active && s.active[i] == k :: i == id
  }

  lemma OnlyForStays(s: State, id: Id, k: nat, effect: Effect)
    requires Inv(s) && k < |s.bodies| && OnlyFor(s, id, k)
    ensures k < |Apply(s, effect).bodies| && OnlyFor(Apply(s, effect), id, k)
  {
  }

  lemma BodyEffect(s: State, id: Id, k: nat, effect: Effect)
    requires Inv(s) && k < |s.bodies| && OnlyFor(s, id, k) && k < |Apply(s, effect).bodies|
    ensures BodyAccount(Apply(s, effect), id, k) == NoteBody(id, k, BodyAccount(s, id, k), effect)
  {
    match effect {
      case Append(_, data) => WriteExtends(s.bodies[k], data);
      case ReadBody(_, n) => ReadConserves(s.bodies[k], n);
      case _ =>
    }
  }

  /** What was written to a body, how it ended and whether its id is still registered
      is told by the effects alone. */
  lemma {:induction false} BodyFollowsEffects(c: Codec, s: State, id: Id, k: nat, events: seq<Event>)
    requires Inv(s) && k < |s.bodies| && OnlyFor(s, id, k)
    ensures k < |Run(c, s, events).bodies|
    ensures BodyAccount(Run(c, s, events), id, k) ==
            FollowBody(id, k, BodyAccount(s, id, k), Effects(c, s, events))
    decreases |events|
  {
    if events != [] {
      var effect := EffectOf(c, s, events[0]);
      StepKeepsInv(c, s, events[0]);
      OnlyForStays(s, id, k, effect);
      BodyEffect(s, id, k, effect);
      BodyFollowsEffects(c, Step(c, s, events[0]), id, k, events[1..]);
      assert Effects(c, s, events)[1..] == Effects(c, Step(c, s, events[0]), events[1..]);
    }
  }

  // ----- Other requests do not matter -----

  predicate IsAbout(id: Id, k: nat, effect: Effect) {
    match effect
    case Append(i, _) => i == id
    case EndBody(i, _) => i == id
    case Dispatch(i, _, streaming) => i == id && streaming
    case CloseBodyReader(j) => j == k
    case _ => false
  }

  function About(id: Id, k: nat, effects: seq<Effect>): seq<Effect> {
    if effects == [] then []
    else (if IsAbout(id, k, effects[0]) then [effects[0]] else []) + About(id, k, effects[1..])
  }

  /** Chunks, ends and cancels of other ids, yamux frames, sessions and reads leave no
      trace in the account of a body: removing them all changes nothing. */
  lemma {:induction false} OthersDoNotMatter(id: Id, k: nat, a: Account, effects: seq<Effect>)
    ensures FollowBody(id, k, a, effects) == FollowBody(id, k, a, About(id, k, effects))
    decreases |effects|
  {
    if effects != [] {
      OthersDoNotMatter(id, k, NoteBody(id, k, a, effects[0]), effects[1..]);
      if IsAbout(id, k, effects[0]) {
        assert About(id, k, effects)[1..] == About(id, k, effects[1..]);
      } else {
        assert About(id, k, effects) == About(id, k, effects[1..]);
      }
    }
  }

  // ----- The bytes of a streamed body -----

  /** The chunks of one request, in order. */
  function Payloads(id: Id, effects: seq<Effect>): Bytes {
    if effects == [] then []
    else (if effects[0].Append? && effects[0].id == id then effects[0].data else []) + Payloads(id, effects[1..])
  }

  /** Only chunks: no end, no second streaming request of that id, and the reader
      stays. */
  predicate OnlyChunks(id: Id, k: nat, effects: seq<Effect>) {
    forall e | e in effects :: IsAbout(id, k, e) ==> e.Append?
  }

  lemma {:induction false} ChunksInOrder(id: Id, k: nat, a: Account, effects: seq<Effect>, rest: seq<Effect>)
    requires a.owned && a.open && OnlyChunks(id, k, effects)
    ensures FollowBody(id, k, a, effects + rest) ==
            FollowBody(id, k, a.(bytes := a.bytes + Payloads(id, effects)), rest)
    decreases |effects|
  {
    if effects == [] {
      assert effects + rest == rest && a.bytes + Payloads(id, effects) == a.bytes;
    } else {
      var e := effects[0];
      assert e in effects;
      var b, own := NoteBody(id, k, a, e), if e.Append? && e.id == id then e.data else [];
      ChunksInOrder(id, k, b, effects[1..], rest);
      assert (effects + rest)[0] == e && (effects + rest)[1..] == effects[1..] + rest;
      assert b == a.(bytes := a.bytes + own);
      Assoc(a.bytes, own, Payloads(id, effects[1..]));
    }
  }

  /** A body that has ended, or whose id was given to a newer one, never changes. */
  lemma {:induction false} Settled(id: Id, k: nat, a: Account, effects: seq<Effect>)
    requires !a.owned
    ensures FollowBody(id, k, a, effects).(open := a.open) == a
    decreases |effects|
  {
    if effects != [] {
      Settled(id, k, NoteBody(id, k, a, effects[0]), effects[1..]);
    }
  }

  lemma EndedBody(id: Id, k: nat, before: seq<Effect>, end: End, after: seq<Effect>)
    requires OnlyChunks(id, k, before)
    ensures FollowBody(id, k, FRESH, before + ([EndBody(id, end)] + after)).(open := true) ==
            Account(Payloads(id, before), end, false, true)
  {
    var rest := [EndBody(id, end)] + after;
    var a := FRESH.(bytes := [] + Payloads(id, before));
    ChunksInOrder(id, k, FRESH, before, rest);
    assert rest[1..] == after;
    Settled(id, k, NoteBody(id, k, a, rest[0]), after);
  }

  /** A second streaming request of the same id takes the id over: the first reader keeps
      the chunks it had and never learns of an end. */
  lemma ReusedIdAbandons(id: Id, k: nat, before: seq<Effect>, body: Bytes, after: seq<Effect>)
    requires OnlyChunks(id, k, before)
    ensures FollowBody(id, k, FRESH, before + ([Dispatch(id, body, true)] + after)).(open := true) ==
            Account(Payloads(id, before), Flowing, false, true)
  {
    var rest := [Dispatch(id, body, true)] + after;
    var a := FRESH.(bytes := [] + Payloads(id, before));
    ChunksInOrder(id, k, FRESH, before, rest);
    assert rest[1..] == after;
    Settled(id, k, NoteBody(id, k, a, rest[0]), after);
  }

  /** From the moment the request is dispatched, in whatever state that happens: what
      was read together with what is still to be read is the account of its effects. */
  lemma BodyIsItsChunks(c: Codec, s: State, id: Id, body: Bytes, k: nat, start: State, events: seq<Event>)
    requires Inv(s) && k == |s.bodies| && start == Apply(s, Dispatch(id, body, true))
    ensures Inv(start) && k < |start.bodies| && k < |Run(c, start, events).bodies|
    ensures BodyAccount(Run(c, start, events), id, k) == FollowBody(id, k, FRESH, Effects(c, start, events))
    ensures Reads(c, start, BodyPort(k), events) + Run(c, start, events).bodies[k].pending ==
            FollowBody(id, k, FRESH, Effects(c, start, events)).bytes
  {
    ApplyKeepsInv(s, Dispatch(id, body, true));
    assert BodyAccount(start, id, k) == FRESH;
    BodyFollowsEffects(c, start, id, k, events);
    ReadsAreGot(c, start, BodyPort(k), events);
    assert [] + Reads(c, start, BodyPort(k), events) == Reads(c, start, BodyPort(k), events);
  }

  /** A body that got chunks and then its end or its cancellation: the reader gets
      exactly the chunks, then that end, and the id is free again, for any
      interleaving before and after. */
  lemma StreamedBody(c: Codec, s: State, id: Id, body: Bytes, k: nat, start: State, events: seq<Event>,
                     before: seq<Effect>, end: End, after: seq<Effect>)
    requires Inv(s) && k == |s.bodies| && start == Apply(s, Dispatch(id, body, true)) && Inv(start)
    requires Effects(c, start, events) == before + ([EndBody(id, end)] + after) && OnlyChunks(id, k, before)
    ensures k < |start.bodies| && k < |Run(c, start, events).bodies|
    ensures Reads(c, start, BodyPort(k), events) + Run(c, start, events).bodies[k].pending == Payloads(id, before)
    ensures Run(c, start, events).bodies[k].end == end
    ensures id in Run(c, start, events).active ==> Run(c, start, events).active[id] != k
  {
    BodyIsItsChunks(c, s, id, body, k, start, events);
    EndedBody(id, k, before, end, after);
  }

  // ----- While yamux owns the binary frames -----

  /** What an event does to the bodies, told from the event alone. */
  function TextEffect(c: Codec, e: Event): Effect {
    match e
    case Received(Text(data), starts) =>
      (match c.parse(data)
       case Some(m) => MessageEffect(c, true, m, starts)
       case None => Nothing)
    case BodyReaderClosed(k) => CloseBodyReader(k)
    case _ => Nothing
  }

  function TextEffects(c: Codec, events: seq<Event>): seq<Effect> {
    if events == [] then [] else [TextEffect(c, events[0])] + TextEffects(c, events[1..])
  }

  /** With a session installed and never stopped, bodies are a function of the text
      frames alone; the binary frames may hold anything. */
  lemma {:induction false} BodiesComeFromText(c: Codec, s: State, id: Id, k: nat, a: Account, events: seq<Event>)
    requires Inv(s) && s.session.Some? && StopYamux !in events
    ensures FollowBody(id, k, a, Effects(c, s, events)) == FollowBody(id, k, a, TextEffects(c, events))
    decreases |events|
  {
    if events != [] {
      var e := events[0];
      var effect := EffectOf(c, s, e);
      assert e in events;
      StepKeepsInv(c, s, e);
      TextNote(c, s, id, k, a, e);
      SessionStays(s, effect);
      BodiesComeFromText(c, Step(c, s, e), id, k, NoteBody(id, k, a, effect), events[1..]);
      assert Effects(c, s, events)[1..] == Effects(c, Step(c, s, e), events[1..]);
      assert TextEffects(c, events)[1..] == TextEffects(c, events[1..]);
    }
  }

  lemma TextNote(c: Codec, s: State, id: Id, k: nat, a: Account, e: Event)
    requires Inv(s) && s.session.Some?
    ensures NoteBody(id, k, a, EffectOf(c, s, e)) == NoteBody(id, k, a, TextEffect(c, e))
  {
  }

  lemma SessionStays(s: State, effect: Effect)
    requires Inv(s) && s.session.Some? && !effect.Uninstall?
    ensures Apply(s, effect).session.Some?
  {
  }

  // ----- In terms of the messages received -----

  /** The message a frame carries: a binary frame carries one only while yamux does
      not own the binary frames. */
  function Carried(c: Codec, s: State, e: Event): Option<Message> {
    if e.Received? && (e.frame.Text? || s.session.None?) then c.parse(e.frame.data) else None
  }

  /** The decoded payload of a chunk sent for an id; a chunk without a text or with a
      bad one has none. */
  function ChunkOf(c: Codec, id: Id, m: Option<Message>): Bytes {
    match m
    case Some(BodyChunk(i, Some(text), _)) => if i == id && c.unb64(text).Some? then c.unb64(text).value else []
    case Some(BodyChunk(i, None, Some(text))) => if i == id && c.unb64(text).Some? then c.unb64(text).value else []
    case _ => []
  }

  /** All chunks sent for an id, in order, whatever becomes of them. */
  function SentChunks(c: Codec, id: Id, s: State, events: seq<Event>): Bytes
    requires Inv(s)
    decreases |events|
  {
    if events == [] then []
    else
      StepKeepsInv(c, s, events[0]);
      ChunkOf(c, id, Carried(c, s, events[0])) + SentChunks(c, id, Step(c, s, events[0]), events[1..])
  }

  /** Those that arrive while another request waits for its body frame. */
  function StolenChunks(c: Codec, id: Id, s: State, events: seq<Event>): Bytes
    requires Inv(s)
    decreases |events|
  {
    if events == [] then []
    else
      StepKeepsInv(c, s, events[0]);
      (if s.awaiting.Some? then ChunkOf(c, id, Carried(c, s, events[0])) else [])
      + StolenChunks(c, id, Step(c, s, events[0]), events[1..])
  }

  predicate Disturbs(id: Id, m: Option<Message>) {
    match m
    case Some(StreamEnd(i)) => i == id
    case Some(Cancel(i)) => i == id
    case Some(ProxyRequest(i, _, _, streaming)) => i == id && streaming
    case _ => false
  }

  /** Nobody sends an end, a cancel or a second streaming request for the body, and
      its reader stays. */
  ghost predicate Undisturbed(c: Codec, id: Id, k: nat, s: State, events: seq<Event>)
    requires Inv(s)
    decreases |events|
  {
    events == [] ||
    (StepKeepsInv(c, s, events[0]);
     && events[0] != BodyReaderClosed(k) && !Disturbs(id, Carried(c, s, events[0]))
     && Undisturbed(c, id, k, Step(c, s, events[0]), events[1..]))
  }

  /** No body frame is awaited that would open a second body for this id. */
  predicate NotReopening(s: State, id: Id) {
    s.awaiting.Some? && s.awaiting.value.id == id ==> !s.awaiting.value.streaming
  }

  lemma ChunkEffect(c: Codec, s: State, id: Id, k: nat, e: Event, effect: Effect)
    requires Inv(s) && id != [] && NotReopening(s, id) && effect == EffectOf(c, s, e)
    requires e != BodyReaderClosed(k) && !Disturbs(id, Carried(c, s, e))
    ensures IsAbout(id, k, effect) ==> effect.Append?
    ensures (if effect.Append? && effect.id == id then effect.data else []) ==
            if s.awaiting.Some? then [] else ChunkOf(c, id, Carried(c, s, e))
    ensures NotReopening(Apply(s, effect), id)
  {
  }

  /** What is handled and what is stolen make up what is sent: so everything sent is
      handled, in order, exactly when nothing is stolen. */
  lemma {:induction false} HandledOrStolen(c: Codec, s: State, id: Id, k: nat, events: seq<Event>)
    requires Inv(s) && id != [] && NotReopening(s, id) && Undisturbed(c, id, k, s, events)
    ensures OnlyChunks(id, k, Effects(c, s, events)) && NotReopening(Run(c, s, events), id)
    ensures |Payloads(id, Effects(c, s, events))| + |StolenChunks(c, id, s, events)| == |SentChunks(c, id, s, events)|
    ensures Payloads(id, Effects(c, s, events)) == SentChunks(c, id, s, events) <==>
            StolenChunks(c, id, s, events) == []
    decreases |events|
  {
    if events != [] {
      var e, effect := events[0], EffectOf(c, s, events[0]);
      StepKeepsInv(c, s, e);
      ChunkEffect(c, s, id, k, e, effect);
      HandledOrStolen(c, Step(c, s, e), id, k, events[1..]);
      assert Effects(c, s, events) == [effect] + Effects(c, Step(c, s, e), events[1..]);
    }
  }

  lemma {:induction false} RunAppend(c: Codec, s: State, a: seq<Event>, b: seq<Event>, mid: State)
    requires Inv(s) && mid == Run(c, s, a)
    ensures Run(c, s, a + b) == Run(c, mid, b)
    decreases |a|
  {
    if a == [] {
      assert a + b == b;
    } else {
      StepKeepsInv(c, s, a[0]);
      RunAppend(c, Step(c, s, a[0]), a[1..], b, mid);
      assert (a + b)[0] == a[0] && (a + b)[1..] == a[1..] + b;
    }
  }

  lemma EffectsCons(c: Codec, s: State, e: Event, rest: seq<Event>, next: State)
    requires Inv(s) && next == Step(c, s, e)
    ensures Inv(next) && Effects(c, s, [e] + rest) == [EffectOf(c, s, e)] + Effects(c, next, rest)
  {
    StepKeepsInv(c, s, e);
    assert ([e] + rest)[1..] == rest;
  }

  lemma {:induction false} EffectsAppend(c: Codec, s: State, a: seq<Event>, b: seq<Event>, mid: State)
    requires Inv(s) && mid == Run(c, s, a)
    ensures Effects(c, s, a + b) == Effects(c, s, a) + Effects(c, mid, b)
    decreases |a|
  {
    if a == [] {
      assert a + b == b;
    } else {
      var e, rest, next := a[0], a[1..], Step(c, s, a[0]);
      EffectsCons(c, s, e, rest + b, next);
      EffectsCons(c, s, e, rest, next);
      assert a == [e] + rest;
      assert [e] + (rest + b) == a + b by {
        Assoc([e], rest, b);
      }
      EffectsAppend(c, next, rest, b, mid);
      Assoc([EffectOf(c, s, e)], Effects(c, next, rest), Effects(c, mid, b));
    }
  }

  /** The exact condition, in every state and with or without yamux, for a body not yet
      ended: what the reader got and still gets is all of its request's chunks, in
      order, if and only if none of their bytes came while a body frame was awaited. */
  lemma ChunksSoFar(c: Codec, s: State, id: Id, body: Bytes, k: nat, start: State, events: seq<Event>, t: State)
    requires Inv(s) && k == |s.bodies| && start == Apply(s, Dispatch(id, body, true)) && Inv(start)
    requires id != [] && Undisturbed(c, id, k, start, events) && t == Run(c, start, events)
    ensures k < |start.bodies| && k < |t.bodies|
    ensures Reads(c, start, BodyPort(k), events) + t.bodies[k].pending == SentChunks(c, id, start, events) <==>
            StolenChunks(c, id, start, events) == []
    ensures t.bodies[k].end == Flowing && id in t.active && t.active[id] == k && OnlyFor(t, id, k)
    ensures t.bodies[k].readerOpen
    ensures t.bodies[k].pending == [] ==> forall n :: t.bodies[k].Read(n) == ReadResult([], Wait)
    ensures NotReopening(t, id) && OnlyChunks(id, k, Effects(c, start, events))
  {
    var effects := Effects(c, start, events);
    HandledOrStolen(c, start, id, k, events);
    BodyIsItsChunks(c, s, id, body, k, start, events);
    ChunksInOrder(id, k, FRESH, effects, []);
    assert effects + [] == effects && [] + Payloads(id, effects) == Payloads(id, effects);
    ActiveOnlyHere(t, id, k);
  }

  lemma ActiveOnlyHere(s: State, id: Id, k: nat)
    requires Inv(s) && id in s.active && s.active[id] == k
    ensures OnlyFor(s, id, k)
  {
  }

  function EndTold(id: Id, m: Option<Message>): End {
    if m == Some(StreamEnd(id)) then AtEof else if m == Some(Cancel(id)) then Cancelled else Flowing
  }

  /** The same up to the message `last` that ends the body, for any events `after` it.
      The end arrives, and the id is freed, if and only if no body frame is awaited
      just then; if it arrives, the reader has or still gets exactly the chunks of its
      request if and only if none was stolen; if not, the body goes on as if nothing
      had been sent. */
  lemma ChunksUpToTheEnd(c: Codec, s: State, id: Id, body: Bytes, k: nat, start: State,
                         before: seq<Event>, mid: State, last: Event, after: seq<Event>, events: seq<Event>)
    requires Inv(s) && k == |s.bodies| && start == Apply(s, Dispatch(id, body, true)) && Inv(start)
    requires id != [] && Undisturbed(c, id, k, start, before) && mid == Run(c, start, before)
    requires EndTold(id, Carried(c, mid, last)) != Flowing && events == before + ([last] + after)
    ensures k < |start.bodies| && k < |mid.bodies| && k < |Step(c, mid, last).bodies|
    ensures k < |Run(c, start, events).bodies|
    ensures Step(c, mid, last).bodies[k].end == EndTold(id, Carried(c, mid, last)) <==> mid.awaiting.None?
    ensures mid.awaiting.Some? ==> BodyAccount(Step(c, mid, last), id, k) == BodyAccount(mid, id, k)
    ensures mid.awaiting.None? ==>
              && Run(c, start, events).bodies[k].end == EndTold(id, Carried(c, mid, last))
              && (id in Run(c, start, events).active ==> Run(c, start, events).active[id] != k)
    ensures mid.awaiting.None? ==>
              ((Reads(c, start, BodyPort(k), events) + Run(c, start, events).bodies[k].pending
                == SentChunks(c, id, start, before)) <==> StolenChunks(c, id, start, before) == [])
    ensures (mid.awaiting.None? && Run(c, start, events).bodies[k].readerOpen
             && Run(c, start, events).bodies[k].pending == []) ==>
              forall n :: Run(c, start, events).bodies[k].Read(n) ==
                ReadResult([], if Carried(c, mid, last) == Some(StreamEnd(id)) then Eof else WriterError)
  {
    ChunksSoFar(c, s, id, body, k, start, before, mid);
    LastMessage(c, mid, id, k, last);
    BodyIsItsChunks(c, s, id, body, k, start, events);
    if mid.awaiting.None? {
      HandledOrStolen(c, start, id, k, before);
      EffectsUpTo(c, start, id, before, mid, last, after, events);
      StreamedBody(c, s, id, body, k, start, events, Effects(c, start, before), EndTold(id, Carried(c, mid, last)),
                   Effects(c, Step(c, mid, last), after));
    }
  }

  /** The step that ends the body, or does not. */
  lemma LastMessage(c: Codec, mid: State, id: Id, k: nat, last: Event)
    requires Inv(mid) && id != [] && NotReopening(mid, id) && EndTold(id, Carried(c, mid, last)) != Flowing
    requires k < |mid.bodies| && OnlyFor(mid, id, k) && id in mid.active && mid.active[id] == k
    requires mid.bodies[k].end == Flowing
    ensures Inv(Step(c, mid, last)) && k < |Step(c, mid, last).bodies|
    ensures Step(c, mid, last).bodies[k].end == EndTold(id, Carried(c, mid, last)) <==> mid.awaiting.None?
    ensures mid.awaiting.Some? ==> BodyAccount(Step(c, mid, last), id, k) == BodyAccount(mid, id, k)
  {
    var effect := EffectOf(c, mid, last);
    StepKeepsInv(c, mid, last);
    LastEffect(c, mid, id, k, last, effect, EndTold(id, Carried(c, mid, last)));
    OnlyForStays(mid, id, k, effect);
    BodyEffect(mid, id, k, effect);
  }

  lemma EffectsUpTo(c: Codec, start: State, id: Id, before: seq<Event>, mid: State, last: Event, after: seq<Event>,
                    events: seq<Event>)
    requires Inv(start) && id != [] && mid == Run(c, start, before) && events == before + ([last] + after)
    requires EndTold(id, Carried(c, mid, last)) != Flowing && NotReopening(mid, id) && mid.awaiting.None?
    ensures Inv(Step(c, mid, last))
    ensures Effects(c, start, events) ==
            Effects(c, start, before)
            + ([EndBody(id, EndTold(id, Carried(c, mid, last)))] + Effects(c, Step(c, mid, last), after))
  {
    StepKeepsInv(c, mid, last);
    LastEffect(c, mid, id, 0, last, EffectOf(c, mid, last), EndTold(id, Carried(c, mid, last)));
    EffectsAppend(c, start, before, [last] + after, mid);
    assert ([last] + after)[1..] == after;
  }

  lemma LastEffect(c: Codec, s: State, id: Id, k: nat, last: Event, effect: Effect, end: End)
    requires Inv(s) && id != [] && NotReopening(s, id) && effect == EffectOf(c, s, last)
    requires end == EndTold(id, Carried(c, s, last)) && end != Flowing
    ensures s.awaiting.None? ==> effect == EndBody(id, end)
    ensures s.awaiting.Some? ==> !IsAbout(id, k, effect)
  {
  }

  /** The condition can fail: without yamux, announcing a binary body for one request
      makes the reader consume the next frame, be it the chunk of another request. */
  lemma AnnouncementSteals(c: Codec, s: State, id: Id, body: Bytes, k: nat, start: State, announcement: Bytes,
                           chunk: Bytes, other: Id, text: string, events: seq<Event>)
    requires Inv(s) && k == |s.bodies| && start == Apply(s, Dispatch(id, body, true)) && Inv(start)
    requires s.session.None? && id != [] && other != []
    requires c.parse(announcement) == Some(ProxyRequest(other, true, NextFrame, false))
    requires c.parse(chunk) == Some(BodyChunk(id, Some(text), None))
    requires c.unb64(text).Some? && c.unb64(text).value != []
    requires events == [Received(Text(announcement), true), Received(Text(chunk), true)]
    ensures Undisturbed(c, id, k, start, events)
    ensures SentChunks(c, id, start, events) == StolenChunks(c, id, start, events) == c.unb64(text).value
    ensures k < |start.bodies| && k < |Run(c, start, events).bodies|
    ensures Reads(c, start, BodyPort(k), events) + Run(c, start, events).bodies[k].pending == []
  {
    var waiting := start.(awaiting := Some(Announced(other, false)));
    assert Step(c, start, events[0]) == waiting;
    StepKeepsInv(c, start, events[0]);
    var rest := events[1..];
    assert rest == [Received(Text(chunk), true)] && rest[1..] == [];
    assert Step(c, waiting, rest[0]) == start;
    assert Inv(waiting) && events[1..] == rest;
    var bytes := ChunkOf(c, id, Carried(c, waiting, rest[0]));
    assert bytes == c.unb64(text).value;
    assert SentChunks(c, id, waiting, rest) == bytes + [] == bytes;
    assert StolenChunks(c, id, waiting, rest) == bytes + [] == bytes;
    assert SentChunks(c, id, start, events) == [] + SentChunks(c, id, waiting, rest) == bytes;
    assert StolenChunks(c, id, start, events) == [] + StolenChunks(c, id, waiting, rest) == bytes;
    HandledOrStolen(c, start, id, k, events);
    BodyIsItsChunks(c, s, id, body, k, start, events);
    ChunksInOrder(id, k, FRESH, Effects(c, start, events), []);
    assert Effects(c, start, events) + [] == Effects(c, start, events);
  }

  /** Beside yamux nothing is ever stolen, so there every body gets all its chunks. */
  lemma {:induction false} NothingStolenBesideYamux(c: Codec, s: State, id: Id, events: seq<Event>)
    requires Inv(s) && s.session.Some? && StopYamux !in events
    ensures StolenChunks(c, id, s, events) == [] && Run(c, s, events).awaiting.None?
    decreases |events|
  {
    if events != [] {
      assert events[0] in events;
      StepKeepsInv(c, s, events[0]);
      SessionStays(s, EffectOf(c, s, events[0]));
      NothingStolenBesideYamux(c, Step(c, s, events[0]), id, events[1..]);
    }
  }
}
