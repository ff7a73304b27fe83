/**
 Chat events: the emitter numbers them and lets at most one terminal event through, the receiver checks
 the numbering, and a provider's stream is forwarded under the same rules.
 */
module Events {
  import opened Wrappers

  datatype Payload = Delta(text: string) | Notice(code: string) | Completed | Cancelled | Failed

  predicate IsTerminal(p: Payload)
    ensures IsTerminal(p) <==> !p.Delta? && !p.Notice?
  {
    p.Completed? || p.Cancelled? || p.Failed?
  }

  /** `identityOk` stands for the schema version and protocol name every event repeats. */
  datatype Event = Event(identityOk: bool, sequence: nat, payload: Payload)

  datatype SendError = OutOfBounds | AfterTerminal | SecondTerminal | NotDelivered

  // ---- The receiver ----

  /** The receiver accepts these events, coming with this number expected and this many terminals seen. */
  predicate AcceptsFrom(events: seq<Event>, next: nat, terminals: nat)
    decreases |events|
  {
    if events == [] then true
    else
      var e := events[0];
      && e.identityOk && e.sequence == next && terminals == 0
      && AcceptsFrom(events[1..], next + 1, if IsTerminal(e.payload) then terminals + 1 else terminals)
  }

  /** Numbered from `first` without gap, of the right protocol, and nothing after a terminal event. */
  ghost predicate WellNumbered(events: seq<Event>, first: nat) {
    forall i :: 0 <= i < |events| ==>
      && events[i].identityOk && events[i].sequence == first + i
      && (IsTerminal(events[i].payload) ==> i == |events| - 1)
  }

  /** The receiver's check, event by event, accepts exactly the well-numbered runs. */
  lemma {:induction false} AcceptsIffWellNumbered(events: seq<Event>, first: nat)
    ensures AcceptsFrom(events, first, 0) <==> WellNumbered(events, first)
    decreases |events|
  {
    if events != [] {
      var rest := events[1..];
      if IsTerminal(events[0].payload) {
        assert WellNumbered(events, first) ==> |events| == 1;
      } else {
        AcceptsIffWellNumbered(rest, first + 1);
        assert WellNumbered(events, first) ==> WellNumbered(rest, first + 1) by {
          assert forall i :: 0 <= i < |rest| ==> rest[i] == events[i + 1];
        }
        assert events[0].identityOk && events[0].sequence == first && WellNumbered(rest, first + 1)
          ==> WellNumbered(events, first) by {
          assert forall i :: 0 < i < |events| ==> events[i] == rest[i - 1];
        }
      }
    }
  }

  lemma {:induction false} AcceptsSnoc(events: seq<Event>, e: Event, next: nat, terminals: nat)
    ensures AcceptsFrom(events + [e], next, terminals) <==>
      && AcceptsFrom(events, next, terminals)
      && AcceptsFrom([e], next + |events|, terminals + Terminals(events))
    decreases |events|
  {
    if events == [] {
      assert events + [e] == [e];
    } else {
      assert (events + [e])[1..] == events[1..] + [e];
      AcceptsSnoc(events[1..], e, next + 1, if IsTerminal(events[0].payload) then terminals + 1 else terminals);
    }
  }

  function Terminals(events: seq<Event>): nat {
    if events == [] then 0 else (if IsTerminal(events[0].payload) then 1 else 0) + Terminals(events[1..])
  }

  lemma {:induction false} TerminalsSnoc(events: seq<Event>, e: Event)
    ensures Terminals(events + [e]) == Terminals(events) + if IsTerminal(e.payload) then 1 else 0
  {
    if events == [] {
      assert events + [e] == [e];
    } else {
      assert (events + [e])[1..] == events[1..] + [e];
      TerminalsSnoc(events[1..], e);
    }
  }

  class Receiver {
    var nextSequence: nat
    var terminalCount: nat
    var rendered: seq<Event>

    constructor ()
      ensures Valid() && rendered == []
    {
      nextSequence, terminalCount, rendered := 0, 0, [];
    }

    ghost predicate Valid()
      reads this
    {
      nextSequence == |rendered| && terminalCount == Terminals(rendered) && AcceptsFrom(rendered, 0, 0)
    }

    /** `validate_and_render_event`. */
    method ValidateAndRender(e: Event) returns (ok: bool)
      requires Valid()
      modifies this
      ensures Valid()
      ensures ok <==> AcceptsFrom(old(rendered) + [e], 0, 0)
      ensures rendered == if ok then old(rendered) + [e] else old(rendered)
    {
      AcceptsSnoc(rendered, e, 0, 0);
      TerminalsSnoc(rendered, e);
      if !e.identityOk {
        return false;
      }
      if e.sequence != nextSequence {
        return false;
      }
      if terminalCount > 0 {
        return false;
      }
      rendered := rendered + [e];
      nextSequence := nextSequence + 1;
      if IsTerminal(e.payload) {
        terminalCount := terminalCount + 1;
      }
      return true;
    }
  }

  // ---- One emitter, one send at a time ----

  class ChatEventEmitter {
    var sequence: nat
    var terminal: bool

    constructor ()
      ensures sequence == 0 && !terminal
    {
      sequence, terminal := 0, false;
    }

    /** The event, if one was made; whether it also arrived is up to the channel. */
    method Send(payload: Payload, inBounds: bool) returns (r: Result<Event, SendError>)
      modifies this
      ensures r.Ok? <==> inBounds && !old(terminal)
      ensures r.Ok? ==>
        && r.value == Event(true, old(sequence), payload)
        && sequence == old(sequence) + 1 && terminal == IsTerminal(payload)
      ensures r.Err? ==> sequence == old(sequence) && terminal == old(terminal)
    {
      if !inBounds {
        return Err(OutOfBounds);
      }
      if terminal {
        return Err(AfterTerminal);
      }
      if IsTerminal(payload) {
        if terminal {
          return Err(SecondTerminal);
        }
        terminal := true;
      }
      var number := sequence;
      sequence := sequence + 1;
      return Ok(Event(true, number, payload));
    }
  }

  /** The payloads that become events: within bounds, up to the first terminal one. */
  function Emitted(payloads: seq<Payload>, inBounds: Payload -> bool): seq<Payload> {
    if payloads == [] then []
    else if !inBounds(payloads[0]) then Emitted(payloads[1..], inBounds)
    else if IsTerminal(payloads[0]) then [payloads[0]]
    else [payloads[0]] + Emitted(payloads[1..], inBounds)
  }

  function Numbered(payloads: seq<Payload>, first: nat): (events: seq<Event>)
    ensures |events| == |payloads|
  {
    seq(|payloads|, i requires 0 <= i < |payloads| => Event(true, first + i, payloads[i]))
  }

  /** What emitters make of the rest of the payloads once a terminal event went out: nothing. */
  function Rest(payloads: seq<Payload>, inBounds: Payload -> bool, terminal: bool): seq<Payload> {
    if terminal then [] else Emitted(payloads, inBounds)
  }

  /** How far a run has come: what is rendered, and what the payloads to come will add. */
  ghost predicate Sending(all: seq<Payload>, rendered: seq<Event>, terminal: bool, rest: seq<Payload>,
                          inBounds: Payload -> bool) {
    && |rendered| <= |all| && rendered == Numbered(all[..|rendered|], 0)
    && all[|rendered|..] == Rest(rest, inBounds, terminal)
    && terminal == (Terminals(rendered) > 0) && AcceptsFrom(rendered, 0, 0)
  }

  lemma SkipSend(all: seq<Payload>, rendered: seq<Event>, terminal: bool, rest: seq<Payload>, inBounds: Payload -> bool)
    requires rest != [] && Sending(all, rendered, terminal, rest, inBounds) && (terminal || !inBounds(rest[0]))
    ensures Sending(all, rendered, terminal, rest[1..], inBounds)
  {
    hide Numbered, AcceptsFrom;
  }

  lemma OneSend(all: seq<Payload>, rendered: seq<Event>, rest: seq<Payload>, inBounds: Payload -> bool)
    requires rest != [] && Sending(all, rendered, false, rest, inBounds) && inBounds(rest[0])
    ensures var e := Event(true, |rendered|, rest[0]);
      Sending(all, rendered + [e], IsTerminal(rest[0]), rest[1..], inBounds)
  {
    hide AcceptsFrom, IsTerminal;
    var n, e := |rendered|, Event(true, |rendered|, rest[0]);
    assert all[n..] != [] && all[n..][0] == rest[0];
    assert all[n + 1..] == all[n..][1..];
    assert all[..n + 1] == all[..n] + [rest[0]];
    assert Numbered(all[..n + 1], 0) == Numbered(all[..n], 0) + [e];
    AcceptsSnoc(rendered, e, 0, 0);
    TerminalsSnoc(rendered, e);
    AcceptsOne(e, n);
  }

  lemma AcceptsOne(e: Event, n: nat)
    requires e.identityOk && e.sequence == n
    ensures AcceptsFrom([e], n, 0)
  {
  }

  lemma SendingStarts(payloads: seq<Payload>, inBounds: Payload -> bool)
    ensures Sending(Emitted(payloads, inBounds), [], false, payloads, inBounds)
  {
  }

  lemma SendingEnds(all: seq<Payload>, rendered: seq<Event>, terminal: bool, inBounds: Payload -> bool)
    requires Sending(all, rendered, terminal, [], inBounds)
    ensures rendered == Numbered(all, 0) && WellNumbered(rendered, 0)
  {
    assert all[|rendered|..] == [];
    assert all[..|rendered|] == all;
    AcceptsIffWellNumbered(rendered, 0);
  }

  /**
   Sends that do not overlap and are all delivered: the receiver renders exactly the emitted payloads,
   numbered 0, 1, 2, …, a terminal one last, and refuses none.
   */
  method SequentialRun(emitter: ChatEventEmitter, receiver: Receiver, payloads: seq<Payload>, inBounds: Payload -> bool)
      returns (accepted: bool)
    requires emitter.sequence == 0 && !emitter.terminal && receiver.Valid() && receiver.rendered == []
    modifies emitter, receiver
    ensures accepted && receiver.Valid()
    ensures receiver.rendered == Numbered(Emitted(payloads, inBounds), 0)
    ensures WellNumbered(receiver.rendered, 0)
  {
    hide Emitted, Numbered, Sending, AcceptsFrom, WellNumbered, IsTerminal;
    accepted := true;
    ghost var all := Emitted(payloads, inBounds);
    SendingStarts(payloads, inBounds);
    assert payloads[0..] == payloads;
    for i := 0 to |payloads|
      invariant accepted && receiver.Valid() && emitter.sequence == |receiver.rendered|
      invariant Sending(all, receiver.rendered, emitter.terminal, payloads[i..], inBounds)
    {
      assert payloads[i..][0] == payloads[i] && payloads[i..][1..] == payloads[i + 1..];
      if emitter.terminal || !inBounds(payloads[i]) {
        SkipSend(all, receiver.rendered, emitter.terminal, payloads[i..], inBounds);
      } else {
        OneSend(all, receiver.rendered, payloads[i..], inBounds);
        SendingAccepts(all, receiver.rendered + [Event(true, |receiver.rendered|, payloads[i])],
                       IsTerminal(payloads[i]), payloads[i + 1..], inBounds);
      }
      var sent := emitter.Send(payloads[i], inBounds(payloads[i]));
      if sent.Ok? {
        accepted := receiver.ValidateAndRender(sent.value);
      }
    }
    assert payloads[|payloads|..] == [];
    SendingEnds(all, receiver.rendered, emitter.terminal, inBounds);
  }

  lemma SendingAccepts(all: seq<Payload>, rendered: seq<Event>, terminal: bool, rest: seq<Payload>,
                       inBounds: Payload -> bool)
    requires Sending(all, rendered, terminal, rest, inBounds)
    ensures AcceptsFrom(rendered, 0, 0)
  {
  }

  // ---- Cloned emitters, interleaved ----

  /** Where one clone's `send` stands: each constructor is behind one of its atomic operations. */
  datatype Sender =
    | Resting
    | Passed(payload: Payload)
    | Claimed(payload: Payload)
    | Holding(event: Event)

  /** The atomics the clones share, and the channel in the order of delivery. */
  datatype Shared = Shared(sequence: nat, terminal: bool, senders: map<nat, Sender>, channel: seq<Event>)

  datatype Act =
    | LoadTerminal(p: nat, payload: Payload)
    | SwapTerminal(p: nat)
    | FetchAdd(p: nat)
    | Deliver(p: nat)
    | Lose(p: nat)

  function SenderAt(w: Shared, p: nat): Sender {
    if p in w.senders then w.senders[p] else Resting
  }

  function To(w: Shared, p: nat, s: Sender): Shared {
    w.(senders := w.senders[p := s])
  }

  ghost predicate Acts(w: Shared, act: Act, w': Shared) {
    var s := SenderAt(w, act.p);
    match act
    case LoadTerminal(p, payload) =>
      s.Resting? && w' == (if w.terminal then w else To(w, p, Passed(payload)))
    case SwapTerminal(p) =>
      && s.Passed?
      && w' == if !IsTerminal(s.payload) then To(w, p, Claimed(s.payload))
               else if w.terminal then To(w, p, Resting)
               else To(w, p, Claimed(s.payload)).(terminal := true)
    case FetchAdd(p) =>
      s.Claimed? && w' == To(w, p, Holding(Event(true, w.sequence, s.payload))).(sequence := w.sequence + 1)
    case Deliver(p) => s.Holding? && w' == To(w, p, Resting).(channel := w.channel + [s.event])
    case Lose(p) => s.Holding? && w' == To(w, p, Resting)
  }

  predicate OnItsWay(s: Sender) {
    s.Claimed? || s.Holding?
  }

  function PayloadOf(s: Sender): Payload
    requires OnItsWay(s)
  {
    if s.Claimed? then s.payload else s.event.payload
  }

  /** Somebody is about to emit a terminal event. */
  predicate TerminalHeld(s: Sender) {
    OnItsWay(s) && IsTerminal(PayloadOf(s))
  }

  /** Numbers are below the counter, and no two events have the same. */
  ghost predicate NumbersOk(w: Shared) {
    && (forall i :: 0 <= i < |w.channel| ==> w.channel[i].sequence < w.sequence)
    && (forall p :: p in w.senders && w.senders[p].Holding? ==> w.senders[p].event.sequence < w.sequence)
    && (forall i, j :: 0 <= i < j < |w.channel| ==> w.channel[i].sequence != w.channel[j].sequence)
    && (forall i, p :: 0 <= i < |w.channel| && p in w.senders && w.senders[p].Holding? ==>
          w.channel[i].sequence != w.senders[p].event.sequence)
    && (forall p, q :: p in w.senders && q in w.senders && p != q && w.senders[p].Holding? && w.senders[q].Holding? ==>
          w.senders[p].event.sequence != w.senders[q].event.sequence)
  }

  /** The flag guards the one terminal event, be it held by one sender, in the channel, or lost. */
  ghost predicate TerminalsOk(w: Shared) {
    && (forall i :: 0 <= i < |w.channel| && IsTerminal(w.channel[i].payload) ==> w.terminal)
    && (forall p :: p in w.senders && TerminalHeld(w.senders[p]) ==> w.terminal)
    && (forall i, j ::
        0 <= i < j < |w.channel| ==> !(IsTerminal(w.channel[i].payload) && IsTerminal(w.channel[j].payload)))
    && (forall i, p ::
        0 <= i < |w.channel| && p in w.senders && IsTerminal(w.channel[i].payload) ==> !TerminalHeld(w.senders[p]))
    && (forall p, q ::
        p in w.senders && q in w.senders && p != q ==> !(TerminalHeld(w.senders[p]) && TerminalHeld(w.senders[q])))
  }

  ghost predicate SharedOk(w: Shared) {
    NumbersOk(w) && TerminalsOk(w)
  }

  /** A move of one sender that adds nothing to what is numbered, or adds the next number. */
  lemma NumbersKeep(w: Shared, act: Act, w': Shared)
    requires NumbersOk(w) && Acts(w, act, w') && !act.Deliver?
    ensures NumbersOk(w')
  {
    hide IsTerminal;
  }

  lemma DeliveryKeepsNumbers(w: Shared, act: Act, w': Shared)
    requires NumbersOk(w) && Acts(w, act, w') && act.Deliver?
    ensures NumbersOk(w')
  {
    hide IsTerminal;
    var s := SenderAt(w, act.p);
    assert w.senders[act.p] == s;
    forall i, j | 0 <= i < j < |w'.channel| ensures w'.channel[i].sequence != w'.channel[j].sequence {
      assert w'.channel[i] == w.channel[i];
    }
  }

  /** A sender moves on with the payload it has, or drops it. */
  lemma TerminalsMove(w: Shared, w': Shared, p: nat)
    requires TerminalsOk(w) && p in w'.senders && w'.senders == w.senders[p := w'.senders[p]]
    requires w'.channel == w.channel && w'.terminal == w.terminal
    requires TerminalHeld(w'.senders[p]) ==> p in w.senders && TerminalHeld(w.senders[p])
    ensures TerminalsOk(w')
  {
    hide TerminalHeld, IsTerminal;
  }

  lemma TerminalsClaim(w: Shared, w': Shared, p: nat)
    requires TerminalsOk(w) && p in w'.senders && w'.senders == w.senders[p := w'.senders[p]]
    requires w'.channel == w.channel && !w.terminal && w'.terminal
    ensures TerminalsOk(w')
  {
    hide TerminalHeld, IsTerminal;
  }

  lemma TerminalsDeliver(w: Shared, w': Shared, p: nat, e: Event)
    requires TerminalsOk(w) && p in w.senders && w'.senders == w.senders[p := Resting] && w.senders[p] == Holding(e)
    requires w'.channel == w.channel + [e] && w'.terminal == w.terminal
    ensures TerminalsOk(w')
  {
    assert IsTerminal(e.payload) == TerminalHeld(w.senders[p]) && !TerminalHeld(Resting);
    hide TerminalHeld, IsTerminal;
    forall i, q | 0 <= i < |w'.channel| && q in w'.senders && IsTerminal(w'.channel[i].payload)
      ensures !TerminalHeld(w'.senders[q])
    {
      if i < |w.channel| {
        assert w'.channel[i] == w.channel[i];
      }
    }
  }

  lemma ActsKeep(w: Shared, act: Act, w': Shared)
    requires SharedOk(w) && Acts(w, act, w')
    ensures SharedOk(w') && w.channel <= w'.channel
  {
    hide NumbersOk, TerminalsOk, IsTerminal;
    var s := SenderAt(w, act.p);
    if act.Deliver? {
      DeliveryKeepsNumbers(w, act, w');
      TerminalsDeliver(w, w', act.p, s.event);
    } else {
      NumbersKeep(w, act, w');
      if w'.terminal != w.terminal {
        TerminalsClaim(w, w', act.p);
      } else if w' != w {
        TerminalsMove(w, w', act.p);
      }
    }
  }

  ghost predicate Interleaving(worlds: seq<Shared>, acts: seq<Act>) {
    && |worlds| == |acts| + 1 && worlds[0] == Shared(0, false, map[], [])
    && forall i :: 0 <= i < |acts| ==> Acts(worlds[i], acts[i], worlds[i + 1])
  }

  /** However clones interleave, numbers stay distinct and there is at most one terminal event. */
  lemma {:induction false} ClonesStayDistinct(worlds: seq<Shared>, acts: seq<Act>, i: nat)
    requires Interleaving(worlds, acts) && i < |worlds|
    ensures SharedOk(worlds[i])
    ensures forall j, k :: 0 <= j < k < |worlds[i].channel| ==>
      && worlds[i].channel[j].sequence != worlds[i].channel[k].sequence
      && !(IsTerminal(worlds[i].channel[j].payload) && IsTerminal(worlds[i].channel[k].payload))
  {
    hide Acts, IsTerminal;
    if i > 0 {
      ClonesStayDistinct(worlds, acts, i - 1);
      assert Acts(worlds[i - 1], acts[i - 1], worlds[i]);
      ActsKeep(worlds[i - 1], acts[i - 1], worlds[i]);
    }
  }

  /** No two sends overlap. */
  ghost predicate OneAtATime(w: Shared) {
    forall p, q :: p in w.senders && q in w.senders && !w.senders[p].Resting? && !w.senders[q].Resting? ==> p == q
  }

  ghost predicate SomeHolding(w: Shared) {
    exists p :: p in w.senders && w.senders[p].Holding?
  }

  /** While sends do not overlap, the channel is numbered without gap and ends with the terminal event. */
  ghost predicate Orderly(w: Shared) {
    && OneAtATime(w) && WellNumbered(w.channel, 0)
    && w.sequence == |w.channel| + (if SomeHolding(w) then 1 else 0)
    && (forall p :: p in w.senders && w.senders[p].Holding? ==>
          w.senders[p].event.identityOk && w.senders[p].event.sequence == |w.channel|)
    && (forall p :: p in w.senders && !w.senders[p].Resting? ==>
          (forall i :: 0 <= i < |w.channel| ==> !IsTerminal(w.channel[i].payload))
          && (w.terminal <==> TerminalHeld(w.senders[p])))
    && ((exists i :: 0 <= i < |w.channel| && IsTerminal(w.channel[i].payload)) ==> w.terminal)
  }

  lemma OrderlyStep(w: Shared, act: Act, w': Shared)
    requires Orderly(w) && Acts(w, act, w') && OneAtATime(w') && !act.Lose?
    ensures Orderly(w')
  {
    hide IsTerminal;
    var s, s' := SenderAt(w, act.p), SenderAt(w', act.p);
    assert act.p in w.senders ==> w.senders[act.p] == s;
    if !s.Resting? {
      assert SomeHolding(w) <==> s.Holding?;
    }
    if !s'.Resting? {
      assert w'.senders[act.p] == s';
      assert SomeHolding(w') <==> s'.Holding?;
    }
    match act {
      case LoadTerminal(p, payload) =>
        assert w' != w ==> forall q :: q in w.senders ==> q == p || w'.senders[q] == w.senders[q];
        assert w' != w ==> forall q :: q in w.senders ==> w.senders[q].Resting?;
      case _ =>
    }
  }

  /** Without overlap and loss, the receiver accepts whatever clones deliver. */
  lemma {:induction false} ApartClonesAreAccepted(worlds: seq<Shared>, acts: seq<Act>, i: nat)
    requires Interleaving(worlds, acts) && i < |worlds|
    requires forall j :: 0 <= j < |worlds| ==> OneAtATime(worlds[j])
    requires forall j :: 0 <= j < |acts| ==> !acts[j].Lose?
    ensures Orderly(worlds[i]) && AcceptsFrom(worlds[i].channel, 0, 0)
  {
    hide Acts, OneAtATime;
    if i > 0 {
      ApartClonesAreAccepted(worlds, acts, i - 1);
      assert Acts(worlds[i - 1], acts[i - 1], worlds[i]);
      OrderlyStep(worlds[i - 1], acts[i - 1], worlds[i]);
    }
    AcceptsIffWellNumbered(worlds[i].channel, 0);
  }

  /**
   With overlap, order is not kept: one clone loads the flag, another finishes the conversation, and then
   the first is numbered and delivered behind the terminal event. The receiver refuses the run. The
   emitter is never cloned in the program, so this is about what its `Clone` would permit.
   */
  lemma ClonesCanOvertake() returns (worlds: seq<Shared>, acts: seq<Act>)
    ensures Interleaving(worlds, acts) && |worlds| == 9
    ensures !AcceptsFrom(worlds[8].channel, 0, 0)
  {
    var last, late := Event(true, 0, Completed), Event(true, 1, Delta("late"));
    acts := [LoadTerminal(1, Delta("late")), LoadTerminal(2, Completed), SwapTerminal(2), FetchAdd(2), Deliver(2),
             SwapTerminal(1), FetchAdd(1), Deliver(1)];
    var w0 := Shared(0, false, map[], []);
    var w1 := To(w0, 1, Passed(Delta("late")));
    var w2 := To(w1, 2, Passed(Completed));
    var w3 := To(w2, 2, Claimed(Completed)).(terminal := true);
    var w4 := To(w3, 2, Holding(last)).(sequence := 1);
    var w5 := To(w4, 2, Resting).(channel := [last]);
    var w6 := To(w5, 1, Claimed(Delta("late")));
    var w7 := To(w6, 1, Holding(late)).(sequence := 2);
    var w8 := To(w7, 1, Resting).(channel := [last, late]);
    assert Acts(w0, acts[0], w1) && Acts(w1, acts[1], w2) && Acts(w2, acts[2], w3) && Acts(w3, acts[3], w4);
    assert Acts(w4, acts[4], w5) && Acts(w5, acts[5], w6) && Acts(w6, acts[6], w7);
    assert [last] + [late] == [last, late];
    assert Acts(w7, acts[7], w8);
    worlds := [w0, w1, w2, w3, w4, w5, w6, w7, w8];
    AcceptsIffWellNumbered(w8.channel, 0);
    assert IsTerminal(w8.channel[0].payload);
  }

  // ---- A provider's stream ----

  datatype StreamError = AfterEnd | Invalid | SinkClosed | NotOneTerminal(count: nat) | Provider(error: string)

  /** What the provider's future answers, besides the events it sent. */
  type Generation = Result<string, string>

  /** `validate_and_forward_provider_event` over the events received, then the check on completion. */
  method StreamProviderGeneration(events: seq<Event>, generation: Generation, forwards: seq<bool>)
      returns (r: Result<string, StreamError>, forwarded: seq<Event>)
    requires |forwards| == |events|
    ensures forwarded <= events
    ensures r.Ok? <==>
      && WellNumbered(events, 0) && events != [] && IsTerminal(events[|events| - 1].payload)
      && (forall i :: 0 <= i < |forwards| ==> forwards[i]) && generation.Ok?
    ensures r.Ok? ==> forwarded == events && r.value == generation.value
  {
    hide IsTerminal;
    forwarded := [];
    var next, terminals := 0, 0;
    for i := 0 to |events|
      invariant forwarded == events[..i] && next == i
      invariant AcceptsFrom(forwarded, 0, 0) && terminals == Terminals(forwarded)
      invariant forall k :: 0 <= k < i ==> forwards[k]
    {
      var e := events[i];
      AcceptsIffWellNumbered(events, 0);
      AcceptsPrefix(events, i + 1, 0, 0);
      assert events[..i + 1] == events[..i] + [e];
      AcceptsSnoc(forwarded, e, 0, 0);
      TerminalsSnoc(forwarded, e);
      if terminals > 0 {
        return Err(AfterEnd), forwarded;
      }
      if !e.identityOk || e.sequence != next {
        return Err(Invalid), forwarded;
      }
      next := next + 1;
      if IsTerminal(e.payload) {
        terminals := terminals + 1;
      }
      if !forwards[i] {
        return Err(SinkClosed), forwarded;
      }
      forwarded := forwarded + [e];
    }
    assert events[..|events|] == events;
    AcceptsIffWellNumbered(events, 0);
    OneTerminalIsLast(events);
    if terminals != 1 {
      return Err(NotOneTerminal(terminals)), forwarded;
    }
    match generation
    case Ok(result) => return Ok(result), forwarded;
    case Err(error) => return Err(Provider(error)), forwarded;
  }

  lemma {:induction false} AcceptsPrefix(events: seq<Event>, k: nat, next: nat, terminals: nat)
    requires k <= |events|
    ensures AcceptsFrom(events, next, terminals) ==> AcceptsFrom(events[..k], next, terminals)
    decreases |events|
  {
    hide IsTerminal;
    if k > 0 {
      assert events[..k][1..] == events[1..][..k - 1];
      AcceptsPrefix(events[1..], k - 1, next + 1, if IsTerminal(events[0].payload) then terminals + 1 else terminals);
    }
  }

  /** An accepted run has one terminal event exactly when its last event is terminal. */
  lemma {:induction false} OneTerminalIsLast(events: seq<Event>)
    requires WellNumbered(events, 0)
    ensures Terminals(events) == 1 <==> events != [] && IsTerminal(events[|events| - 1].payload)
  {
    hide IsTerminal;
    if events != [] {
      var init, last := events[..|events| - 1], events[|events| - 1];
      assert events == init + [last];
      NoTerminals(init);
      TerminalsSnoc(init, last);
    }
  }

  lemma {:induction false} NoTerminals(events: seq<Event>)
    requires forall i :: 0 <= i < |events| ==> !IsTerminal(events[i].payload)
    ensures Terminals(events) == 0
  {
    hide IsTerminal;
    if events != [] {
      NoTerminals(events[1..]);
    }
  }
}
