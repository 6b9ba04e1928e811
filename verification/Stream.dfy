/**
 One P4Runtime session's StreamChannel: the reader task, the shared primary
 flag, the blocking high-priority queue and the lossy hint queue.  The task,
 the network and the session owner interleave; each arrow of the protocol is
 one step of `Apply`, and a step that is not enabled changes nothing.
 */
module Stream {
  import opened Prelude

  datatype Role = Role(id: nat, name: string, config: seq<nat>)

  datatype Update = Update(deviceId: nat, role: Option<Role>, election: Option<nat>, status: Option<int>)

  datatype Message =
    | Arbitration(update: Update)
    | Digest(id: nat)
    | Packet(payload: seq<nat>)
    | Fault(text: string)
    | Empty

  /** What the transport delivers: messages, then the end of the stream. */
  datatype Item = Msg(message: Message) | End(reason: string)

  datatype Kind = DigestKind | PacketKind

  datatype Event = Carried(message: Message) | HintDropped(kind: Kind) | Closed(reason: string)

  predicate Grants(u: Update) { u.status == Some(0) }

  predicate IsHint(item: Item) { item.Msg? && (item.message.Digest? || item.message.Packet?) }

  function KindOf(item: Item): Kind {
    if item.Msg? && item.message.Digest? then DigestKind else PacketKind
  }

  /** The reader task: waiting for the transport, holding an item, or waiting for room in the high queue. */
  datatype Task = Reading | Holding(item: Item) | Sending(event: Event, final: bool) | Done

  datatype Handled = Handled(item: Item, kept: bool)

  datatype Link = Link(
    inbox: seq<Item>, task: Task, flag: bool, dropped: bool,
    high: seq<Event>, hints: seq<Event>, highCap: nat, hintCap: nat,
    // history
    sent: seq<Item>, handled: seq<Handled>, outHigh: seq<Event>, outHints: seq<Event>)

  datatype Step = Deliver(item: Item) | Receive | Handle | Push | PollNext | PollTry | Drop

  /** A session at the moment its reader task starts; `backlog` arrived meanwhile. */
  function Opened(highCap: nat, hintCap: nat, backlog: seq<Item>): Link {
    Link(backlog, Reading, true, false, [], [], highCap, hintCap, backlog, [], [], [])
  }

  /** The flag the task stores for an item. */
  function Stored(flag: bool, item: Item): bool {
    match item
    case End(_) => false
    case Msg(m) => if m.Arbitration? then Grants(m.update) else flag
  }

  /** The event a non-hint item turns into. */
  function Report(item: Item): Event {
    match item
    case End(reason) => Closed(reason)
    case Msg(m) => if m.Empty? then Carried(Fault("empty stream update")) else Carried(m)
  }

  predicate Ended(l: Link) { exists i :: 0 <= i < |l.sent| && l.sent[i].End? }

  function HandleItem(l: Link, item: Item): Link {
    var l := l.(flag := Stored(l.flag, item));
    if l.dropped then l.(task := Done)
    else if !IsHint(item) then l.(task := Sending(Report(item), item.End?), handled := l.handled + [Handled(item, true)])
    else if |l.hints| < l.hintCap then
      l.(task := Reading, hints := l.hints + [Report(item)], handled := l.handled + [Handled(item, true)])
    else
      l.(task := Sending(HintDropped(KindOf(item)), false), handled := l.handled + [Handled(item, false)])
  }

  function TakeHigh(l: Link): Link
    requires l.high != []
  {
    l.(high := l.high[1..], outHigh := l.outHigh + [l.high[0]])
  }

  function TakeHint(l: Link): Link
    requires l.hints != []
  {
    l.(hints := l.hints[1..], outHints := l.outHints + [l.hints[0]])
  }

  function Apply(l: Link, step: Step): Link {
    match step
    case Deliver(item) => if Ended(l) then l else l.(inbox := l.inbox + [item], sent := l.sent + [item])
    case Receive =>
      if l.task.Reading? && !l.dropped && l.inbox != [] then l.(task := Holding(l.inbox[0]), inbox := l.inbox[1..]) else l
    case Handle => if l.task.Holding? then HandleItem(l, l.task.item) else l
    case Push =>
      if l.task.Sending? && !l.dropped && |l.high| < l.highCap
      then l.(high := l.high + [l.task.event], task := if l.task.final then Done else Reading)
      else l
    case PollNext =>
      // the closed and drained high queue answers before the hints are looked at
      if l.dropped then l
      else if l.high != [] then TakeHigh(l)
      else if !l.task.Done? && l.hints != [] then TakeHint(l)
      else l
    case PollTry =>
      if l.dropped then l else if l.high != [] then TakeHigh(l) else if l.hints != [] then TakeHint(l) else l
    case Drop =>
      // cancellation only reaches a task that is suspended; one that holds an item still stores the flag
      l.(flag := false, dropped := true, task := if l.task.Holding? then l.task else Done)
  }

  function Run(l: Link, steps: seq<Step>): Link
    decreases |steps|
  {
    if steps == [] then l else Run(Apply(l, steps[0]), steps[1..])
  }

  // ----- conservation -----

  /** What one handled item owes the high queue. */
  function HighPart(h: Handled): seq<Event> {
    if !IsHint(h.item) then [Report(h.item)] else if h.kept then [] else [HintDropped(KindOf(h.item))]
  }

  /** What one handled item owes the hint queue. */
  function HintPart(h: Handled): seq<Event> {
    if IsHint(h.item) && h.kept then [Report(h.item)] else []
  }

  function HighImage(hs: seq<Handled>): seq<Event> {
    if hs == [] then [] else HighImage(hs[..|hs| - 1]) + HighPart(hs[|hs| - 1])
  }

  function HintImage(hs: seq<Handled>): seq<Event> {
    if hs == [] then [] else HintImage(hs[..|hs| - 1]) + HintPart(hs[|hs| - 1])
  }

  function Items(hs: seq<Handled>): seq<Item> {
    if hs == [] then [] else Items(hs[..|hs| - 1]) + [hs[|hs| - 1].item]
  }

  function InHand(l: Link): seq<Item> { if l.task.Holding? then [l.task.item] else [] }

  function Waiting(l: Link): seq<Event> { if l.task.Sending? then [l.task.event] else [] }

  predicate SentKept(l: Link) { l.sent == Items(l.handled) + InHand(l) + l.inbox }

  predicate HighKept(l: Link) { HighImage(l.handled) == l.outHigh + l.high + Waiting(l) }

  predicate HintsKept(l: Link) { HintImage(l.handled) == l.outHints + l.hints }

  /** Until the owner drops the session, nothing is lost, repeated or reordered. */
  predicate Conserved(l: Link) { SentKept(l) && HighKept(l) && HintsKept(l) }

  predicate Bounded(l: Link) { |l.high| <= l.highCap && |l.hints| <= l.hintCap }

  // ----- what the events say -----

  /** The event says what the item said: its message, the error that stands for an empty update, or why the stream ended. */
  predicate Tells(e: Event, item: Item) {
    match item
    case End(reason) => e == Closed(reason)
    case Msg(Empty) => e == Carried(Fault("empty stream update"))
    case Msg(Arbitration(update)) => e == Carried(Arbitration(update))
    case Msg(Fault(text)) => e == Carried(Fault(text))
    case Msg(Digest(id)) => e == Carried(Digest(id))
    case Msg(Packet(payload)) => e == Carried(Packet(payload))
  }

  /** The notice names the kind of the item that was lost. */
  predicate Names(e: Event, item: Item) {
    || (item.Msg? && item.message.Digest? && e == HintDropped(DigestKind))
    || (item.Msg? && item.message.Packet? && e == HintDropped(PacketKind))
  }

  predicate TellAll(es: seq<Event>, items: seq<Item>) {
    |es| == |items| && forall i :: 0 <= i < |es| ==> Tells(es[i], items[i])
  }

  predicate NameAll(es: seq<Event>, items: seq<Item>) {
    |es| == |items| && forall i :: 0 <= i < |es| ==> Names(es[i], items[i])
  }

  /** The events that are not drop notices, in order. */
  function Carriers(es: seq<Event>): seq<Event> {
    if es == [] then []
    else Carriers(es[..|es| - 1]) + if es[|es| - 1].HintDropped? then [] else [es[|es| - 1]]
  }

  function Notices(es: seq<Event>): seq<Event> {
    if es == [] then []
    else Notices(es[..|es| - 1]) + if es[|es| - 1].HintDropped? then [es[|es| - 1]] else []
  }

  /** The items that are neither digests nor packets, in order. */
  function Direct(items: seq<Item>): seq<Item> {
    if items == [] then []
    else
      var item := items[|items| - 1];
      Direct(items[..|items| - 1]) + if item.Msg? && (item.message.Digest? || item.message.Packet?) then [] else [item]
  }

  /** The digests and packets that were (or were not) put into the hint queue, in order. */
  function Hints(hs: seq<Handled>, kept: bool): seq<Item> {
    if hs == [] then []
    else
      var h := hs[|hs| - 1];
      Hints(hs[..|hs| - 1], kept) +
      if h.item.Msg? && (h.item.message.Digest? || h.item.message.Packet?) && h.kept == kept then [h.item] else []
  }

  /** Every item handled is accounted for: reported in order, queued as a hint in order, or named by a drop notice in order. */
  predicate Accounts(hs: seq<Handled>, high: seq<Event>, hints: seq<Event>) {
    && TellAll(Carriers(high), Direct(Items(hs)))
    && TellAll(hints, Hints(hs, true))
    && NameAll(Notices(high), Hints(hs, false))
  }

  predicate Told(l: Link) {
    Accounts(l.handled, l.outHigh + l.high + Waiting(l), l.outHints + l.hints)
  }

  lemma {:induction false} SiftConcat(a: seq<Event>, b: seq<Event>)
    ensures Carriers(a + b) == Carriers(a) + Carriers(b) && Notices(a + b) == Notices(a) + Notices(b)
  {
    if b == [] {
      assert a + b == a;
    } else {
      SiftConcat(a, b[..|b| - 1]);
      assert (a + b)[..|a + b| - 1] == a + b[..|b| - 1];
    }
  }

  lemma PartAccounts(h: Handled)
    ensures Accounts([h], HighPart(h), HintPart(h))
  {
    var part := HighPart(h);
    assert [h][..0] == [] && [h.item][..0] == [];
    assert Items([h]) == [h.item];
    assert part != [] ==> part[..|part| - 1] == [];
  }

  lemma LastItem(hs: seq<Handled>)
    requires hs != []
    ensures var init, h := hs[..|hs| - 1], hs[|hs| - 1];
      && Direct(Items(hs)) == Direct(Items(init)) + Direct(Items([h]))
      && forall kept :: Hints(hs, kept) == Hints(init, kept) + Hints([h], kept)
  {
    var init, h := hs[..|hs| - 1], hs[|hs| - 1];
    assert Items(hs)[..|Items(hs)| - 1] == Items(init);
    assert [h][..0] == [] && [h.item][..0] == [];
    assert Items([h]) == [h.item];
  }

  lemma TellConcat(a: seq<Event>, x: seq<Item>, b: seq<Event>, y: seq<Item>)
    ensures TellAll(a, x) && TellAll(b, y) ==> TellAll(a + b, x + y)
    ensures NameAll(a, x) && NameAll(b, y) ==> NameAll(a + b, x + y)
  {
    hide Tells, Names;
  }

  lemma {:induction false} ImagesAccount(hs: seq<Handled>)
    ensures Accounts(hs, HighImage(hs), HintImage(hs))
  {
    if hs != [] {
      var init, h := hs[..|hs| - 1], hs[|hs| - 1];
      ImagesAccount(init);
      PartAccounts(h);
      LastItem(hs);
      SiftConcat(HighImage(init), HighPart(h));
      TellConcat(Carriers(HighImage(init)), Direct(Items(init)), Carriers(HighPart(h)), Direct(Items([h])));
      TellConcat(HintImage(init), Hints(init, true), HintPart(h), Hints([h], true));
      TellConcat(Notices(HighImage(init)), Hints(init, false), Notices(HighPart(h)), Hints([h], false));
      hide HighPart, HintPart, Direct, Hints, Items, Carriers, Notices, TellAll, NameAll;
    }
  }

  lemma ConservedTells(l: Link)
    requires Conserved(l)
    ensures Told(l)
  {
    ImagesAccount(l.handled);
  }

  lemma ImagesSnoc(hs: seq<Handled>, h: Handled)
    ensures Items(hs + [h]) == Items(hs) + [h.item]
    ensures HighImage(hs + [h]) == HighImage(hs) + HighPart(h) && HintImage(hs + [h]) == HintImage(hs) + HintPart(h)
  {
    assert (hs + [h])[..|hs|] == hs;
  }

  /** Handling an item adds it to the history, and its parts to the queue or to the event waiting to be sent. */
  lemma HandleParts(l: Link) returns (h: Handled)
    requires Bounded(l) && !l.dropped && l.task.Holding?
    ensures var next := Apply(l, Handle);
      && h.item == l.task.item && next.handled == l.handled + [h] && Waiting(next) == HighPart(h)
      && next.hints == l.hints + HintPart(h) && next.high == l.high && next.outHigh == l.outHigh
      && next.outHints == l.outHints && next.sent == l.sent && next.inbox == l.inbox && !next.task.Holding? && Bounded(next)
  {
    hide Report, KindOf, Stored;
    var item := l.task.item;
    h := Handled(item, !IsHint(item) || |l.hints| < l.hintCap);
  }

  lemma HandleConserves(l: Link)
    requires Conserved(l) && Bounded(l) && !l.dropped && l.task.Holding?
    ensures Conserved(Apply(l, Handle)) && Bounded(Apply(l, Handle))
  {
    var h := HandleParts(l);
    ImagesSnoc(l.handled, h);
    hide HighImage, HintImage, Items, HighPart, HintPart, Apply, Bounded;
    var next := Apply(l, Handle);
    assert SentKept(next);
    assert l.outHigh + l.high + [] + Waiting(next) == l.outHigh + l.high + Waiting(next);
    assert l.outHints + (l.hints + HintPart(h)) == l.outHints + l.hints + HintPart(h);
  }

  lemma TakeHighConserves(l: Link)
    requires Conserved(l) && Bounded(l) && l.high != []
    ensures Conserved(TakeHigh(l)) && Bounded(TakeHigh(l))
  {
    hide HighImage, HintImage, Items;
    Shift(l.outHigh, l.high, Waiting(l));
  }

  lemma TakeHintConserves(l: Link)
    requires Conserved(l) && Bounded(l) && l.hints != []
    ensures Conserved(TakeHint(l)) && Bounded(TakeHint(l))
  {
    hide HighImage, HintImage, Items;
    Shift(l.outHints, l.hints, []);
    assert l.outHints + l.hints + [] == l.outHints + l.hints;
    assert TakeHint(l).outHints + TakeHint(l).hints + [] == TakeHint(l).outHints + TakeHint(l).hints;
  }

  /** Handing over the head of a queue keeps delivered followed by queued. */
  lemma Shift(delivered: seq<Event>, queue: seq<Event>, rest: seq<Event>)
    requires queue != []
    ensures delivered + queue + rest == (delivered + [queue[0]]) + queue[1..] + rest
  {
    assert queue == [queue[0]] + queue[1..];
  }

  lemma PollConserves(l: Link, step: Step)
    requires Conserved(l) && Bounded(l) && (step.PollNext? || step.PollTry?)
    ensures Conserved(Apply(l, step)) && Bounded(Apply(l, step))
  {
    if l.high != [] {
      TakeHighConserves(l);
    } else if l.hints != [] {
      TakeHintConserves(l);
    }
    hide Conserved, Bounded, TakeHigh, TakeHint;
  }

  lemma PushConserves(l: Link)
    requires Conserved(l) && Bounded(l)
    ensures Conserved(Apply(l, Push)) && Bounded(Apply(l, Push))
  {
    hide HighImage, HintImage, Items;
    if l.task.Sending? {
      assert l.outHigh + l.high + [l.task.event] == l.outHigh + (l.high + [l.task.event]) + [];
    }
  }

  lemma ReceiveConserves(l: Link)
    requires Conserved(l)
    ensures Conserved(Apply(l, Receive))
  {
    hide HighImage, HintImage, Items;
    if l.task.Reading? && l.inbox != [] {
      var done, first, rest := Items(l.handled), l.inbox[0], l.inbox[1..];
      assert l.inbox == [first] + rest;
      assert done + [] + ([first] + rest) == done + [first] + rest;
    }
  }

  lemma DeliverConserves(l: Link, item: Item)
    requires Conserved(l)
    ensures Conserved(Apply(l, Deliver(item)))
  {
    hide HighImage, HintImage, Items;
    var read := Items(l.handled) + InHand(l);
    assert read + l.inbox + [item] == read + (l.inbox + [item]);
  }

  lemma StepConserves(l: Link, step: Step)
    requires Conserved(l) && Bounded(l) && !l.dropped && step != Drop
    ensures Conserved(Apply(l, step)) && Bounded(Apply(l, step)) && !Apply(l, step).dropped
  {
    hide HighImage, HintImage, Items, SentKept, HighKept, HintsKept;
    match step
    case Deliver(item) => DeliverConserves(l, item);
    case Receive => ReceiveConserves(l);
    case Handle => if l.task.Holding? { HandleConserves(l); }
    case Push => PushConserves(l);
    case PollNext => PollConserves(l, step);
    case PollTry => PollConserves(l, step);
  }

  /** Stream conservation over every run in which the session is not dropped: every item is accounted for, in order. */
  lemma {:induction false} RunConserves(l: Link, steps: seq<Step>)
    requires Conserved(l) && Bounded(l) && !l.dropped && Drop !in steps
    ensures Conserved(Run(l, steps)) && Bounded(Run(l, steps)) && !Run(l, steps).dropped
    ensures Told(Run(l, steps))
    decreases |steps|
  {
    hide Told;
    if steps != [] {
      StepConserves(l, steps[0]);
      RunConserves(Apply(l, steps[0]), steps[1..]);
    } else {
      ConservedTells(l);
    }
  }

  function CountHints(items: seq<Item>): nat {
    if items == [] then 0 else CountHints(items[..|items| - 1]) + if IsHint(items[|items| - 1]) then 1 else 0
  }

  function CountDrops(es: seq<Event>): nat {
    if es == [] then 0 else CountDrops(es[..|es| - 1]) + if es[|es| - 1].HintDropped? then 1 else 0
  }

  lemma {:induction false} CountDropsConcat(a: seq<Event>, b: seq<Event>)
    ensures CountDrops(a + b) == CountDrops(a) + CountDrops(b)
  {
    if b == [] {
      assert a + b == a;
    } else {
      CountDropsConcat(a, b[..|b| - 1]);
      assert (a + b)[..|a + b| - 1] == a + b[..|b| - 1];
    }
  }

  lemma CountPart(h: Handled)
    ensures CountDrops(HighPart(h)) + |HintPart(h)| == if IsHint(h.item) then 1 else 0
  {
    var part := HighPart(h);
    assert part != [] ==> part[..|part| - 1] == [];
  }

  lemma {:induction false} ImagesCount(hs: seq<Handled>)
    ensures CountHints(Items(hs)) == |HintImage(hs)| + CountDrops(HighImage(hs))
  {
    if hs != [] {
      var init, h := hs[..|hs| - 1], hs[|hs| - 1];
      ImagesCount(init);
      CountPart(h);
      hide HighPart, HintPart, IsHint;
      assert Items(hs)[..|Items(hs)| - 1] == Items(init);
      CountDropsConcat(HighImage(init), HighPart(h));
    }
  }

  /** Hints received = hints delivered + hints queued + drop notices emitted or pending. */
  lemma HintsCounted(highCap: nat, hintCap: nat, backlog: seq<Item>, steps: seq<Step>)
    requires Drop !in steps
    ensures var l := Run(Opened(highCap, hintCap, backlog), steps);
      CountHints(Items(l.handled)) ==
      |l.outHints| + |l.hints| + CountDrops(l.outHigh) + CountDrops(l.high) + CountDrops(Waiting(l))
  {
    var o := Opened(highCap, hintCap, backlog);
    assert [] + [] + backlog == backlog;
    RunConserves(o, steps);
    var l := Run(o, steps);
    ImagesCount(l.handled);
    CountDropsConcat(l.outHigh + l.high, Waiting(l));
    CountDropsConcat(l.outHigh, l.high);
  }

  /** Priority and loss: a hint leaves only past an empty high queue, and is dropped only from a full hint queue. */
  lemma HintsAreLast(l: Link, step: Step)
    ensures Apply(l, step).outHints != l.outHints ==> l.high == [] && (step == PollNext || step == PollTry)
    ensures step == Handle && l.task.Holding? && Apply(l, step).task.Sending? && Apply(l, step).task.event.HintDropped? ==>
      IsHint(l.task.item) && |l.hints| >= l.hintCap
  {
  }

  // ----- progress -----

  /** Work left: each internal step that does anything lowers it. */
  function Work(l: Link): nat {
    4 * |l.inbox| + |l.high| + |l.hints| +
    match l.task case Reading => 0 case Holding(_) => 3 case Sending(_, _) => 2 case Done => 0
  }

  predicate Internal(step: Step) { step.Receive? || step.Handle? || step.Push? || step.PollNext? || step.PollTry? }

  lemma InternalStepsTerminate(l: Link, step: Step)
    requires Internal(step) && !l.dropped
    ensures Apply(l, step) == l || Work(Apply(l, step)) < Work(l)
  {
  }

  /** The end of the stream is the last item sent, and the task stops only after reporting it. */
  predicate Ordered(l: Link) {
    && (forall i :: 0 <= i < |l.sent| - 1 ==> !l.sent[i].End?)
    && (l.task.Done? || (l.task.Sending? && l.task.final) ==> l.handled != [] && l.handled[|l.handled| - 1].item.End?)
  }

  lemma {:induction false} ItemsSize(hs: seq<Handled>)
    ensures |Items(hs)| == |hs|
  {
    if hs != [] {
      ItemsSize(hs[..|hs| - 1]);
    }
  }

  /** An `End` among the items handled or in hand closes the stream: nothing is left to read. */
  lemma EndIsLast(l: Link, k: nat)
    requires Conserved(l) && Ordered(l) && k < |l.sent| && l.sent[k].End?
    ensures k == |l.sent| - 1 && Ended(l)
  {
  }

  lemma StoppedIsEmpty(l: Link)
    requires Conserved(l) && Ordered(l) && (l.task.Done? || (l.task.Sending? && l.task.final))
    ensures l.inbox == [] && Ended(l)
  {
    ItemsSize(l.handled);
    EndIsLast(l, |l.handled| - 1);
  }

  lemma UsefulIsInternal(l: Link)
    ensures Internal(Useful(l)) && Apply(l, Useful(l)).sent == l.sent && Apply(l, Useful(l)).highCap == l.highCap
  {
  }

  lemma StepOrdered(l: Link, step: Step)
    requires Ordered(l) && Conserved(l) && !l.dropped && step != Drop
    ensures Ordered(Apply(l, step))
  {
    hide HighImage, HintImage, Items;
    if step.Deliver? && !Ended(l) && l.sent != [] {
      assert !l.sent[|l.sent| - 1].End?;
    }
  }

  lemma {:induction false} RunOrdered(l: Link, steps: seq<Step>)
    requires Ordered(l) && Conserved(l) && Bounded(l) && !l.dropped && Drop !in steps
    ensures Ordered(Run(l, steps))
    decreases |steps|
  {
    if steps != [] {
      StepConserves(l, steps[0]);
      StepOrdered(l, steps[0]);
      RunOrdered(Apply(l, steps[0]), steps[1..]);
    }
  }

  /** A step that makes progress; the owner polls without waiting. */
  function Useful(l: Link): Step {
    if l.high != [] || l.hints != [] then PollTry
    else if l.task.Holding? then Handle
    else if l.task.Sending? then Push
    else Receive
  }

  lemma UsefulWorks(l: Link)
    requires Conserved(l) && Ordered(l) && !l.dropped && l.highCap > 0 && Work(l) > 0
    ensures Work(Apply(l, Useful(l))) < Work(l)
  {
    if l.task.Done? {
      StoppedIsEmpty(l);
    }
  }

  /**
   Backpressure never wedges the session: from every reachable state, reading and
   polling alone hand over, in order, every event of everything the target sent.
   */
  lemma {:induction false} Drains(l: Link) returns (steps: seq<Step>)
    requires Conserved(l) && Ordered(l) && Bounded(l) && !l.dropped && l.highCap > 0
    ensures |steps| <= Work(l) && forall s :: s in steps ==> Internal(s)
    ensures var done := Run(l, steps);
      && Work(done) == 0 && done.sent == l.sent && Items(done.handled) == done.sent
      && done.outHigh == HighImage(done.handled) && done.outHints == HintImage(done.handled)
    decreases Work(l)
  {
    if Work(l) == 0 {
      steps := [];
      assert l.outHigh + [] + [] == l.outHigh && l.outHints + [] == l.outHints;
      assert Items(l.handled) + [] + [] == Items(l.handled);
    } else {
      hide HighImage, HintImage, Items, Conserved, Ordered, Bounded;
      var step := Useful(l);
      UsefulWorks(l);
      UsefulIsInternal(l);
      hide Apply, Work, Useful;
      StepConserves(l, step);
      StepOrdered(l, step);
      var rest := Drains(Apply(l, step));
      steps := [step] + rest;
      assert steps[1..] == rest;
    }
  }

  /** So after every run in which the session is not dropped, everything sent can still be handed over. */
  lemma EveryRunDrains(highCap: nat, hintCap: nat, backlog: seq<Item>, steps: seq<Step>) returns (more: seq<Step>)
    requires highCap > 0 && Drop !in steps && forall i :: 0 <= i < |backlog| - 1 ==> !backlog[i].End?
    ensures var l := Run(Opened(highCap, hintCap, backlog), steps); var done := Run(l, more);
      && done.sent == l.sent == Items(done.handled)
      && TellAll(Carriers(done.outHigh), Direct(l.sent))
      && TellAll(done.outHints, Hints(done.handled, true)) && NameAll(Notices(done.outHigh), Hints(done.handled, false))
  {
    var o := Opened(highCap, hintCap, backlog);
    assert [] + [] + backlog == backlog;
    RunConserves(o, steps);
    RunOrdered(o, steps);
    CapacityKept(o, steps);
    more := Drains(Run(o, steps));
    ImagesAccount(Run(Run(o, steps), more).handled);
  }

  lemma {:induction false} CapacityKept(l: Link, steps: seq<Step>)
    ensures Run(l, steps).highCap == l.highCap
    decreases |steps|
  {
    if steps != [] {
      CapacityKept(Apply(l, steps[0]), steps[1..]);
    }
  }

  // ----- the two ways to poll, once the task has stopped -----

  /** What the owner collects by polling with one operation until it answers with nothing. */
  function Collected(l: Link, step: Step): seq<Event>
    requires step == PollNext || step == PollTry
    decreases |l.high| + |l.hints|
  {
    var next := Apply(l, step);
    if next == l then []
    else if l.high != [] then [l.high[0]] + Collected(next, step)
    else [l.hints[0]] + Collected(next, step)
  }

  lemma {:induction false} TryCollectsAll(l: Link)
    requires !l.dropped
    ensures Collected(l, PollTry) == l.high + l.hints
    decreases |l.high| + |l.hints|
  {
    if l.high != [] || l.hints != [] {
      var next := Apply(l, PollTry);
      assert next != l by { assert |next.outHigh| + |next.outHints| > |l.outHigh| + |l.outHints|; }
      TryCollectsAll(next);
      assert l.high != [] ==> l.high + l.hints == [l.high[0]] + (next.high + next.hints);
      assert l.high == [] ==> l.high + l.hints == [l.hints[0]] + (next.high + next.hints);
    }
  }

  lemma {:induction false} NextCollectsHigh(l: Link)
    requires !l.dropped && l.task.Done?
    ensures Collected(l, PollNext) == l.high
    decreases |l.high|
  {
    if l.high != [] {
      var next := Apply(l, PollNext);
      assert next != l by { assert |next.outHigh| > |l.outHigh|; }
      NextCollectsHigh(next);
    }
  }

  /** After the stream has ended the waiting poll answers "closed" over queued hints; the other delivers them. */
  lemma StrandedExactly(l: Link)
    requires !l.dropped && l.task.Done?
    ensures Collected(l, PollNext) == Collected(l, PollTry) <==> l.hints == []
  {
    TryCollectsAll(l);
    NextCollectsHigh(l);
    assert |l.high + l.hints| == |l.high| + |l.hints|;
  }

  // ----- the flag -----

  /** The flag once every item still on its way has been handled. */
  function Fold(flag: bool, items: seq<Item>): bool
    decreases |items|
  {
    if items == [] then flag else Fold(Stored(flag, items[0]), items[1..])
  }

  function Flight(l: Link): seq<Item> { InHand(l) + l.inbox }

  function Settled(l: Link): bool { Fold(l.flag, Flight(l)) }

  lemma {:induction false} FoldSnoc(flag: bool, items: seq<Item>, item: Item)
    ensures Fold(flag, items + [item]) == Stored(Fold(flag, items), item)
    decreases |items|
  {
    if items == [] {
      assert ([item])[1..] == [];
      assert items + [item] == [item];
    } else {
      FoldSnoc(Stored(flag, items[0]), items[1..], item);
      assert (items + [item])[1..] == items[1..] + [item];
    }
  }

  /** Moving an item from the wire through the task does not change where the flag is heading. */
  lemma SettledKept(l: Link, step: Step)
    requires Internal(step) && !l.dropped
    ensures Settled(Apply(l, step)) == Settled(l)
  {
    var next := Apply(l, step);
    if step.Receive? && next != l {
      hide Fold, Stored;
      assert Flight(next) == Flight(l);
    } else if step.Handle? && l.task.Holding? {
      assert Flight(l)[1..] == l.inbox && Flight(next) == l.inbox;
    } else {
      hide Fold, Stored;
      assert Flight(next) == Flight(l);
    }
  }

  lemma SettledDelivered(l: Link, item: Item)
    requires !Ended(l)
    ensures Settled(Apply(l, Deliver(item))) == Stored(Settled(l), item)
  {
    assert Flight(Apply(l, Deliver(item))) == Flight(l) + [item];
    FoldSnoc(l.flag, Flight(l), item);
  }

  predicate Demotes(item: Item) { !Stored(true, item) }

  /** A set flag that is heading for false has the demoting item still on its way. */
  lemma {:induction false} DemotionInFlight(items: seq<Item>)
    requires !Fold(true, items)
    ensures exists i :: 0 <= i < |items| && Demotes(items[i])
  {
    if items != [] {
      if Demotes(items[0]) {
      } else {
        DemotionInFlight(items[1..]);
        var i :| 0 <= i < |items[1..]| && Demotes(items[1..][i]);
        assert Demotes(items[i + 1]);
      }
    }
  }

  /** Once the end of the stream has been handled the flag is false and stays false, whatever follows. */
  predicate Over(l: Link) { !l.flag && (l.task.Done? || (l.task.Sending? && l.task.final)) }

  lemma {:induction false} OverForever(l: Link, steps: seq<Step>)
    requires Over(l)
    ensures Over(Run(l, steps))
    decreases |steps|
  {
    if steps != [] {
      OverForever(Apply(l, steps[0]), steps[1..]);
    }
  }

  /**
   Dropping the session stores false once, but a task that already holds a grant stores
   true after it; no owner is left to read the flag.
   */
  lemma GrantAfterDrop(highCap: nat, hintCap: nat, u: Update)
    requires Grants(u)
    ensures Run(Opened(highCap, hintCap, [Msg(Arbitration(u))]), [Receive, Drop, Handle]).flag
  {
    var l := Opened(highCap, hintCap, [Msg(Arbitration(u))]);
    var steps := [Receive, Drop, Handle];
    assert steps[1..] == [Drop, Handle] && steps[1..][1..] == [Handle] && steps[1..][1..][1..] == [];
    assert Run(l, steps) == Run(Apply(l, Receive), steps[1..]);
    assert Run(l, steps) == Run(Apply(Apply(l, Receive), Drop), steps[1..][1..]);
    assert Run(l, steps) == Apply(Apply(Apply(l, Receive), Drop), Handle);
  }
}
