/**
 Many sessions and one target.  The target follows client arbitration as
 section 5 of the P4Runtime Specification 1.4.1 describes it; every session runs
 the stream model.  `Inv` holds in every state any interleaving can reach, and
 the theorems at the end read mastership safety and write fencing off it.
 */
module Mastership {
  import opened Prelude
  import opened Stream

  /** Dialing: arbitration requested.  Waiting: answered, not read.  Up: in use.  Gone: failed or dropped. */
  datatype Phase = Dialing | Waiting | Up | Gone

  /** `exact` is the session's last verdict on the target's pipeline. */
  datatype Client = Client(election: nat, phase: Phase, link: Link, exact: bool)

  datatype WriteEntry = WriteEntry(client: nat, election: nat)

  datatype World = World(
    device: nat, role: string,
    highest: Option<nat>, primary: Option<nat>, live: set<nat>,   // the target
    clients: map<nat, Client>,
    wire: seq<WriteEntry>, log: seq<WriteEntry>)                  // writes on their way, writes applied

  datatype Action =
    | Dial(s: nat, election: nat)
    | Arbitrate(s: nat)
    | Connect(s: nat, highCap: nat, hintCap: nat)
    | GiveUp(s: nat)
    | Local(s: nat, step: Step)
    | Reverify(s: nat, exact: bool)
    | Close(s: nat)
    | Break(s: nat, reason: string)
    | Send(s: nat, message: Message)
    | Write(s: nat)
    | Land(i: nat)

  // ----- the client side of arbitration -----

  /** The default role is named by leaving the field out. */
  function RoleField(role: string): Option<Role> {
    if role != "default" then Some(Role(0, role, [])) else None
  }

  /** The first answer must grant exactly this device, role and election. */
  predicate Validate(u: Update, device: nat, role: string, election: nat) {
    var statusOk := u.status == Some(0);
    var roleOk :=
      if role == "default" then u.role == None || (u.role.value.id == 0 && u.role.value.name == "" && u.role.value.config == [])
      else u.role.Some? && u.role.value.name == role;
    u.deviceId == device && statusOk && roleOk && u.election == Some(election)
  }

  /** A grant is for one client only; the one mix-up possible is the empty role name, which also passes as the default role. */
  lemma GrantIsPersonal(device: nat, role: string, election: nat, status: Option<int>, other: nat, name: string, number: nat)
    ensures Validate(Update(device, RoleField(role), Some(election), status), other, name, number) <==>
      && status == Some(0) && device == other && election == number
      && (role == name || (role == "" && name == "default"))
  {
  }

  predicate Accepts(item: Item, device: nat, role: string, election: nat) {
    item.Msg? && item.message.Arbitration? && Validate(item.message.update, device, role, election)
  }

  predicate IsGrant(item: Item) { item.Msg? && item.message.Arbitration? && Grants(item.message.update) }

  // ----- the target side -----

  const ALREADY_EXISTS: int := 6
  const NOT_FOUND: int := 5

  function Notice(w: World, s: nat): Item {
    var code := if w.primary == Some(s) then 0 else if w.primary.Some? then ALREADY_EXISTS else NOT_FOUND;
    Msg(Arbitration(Update(w.device, RoleField(w.role), w.highest, Some(code))))
  }

  function Put(c: Client, item: Item): Client { c.(link := Apply(c.link, Deliver(item))) }

  /** Tell every connected client who is primary. */
  function NotifyAll(w: World): World {
    w.(clients := map s | s in w.clients :: if s in w.live then Put(w.clients[s], Notice(w, s)) else w.clients[s])
  }

  function Unread(highCap: nat, hintCap: nat): Link { Opened(highCap, hintCap, []).(flag := false) }

  predicate Taken(w: World, election: nat) {
    exists t :: t in w.live && t in w.clients && w.clients[t].election == election
  }

  function Arbitrated(w: World, s: nat): World
    requires s in w.clients
  {
    var c := w.clients[s].(phase := Waiting);
    if Taken(w, c.election) then w.(clients := w.clients[s := Put(c, End("election id in use"))])
    else
      var joined := w.(clients := w.clients[s := c], live := w.live + {s});
      if w.highest.None? || c.election >= w.highest.value
      then NotifyAll(joined.(highest := Some(c.election), primary := Some(s)))
      else joined.(clients := joined.clients[s := Put(c, Notice(joined, s))])
  }

  function Broken(w: World, s: nat, reason: string): World
    requires s in w.clients
  {
    var cut := w.(live := w.live - {s}, clients := w.clients[s := Put(w.clients[s], End(reason))]);
    if w.primary == Some(s) then NotifyAll(cut.(primary := None)) else cut
  }

  function Connected(w: World, s: nat, highCap: nat, hintCap: nat): World
    requires s in w.clients && w.clients[s].link.inbox != []
  {
    var c := w.clients[s];
    var first, rest := c.link.inbox[0], c.link.inbox[1..];
    w.(clients := w.clients[s :=
      if Accepts(first, w.device, w.role, c.election)
      then c.(phase := Up, link := Opened(highCap, hintCap, rest), exact := true)
      else c.(phase := Gone)])
  }

  /** The write gate of a session in use: the primary flag, and a pipeline found exact. */
  predicate MayWrite(w: World, s: nat) {
    s in w.clients && w.clients[s].phase == Up && w.clients[s].link.flag && w.clients[s].exact
  }

  /** The target applies a write only under the primary's election. */
  function Landed(w: World, i: nat): World
    requires i < |w.wire|
  {
    var e := w.wire[i];
    var rest := w.(wire := w.wire[..i] + w.wire[i + 1..]);
    if w.primary.Some? && w.primary.value in w.clients && w.clients[w.primary.value].election == e.election
    then rest.(log := w.log + [e])
    else rest
  }

  function Act(w: World, a: Action): World {
    match a
    case Dial(s, election) =>
      if s in w.clients then w else w.(clients := w.clients[s := Client(election, Dialing, Unread(0, 0), false)])
    case Arbitrate(s) => if s in w.clients && w.clients[s].phase == Dialing then Arbitrated(w, s) else w
    case Connect(s, highCap, hintCap) =>
      if s in w.clients && w.clients[s].phase == Waiting && w.clients[s].link.inbox != []
      then Connected(w, s, highCap, hintCap) else w
    case GiveUp(s) =>
      if s in w.clients && (w.clients[s].phase == Dialing || w.clients[s].phase == Waiting)
      then w.(clients := w.clients[s := w.clients[s].(phase := Gone)]) else w
    case Local(s, step) =>
      if s in w.clients && (w.clients[s].phase == Up || w.clients[s].phase == Gone) && Internal(step)
      then w.(clients := w.clients[s := w.clients[s].(link := Apply(w.clients[s].link, step))]) else w
    case Reverify(s, exact) =>
      if s in w.clients && w.clients[s].phase == Up
      then w.(clients := w.clients[s := w.clients[s].(exact := exact)]) else w
    case Close(s) =>
      if s in w.clients && w.clients[s].phase == Up
      then w.(clients := w.clients[s := w.clients[s].(phase := Gone, link := Apply(w.clients[s].link, Drop))]) else w
    case Break(s, reason) => if s in w.live && s in w.clients then Broken(w, s, reason) else w
    case Send(s, message) =>
      if s in w.live && s in w.clients && !message.Arbitration?
      then w.(clients := w.clients[s := Put(w.clients[s], Msg(message))]) else w
    case Write(s) => if MayWrite(w, s) then w.(wire := w.wire + [WriteEntry(s, w.clients[s].election)]) else w
    case Land(i) => if i < |w.wire| then Landed(w, i) else w
  }

  function Play(w: World, actions: seq<Action>): World
    decreases |actions|
  {
    if actions == [] then w else Play(Act(w, actions[0]), actions[1..])
  }

  function Start(device: nat, role: string): World {
    World(device, role, None, None, {}, map[], [], [])
  }

  // ----- the invariant -----

  /** What holds of one client: the flag is heading for "I am the primary". */
  predicate ClientOk(w: World, s: nat)
    requires s in w.clients
  {
    var c := w.clients[s];
    match c.phase
    case Dialing => s !in w.live && c.link == Unread(0, 0)
    case Waiting => Sound(w, s, c.link) && Settled(c.link) == (w.primary == Some(s)) && Untouched(c.link) && GrantsFit(w.device, w.role, c)
    case Up => Sound(w, s, c.link) && Settled(c.link) == (w.primary == Some(s))
    case Gone => true
  }

  /** The part of `ClientOk` that survives a change of primary until the notices are out. */
  predicate ClientFit(w: World, s: nat)
    requires s in w.clients
  {
    var c := w.clients[s];
    match c.phase
    case Dialing => s !in w.live && c.link == Unread(0, 0)
    case Waiting => Sound(w, s, c.link) && Untouched(c.link) && GrantsFit(w.device, w.role, c)
    case Up => Sound(w, s, c.link)
    case Gone => true
  }

  predicate Sound(w: World, s: nat, l: Link) {
    !l.dropped && if s in w.live then !Ended(l) else !Settled(l)
  }

  predicate Untouched(l: Link) { !l.flag && l.task.Reading? && l.sent == l.inbox }

  /** A grant on its way to a client that has not read its first answer names that client exactly. */
  predicate GrantsFit(device: nat, role: string, c: Client) {
    forall i :: 0 <= i < |c.link.inbox| && IsGrant(c.link.inbox[i]) ==> Accepts(c.link.inbox[i], device, role, c.election)
  }

  predicate TargetOk(w: World) {
    && w.live <= w.clients.Keys
    && (w.primary.Some? ==> w.primary.value in w.live && w.highest == Some(w.clients[w.primary.value].election))
  }

  predicate LogOk(log: seq<WriteEntry>, highest: Option<nat>) {
    && (forall i, j :: 0 <= i < j < |log| ==> log[i].election <= log[j].election)
    && (forall i :: 0 <= i < |log| ==> highest.Some? && log[i].election <= highest.value)
  }

  lemma LogRaised(log: seq<WriteEntry>, highest: Option<nat>, election: nat)
    requires LogOk(log, highest) && (highest.None? || highest.value <= election)
    ensures LogOk(log, Some(election))
  {
  }

  predicate Inv(w: World) {
    TargetOk(w) && LogOk(w.log, w.highest) && forall s :: s in w.clients ==> ClientOk(w, s)
  }

  lemma PutEffect(c: Client, item: Item)
    requires !Ended(c.link)
    ensures var l, m := c.link, Put(c, item).link;
      && m.dropped == l.dropped && Settled(m) == Stored(Settled(l), item) && Ended(m) == item.End?
      && (Untouched(l) ==> Untouched(m)) && m.inbox == l.inbox + [item]
  {
    SettledDelivered(c.link, item);
    var m := Put(c, item).link;
    if item.End? {
      assert m.sent[|m.sent| - 1].End?;
    }
  }

  /** The notice a client is sent says exactly whether it is the primary, and a grant names it. */
  lemma NoticeEffect(w: World, s: nat, flag: bool)
    requires TargetOk(w)
    ensures !Notice(w, s).End? && Stored(flag, Notice(w, s)) == (w.primary == Some(s))
    ensures IsGrant(Notice(w, s)) <==> w.primary == Some(s)
    ensures IsGrant(Notice(w, s)) ==> Accepts(Notice(w, s), w.device, w.role, w.clients[s].election)
  {
  }

  lemma NotifiedClient(w: World, s: nat)
    requires TargetOk(w) && s in w.clients && ClientFit(w, s)
    ensures ClientOk(NotifyAll(w), s)
  {
    hide Settled, Ended, Stored;
    var c := w.clients[s];
    if s in w.live && c.phase != Gone {
      PutEffect(c, Notice(w, s));
      NoticeEffect(w, s, Settled(c.link));
    }
  }

  lemma NotifyRestores(w: World)
    requires TargetOk(w) && LogOk(w.log, w.highest) && forall s :: s in w.clients ==> ClientFit(w, s)
    ensures Inv(NotifyAll(w))
  {
    hide ClientFit, ClientOk, LogOk;
    var v := NotifyAll(w);
    forall s | s in v.clients
      ensures ClientOk(v, s)
    {
      NotifiedClient(w, s);
    }
    assert v.clients.Keys == w.clients.Keys;
    assert TargetOk(v);
  }

  /** Who is primary matters to a client only through the notices it is sent. */
  lemma FitElsewhere(w: World, v: World, s: nat)
    requires TargetOk(w) && s in w.clients && ClientOk(w, s)
    requires s in v.clients && v.clients[s] == w.clients[s] && v.device == w.device && v.role == w.role
    requires s in v.live <==> s in w.live
    ensures ClientFit(v, s)
    ensures (v.primary == Some(s) <==> w.primary == Some(s)) ==> ClientOk(v, s)
  {
    hide Settled, Ended, Untouched, GrantsFit;
  }

  /** A change to one client concerns that client alone. */
  lemma OneChanged(w: World, s: nat, c: Client)
    requires Inv(w) && (s in w.clients ==> c.election == w.clients[s].election)
    requires s !in w.clients ==> s !in w.live
    requires ClientOk(w.(clients := w.clients[s := c]), s)
    ensures Inv(w.(clients := w.clients[s := c]))
  {
    hide ClientOk, LogOk;
    var v := w.(clients := w.clients[s := c]);
    assert v.clients.Keys == w.clients.Keys + {s};
    assert TargetOk(v);
    forall t | t in v.clients
      ensures ClientOk(v, t)
    {
      if t != s {
        assert ClientOk(w, t);
        FitElsewhere(w, v, t);
      }
    }
  }

  lemma FreshLink()
    ensures !Settled(Unread(0, 0)) && !Ended(Unread(0, 0)) && Untouched(Unread(0, 0)) && !Unread(0, 0).dropped
  {
  }

  /** The target answers a dialing client. */
  lemma ArbitrateKeeps(w: World, s: nat)
    requires Inv(w) && s in w.clients && w.clients[s].phase == Dialing
    ensures Inv(Arbitrated(w, s))
  {
    hide Inv;
    if Taken(w, w.clients[s].election) {
      ArbitrateTaken(w, s);
    } else if w.highest.None? || w.clients[s].election >= w.highest.value {
      ArbitrateWins(w, s);
    } else {
      ArbitrateLoses(w, s);
    }
  }

  lemma ArbitrateTaken(w: World, s: nat)
    requires Inv(w) && s in w.clients && w.clients[s].phase == Dialing && Taken(w, w.clients[s].election)
    ensures Inv(Arbitrated(w, s))
  {
    FreshLink();
    var c := w.clients[s].(phase := Waiting);
    assert ClientOk(w, s);
    PutEffect(c, End("election id in use"));
    hide Settled, Ended, Unread, Inv, Apply;
    OneChanged(w, s, Put(c, End("election id in use")));
  }

  lemma ArbitrateWins(w: World, s: nat)
    requires Inv(w) && s in w.clients && w.clients[s].phase == Dialing && !Taken(w, w.clients[s].election)
    requires w.highest.None? || w.clients[s].election >= w.highest.value
    ensures Inv(Arbitrated(w, s))
  {
    FreshLink();
    var c := w.clients[s].(phase := Waiting);
    var v := w.(clients := w.clients[s := c], live := w.live + {s}, highest := Some(c.election), primary := Some(s));
    LogRaised(w.log, w.highest, c.election);
    hide Settled, Ended, Unread, LogOk;
    forall t | t in v.clients
      ensures ClientFit(v, t)
    {
      if t != s { FitElsewhere(w, v, t); }
    }
    NotifyRestores(v);
  }

  lemma ArbitrateLoses(w: World, s: nat)
    requires Inv(w) && s in w.clients && w.clients[s].phase == Dialing && !Taken(w, w.clients[s].election)
    requires w.highest.Some? && w.clients[s].election < w.highest.value
    ensures Inv(Arbitrated(w, s))
  {
    FreshLink();
    var c := w.clients[s].(phase := Waiting);
    var joined := w.(clients := w.clients[s := c], live := w.live + {s});
    assert TargetOk(joined);
    PutEffect(c, Notice(joined, s));
    NoticeEffect(joined, s, false);
    hide Settled, Ended, Unread;
    var v := Arbitrated(w, s);
    forall t | t in v.clients
      ensures ClientOk(v, t)
    {
      if t != s { FitElsewhere(w, v, t); }
    }
  }

  lemma BreakKeeps(w: World, s: nat, reason: string)
    requires Inv(w) && s in w.live && s in w.clients
    ensures Inv(Broken(w, s, reason))
  {
    var c := w.clients[s];
    if !Ended(c.link) { PutEffect(c, End(reason)); }
    hide Settled, Ended, Unread;
    var cut := w.(live := w.live - {s}, clients := w.clients[s := Put(c, End(reason))]);
    var v := if w.primary == Some(s) then cut.(primary := None) else cut;
    forall t | t in v.clients
      ensures ClientFit(v, t) && (w.primary != Some(s) ==> ClientOk(v, t))
    {
      if t != s { FitElsewhere(w, v, t); }
    }
    if w.primary == Some(s) { NotifyRestores(v); }
  }

  lemma BacklogEnds(l: Link, rest: seq<Item>)
    requires l.sent != [] && rest == l.sent[1..] && exists i :: 0 <= i < |rest| && rest[i].End?
    ensures Ended(l)
  {
    var i :| 0 <= i < |rest| && rest[i].End?;
    assert l.sent[i + 1].End?;
  }

  /** Reading the grant and setting the flag leaves it heading where it was. */
  lemma OpenedEffect(l: Link, highCap: nat, hintCap: nat)
    requires Untouched(l) && l.inbox != [] && IsGrant(l.inbox[0])
    ensures var m := Opened(highCap, hintCap, l.inbox[1..]);
      Settled(m) == Settled(l) && (Ended(m) ==> Ended(l)) && !m.dropped
  {
    var rest := l.inbox[1..];
    var m := Opened(highCap, hintCap, rest);
    assert [] + l.inbox == l.inbox && [] + rest == rest;
    assert Fold(false, l.inbox) == Fold(true, rest);
    hide Fold;
    if Ended(m) {
      BacklogEnds(l, rest);
    }
  }

  lemma ConnectKeeps(w: World, s: nat, highCap: nat, hintCap: nat)
    requires Inv(w) && s in w.clients && w.clients[s].phase == Waiting && w.clients[s].link.inbox != []
    ensures Inv(Connected(w, s, highCap, hintCap))
  {
    var c := w.clients[s];
    assert ClientOk(w, s);
    if Accepts(c.link.inbox[0], w.device, w.role, c.election) {
      OpenedEffect(c.link, highCap, hintCap);
    }
    hide Settled, Ended, Opened, Inv;
    OneChanged(w, s, Connected(w, s, highCap, hintCap).clients[s]);
  }

  lemma LocalEffect(l: Link, step: Step)
    requires Internal(step) && !l.dropped
    ensures var m := Apply(l, step); Settled(m) == Settled(l) && Ended(m) == Ended(l) && !m.dropped
  {
    SettledKept(l, step);
    assert Apply(l, step).sent == l.sent && Apply(l, step).dropped == l.dropped;
  }

  lemma LocalKeeps(w: World, s: nat, step: Step)
    requires Inv(w) && s in w.clients && w.clients[s].phase == Up && Internal(step)
    ensures Inv(Act(w, Local(s, step)))
  {
    assert ClientOk(w, s);
    LocalEffect(w.clients[s].link, step);
    hide Settled, Ended, Apply, Inv;
    OneChanged(w, s, w.clients[s].(link := Apply(w.clients[s].link, step)));
  }

  lemma SendKeeps(w: World, s: nat, message: Message)
    requires Inv(w) && s in w.live && s in w.clients && !message.Arbitration?
    ensures Inv(Act(w, Send(s, message)))
  {
    var c := w.clients[s];
    assert ClientOk(w, s);
    if !Ended(c.link) { PutEffect(c, Msg(message)); }
    hide Settled, Ended, Apply, Inv;
    OneChanged(w, s, Put(c, Msg(message)));
  }

  /** Leaving, a pipeline verdict, local steps of an abandoned task, and dialing. */
  lemma QuietKeeps(w: World, a: Action)
    requires Inv(w) && Act(w, a) != w
    requires a.Dial? || a.GiveUp? || a.Reverify? || a.Close? || (a.Local? && a.s in w.clients && w.clients[a.s].phase == Gone)
    ensures Inv(Act(w, a))
  {
    hide Settled, Ended, Apply;
    var c := Act(w, a).clients[a.s];
    assert Act(w, a) == w.(clients := w.clients[a.s := c]);
    OneChanged(w, a.s, c);
  }

  lemma WireKeeps(w: World, v: World)
    requires Inv(w) && v == w.(wire := v.wire, log := v.log) && LogOk(v.log, v.highest)
    ensures Inv(v)
  {
    hide Settled, Ended;
    forall t | t in v.clients
      ensures ClientOk(v, t)
    {
      assert ClientOk(w, t);
      FitElsewhere(w, v, t);
    }
  }

  lemma LandKeeps(w: World, i: nat)
    requires Inv(w) && i < |w.wire|
    ensures Inv(Landed(w, i))
  {
    hide ClientOk;
    WireKeeps(w, Landed(w, i));
  }

  lemma ActKeeps(w: World, a: Action)
    requires Inv(w)
    ensures Inv(Act(w, a))
  {
    hide ClientOk, Apply;
    if Act(w, a) != w {
      match a
      case Arbitrate(s) => ArbitrateKeeps(w, s);
      case Connect(s, highCap, hintCap) => ConnectKeeps(w, s, highCap, hintCap);
      case Local(s, step) => if w.clients[s].phase == Up { LocalKeeps(w, s, step); } else { QuietKeeps(w, a); }
      case Break(s, reason) => BreakKeeps(w, s, reason);
      case Send(s, message) => SendKeeps(w, s, message);
      case Land(i) => LandKeeps(w, i);
      case Write(s) => WireKeeps(w, Act(w, a));
      case _ => QuietKeeps(w, a);
    }
  }

  lemma {:induction false} PlayKeeps(w: World, actions: seq<Action>)
    requires Inv(w)
    ensures Inv(Play(w, actions))
    decreases |actions|
  {
    if actions != [] {
      ActKeeps(w, actions[0]);
      PlayKeeps(Act(w, actions[0]), actions[1..]);
    }
  }

  lemma Reachable(device: nat, role: string, actions: seq<Action>)
    ensures Inv(Play(Start(device, role), actions))
  {
    PlayKeeps(Start(device, role), actions);
  }

  // ----- what follows for every run -----

  /** The session is in use and its primary flag is set, whatever it thinks of the pipeline. */
  predicate ClaimsPrimary(w: World, s: nat) { s in w.clients && w.clients[s].phase == Up && w.clients[s].link.flag }

  /** A session whose flag is set is the target's primary, or its demotion is still on the way. */
  lemma MastershipSafety(device: nat, role: string, actions: seq<Action>, s: nat)
    requires var w := Play(Start(device, role), actions); ClaimsPrimary(w, s)
    ensures var w := Play(Start(device, role), actions);
      w.primary == Some(s) || exists i :: 0 <= i < |Flight(w.clients[s].link)| && Demotes(Flight(w.clients[s].link)[i])
  {
    Reachable(device, role, actions);
    var w := Play(Start(device, role), actions);
    assert ClientOk(w, s);
    if w.primary != Some(s) {
      DemotionInFlight(Flight(w.clients[s].link));
    }
  }

  /** Two sessions with nothing in flight never both have their flag set. */
  lemma OneQuietPrimary(device: nat, role: string, actions: seq<Action>, s: nat, t: nat)
    requires var w := Play(Start(device, role), actions);
      ClaimsPrimary(w, s) && ClaimsPrimary(w, t) && Flight(w.clients[s].link) == [] == Flight(w.clients[t].link)
    ensures s == t
  {
    MastershipSafety(device, role, actions, s);
    MastershipSafety(device, role, actions, t);
  }

  /** So they never both pass the write gate. */
  lemma OneQuietWriter(device: nat, role: string, actions: seq<Action>, s: nat, t: nat)
    requires var w := Play(Start(device, role), actions);
      MayWrite(w, s) && MayWrite(w, t) && Flight(w.clients[s].link) == [] == Flight(w.clients[t].link)
    ensures s == t
  {
    OneQuietPrimary(device, role, actions, s, t);
  }

  /** Conversely the primary always gets there: with nothing in flight the flag is set exactly for the primary. */
  lemma QuietFlagIsExact(device: nat, role: string, actions: seq<Action>, s: nat)
    requires var w := Play(Start(device, role), actions);
      s in w.clients && w.clients[s].phase == Up && Flight(w.clients[s].link) == []
    ensures var w := Play(Start(device, role), actions);
      w.clients[s].link.flag <==> w.primary == Some(s)
  {
    Reachable(device, role, actions);
    assert ClientOk(Play(Start(device, role), actions), s);
  }

  /** The gate is then open exactly for a primary whose last look at the pipeline found it exact. */
  lemma QuietGateIsExact(device: nat, role: string, actions: seq<Action>, s: nat)
    requires var w := Play(Start(device, role), actions);
      s in w.clients && w.clients[s].phase == Up && Flight(w.clients[s].link) == []
    ensures var w := Play(Start(device, role), actions);
      MayWrite(w, s) <==> w.primary == Some(s) && w.clients[s].exact
  {
    QuietFlagIsExact(device, role, actions, s);
  }

  /** After a session has seen its stream end it never writes again, whatever anybody does. */
  predicate Finished(w: World, s: nat) {
    s in w.clients && (w.clients[s].phase == Gone || (w.clients[s].phase == Up && Over(w.clients[s].link)))
  }

  lemma FinishedStays(w: World, a: Action, s: nat)
    requires Finished(w, s)
    ensures Finished(Act(w, a), s)
  {
  }

  lemma {:induction false} NeverWritesAgain(w: World, actions: seq<Action>, s: nat)
    requires Finished(w, s)
    ensures Finished(Play(w, actions), s) && !MayWrite(Play(w, actions), s)
    decreases |actions|
  {
    if actions != [] {
      FinishedStays(w, actions[0], s);
      NeverWritesAgain(Act(w, actions[0]), actions[1..], s);
    }
  }

  /** A client connects if and only if the first answer it reads is a grant. */
  lemma ConnectsExactly(device: nat, role: string, actions: seq<Action>, s: nat, highCap: nat, hintCap: nat)
    requires var w := Play(Start(device, role), actions);
      s in w.clients && w.clients[s].phase == Waiting && w.clients[s].link.inbox != []
    ensures var w := Play(Start(device, role), actions);
      Connected(w, s, highCap, hintCap).clients[s].phase == Up <==> IsGrant(w.clients[s].link.inbox[0])
  {
    Reachable(device, role, actions);
    assert ClientOk(Play(Start(device, role), actions), s);
  }

  /** Fencing: once a write of a later election is applied, no write of an earlier one is. */
  lemma WritesFenced(device: nat, role: string, actions: seq<Action>)
    ensures var log := Play(Start(device, role), actions).log;
      forall i, j :: 0 <= i < j < |log| ==> log[i].election <= log[j].election
  {
    Reachable(device, role, actions);
  }

  lemma PlayOne(w: World, a: Action, rest: seq<Action>)
    ensures Play(w, [a] + rest) == Play(Act(w, a), rest)
  {
    hide Act;
    assert ([a] + rest)[1..] == rest;
  }

  lemma PlayThree(w: World, a: Action, b: Action, c: Action, rest: seq<Action>)
    ensures Play(w, [a, b, c] + rest) == Play(Act(Act(Act(w, a), b), c), rest)
  {
    hide Act;
    PlayOne(w, a, [b, c] + rest);
    PlayOne(Act(w, a), b, [c] + rest);
    PlayOne(Act(Act(w, a), b), c, rest);
    hide Play;
    assert [a, b, c] + rest == [a] + ([b, c] + rest) && [b, c] + rest == [b] + ([c] + rest);
  }

  /** One client dials with election `e` and wins. */
  lemma WinsAndConnects(w: World, s: nat, e: nat, highCap: nat, hintCap: nat)
    requires s !in w.clients && s !in w.live && !Taken(w, e) && (w.highest.None? || w.highest.value <= e)
    ensures var v := Act(Act(Act(w, Dial(s, e)), Arbitrate(s)), Connect(s, highCap, hintCap));
      && v.primary == Some(s) && MayWrite(v, s) && v.highest == Some(e) && v.live == w.live + {s}
      && v.clients[s].election == e && v.clients.Keys == w.clients.Keys + {s}
    ensures var v := Act(Act(Act(w, Dial(s, e)), Arbitrate(s)), Connect(s, highCap, hintCap));
      forall t :: t in w.clients ==> v.clients[t] == if t in w.live then Put(w.clients[t], Notice(v, t)) else w.clients[t]
  {
    var a := Act(w, Dial(s, e));
    assert !Taken(a, e) by {
      assert forall t :: t in w.live && t in a.clients ==> t in w.clients && a.clients[t] == w.clients[t];
    }
    var b := Act(a, Arbitrate(s));
    assert b.clients[s].link.inbox == [Notice(b, s)];
    var v := Act(b, Connect(s, highCap, hintCap));
    assert v.device == b.device && v.role == b.role && v.highest == b.highest && v.primary == b.primary;
    assert v.clients.Keys == w.clients.Keys + {s};
  }

  /** The window is real: a session that has just lost mastership still passes its own gate until the notice is read. */
  lemma StaleWindow(device: nat, role: string)
    ensures var w := Play(Start(device, role),
        [Dial(0, 1), Arbitrate(0), Connect(0, 1, 1), Dial(1, 2), Arbitrate(1), Connect(1, 1, 1)]);
      w.primary == Some(1) && MayWrite(w, 0) && MayWrite(w, 1)
  {
    hide Act, Play;
    var start := Start(device, role);
    var one := Act(Act(Act(start, Dial(0, 1)), Arbitrate(0)), Connect(0, 1, 1));
    var two := Act(Act(Act(one, Dial(1, 2)), Arbitrate(1)), Connect(1, 1, 1));
    FirstWins(device, role);
    SecondWins(one);
    PlayThree(start, Dial(0, 1), Arbitrate(0), Connect(0, 1, 1), [Dial(1, 2), Arbitrate(1), Connect(1, 1, 1)]);
    PlayThree(one, Dial(1, 2), Arbitrate(1), Connect(1, 1, 1), []);
    assert [Dial(1, 2), Arbitrate(1), Connect(1, 1, 1)] + [] == [Dial(1, 2), Arbitrate(1), Connect(1, 1, 1)];
    assert [Dial(0, 1), Arbitrate(0), Connect(0, 1, 1)] + [Dial(1, 2), Arbitrate(1), Connect(1, 1, 1)]
      == [Dial(0, 1), Arbitrate(0), Connect(0, 1, 1), Dial(1, 2), Arbitrate(1), Connect(1, 1, 1)];
    PlayNothing(two);
  }

  lemma PlayNothing(w: World)
    ensures Play(w, []) == w
  {
  }

  predicate OneUp(w: World) {
    w.clients.Keys == {0} && w.live == {0} && w.highest == Some(1) && w.clients[0].election == 1 && MayWrite(w, 0)
  }

  lemma FirstWins(device: nat, role: string)
    ensures OneUp(Act(Act(Act(Start(device, role), Dial(0, 1)), Arbitrate(0)), Connect(0, 1, 1)))
  {
    hide Act;
    WinsAndConnects(Start(device, role), 0, 1, 1, 1);
  }

  lemma SecondWins(w: World)
    requires OneUp(w)
    ensures var v := Act(Act(Act(w, Dial(1, 2)), Arbitrate(1)), Connect(1, 1, 1));
      v.primary == Some(1) && MayWrite(v, 0) && MayWrite(v, 1)
  {
    hide Act, Notice;
    WinsAndConnects(w, 1, 2, 1, 1);
  }
}
