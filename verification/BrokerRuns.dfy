/**
  * Runs of the broker: sockets that begin, get replies, fail and close, over an
  * app-server whose turns complete at any time. The world remembers what the
  * ownership object cannot see: which turns are live, and which request of which
  * socket is still awaiting its reply.
  */
module BrokerRuns {
  import opened Wrappers
  import opened TurnOwnership

  type TurnId = nat

  /** A turn the app-server runs for a socket; its completion names `thread`. */
  datatype Turn = Turn(socket: Socket, id: TurnId, thread: ThreadId)

  /**
    * A request between `beginRequest` and its reply. `released` records that the
    * broker no longer counts it: the socket's own parked turn completed, or the
    * socket closed, while a plain request was in flight. `previous` is the turn
    * the streaming request pushed aside.
    */
  datatype Flight =
    | Plain(released: bool)
    | Streaming(turn: TurnId, thread: ThreadId, expected: Option<set<ThreadId>>, previous: Option<Turn>)

  /**
    * `live`: the turns begun through the broker and not over yet, with their threads.
    * `newest`: the newest of them, until it completes, fails, or its socket closes.
    */
  datatype World = World(
    own: Ownership,
    flights: map<Socket, Flight>,
    closed: set<Socket>,
    live: map<TurnId, ThreadId>,
    newest: Option<Turn>)

  /**
    * `TurnCompleted` may be about any turn, one that nobody began through the broker included, and may name no thread.
    */
  datatype Event =
    | BeginPlain(socket: Socket)
    | BeginTurn(socket: Socket, turn: TurnId, thread: ThreadId, expected: Option<set<ThreadId>>)
    | Reply(socket: Socket, ids: set<ThreadId>)
    | Reject(socket: Socket)
    | TurnCompleted(turn: TurnId, threadId: Option<ThreadId>)
    | Close(socket: Socket)

  const START := World(IDLE, map[], {}, map[], None)

  /**
    * What can happen at all. The broker keeps to the busy gate and to serial requests
    * of one socket, a closed one with buffered lines included; the app-server hands out
    * a turn once and completes it on its own thread; a reply's ids name the turn's thread.
    */
  predicate Allowed(w: World, e: Event) {
    match e
    case BeginPlain(s) => MayBegin(w, s)
    case BeginTurn(s, u, t, _) => MayBegin(w, s) && u !in w.live && t != ""
    case Reply(s, ids) => s in w.flights && (w.flights[s].Streaming? ==> w.flights[s].thread in ids)
    case Reject(s) => s in w.flights
    case TurnCompleted(u, threadId) => u in w.live ==> threadId == Some(w.live[u])
    case Close(s) => true
  }

  predicate MayBegin(w: World, s: Socket) {
    s !in w.flights && !w.own.IsBusyFor(s)
  }

  /** Does `s` await the reply to a streaming request? */
  predicate AwaitsTurn(w: World, s: Socket) {
    s in w.flights && w.flights[s].Streaming?
  }

  /** The turn that ownership takes a completion for, if it takes it for one. */
  function Credited(w: World, threadId: Option<ThreadId>): Option<TurnId> {
    var target := w.own.NotificationTarget();
    if target.None? || !w.own.Accounts(target.value, threadId) then None
    else if AwaitsTurn(w, target.value) then
      var f := w.flights[target.value];
      if w.own.BelongsToSuperseded(threadId) then IdOf(f.previous)
      else if w.own.claim.Some? && w.own.claim.value.completed then None
      else Some(f.turn)
    else IdOf(w.newest)
  }

  function IdOf(t: Option<Turn>): Option<TurnId> {
    if t.Some? then Some(t.value.id) else None
  }

  /** A turn that ownership holds for live: the newest, or the one a streaming request in flight pushed aside. */
  predicate Tracked(w: World, u: TurnId) {
    || IdOf(w.newest) == Some(u)
    || (&& w.own.superseded.Some? && w.own.stream.Some? && AwaitsTurn(w, w.own.stream.value)
        && IdOf(w.flights[w.own.stream.value].previous) == Some(u))
  }

  /**
    * The three environment steps after which ownership no longer matches the
    * app-server: a socket that closes with its streaming request in flight, a plain
    * request of the stream's owner that is rejected, and a completion that is
    * credited to a turn it is not of, or not to the tracked turn it is of.
    */
  predicate Careful(w: World, e: Event) {
    match e
    case Close(s) => !AwaitsTurn(w, s)
    case Reject(s) => AwaitsTurn(w, s) || w.own.stream != Some(s)
    case TurnCompleted(u, threadId) => Credited(w, threadId) == if Tracked(w, u) then Some(u) else None
    case _ => true
  }

  function StillLive(t: Option<Turn>, live: map<TurnId, ThreadId>): Option<Turn> {
    if t.Some? && t.value.id in live then t else None
  }

  function Apply(w: World, e: Event): World {
    match e
    case BeginPlain(s) =>
      w.(own := w.own.Begin(s, false, None), flights := w.flights[s := Plain(false)])
    case BeginTurn(s, u, t, expected) =>
      w.(own := w.own.Begin(s, true, expected),
         flights := w.flights[s := Streaming(u, t, expected, w.newest)],
         live := w.live[u := t],
         newest := Some(Turn(s, u, t)))
    case Reply(s, ids) =>
      var streaming := AwaitsTurn(w, s);
      w.(own := w.own.Settle(s, streaming, if streaming then Some(ids) else None), flights := w.flights - {s})
    case Reject(s) =>
      var w' := w.(own := w.own.Fail(s), flights := w.flights - {s});
      if !AwaitsTurn(w, s) then w' else
        var live := w.live - {w.flights[s].turn};
        w'.(live := live, newest := StillLive(w.flights[s].previous, live))
    case TurnCompleted(u, threadId) =>
      w.(own := w.own.RouteCompleted(threadId),
         flights := if IdOf(w.newest) == Some(u) then Uncount(w.flights, w.newest.value.socket) else w.flights,
         live := w.live - {u},
         newest := StillLive(w.newest, w.live - {u}))
    case Close(s) =>
      w.(own := w.own.Release(s),
         flights := Uncount(w.flights, s),
         closed := w.closed + {s},
         newest := if w.newest.Some? && w.newest.value.socket == s then None else w.newest)
  }

  /** A plain request of `s` that is in flight is no longer counted. */
  function Uncount(flights: map<Socket, Flight>, s: Socket): map<Socket, Flight> {
    if s in flights && flights[s].Plain? then flights[s := Plain(true)] else flights
  }

  predicate AllowedRun(w: World, es: seq<Event>)
    decreases |es|
  {
    es == [] || (Allowed(w, es[0]) && AllowedRun(Apply(w, es[0]), es[1..]))
  }

  predicate CarefulRun(w: World, es: seq<Event>)
    decreases |es|
  {
    es == [] || (Careful(w, es[0]) && CarefulRun(Apply(w, es[0]), es[1..]))
  }

  function Final(w: World, es: seq<Event>): World
    decreases |es|
  {
    if es == [] then w else Final(Apply(w, es[0]), es[1..])
  }

  // ---------------------------------------------------------------- the invariant

  /** `s` has a request in flight that the broker counts. */
  predicate Occupies(w: World, s: Socket) {
    s in w.flights && !(w.flights[s].Plain? && w.flights[s].released)
  }

  predicate IsLive(w: World, t: Turn) {
    t.id in w.live && w.live[t.id] == t.thread
  }

  /** How the five variables mirror the world. */
  ghost predicate Inv(w: World) {
    && (w.newest.Some? ==> IsLive(w, w.newest.value))
    && InvRequest(w)
    && (if w.own.claim.Some? then InvProvisional(w) else InvParked(w))
  }

  /** The request slot is exactly the counted request in flight, and a streaming one holds the claim. */
  ghost predicate InvRequest(w: World) {
    && (forall s: Socket :: Occupies(w, s) ==> w.own.request == Some(s))
    && (w.own.request.Some? ==> Occupies(w, w.own.request.value))
    && (forall s: Socket :: AwaitsTurn(w, s) ==> w.own.ClaimedBy(s))
  }

  ghost predicate InvProvisional(w: World)
    requires w.own.claim.Some?
  {
    var c := w.own.claim.value;
    && w.own.stream == Some(c.socket) && w.own.request == Some(c.socket) && w.own.streamIds.None?
    && AwaitsTurn(w, c.socket)
    && var f := w.flights[c.socket];
    && (f.turn in w.live ==> w.live[f.turn] == f.thread)
    && c.completed == (f.turn !in w.live)
    && w.newest == (if f.turn in w.live then Some(Turn(c.socket, f.turn, f.thread)) else None)
    && (if w.own.superseded.Some?
        then && f.previous.Some? && f.previous.value.socket == c.socket
             && IsLive(w, f.previous.value) && f.previous.value.id != f.turn
             && w.own.superseded.value.socket == c.socket
             && Has(w.own.superseded.value.threadIds, f.previous.value.thread)
        else (f.previous.Some? ==> f.previous.value.id !in w.live))
  }

  ghost predicate InvParked(w: World) {
    && w.own.superseded.None?
    && (w.own.stream.None? ==> w.own.streamIds.None? && w.newest.None?)
    && (w.own.stream.Some? ==>
          && w.newest.Some? && w.newest.value.socket == w.own.stream.value
          && Has(w.own.streamIds, w.newest.value.thread)
          && (w.own.request.Some? ==> w.own.request == w.own.stream))
  }

  lemma BeginsKeepInv(w: World, e: Event)
    requires Inv(w) && Allowed(w, e) && (e.BeginPlain? || e.BeginTurn?)
    ensures Inv(Apply(w, e))
  {
    var w' := Apply(w, e);
    assert forall s: Socket :: AwaitsTurn(w', s) <==> AwaitsTurn(w, s) || (e.BeginTurn? && s == e.socket);
    assert forall s: Socket :: Occupies(w', s) <==> Occupies(w, s) || s == e.socket;
  }

  lemma ReplyKeepsInv(w: World, e: Event)
    requires Inv(w) && Allowed(w, e) && e.Reply?
    ensures Inv(Apply(w, e))
  {
    var w' := Apply(w, e);
    assert forall s: Socket :: AwaitsTurn(w', s) <==> AwaitsTurn(w, s) && s != e.socket;
    assert forall s: Socket :: Occupies(w', s) <==> Occupies(w, s) && s != e.socket;
  }

  lemma RejectKeepsInvIff(w: World, e: Event)
    requires Inv(w) && Allowed(w, e) && e.Reject?
    ensures Inv(Apply(w, e)) <==> Careful(w, e)
  {
    var w' := Apply(w, e);
    assert forall s: Socket :: AwaitsTurn(w', s) <==> AwaitsTurn(w, s) && s != e.socket;
    assert forall s: Socket :: Occupies(w', s) <==> Occupies(w, s) && s != e.socket;
  }

  lemma CloseKeepsInvIff(w: World, e: Event)
    requires Inv(w) && e.Close?
    ensures Inv(Apply(w, e)) <==> Careful(w, e)
  {
    var w' := Apply(w, e);
    assert forall s: Socket :: AwaitsTurn(w', s) <==> AwaitsTurn(w, s);
    assert forall s: Socket :: Occupies(w', s) <==> Occupies(w, s) && (s != e.socket || AwaitsTurn(w, s));
  }

  lemma CompletionKeepsInvIff(w: World, e: Event)
    requires Inv(w) && Allowed(w, e) && e.TurnCompleted?
    ensures Inv(Apply(w, e)) <==> Careful(w, e)
  {
    var w' := Apply(w, e);
    var ends := IdOf(w.newest) == Some(e.turn);
    assert forall s: Socket :: AwaitsTurn(w', s) <==> AwaitsTurn(w, s);
    assert forall s: Socket :: Occupies(w', s) <==>
        Occupies(w, s) && !(ends && s == w.newest.value.socket && w.flights[s].Plain?);
  }

  /** Every step that is possible keeps the invariant if and only if it is careful. */
  lemma StepKeepsInvIffCareful(w: World, e: Event)
    requires Inv(w) && Allowed(w, e)
    ensures Inv(Apply(w, e)) <==> Careful(w, e)
  {
    hide Inv;
    match e
    case BeginPlain(_) => BeginsKeepInv(w, e);
    case BeginTurn(_, _, _, _) => BeginsKeepInv(w, e);
    case Reply(_, _) => ReplyKeepsInv(w, e);
    case Reject(_) => RejectKeepsInvIff(w, e);
    case TurnCompleted(_, _) => CompletionKeepsInvIff(w, e);
    case Close(_) => CloseKeepsInvIff(w, e);
  }

  lemma {:induction false} CarefulRunKeepsInv(w: World, es: seq<Event>)
    requires Inv(w) && AllowedRun(w, es) && CarefulRun(w, es)
    ensures Inv(Final(w, es))
    decreases |es|
  {
    if es != [] {
      StepKeepsInvIffCareful(w, es[0]);
      CarefulRunKeepsInv(Apply(w, es[0]), es[1..]);
    }
  }

  // ---------------------------------------------------------------- which requests are counted

  /** The step after which a plain request of `s`, still in flight, no longer counts. */
  predicate Uncounts(w: World, e: Event, s: Socket) {
    && s in w.flights && w.flights[s] == Plain(false)
    && match e
       case TurnCompleted(u, _) => w.newest.Some? && w.newest.value.id == u && w.newest.value.socket == s
       case Close(b) => b == s
       case _ => false
  }

  /** No request that is in flight goes uncounted. */
  ghost predicate AllCounted(w: World) {
    forall s: Socket :: s in w.flights ==> Occupies(w, s)
  }

  /** A counted request goes uncounted in no other way, and an uncounted one stays so until its answer. */
  lemma StepUncountsIff(w: World, e: Event, s: Socket)
    requires Allowed(w, e) && s in w.flights && s in Apply(w, e).flights
    ensures !Occupies(Apply(w, e), s) <==> !Occupies(w, s) || Uncounts(w, e, s)
  {
  }

  /** So every request counts after a careful step if and only if the step uncounts none. */
  lemma StepKeepsAllCountedIff(w: World, e: Event)
    requires Allowed(w, e) && AllCounted(w)
    ensures AllCounted(Apply(w, e)) <==> forall s: Socket :: !Uncounts(w, e, s)
  {
    hide Allowed;
    var w' := Apply(w, e);
    forall s: Socket | s in w.flights && s in w'.flights
      ensures !Occupies(w', s) <==> Uncounts(w, e, s)
    {
      StepUncountsIff(w, e, s);
    }
    if s: Socket :| Uncounts(w, e, s) {
      assert s in w'.flights && !Occupies(w', s);
    }
    assert forall s: Socket :: s in w'.flights && s !in w.flights ==> Occupies(w', s);
  }

  /** Two sockets with requests in flight at once: one of them has a request that ownership has lost count of. */
  lemma TwoInFlightMeansUncounted(es: seq<Event>, s: Socket, b: Socket)
    requires AllowedRun(START, es) && CarefulRun(START, es) && s != b
    ensures var w := Final(START, es);
      s in w.flights && b in w.flights ==> w.flights[s] == Plain(true) || w.flights[b] == Plain(true)
  {
    CarefulRunKeepsInv(START, es);
    var w := Final(START, es);
    assert Occupies(w, s) ==> w.own.request == Some(s);
    assert Occupies(w, b) ==> w.own.request == Some(b);
  }

  // ---------------------------------------------------------------- what every careful run guarantees

  /** The requests a statement is about: all that are in flight, or those that are counted. */
  datatype Scope = InFlight | Counted

  predicate Requests(w: World, scope: Scope, s: Socket) {
    s in w.flights && (scope.Counted? ==> Occupies(w, s))
  }

  /** When the app-server is taken for `b`, said about requests and turns only. */
  ghost predicate Taken(w: World, scope: Scope, b: Socket) {
    || (exists s: Socket :: s != b && Requests(w, scope, s))
    || AwaitsTurn(w, b)
    || (w.newest.Some? && w.newest.value.socket != b)
  }

  /** At most one socket appears across request, stream, claim and superseded stream. */
  ghost predicate OneSocket(o: Ownership) {
    exists s: Socket :: NoOtherSocket(o, s)
  }

  predicate NoOtherSocket(o: Ownership, s: Socket) {
    && (o.request.Some? ==> o.request.value == s)
    && (o.stream.Some? ==> o.stream.value == s)
    && (o.claim.Some? ==> o.claim.value.socket == s)
    && (o.superseded.Some? ==> o.superseded.value.socket == s)
  }

  /** The gate refuses exactly the sockets for which the app-server is taken. */
  ghost predicate GateIsExact(w: World, scope: Scope) {
    forall b: Socket :: w.own.IsBusyFor(b) <==> Taken(w, scope, b)
  }

  /**
    * Whom messages concern: the owner of the live newest turn or, without one, the socket whose request is in flight.
    */
  predicate Concerns(w: World, scope: Scope, b: Socket) {
    if w.newest.Some? then b == w.newest.value.socket else Requests(w, scope, b)
  }

  /** Notifications and server requests go to whom they concern, and to nobody when they concern nobody. */
  ghost predicate MessagesAreRouted(w: World, scope: Scope) {
    forall b: Socket ::
      && (w.own.NotificationTarget() == Some(b) <==> Concerns(w, scope, b))
      && (w.own.ServerRequestTarget() == Some(b) <==> Concerns(w, scope, b))
  }

  /** Turn control is open to exactly the other sockets while the newest turn is live and no request is in flight. */
  ghost predicate ControlIsExact(w: World, scope: Scope) {
    forall b: Socket :: w.own.CanRunTurnControl(b) <==>
      w.newest.Some? && b != w.newest.value.socket && forall s: Socket :: !Requests(w, scope, s)
  }

  /** With no request and no newest turn, all five variables are empty. */
  ghost predicate IdleWhenQuiet(w: World, scope: Scope) {
    w.newest.None? && (forall s: Socket :: !Requests(w, scope, s)) ==> w.own == IDLE
  }

  ghost predicate Right(w: World, scope: Scope) {
    && OneSocket(w.own) && GateIsExact(w, scope) && IdleWhenQuiet(w, scope)
    && MessagesAreRouted(w, scope) && ControlIsExact(w, scope)
  }

  /** What the scope asks for: without it a request in flight may be one that nobody is refused for. */
  ghost predicate Covers(w: World, scope: Scope) {
    scope.InFlight? ==> AllCounted(w)
  }

  lemma InvMeansRight(w: World, scope: Scope)
    requires Inv(w) && Covers(w, scope)
    ensures Right(w, scope)
  {
    var s := if w.own.request.Some? then w.own.request.value else if w.own.stream.Some? then w.own.stream.value else 0;
    assert NoOtherSocket(w.own, s);
    assert forall b: Socket :: Requests(w, scope, b) <==> Occupies(w, b);
    if w.own.request.Some? {
      assert Occupies(w, w.own.request.value);
    }
    assert forall b: Socket :: AwaitsTurn(w, b) ==> w.own.ClaimedBy(b);
    assert w.own.claim.Some? ==> AwaitsTurn(w, w.own.claim.value.socket) && Occupies(w, w.own.claim.value.socket);
  }

  /**
    * Every careful run, of any length and interleaving: at most one socket appears in ownership, and the busy gate
    * refuses a socket exactly when another socket's counted request is in flight, its own turn awaits its reply, or
    * the newest turn is live and someone else's.
    */
  lemma BusyExactlyWhenTaken(es: seq<Event>, b: Socket)
    requires AllowedRun(START, es) && CarefulRun(START, es)
    ensures var w := Final(START, es); OneSocket(w.own) && (w.own.IsBusyFor(b) <==> Taken(w, Counted, b))
  {
    CarefulRunKeepsInv(START, es);
    InvMeansRight(Final(START, es), Counted);
  }

  /** While the newest turn is live, every other socket is refused, and both kinds of message go to the turn's owner. */
  lemma LiveTurnIsProtected(es: seq<Event>, b: Socket)
    requires AllowedRun(START, es) && CarefulRun(START, es)
    requires Final(START, es).newest.Some?
    ensures var w := Final(START, es); var owner := w.newest.value.socket;
      && (b != owner ==> w.own.IsBusyFor(b))
      && w.own.NotificationTarget() == Some(owner)
      && w.own.ServerRequestTarget() == Some(owner)
      && (w.own.CanRunTurnControl(b) <==> b != owner && forall s: Socket :: !Requests(w, Counted, s))
  {
    CarefulRunKeepsInv(START, es);
    InvMeansRight(Final(START, es), Counted);
  }

  /**
    * Whatever is going on: notifications and server requests both go to the owner of the live newest turn, or else to
    * the socket whose counted request is in flight, or else nowhere; and turn control is open to a socket if and only
    * if the newest turn is live and another's, and no counted request is in flight.
    */
  lemma MessagesGoWhereTheyConcern(es: seq<Event>, b: Socket)
    requires AllowedRun(START, es) && CarefulRun(START, es)
    ensures var w := Final(START, es);
      var concerned := if w.newest.Some? then b == w.newest.value.socket else Requests(w, Counted, b);
      && (w.own.NotificationTarget() == Some(b) <==> concerned)
      && (w.own.ServerRequestTarget() == Some(b) <==> concerned)
      && (w.own.CanRunTurnControl(b) <==>
            w.newest.Some? && b != w.newest.value.socket && forall s: Socket :: !Requests(w, Counted, s))
  {
    CarefulRunKeepsInv(START, es);
    InvMeansRight(Final(START, es), Counted);
  }

  /** No wedge: with no counted request in flight and no live newest turn, all five variables are empty again. */
  lemma QuietBrokerIsIdle(es: seq<Event>)
    requires AllowedRun(START, es) && CarefulRun(START, es)
    requires Final(START, es).newest.None? && forall s: Socket :: !Requests(Final(START, es), Counted, s)
    ensures Final(START, es).own == IDLE
  {
    CarefulRunKeepsInv(START, es);
    InvMeansRight(Final(START, es), Counted);
  }

  // ---------------------------------------------------------------- and only careful runs

  /** Right as it is, and right after whatever reply the request that awaits a turn gets. */
  ghost predicate RightThroughReply(w: World, scope: Scope) {
    && Right(w, scope)
    && forall s: Socket | AwaitsTurn(w, s) ::
         && Right(Apply(w, Reject(s)), scope)
         && forall ids: set<ThreadId> | w.flights[s].thread in ids :: Right(Apply(w, Reply(s, ids)), scope)
  }

  ghost predicate RightThroughout(w: World, es: seq<Event>, scope: Scope)
    decreases |es|
  {
    RightThroughReply(w, scope) && (es == [] || RightThroughout(Apply(w, es[0]), es[1..], scope))
  }

  /** Each step is careful and, if all requests are meant, leaves every request in flight counted. */
  ghost predicate Attentive(w: World, e: Event, scope: Scope) {
    Careful(w, e) && (scope.InFlight? ==> forall s: Socket :: !Uncounts(w, e, s))
  }

  ghost predicate AttentiveRun(w: World, es: seq<Event>, scope: Scope)
    decreases |es|
  {
    es == [] || (Attentive(w, es[0], scope) && AttentiveRun(Apply(w, es[0]), es[1..], scope))
  }

  lemma InvMeansRightThroughReply(w: World, scope: Scope)
    requires Inv(w) && Covers(w, scope)
    ensures RightThroughReply(w, scope)
  {
    InvMeansRight(w, scope);
    hide Inv, Right;
    forall s: Socket | AwaitsTurn(w, s)
      ensures Right(Apply(w, Reject(s)), scope)
    {
      RejectKeepsInvIff(w, Reject(s));
      InvMeansRight(Apply(w, Reject(s)), scope);
    }
    forall s: Socket, ids: set<ThreadId> | AwaitsTurn(w, s) && w.flights[s].thread in ids
      ensures Right(Apply(w, Reply(s, ids)), scope)
    {
      ReplyKeepsInv(w, Reply(s, ids));
      InvMeansRight(Apply(w, Reply(s, ids)), scope);
    }
  }

  /** Nobody is refused although the app-server is taken for `b`. */
  lemma NotRight(w: World, scope: Scope, b: Socket)
    requires Taken(w, scope, b) && !w.own.IsBusyFor(b)
    ensures !Right(w, scope)
  {
  }

  lemma CarelessCloseShows(w: World, e: Event, scope: Scope)
    requires Inv(w) && e.Close? && !Careful(w, e)
    ensures !RightThroughReply(Apply(w, e), scope)
  {
    var w', s := Apply(w, e), e.socket;
    assert AwaitsTurn(w', s) && Requests(w', scope, s);
    NotRight(w', scope, s + 1);
  }

  lemma CarelessRejectShows(w: World, e: Event, scope: Scope)
    requires Inv(w) && Allowed(w, e) && e.Reject? && !Careful(w, e)
    ensures !RightThroughReply(Apply(w, e), scope)
  {
    assert Occupies(w, e.socket) ==> w.own.request == Some(e.socket);
    NotRight(Apply(w, e), scope, e.socket + 1);
  }

  /** A parked stream that is released by a completion which is not its turn's. */
  lemma ForeignReleaseShows(w: World, e: Event, scope: Scope)
    requires Inv(w) && Allowed(w, e) && e.TurnCompleted? && !Careful(w, e) && w.own.claim.None?
    ensures !RightThroughReply(Apply(w, e), scope)
  {
    assert forall s: Socket :: !AwaitsTurn(w, s);
    NotRight(Apply(w, e), scope, w.own.stream.value + 1);
  }

  /** A claim that is marked completed, or a superseded stream that is retired or kept, by the wrong completion. */
  lemma MiscreditInWindowShows(w: World, e: Event, scope: Scope)
    requires Inv(w) && Covers(w, scope)
    requires Allowed(w, e) && e.TurnCompleted? && !Careful(w, e) && w.own.claim.Some?
    ensures !RightThroughReply(Apply(w, e), scope)
  {
    var w', s := Apply(w, e), w.own.claim.value.socket;
    var f := w.flights[s];
    assert AwaitsTurn(w', s) && w'.flights[s] == f;
    if Credited(w, e.threadId) == Some(f.turn) {
      var after := Apply(w', Reply(s, {f.thread}));
      NotRight(after, scope, s + 1);
    } else {
      var after := Apply(w', Reject(s));
      if w.own.BelongsToSuperseded(e.threadId) {
        NotRight(after, scope, s + 1);
      } else {
        KeptForDeadTurn(w, e, after, scope);
      }
    }
  }

  /** The superseded stream comes back although its turn completed while the claim was already marked. */
  lemma KeptForDeadTurn(w: World, e: Event, after: World, scope: Scope)
    requires Inv(w) && Covers(w, scope)
    requires Allowed(w, e) && e.TurnCompleted? && !Careful(w, e) && w.own.claim.Some?
    requires Credited(w, e.threadId) == None
    requires after == Apply(Apply(w, e), Reject(w.own.claim.value.socket))
    ensures !Right(after, scope)
  {
    var s := w.own.claim.value.socket;
    assert forall x: Socket :: Occupies(w, x) ==> x == s;
    assert forall x: Socket :: !Requests(after, scope, x) by {
      assert forall x: Socket :: Requests(after, scope, x) ==> Occupies(w, x);
    }
    assert !AwaitsTurn(after, s + 1) by {
      assert AwaitsTurn(after, s + 1) ==> Occupies(after, s + 1) && Requests(after, scope, s + 1);
    }
    assert after.own.IsBusyFor(s + 1) && !Taken(after, scope, s + 1);
  }

  lemma CarelessStepShows(w: World, e: Event, scope: Scope)
    requires Inv(w) && Covers(w, scope) && Allowed(w, e) && !Careful(w, e)
    ensures !RightThroughReply(Apply(w, e), scope)
  {
    hide Inv, RightThroughReply;
    match e
    case Close(_) => CarelessCloseShows(w, e, scope);
    case Reject(_) => CarelessRejectShows(w, e, scope);
    case TurnCompleted(_, _) =>
      if w.own.claim.None? {
        ForeignReleaseShows(w, e, scope);
      } else {
        MiscreditInWindowShows(w, e, scope);
      }
    case _ =>
  }

  /** A careful step that uncounts a request leaves it in flight with nobody refused, turn control aside. */
  lemma UncountedRequestShows(w: World, e: Event, s: Socket, b: Socket)
    requires Inv(w) && Allowed(w, e) && Careful(w, e) && Uncounts(w, e, s)
    ensures var w' := Apply(w, e); s in w'.flights && w'.own == IDLE && (b !in w'.flights ==> MayBegin(w', b))
    ensures !RightThroughReply(Apply(w, e), InFlight)
  {
    assert Occupies(w, s) && w.own.request == Some(s);
    var w' := Apply(w, e);
    assert Requests(w', InFlight, s);
    NotRight(w', InFlight, s + 1);
  }

  /** A step keeps what the scope asks for if and only if it is attentive. */
  lemma AttentiveStepIff(w: World, e: Event, scope: Scope)
    requires Inv(w) && Covers(w, scope) && Allowed(w, e)
    ensures Inv(Apply(w, e)) && Covers(Apply(w, e), scope) <==> Attentive(w, e, scope)
    ensures !Attentive(w, e, scope) ==> !RightThroughReply(Apply(w, e), scope)
  {
    StepKeepsInvIffCareful(w, e);
    if scope.InFlight? {
      StepKeepsAllCountedIff(w, e);
    }
    hide Inv, Right, RightThroughReply, Careful, AllCounted, Uncounts, Allowed, Apply;
    if !Careful(w, e) {
      CarelessStepShows(w, e, scope);
    } else if !Attentive(w, e, scope) {
      var s: Socket :| Uncounts(w, e, s);
      UncountedRequestShows(w, e, s, s);
    }
  }

  /**
    * Every run that is possible at all: ownership is right after each of its steps, and through the reply that any
    * step leaves outstanding, if and only if the run is attentive.
    */
  lemma {:induction false} RightThroughoutIffAttentive(w: World, es: seq<Event>, scope: Scope)
    requires Inv(w) && Covers(w, scope) && AllowedRun(w, es)
    ensures RightThroughout(w, es, scope) <==> AttentiveRun(w, es, scope)
    decreases |es|
  {
    InvMeansRightThroughReply(w, scope);
    hide Inv, RightThroughReply, Attentive, Covers, Allowed, Apply;
    if es != [] {
      var w' := Apply(w, es[0]);
      AttentiveStepIff(w, es[0], scope);
      if Attentive(w, es[0], scope) {
        RightThroughoutIffAttentive(w', es[1..], scope);
      }
    }
  }

  lemma {:induction false} CountedRunIsCareful(w: World, es: seq<Event>)
    ensures AttentiveRun(w, es, Counted) <==> CarefulRun(w, es)
    decreases |es|
  {
    if es != [] {
      CountedRunIsCareful(Apply(w, es[0]), es[1..]);
    }
  }

  /** As far as the requests go that the broker counts, ownership is right throughout exactly the careful runs. */
  lemma BrokerIsRightIffCareful(es: seq<Event>)
    requires AllowedRun(START, es)
    ensures RightThroughout(START, es, Counted) <==> CarefulRun(START, es)
  {
    RightThroughoutIffAttentive(START, es, Counted);
    CountedRunIsCareful(START, es);
  }

  /**
    * For every request that is really in flight it is right throughout exactly the careful runs in which no step
    * uncounts one: no turn of a socket completes, and no socket closes, while its plain request is in flight.
    */
  lemma BrokerIsExclusiveIffAttentive(es: seq<Event>)
    requires AllowedRun(START, es)
    ensures RightThroughout(START, es, InFlight) <==> AttentiveRun(START, es, InFlight)
  {
    RightThroughoutIffAttentive(START, es, InFlight);
  }

  lemma {:induction false} AttentiveRunCountsAll(w: World, es: seq<Event>)
    requires Inv(w) && AllCounted(w) && AllowedRun(w, es) && AttentiveRun(w, es, InFlight)
    ensures Inv(Final(w, es)) && AllCounted(Final(w, es))
    decreases |es|
  {
    hide Inv, AllCounted, Attentive, Allowed, Apply;
    if es != [] {
      AttentiveStepIff(w, es[0], InFlight);
      AttentiveRunCountsAll(Apply(w, es[0]), es[1..]);
    }
  }

  /**
    * In such a run a socket with a request in flight has the app-server to itself: all others are refused, turn control
    * included.
    */
  lemma RequestExcludesOthers(es: seq<Event>, s: Socket, b: Socket)
    requires AllowedRun(START, es) && AttentiveRun(START, es, InFlight)
    requires s in Final(START, es).flights && b != s
    ensures var o := Final(START, es).own;
      && o.IsBusyFor(b) && !o.CanRunTurnControl(b)
      && o.NotificationTarget() == Some(s) && o.ServerRequestTarget() == Some(s)
  {
    AttentiveRunCountsAll(START, es);
    var w := Final(START, es);
    hide Final, AllowedRun, AttentiveRun;
    assert Occupies(w, s);
  }

  // ---------------------------------------------------------------- what a careless step costs

  /** A closed socket owns the stream and nothing else is held. */
  predicate Wedged(w: World, s: Socket) {
    && s in w.closed && s !in w.flights
    && w.own.request.None? && w.own.claim.None? && w.own.superseded.None?
    && w.own.stream == Some(s) && w.own.streamIds.Some?
    && (forall b :: b in w.flights ==> w.flights[b].Plain?)
  }

  /**
    * What ends a wedge: the closed socket has more lines buffered or is released again, or a completion names its
    * threads or none.
    */
  predicate Frees(e: Event, s: Socket, ids: set<ThreadId>) {
    match e
    case BeginPlain(b) => b == s
    case BeginTurn(b, _, _, _) => b == s
    case Close(b) => b == s
    case TurnCompleted(_, threadId) => !Truthy(threadId) || threadId.value in ids
    case _ => false
  }

  lemma StepKeepsWedgeIff(w: World, s: Socket, e: Event)
    requires Wedged(w, s) && Allowed(w, e)
    ensures Wedged(Apply(w, e), s) <==> !Frees(e, s, w.own.streamIds.value)
    ensures Wedged(Apply(w, e), s) ==> Apply(w, e).own.streamIds == w.own.streamIds
  {
  }

  /** The wedge lasts, and every other socket is refused, for as long as nothing frees it. */
  lemma {:induction false} WedgeLastsUntilFreed(w: World, s: Socket, es: seq<Event>, b: Socket)
    requires Wedged(w, s) && AllowedRun(w, es)
    requires forall e :: e in es ==> !Frees(e, s, w.own.streamIds.value)
    ensures Wedged(Final(w, es), s) && (b != s ==> Final(w, es).own.IsBusyFor(b))
    decreases |es|
  {
    if es != [] {
      StepKeepsWedgeIff(w, s, es[0]);
      WedgeLastsUntilFreed(Apply(w, es[0]), s, es[1..], b);
    }
  }

  /** `s` closes with its streaming request in flight, the turn completes, and the reply comes last. */
  function CarelessClose(w: World, s: Socket, ids: set<ThreadId>): World
    requires AwaitsTurn(w, s)
  {
    var f := w.flights[s];
    Apply(Apply(Apply(w, Close(s)), TurnCompleted(f.turn, Some(f.thread))), Reply(s, ids))
  }

  /**
    * The close that is not careful: all three steps may happen, the reply installs the closed socket as owner of a
    * turn that is over, and it stays owner, with every other socket refused, until something frees it.
    */
  lemma CloseInFlightWedges(w: World, s: Socket, ids: set<ThreadId>, es: seq<Event>, b: Socket)
    requires Inv(w) && AwaitsTurn(w, s) && w.flights[s].turn in w.live && w.flights[s].thread in ids
    requires AllowedRun(CarelessClose(w, s, ids), es) && forall e :: e in es ==> !Frees(e, s, ids)
    ensures var f := w.flights[s];
      AllowedRun(w, [Close(s), TurnCompleted(f.turn, Some(f.thread)), Reply(s, ids)])
    ensures var w' := Final(CarelessClose(w, s, ids), es);
      w'.own.stream == Some(s) && s in w'.closed && (b != s ==> w'.own.IsBusyFor(b))
  {
    var f := w.flights[s];
    var closed := Apply(w, Close(s));
    var over := Apply(closed, TurnCompleted(f.turn, Some(f.thread)));
    assert AwaitsTurn(closed, s) && AwaitsTurn(over, s);
    var w' := CarelessClose(w, s, ids);
    assert forall x :: x in w'.flights && x != s ==> !AwaitsTurn(w, x);
    assert Wedged(w', s) && w'.own.streamIds == Some(ids);
    WedgeLastsUntilFreed(w', s, es, b);
    AllowedThree(w, Close(s), TurnCompleted(f.turn, Some(f.thread)), Reply(s, ids));
  }

  lemma AllowedThree(w: World, e1: Event, e2: Event, e3: Event)
    requires Allowed(w, e1) && Allowed(Apply(w, e1), e2) && Allowed(Apply(Apply(w, e1), e2), e3)
    ensures AllowedRun(w, [e1, e2, e3])
  {
    hide Allowed, Apply;
    assert [e1, e2, e3][1..] == [e2, e3] && [e2, e3][1..] == [e3] && [e3][1..] == [];
    var w2 := Apply(Apply(w, e1), e2);
    assert AllowedRun(Apply(w2, e3), []);
    assert AllowedRun(w2, [e3]);
    assert AllowedRun(Apply(w, e1), [e2, e3]);
  }

  /** The rejection that is not careful leaves the owner's turn running with nobody refused. */
  lemma RejectedPlainRequestDropsLiveTurn(w: World, s: Socket, b: Socket)
    requires Inv(w) && s in w.flights && !Careful(w, Reject(s))
    ensures var w' := Apply(w, Reject(s));
      w'.newest == w.newest && w'.newest.Some? && w'.newest.value.id in w'.live && !w'.own.IsBusyFor(b)
  {
    assert Occupies(w, s) ==> w.own.request == Some(s);
  }

  /**
    * The completion that is not careful: credited to the newest turn, it leaves that turn running with nobody refused,
    * at the latest from its reply on.
    */
  lemma MiscreditedCompletionDropsLiveTurn(w: World, u: TurnId, threadId: Option<ThreadId>, b: Socket,
                                           ids: set<ThreadId>)
    requires Inv(w) && Allowed(w, TurnCompleted(u, threadId))
    requires w.newest.Some? && Credited(w, threadId) == Some(w.newest.value.id) && u != w.newest.value.id
    requires w.own.claim.Some? ==> w.newest.value.thread in ids
    ensures var w' := Apply(w, TurnCompleted(u, threadId));
      var after := if w.own.claim.None? then w' else Apply(w', Reply(w.newest.value.socket, ids));
      after.newest == w.newest && after.newest.value.id in after.live && !after.own.IsBusyFor(b)
  {
    if w.own.claim.None? {
      assert forall s: Socket :: !AwaitsTurn(w, s);
    }
  }

  const FIRST_LEAVES := [BeginTurn(1, 1, "a", Some({"a"})), Reply(1, {"a"}), Close(1)]

  const SECOND_COMES := [BeginTurn(2, 2, "b", Some({"b"})), TurnCompleted(1, Some("a")), Reply(2, {"b"})]

  lemma FirstLeaves()
    ensures AllowedRun(START, FIRST_LEAVES) && CarefulRun(START, FIRST_LEAVES)
    ensures Final(START, FIRST_LEAVES) == World(IDLE, map[], {1}, map[1 := "a"], None)
  {
  }

  /**
    * An ordinary disconnect is enough: the first socket closes while its turn runs, which is careful; a second begins
    * another turn, and the abandoned one completes before the reply. Everyone may then begin beside a live turn.
    */
  lemma AbandonedTurnIsCreditedToTheNext(b: Socket)
    ensures var w := Final(START, FIRST_LEAVES); var w' := Final(w, SECOND_COMES);
      && AllowedRun(START, FIRST_LEAVES) && CarefulRun(START, FIRST_LEAVES)
      && AllowedRun(w, SECOND_COMES) && !CarefulRun(w, SECOND_COMES)
      && w'.live == map[2 := "b"] && w'.own == IDLE && MayBegin(w', b)
  {
    FirstLeaves();
  }

  const INTERRUPT := [BeginTurn(1, 1, "a", Some({"a"})), Reply(1, {"a"}), BeginPlain(1)]

  const LATE_ANSWER := [TurnCompleted(1, Some("a")), BeginTurn(2, 2, "b", Some({"b"}))]

  lemma InterruptIsSent()
    ensures AllowedRun(START, INTERRUPT) && AttentiveRun(START, INTERRUPT, InFlight)
    ensures Final(START, INTERRUPT) ==
      World(Ownership(Some(1), Some(1), Some({"a"}), None, None), map[1 := Plain(false)], {}, map[1 := "a"],
            Some(Turn(1, 1, "a")))
  {
  }

  /**
    * An ordinary interrupt is enough: the owner asks for it, its turn completes before the answer, and another socket
    * begins a turn beside the request that is still in flight, and gets the notifications.
    */
  lemma InterruptLetsAnotherIn()
    ensures AllowedRun(START, INTERRUPT) && AttentiveRun(START, INTERRUPT, InFlight)
    ensures var w := Final(START, INTERRUPT); var w' := Final(w, LATE_ANSWER);
      && AllowedRun(w, LATE_ANSWER) && CarefulRun(w, LATE_ANSWER) && !AttentiveRun(w, LATE_ANSWER, InFlight)
      && w'.flights.Keys == {1, 2} && w'.flights[1] == Plain(true) && w'.own.NotificationTarget() == Some(2)
  {
    InterruptIsSent();
    assert Uncounts(Final(START, INTERRUPT), LATE_ANSWER[0], 1);
  }

  /**
    * What one completion does in the window of a streaming request: unless it is the superseded stream's it is
    * credited to the claim, and the reply then drops ownership although the new turn is still running.
    */
  lemma ForeignCompletionReleasesEarly(o: Ownership, s: Socket, foreign: ThreadId, expected: Option<set<ThreadId>>,
                                       ids: set<ThreadId>)
    requires Settled(o) && (o.stream.Some? ==> o.stream.value == s)
    ensures o.Begin(s, true, expected).RouteCompleted(Some(foreign)).Settle(s, true, Some(ids)) ==
      if foreign != "" && Has(o.streamIds, foreign) && !Has(expected, foreign)
      then Ownership(None, Some(s), Some(ids), None, None) else IDLE
  {
  }
}
