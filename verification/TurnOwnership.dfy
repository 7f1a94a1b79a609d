/**
  * The broker's turn ownership: which client socket may use the one shared
  * app-server while `turn/start` replies and `turn/completed` notifications
  * arrive in either order.
  *
  * `Ownership` is the value of the five variables, with one function for each
  * transition; class `TurnOwnership` is the object whose methods assign them.
  */
module TurnOwnership {
  import opened Wrappers

  type Socket = nat
  type ThreadId = string

  /** The provisional claim a streaming request holds while it awaits its reply. */
  datatype Claim = Claim(socket: Socket, completed: bool, expected: Option<set<ThreadId>>)

  /** A stream that a provisional claim has pushed aside. */
  datatype Parked = Parked(socket: Socket, threadIds: Option<set<ThreadId>>)

  /** `Boolean(threadId)`: null and the empty string are both false. */
  predicate Truthy(threadId: Option<ThreadId>) {
    threadId.Some? && threadId.value != ""
  }

  /** `ids?.has(threadId)`, false when there is no set. */
  predicate Has(ids: Option<set<ThreadId>>, threadId: ThreadId) {
    ids.Some? && threadId in ids.value
  }

  /** The thread ids a streaming request runs on, as far as params and reply tell. */
  function BuildStreamThreadIds(review: bool, threadId: Option<ThreadId>,
                                reviewThreadId: Option<ThreadId>): set<ThreadId> {
    (if Truthy(threadId) then {threadId.value} else {}) +
    (if review && Truthy(reviewThreadId) then {reviewThreadId.value} else {})
  }

  /**
    * The ids of the reply name the turn's thread, and all that was known before it; before it the thread is
    * known exactly when the params name it, which those of a detached review do not.
    */
  lemma SettledIdsNameTheTurn(review: bool, threadId: Option<ThreadId>, reviewThreadId: Option<ThreadId>,
                              turn: ThreadId)
    requires turn != "" && Some(turn) == if review then reviewThreadId else threadId
    ensures turn in BuildStreamThreadIds(review, threadId, reviewThreadId)
    ensures BuildStreamThreadIds(review, threadId, None) <= BuildStreamThreadIds(review, threadId, reviewThreadId)
    ensures turn in BuildStreamThreadIds(review, threadId, None) <==> threadId == Some(turn)
  {
  }

  datatype Ownership = Ownership(
    request: Option<Socket>,
    stream: Option<Socket>,
    streamIds: Option<set<ThreadId>>,
    claim: Option<Claim>,
    superseded: Option<Parked>)
  {
    predicate ClaimedBy(s: Socket) {
      claim.Some? && claim.value.socket == s
    }

    predicate IsBusyFor(s: Socket) {
      || ClaimedBy(s)
      || (request.Some? && request.value != s)
      || (stream.Some? && stream.value != s)
    }

    predicate CanRunTurnControl(s: Socket) {
      stream.Some? && stream.value != s && request.None?
    }

    function NotificationTarget(): Option<Socket> {
      if request.Some? then request else stream
    }

    function ServerRequestTarget(): Option<Socket> {
      if stream.Some? then stream else request
    }

    function Begin(s: Socket, streaming: bool, expected: Option<set<ThreadId>>): Ownership {
      if !streaming then
        this.(request := Some(s))
      else
        Ownership(
          request := Some(s),
          stream := Some(s),
          streamIds := None,
          claim := Some(Claim(s, false, expected)),
          superseded := if stream.Some? then Some(Parked(stream.value, streamIds)) else None)
    }

    /** `if (activeRequestSocket === socket) activeRequestSocket = null`. */
    function ClearRequest(s: Socket): Ownership {
      if request == Some(s) then this.(request := None) else this
    }

    function Settle(s: Socket, streaming: bool, ids: Option<set<ThreadId>>): Ownership {
      if !streaming then
        ClearRequest(s)
      else
        var settled := this.(claim := None, superseded := None);
        if ClaimedBy(s) && claim.value.completed then
          settled.(stream := None, streamIds := None).ClearRequest(s)
        else
          settled.(stream := Some(s), streamIds := ids).ClearRequest(s)
    }

    function Fail(s: Socket): Ownership {
      if ClaimedBy(s) then
        Ownership(
          request := request,
          stream := if superseded.Some? then Some(superseded.value.socket) else None,
          streamIds := if superseded.Some? then superseded.value.threadIds else None,
          claim := None,
          superseded := None).ClearRequest(s)
      else if stream == Some(s) then
        this.(stream := None, streamIds := None).ClearRequest(s)
      else
        ClearRequest(s)
    }

    /** Does a completion that arrives while `s` holds the claim belong to the stream the claim pushed aside? */
    predicate BelongsToSuperseded(threadId: Option<ThreadId>) {
      && Truthy(threadId)
      && superseded.Some? && Has(superseded.value.threadIds, threadId.value)
      && !(claim.Some? && Has(claim.value.expected, threadId.value))
    }

    /** Is a completion for `threadId`, routed to `target`, accounted for? */
    predicate Accounts(target: Socket, threadId: Option<ThreadId>) {
      && stream == Some(target)
      && (ClaimedBy(target) || !(Truthy(threadId) && streamIds.Some? && threadId.value !in streamIds.value))
    }

    function Complete(target: Socket, threadId: Option<ThreadId>): Ownership {
      if !Accounts(target, threadId) then
        this
      else if ClaimedBy(target) then
        if BelongsToSuperseded(threadId) then
          this.(superseded := None)
        else
          this.(claim := Some(claim.value.(completed := true)))
      else
        this.(stream := None, streamIds := None).ClearRequest(target)
    }

    /** The broker's `routeNotification` for `turn/completed`. */
    function RouteCompleted(threadId: Option<ThreadId>): Ownership {
      if NotificationTarget().None? then this else Complete(NotificationTarget().value, threadId)
    }

    function Release(s: Socket): Ownership {
      Ownership(
        request := if request == Some(s) then None else request,
        stream := if stream == Some(s) then None else stream,
        streamIds := if stream == Some(s) then None else streamIds,
        claim := if ClaimedBy(s) then None else claim,
        superseded := if superseded.Some? && superseded.value.socket == s then None else superseded)
    }
  }

  const IDLE := Ownership(None, None, None, None, None)

  /** The object `createTurnOwnership` returns. */
  class TurnOwnership {
    var activeRequestSocket: Option<Socket>
    var activeStreamSocket: Option<Socket>
    var activeStreamThreadIds: Option<set<ThreadId>>
    var pendingStreamClaim: Option<Claim>
    var supersededStream: Option<Parked>

    function Value(): Ownership
      reads this
    {
      Ownership(activeRequestSocket, activeStreamSocket, activeStreamThreadIds, pendingStreamClaim, supersededStream)
    }

    constructor ()
      ensures Value() == IDLE
    {
      activeRequestSocket, activeStreamSocket, activeStreamThreadIds := None, None, None;
      pendingStreamClaim, supersededStream := None, None;
    }

    method IsBusyFor(s: Socket) returns (busy: bool)
      ensures busy == Value().IsBusyFor(s)
    {
      if pendingStreamClaim.Some? && pendingStreamClaim.value.socket == s {
        return true;
      }
      busy := (activeRequestSocket.Some? && activeRequestSocket.value != s)
        || (activeStreamSocket.Some? && activeStreamSocket.value != s);
    }

    method BeginRequest(s: Socket, streaming: bool, expected: Option<set<ThreadId>>)
      modifies this
      ensures Value() == old(Value()).Begin(s, streaming, expected)
    {
      activeRequestSocket := Some(s);
      if !streaming {
        return;
      }
      supersededStream := if activeStreamSocket.None? then None
                          else Some(Parked(activeStreamSocket.value, activeStreamThreadIds));
      activeStreamSocket := Some(s);
      activeStreamThreadIds := None;
      pendingStreamClaim := Some(Claim(s, false, expected));
    }

    method SettleRequest(s: Socket, streaming: bool, threadIds: Option<set<ThreadId>>)
      modifies this
      ensures Value() == old(Value()).Settle(s, streaming, threadIds)
    {
      if streaming {
        var completedEarly :=
          pendingStreamClaim.Some? && pendingStreamClaim.value.socket == s && pendingStreamClaim.value.completed;
        pendingStreamClaim := None;
        supersededStream := None;
        if completedEarly {
          activeStreamSocket := None;
          activeStreamThreadIds := None;
        } else {
          activeStreamSocket := Some(s);
          activeStreamThreadIds := threadIds;
        }
      }
      if activeRequestSocket == Some(s) {
        activeRequestSocket := None;
      }
    }

    method FailRequest(s: Socket)
      modifies this
      ensures Value() == old(Value()).Fail(s)
    {
      if pendingStreamClaim.Some? && pendingStreamClaim.value.socket == s {
        pendingStreamClaim := None;
        activeStreamSocket := if supersededStream.Some? then Some(supersededStream.value.socket) else None;
        activeStreamThreadIds := if supersededStream.Some? then supersededStream.value.threadIds else None;
        supersededStream := None;
      } else if activeStreamSocket == Some(s) {
        activeStreamSocket := None;
        activeStreamThreadIds := None;
      }
      if activeRequestSocket == Some(s) {
        activeRequestSocket := None;
      }
    }

    method HandleTurnCompleted(target: Socket, threadId: Option<ThreadId>) returns (accounted: bool)
      modifies this
      ensures Value() == old(Value()).Complete(target, threadId)
      ensures accounted == old(Value()).Accounts(target, threadId)
    {
      if activeStreamSocket != Some(target) {
        return false;
      }
      if pendingStreamClaim.Some? && pendingStreamClaim.value.socket == target {
        var expected := pendingStreamClaim.value.expected;
        var belongsToSuperseded :=
          && Truthy(threadId)
          && supersededStream.Some? && Has(supersededStream.value.threadIds, threadId.value)
          && !Has(expected, threadId.value);
        if belongsToSuperseded {
          supersededStream := None;
          return true;
        }
        pendingStreamClaim := Some(pendingStreamClaim.value.(completed := true));
        return true;
      }
      if Truthy(threadId) && activeStreamThreadIds.Some? && threadId.value !in activeStreamThreadIds.value {
        return false;
      }
      activeStreamSocket := None;
      activeStreamThreadIds := None;
      if activeRequestSocket == Some(target) {
        activeRequestSocket := None;
      }
      return true;
    }

    method ReleaseSocket(s: Socket)
      modifies this
      ensures Value() == old(Value()).Release(s)
    {
      if activeRequestSocket == Some(s) {
        activeRequestSocket := None;
      }
      if activeStreamSocket == Some(s) {
        activeStreamSocket := None;
        activeStreamThreadIds := None;
      }
      if pendingStreamClaim.Some? && pendingStreamClaim.value.socket == s {
        pendingStreamClaim := None;
      }
      if supersededStream.Some? && supersededStream.value.socket == s {
        supersededStream := None;
      }
    }
  }

  // ---------------------------------------------------------------- laws of the transitions

  /** No request is in flight and no claim is held: what `beginRequest` finds behind the busy gate. */
  predicate Settled(o: Ownership) {
    o.request.None? && o.claim.None? && o.superseded.None? && (o.stream.None? ==> o.streamIds.None?)
  }

  /** The completions `cs`, in order, all routed by the broker. */
  function RouteAll(o: Ownership, cs: seq<Option<ThreadId>>): Ownership
    decreases |cs|
  {
    if cs == [] then o else RouteAll(o.RouteCompleted(cs[0]), cs[1..])
  }

  /**
    * Did the stream that was parked in `o` complete, by one of `cs`, while a request expecting `expected` was in
    * flight?
    */
  ghost predicate RetiredBy(o: Ownership, expected: Option<set<ThreadId>>, cs: seq<Option<ThreadId>>) {
    exists c :: c in cs && Truthy(c) && Has(o.streamIds, c.value) && !Has(expected, c.value)
  }

  lemma {:induction false} RouteAllInWindow(o: Ownership, s: Socket, expected: Option<set<ThreadId>>, before: Ownership,
                                            cs: seq<Option<ThreadId>>)
    requires o.claim.Some? && o.claim.value.socket == s && o.claim.value.expected == expected
    requires o.request == Some(s) && o.stream == Some(s) && o.streamIds.None?
    requires o.superseded.Some? ==>
      before.stream.Some? && o.superseded.value == Parked(before.stream.value, before.streamIds)
    ensures var w := RouteAll(o, cs);
      && w.ClaimedBy(s) && w.claim.value.expected == expected
      && w.request == Some(s) && w.stream == Some(s) && w.streamIds.None?
      && w.superseded == if o.superseded.Some? && RetiredBy(before, expected, cs) then None else o.superseded
    decreases |cs|
  {
    if cs != [] {
      var o' := o.RouteCompleted(cs[0]);
      RouteAllInWindow(o', s, expected, before, cs[1..]);
      assert cs == [cs[0]] + cs[1..];
      if o.superseded.Some? {
        if o.BelongsToSuperseded(cs[0]) {
          assert cs[0] in cs;
          assert RetiredBy(before, expected, cs);
        } else if RetiredBy(before, expected, cs) {
          var c :| c in cs && Truthy(c) && Has(before.streamIds, c.value) && !Has(expected, c.value);
          assert c in cs[1..];
        } else {
          assert forall c :: c in cs[1..] ==> c in cs;
        }
      }
    }
  }

  /**
    * A rejected streaming request is a rollback, whatever completions are routed
    * while it is in flight: the state is the one before `beginRequest`, except that
    * the parked stream stays retired exactly when its own completion came through.
    */
  lemma FailedRequestRollsBack(o: Ownership, s: Socket, expected: Option<set<ThreadId>>, cs: seq<Option<ThreadId>>)
    requires Settled(o)
    ensures RouteAll(o.Begin(s, true, expected), cs).Fail(s) ==
      if RetiredBy(o, expected, cs) then o.(stream := None, streamIds := None) else o
  {
    RouteAllInWindow(o.Begin(s, true, expected), s, expected, o, cs);
    if RetiredBy(o, expected, cs) {
      assert o.stream.Some?;
    }
  }

  /**
    * Reply and completions may arrive in any order. `s` owns the parked stream of
    * thread `older` and begins a turn on `newer`; the two completions and the reply
    * then reach the broker in some order, and all six orders end idle.
    */
  lemma EveryArrivalOrderEndsIdle(s: Socket, oldIds: set<ThreadId>, older: ThreadId, newer: ThreadId,
                                  expected: Option<set<ThreadId>>, ids: set<ThreadId>)
    requires older != "" && newer != "" && older in oldIds && newer in ids && older !in ids
    requires !Has(expected, older) && (newer in oldIds ==> Has(expected, newer))
    ensures var o := Ownership(None, Some(s), Some(oldIds), None, None).Begin(s, true, expected);
      && o.RouteCompleted(Some(older)).RouteCompleted(Some(newer)).Settle(s, true, Some(ids)) == IDLE
      && o.RouteCompleted(Some(older)).Settle(s, true, Some(ids)).RouteCompleted(Some(newer)) == IDLE
      && o.RouteCompleted(Some(newer)).RouteCompleted(Some(older)).Settle(s, true, Some(ids)) == IDLE
      && o.RouteCompleted(Some(newer)).Settle(s, true, Some(ids)).RouteCompleted(Some(older)) == IDLE
      && o.Settle(s, true, Some(ids)).RouteCompleted(Some(older)).RouteCompleted(Some(newer)) == IDLE
      && o.Settle(s, true, Some(ids)).RouteCompleted(Some(newer)).RouteCompleted(Some(older)) == IDLE
  {
    var o := Ownership(None, Some(s), Some(oldIds), None, None).Begin(s, true, expected);
    assert o.BelongsToSuperseded(Some(older)) && !o.BelongsToSuperseded(Some(newer));
  }
}
