/** The Tx queue of one peer together with the buffer states of its message types. */
module AnchorComTxQueue {
  import opened Bytes
  import opened AnchorComRing

  /** Queued message indices, HASDATA flags, and the history of accepted and removed messages. */
  datatype Peer = Peer(queue: seq<nat>, hasData: seq<bool>, accepted: seq<nat>, removed: seq<nat>)

  function Init(n: nat): Peer {
    Peer([], seq(n, _ => false), [], [])
  }

  /** rbdAnchorCom_Transmit behind its length and pointer checks: the flag is set even when the queue is full. */
  function Transmit(s: Peer, i: nat, overwrite: bool): (Peer, Result) {
    if i >= |s.hasData| || (s.hasData[i] && !overwrite) then (s, NotOk)
    else
      var s1 := s.(hasData := s.hasData[i := true]);
      if |s.queue| == SIZE - 1 then (s1, NotOk)
      else (s1.(queue := s.queue + [i], accepted := s.accepted + [i]), Ok)
  }

  /** rbdAnchorComTp_FinishData, and the removal of an entry with too many errors. */
  function Remove(s: Peer): Peer {
    if s.queue == [] || s.queue[0] >= |s.hasData| then s
    else s.(queue := s.queue[1..], hasData := s.hasData[s.queue[0] := false], removed := s.removed + [s.queue[0]])
  }

  ghost predicate Distinct(q: seq<nat>) {
    forall i, j :: 0 <= i < j < |q| ==> q[i] != q[j]
  }

  ghost predicate Below(q: seq<nat>, n: nat) {
    forall i :: 0 <= i < |q| ==> q[i] < n
  }

  /** A message is queued at most once, and exactly while its buffer has data; nothing is lost or reordered. */
  ghost predicate Inv(s: Peer) {
    && Distinct(s.queue) && Below(s.queue, |s.hasData|)
    && (forall i :: 0 <= i < |s.hasData| ==> (s.hasData[i] <==> i in s.queue))
    && s.accepted == s.removed + s.queue
  }

  lemma {:induction false} Pigeonhole(q: seq<nat>, n: nat)
    requires Distinct(q) && Below(q, n)
    ensures |q| <= n
    decreases n
  {
    assert |q| > 0 ==> q[0] < n;
    if n > 0 && n - 1 in q {
      var k :| 0 <= k < |q| && q[k] == n - 1;
      var rest := q[..k] + q[k + 1..];
      assert forall i :: 0 <= i < |rest| ==> rest[i] == q[if i < k then i else i + 1];
      Pigeonhole(rest, n - 1);
    } else if n > 0 {
      Pigeonhole(q, n - 1);
    }
  }

  /** With fewer than sixteen message types an idle message always finds room. */
  lemma InsertSucceeds(s: Peer, i: nat, overwrite: bool)
    requires Inv(s) && |s.hasData| < SIZE && i < |s.hasData| && !s.hasData[i]
    ensures Transmit(s, i, overwrite).1 == Ok
  {
    assert Distinct(s.queue + [i]);
    Pigeonhole(s.queue + [i], |s.hasData|);
  }

  /** A request keeps the queue consistent exactly when it does not overwrite a message that is still queued. */
  lemma TransmitKeepsExactly(s: Peer, i: nat, overwrite: bool)
    requires Inv(s) && |s.hasData| < SIZE
    ensures Inv(Transmit(s, i, overwrite).0)
       <==> !(overwrite && i < |s.hasData| && s.hasData[i] && |s.queue| < SIZE - 1)
  {
    if i < |s.hasData| && (!s.hasData[i] || overwrite) {
      var s' := Transmit(s, i, overwrite).0;
      if s.hasData[i] {
        assert s'.hasData == s.hasData;
        Pigeonhole(s.queue, |s.hasData|);
        if |s.queue| < SIZE - 1 {
          var k :| 0 <= k < |s.queue| && s.queue[k] == i;
          assert s'.queue[k] == s'.queue[|s.queue|];
        }
      } else {
        InsertSucceeds(s, i, overwrite);
        assert s'.queue == s.queue + [i] && s'.accepted == s'.removed + s'.queue;
        assert forall j :: j in s'.queue <==> j == i || j in s.queue;
      }
    }
  }

  lemma RemoveKeeps(s: Peer)
    requires Inv(s)
    ensures Inv(Remove(s))
  {
    if s.queue != [] {
      assert s.queue == [s.queue[0]] + s.queue[1..];
      forall j | j in s.queue[1..] ensures j != s.queue[0] {
        var k :| 0 <= k < |s.queue| - 1 && s.queue[1..][k] == j;
        assert s.queue[k + 1] == j;
      }
    }
  }

  datatype Event = ETransmit(i: nat) | ERemove

  /** Any run of requests without overwrite and removals over n message types. */
  ghost function Run(n: nat, events: seq<Event>): (s: Peer)
    requires n < SIZE
    ensures Inv(s) && |s.hasData| == n
  {
    if events == [] then Init(n)
    else
      var s, e := Run(n, events[..|events| - 1]), events[|events| - 1];
      match e
      case ETransmit(i) =>
        TransmitKeepsExactly(s, i, false);
        Transmit(s, i, false).0
      case ERemove =>
        RemoveKeeps(s);
        Remove(s)
  }

  /**
   * In every run a request is accepted exactly when its message is not already queued, and messages leave the
   * queue in the order in which they were accepted.
   */
  lemma AcceptedUnlessQueued(n: nat, events: seq<Event>, i: nat)
    requires n < SIZE && i < n
    ensures var s := Run(n, events);
            && (Transmit(s, i, false).1 == Ok <==> i !in s.queue)
            && s.removed <= s.accepted && s.accepted[|s.removed|..] == s.queue
  {
    var s := Run(n, events);
    if !s.hasData[i] { InsertSucceeds(s, i, false); }
  }

  /** k requests for message i of n, each overwriting the last. */
  ghost function Overwritten(n: nat, i: nat, k: nat): Peer {
    if k == 0 then Init(n) else Transmit(Overwritten(n, i, k - 1), i, true).0
  }

  lemma {:induction false} OverwrittenQueue(n: nat, i: nat, k: nat)
    requires i < n && k < SIZE
    ensures var s := Overwritten(n, i, k);
            s.queue == seq(k, _ => i) && |s.hasData| == n && forall j :: 0 <= j < n && j != i ==> !s.hasData[j]
  {
    if k > 0 {
      OverwrittenQueue(n, i, k - 1);
      assert seq(k, _ => i) == seq(k - 1, _ => i) + [i];
    }
  }

  /**
   * Overwriting any one message over and over fills the queue; the next request for any other one is refused, and that
   * one is locked out.
   */
  lemma OverwriteFillsQueue(n: nat, i: nat, j: nat, overwrite: bool)
    requires i < n && j < n && i != j
    ensures var s := Overwritten(n, i, SIZE - 1);
            && |s.hasData| == n && !s.hasData[j] && s.queue == seq(SIZE - 1, _ => i)
            && Transmit(s, j, overwrite).1 == NotOk && LockedOut(Transmit(s, j, overwrite).0, j)
  {
    hide Overwritten;
    OverwrittenQueue(n, i, SIZE - 1);
  }

  // ----- A request that is refused because the queue is full ------------------------------------------------

  /** The buffer of this message counts as full, but no queue entry will ever free it. */
  predicate LockedOut(s: Peer, i: nat) {
    i < |s.hasData| && s.hasData[i] && i !in s.queue
  }

  datatype Request = ARequest(i: nat, overwrite: bool) | ARemoval

  function Next(s: Peer, e: Request): Peer {
    match e
    case ARequest(i, overwrite) => Transmit(s, i, overwrite).0
    case ARemoval => Remove(s)
  }

  function After(s: Peer, requests: seq<Request>): Peer {
    if requests == [] then s else Next(After(s, requests[..|requests| - 1]), requests[|requests| - 1])
  }

  /** Exactly a request for an idle message that meets a full queue locks that message out, and no other one does. */
  lemma LockedOutExactly(s: Peer, i: nat, e: Request)
    requires !LockedOut(s, i) && (forall j :: 0 <= j < |s.queue| ==> s.queue[j] < |s.hasData|)
    ensures LockedOut(Next(s, e), i)
       <==> && e.ARequest? && e.i == i && i < |s.hasData| && |s.queue| == SIZE - 1 && i !in s.queue
  {
    if e.ARemoval? && s.queue != [] {
      assert s.queue == [s.queue[0]] + s.queue[1..];
    }
  }

  /** Whatever is requested and removed, a message that is locked out stays so, and is refused, unless it is overwritten. */
  lemma {:induction false} LockedOutForGood(s: Peer, i: nat, requests: seq<Request>)
    requires LockedOut(s, i) && ARequest(i, true) !in requests
    ensures LockedOut(After(s, requests), i) && Transmit(After(s, requests), i, false) == (After(s, requests), NotOk)
  {
    if requests != [] {
      var before, e := requests[..|requests| - 1], requests[|requests| - 1];
      assert e in requests && forall x :: x in before ==> x in requests;
      LockedOutForGood(s, i, before);
      var s1 := After(s, before);
      if e.ARemoval? && s1.queue != [] { assert s1.queue[0] in s1.queue; }
    }
  }
}
