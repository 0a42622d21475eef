/**
 * What a stall costs. N_Bs, N_Cr or a cancellation end the two waits, but the request that was being transferred is lost:
 * no continuation of the run delivers it.
 */
module CanTpLost {
  import opened Bytes
  import opened CanTpConfig
  import opened CanTpFrames
  import opened CanTpSegments
  import opened CanTpNet
  import opened CanTpLockstep
  import T = CanTpSender
  import R = CanTpReceiver

  /** No frame of request k is on the bus or will be sent again, and it was not delivered. */
  ghost predicate Lost(n: Net, k: nat) {
    && k < |n.requests| && k !in n.origin
    && (forall i :: 0 <= i < |n.data| ==> !PartOf(n.data[i].tag, k))
    && (k == |n.requests| - 1 ==> n.data == [] && n.fc == [] && Resting(n.tx, n.rx))
  }

  predicate PartOf(t: Tag, k: nat) {
    t.Tag? && t.msg == k
  }

  /** Neither end sends a frame before the other does. */
  ghost predicate Resting(tx: T.State, rx: R.State) {
    && (tx.sub == T.Idle || tx.sub == T.WaitFlowControl) && (rx.sub == R.Idle || rx.sub == R.WaitConsecutive)
  }

  lemma TxRests(c: TxConnection, tx: T.State, now: nat, env: T.Env)
    requires T.Inv(c, tx) && (tx.sub == T.Idle || tx.sub == T.WaitFlowControl)
    ensures var o := T.Main(c, tx, now, env); o.frame.None? && (o.s.sub == T.Idle || o.s.sub == T.WaitFlowControl)
    ensures T.TxConfirmation(c, tx, now) == tx
    ensures var s := T.Cancel(c, tx).0; s.sub == T.Idle || s.sub == T.WaitFlowControl
  {
  }

  lemma RxRests(r: RxConnection, rx: R.State, now: nat, env: R.MainEnv)
    requires R.Inv(r, rx) && (rx.sub == R.Idle || rx.sub == R.WaitConsecutive)
    ensures var o := R.Main(r, rx, now, env); o.frame.None? && (o.s.sub == R.Idle || o.s.sub == R.WaitConsecutive)
    ensures R.TxConfirmation(rx, now) == rx
    ensures var s := R.Cancel(r, rx).0; s.sub == R.Idle || s.sub == R.WaitConsecutive
  {
  }

  lemma SenderLoses(z: Setup, n: Net, e: Event, k: nat)
    requires Inv(z, n) && Lost(n, k) && (e.ERequest? || e.ECancel? || e.ETxMain? || e.ETxConfirm? || e.EFlow?)
    ensures Lost(Step(z, n, e), k)
  {
    hide Inv, T.Inv, R.Inv, T.Main, T.FlowControl, T.TxConfirmation, T.Cancel, T.Transmit, OnWire, FrameType;
    Ends(z, n);
    if k == |n.requests| - 1 {
      TxRests(z.c, n.tx, if e.ETxMain? || e.ETxConfirm? then e.now else 0, if e.ETxMain? then e.txEnv else T.Env(T.Busy, false, false));
    }
  }

  lemma Ends(z: Setup, n: Net)
    requires Inv(z, n)
    ensures z.Valid() && T.Inv(z.c, n.tx) && R.Inv(z.r, n.rx)
  {
  }

  lemma ReceiverLoses(z: Setup, n: Net, e: Event, k: nat)
    requires Inv(z, n) && Lost(n, k) && (e.EData? || e.ERxMain? || e.ERxConfirm? || e.ERxCancel?)
    ensures Lost(Step(z, n, e), k)
  {
    hide Inv, T.Inv, R.Inv, R.Main, R.RxIndication, R.TxConfirmation, R.Cancel, OnWire;
    Ends(z, n);
    if k == |n.requests| - 1 {
      RxRests(z.r, n.rx, if e.ERxMain? || e.ERxConfirm? then e.now else 0, if e.ERxMain? then e.mainEnv else R.MainEnv(None, false));
    }
  }

  lemma {:induction false} LostForGood(z: Setup, events: seq<Event>, more: seq<Event>, k: nat)
    requires z.Valid() && Lost(Run(z, events), k)
    ensures Lost(Run(z, events + more), k)
  {
    hide Inv, Step, Lost;
    if more == [] {
      assert events + more == events;
    } else {
      var before, e := events + more[..|more| - 1], more[|more| - 1];
      LostForGood(z, events, more[..|more| - 1], k);
      assert (events + more)[..|events + more| - 1] == before;
      if e.EData? || e.ERxMain? || e.ERxConfirm? || e.ERxCancel? {
        ReceiverLoses(z, Run(z, before), e, k);
      } else {
        SenderLoses(z, Run(z, before), e, k);
      }
    }
  }

  /** The request in transfer at a stall has not been delivered, and nothing of it is left on the bus. */
  lemma StalledLoses(z: Setup, n: Net)
    requires Inv(z, n) && Stalled(n)
    ensures n.requests != [] && Lost(n, |n.requests| - 1)
  {
    hide T.Inv, R.Inv, HasFrame, Accepts, Tracks, Matched;
    forall i | 0 <= i < |n.origin| ensures n.origin[i] < |n.requests| - 1 {
      assert Behind(n.origin[i], n.seen, true);
    }
  }

  /**
   * A stall loses the request in transfer: whatever happens afterwards, the deliveries are requests in order, and that
   * one is not among them.
   */
  lemma StalledIsLost(z: Setup, events: seq<Event>, more: seq<Event>)
    requires z.Valid() && Stalled(Run(z, events))
    ensures var n, n' := Run(z, events), Run(z, events + more);
            n.requests != [] && Selects(n'.requests, n'.origin, n'.rx.delivered) && |n.requests| - 1 !in n'.origin
  {
    hide Run, Inv, Stalled, Selects;
    StalledLoses(z, Run(z, events));
    LostForGood(z, events, more, |Run(z, events).requests| - 1);
    OriginSelects(z, Run(z, events + more));
  }
}
