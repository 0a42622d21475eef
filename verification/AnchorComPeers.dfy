/** The queues of one AnchorCom peer on rings and flag arrays, updated in place. */
module AnchorComPeers {
  import opened Bytes
  import opened AnchorComRing
  import Q = AnchorComTxQueue
  import R = AnchorComRx
  import X = AnchorComRxQueue

  /** Tx queue and buffer states of one peer. */
  class TxPeer {
    const ring: Ring<nat>
    const hasData: array<bool>
    ghost var accepted: seq<nat>
    ghost var removed: seq<nat>

    ghost predicate Valid()
      reads this, ring
    {
      ring.Valid()
    }

    ghost function State(): Q.Peer
      requires Valid()
      reads this, ring, ring.slots, hasData
    {
      Q.Peer(ring.Contents(), hasData[..], accepted, removed)
    }

    constructor (n: nat)
      ensures Valid() && State() == Q.Init(n) && fresh(ring) && fresh(ring.slots) && fresh(hasData)
    {
      ring := new Ring(0);
      hasData := new bool[n](_ => false);
      accepted, removed := [], [];
    }

    method Transmit(i: nat, overwrite: bool) returns (ret: Result)
      requires Valid()
      modifies this, ring, ring.slots, hasData
      ensures Valid() && State() == Q.Transmit(old(State()), i, overwrite).0
      ensures ret == Q.Transmit(old(State()), i, overwrite).1
    {
      ret := NotOk;
      if i < hasData.Length && (!hasData[i] || overwrite) {
        hasData[i] := true;
        ret := ring.Add(i);
        if ret == Ok {
          accepted := accepted + [i];
        }
      }
    }

    method RemoveHead()
      requires Valid()
      modifies this, ring, hasData
      ensures Valid() && State() == Q.Remove(old(State()))
    {
      var h := ring.Head();
      if h.Some? && h.value < hasData.Length {
        hasData[h.value] := false;
        removed := removed + [h.value];
        var _ := ring.RemoveHead();
      }
    }
  }

  /** Rx queue, double receive buffers and pipeline of one peer. */
  class RxPeer {
    const g: X.Config
    const ring: Ring<X.Slot>
    const main: array<X.Buffer>
    const temp: array<X.Buffer>
    var delivered: seq<bytes>
    ghost var received: seq<bytes>
    ghost var finished: nat
    ghost var places: seq<nat>

    ghost predicate Shape()
      reads this, ring
    {
      ring.Valid() && main.Length == temp.Length && main != temp
    }

    ghost function State(): X.Peer
      requires Shape()
      reads this, ring, ring.slots, main, temp
    {
      X.Peer(main[..], temp[..], ring.Contents(), received, finished, delivered, places)
    }

    ghost predicate Valid()
      reads this, ring, ring.slots, main, temp
    {
      Shape() && X.Inv(g, State())
    }

    constructor (g: X.Config, n: nat)
      requires g.Valid()
      ensures this.g == g && Valid() && State() == X.Init(g, n)
      ensures fresh(ring) && fresh(ring.slots) && fresh(main) && fresh(temp)
    {
      hide X.Inv, X.Unused;
      this.g := g;
      ring := new Ring(X.Slot(0, false));
      main := new X.Buffer[n](_ => X.Unused(g));
      temp := new X.Buffer[n](_ => X.Unused(g));
      delivered, received, finished, places := [], [], 0, [];
      new;
      assert State() == X.Init(g, n) == X.Run(g, n, []);
    }

    method Store(x: X.Slot, b: X.Buffer)
      requires Shape() && x.channel < main.Length
      modifies main, temp
      ensures Shape() && State() == X.Store(old(State()), x, b)
    {
      if x.temp {
        temp[x.channel] := b;
      } else {
        main[x.channel] := b;
      }
    }

    /** Copy the message into the chosen buffer and queue it; undo the flag when the queue is full. */
    method Put(x: X.Slot, wire: bytes)
      requires Shape() && x.channel < main.Length
      requires R.Room((if x.temp then temp else main)[x.channel].entry.buf, wire)
      modifies this, ring, ring.slots, main, temp
      ensures Shape() && State() == X.Put(old(State()), x, wire)
    {
      hide R.Enqueue, R.Room;
      var entry := R.Enqueue((if x.temp then temp else main)[x.channel].entry.buf, wire);
      Store(x, X.Buffer(true, entry));
      var ret := ring.Add(x);
      if ret == NotOk {
        Store(x, X.Buffer(false, entry));
      } else {
        received := received + [wire];
      }
    }

    method TpRxIndication(channel: nat, wire: bytes)
      requires Valid()
      modifies this, ring, ring.slots, main, temp
      ensures Valid() && State() == X.Indicate(g, old(State()), channel, wire)
    {
      hide X.Inv, X.Put;
      X.IndicateKeeps(g, State(), channel, wire);
      X.BuffersFit(g, State(), channel, wire);
      if channel < main.Length && X.Fits(g, wire) {
        if !main[channel].needVerify {
          Put(X.Slot(channel, false), wire);
        } else if !temp[channel].needVerify {
          Put(X.Slot(channel, true), wire);
        }
      }
    }

    /** The head entry gives its buffer back and leaves the queue. */
    method Release(x: X.Slot, entry: R.State)
      requires Shape() && ring.Contents() != [] && x == ring.Contents()[0] && x.channel < main.Length
      modifies this, ring, main, temp
      ensures Shape() && ring.Contents() == old(ring.Contents())[1..] && finished == old(finished) + 1
      ensures received == old(received) && delivered == old(delivered) + entry.delivered
      ensures places == if entry.delivered == [] then old(places) else old(places) + [old(finished)]
      ensures main[..] == (if x.temp then old(main[..]) else old(main[..])[x.channel := X.Buffer(false, entry)])
      ensures temp[..] == (if x.temp then old(temp[..])[x.channel := X.Buffer(false, entry)] else old(temp[..]))
    {
      var target := if x.temp then temp else main;
      target[x.channel] := X.Buffer(false, entry);
      var _ := ring.RemoveHead();
      delivered := delivered + entry.delivered;
      places := if entry.delivered == [] then places else places + [finished];
      finished := finished + 1;
    }

    method CyclicRx(env: R.Env)
      requires Valid()
      modifies this, ring, main, temp
      ensures Valid() && State() == X.Cycle(g, old(State()), env)
    {
      hide X.Inv, R.Cycle, X.Working;
      X.CycleKeeps(g, State(), env);
      X.HeadOwned(g, State());
      var h := ring.Head();
      if h.Some? {
        var x := h.value;
        X.WorkingSized((if x.temp then temp else main)[x.channel].entry);
        var entry := R.Cycle(g.k, g.c, (if x.temp then temp else main)[x.channel].entry, env);
        if X.Over(g.c, entry) {
          Release(x, entry);
        } else {
          var target := if x.temp then temp else main;
          target[x.channel] := X.Buffer(true, entry);
        }
      }
    }
  }
}
