/**
 * The Go channel both load generators report their Stats through, and the
 * shutdown protocol they share: wait for every producer, close the
 * channel, then wait for the collector to have taken everything. Only the
 * sequential effect is modelled: what was sent, in the order received,
 * how much the collector has taken, and whether the channel is closed.
 */
module Channels {
  import opened Common

  class Channel<T> {
    var sent: seq<T>
    var taken: nat
    var closed: bool

    ghost predicate Valid()
      reads this
    {
      taken <= |sent|
    }

    constructor ()
      ensures Valid() && sent == [] && taken == 0 && !closed
    {
      sent := [];
      taken := 0;
      closed := false;
    }

    /** A send on a closed channel panics, so every caller must show the
        channel is still open. */
    method Send(x: T)
      requires Valid() && !closed
      modifies this`sent
      ensures Valid() && sent == old(sent) + [x]
    {
      sent := sent + [x];
    }

    /** Closing twice panics too. */
    method Close()
      requires !closed
      modifies this`closed
      ensures closed
    {
      closed := true;
    }
  }

  /** Send `items` in order on an open channel. */
  method SendAll<T>(ch: Channel<T>, items: seq<T>)
    requires ch.Valid() && !ch.closed
    modifies ch`sent
    ensures ch.Valid() && ch.sent == old(ch.sent) + items
  {
    for i := 0 to |items|
      invariant ch.Valid()
      invariant ch.sent == old(ch.sent) + items[..i]
    {
      ch.Send(items[i]);
      assert items[..i + 1] == items[..i] + [items[i]];
    }
    assert items[..|items|] == items;
  }

  /** The collector's `for x := range ch`: once the channel is closed it
      receives, in order, everything not yet taken and then stops. */
  method Drain<T>(ch: Channel<T>) returns (got: seq<T>)
    requires ch.Valid() && ch.closed
    modifies ch`taken
    ensures ch.Valid() && ch.taken == |ch.sent|
    ensures got == ch.sent[old(ch.taken)..]
  {
    got := [];
    while ch.taken < |ch.sent|
      invariant ch.Valid()
      invariant old(ch.taken) <= ch.taken
      invariant got == ch.sent[old(ch.taken)..ch.taken]
      decreases |ch.sent| - ch.taken
    {
      got := got + [ch.sent[ch.taken]];
      ch.taken := ch.taken + 1;
    }
  }

  /** Shutting a run down in the source's order: each producer still
      running finishes and sends what it was sending (`finalSends[k]` for
      producer k) before it is waited for; only then is the channel
      closed, and the collector is waited for. Nothing is sent after the
      close (Send would not verify), and the collector ends up with
      everything sent. */
  method Shutdown<T>(ch: Channel<T>, finalSends: seq<seq<T>>) returns (got: seq<T>)
    requires ch.Valid() && !ch.closed
    modifies ch
    ensures ch.Valid() && ch.closed && ch.taken == |ch.sent|
    ensures ch.sent == old(ch.sent) + Flatten(finalSends)
    ensures got == old(ch.sent[ch.taken..]) + Flatten(finalSends)
  {
    var k := 0;
    while k < |finalSends|
      invariant 0 <= k <= |finalSends|
      invariant ch.Valid() && !ch.closed && ch.taken == old(ch.taken)
      invariant ch.sent == old(ch.sent) + Flatten(finalSends[..k])
    {
      SendAll(ch, finalSends[k]);
      assert finalSends[..k + 1][..k] == finalSends[..k];
      k := k + 1;
    }
    assert finalSends[..k] == finalSends;
    ch.Close();
    got := Drain(ch);
  }
}
