/**
 * The unbounded work queue of the traversal: the goroutine started by
 * `queue()` owns a private buffer, appends what arrives on its input
 * channel, offers the front item on its output channel only while the
 * buffer is non-empty, and stops (closing the output) once the input is
 * closed. Each method below is one turn of that arbiter loop.
 */
module Queue {

  /** What a receiver on the output channel gets. */
  datatype Received =
    | Item(value: string)   // the arbiter handed over its front item
    | Exhausted             // the output is closed: the receiver's loop ends
    | WouldBlock            // nothing is offered yet: the receiver waits

  class WorkQueue {
    /** The arbiter's buffer, front first. */
    var buff: seq<string>
    /** The input channel has not been closed (so the arbiter loop still runs). */
    var open: bool
    /** Every item accepted so far, in arrival order. */
    ghost var pushed: seq<string>
    /** Every item handed to a receiver so far, in hand-over order. */
    ghost var delivered: seq<string>
    /** Items still buffered when the input was closed. */
    ghost var dropped: seq<string>

    /** No item is lost or duplicated: each accepted item is delivered, dropped or still buffered, in order. */
    ghost predicate Valid()
      reads this
    {
      && pushed == delivered + dropped + buff
      && (open ==> dropped == [])
      && (!open ==> buff == [])
    }

    constructor ()
      ensures Valid() && open
      ensures buff == [] && pushed == [] && delivered == [] && dropped == []
    {
      buff, open := [], true;
      pushed, delivered, dropped := [], [], [];
    }

    /**
     * A send on the input channel: the arbiter appends the item at the back.
     * Sending on a closed channel panics in Go; here it is reported as
     * `accepted == false` and changes nothing.
     */
    method Push(val: string) returns (accepted: bool)
      requires Valid()
      modifies this
      ensures Valid()
      ensures accepted == old(open) && open == old(open)
      ensures accepted ==> buff == old(buff) + [val] && pushed == old(pushed) + [val]
      ensures !accepted ==> buff == old(buff) && pushed == old(pushed)
      ensures delivered == old(delivered) && dropped == old(dropped)
    {
      accepted := open;
      if accepted {
        buff := buff + [val];
        pushed := pushed + [val];
      }
    }

    /**
     * A receive on the output channel. While the input is open the arbiter
     * offers buff[0] only when the buffer is non-empty; once the input is
     * closed the output is closed too.
     */
    method Pop() returns (r: Received)
      requires Valid()
      modifies this
      ensures Valid()
      ensures open == old(open) && pushed == old(pushed) && dropped == old(dropped)
      ensures !old(open) ==> r == Exhausted && buff == old(buff) && delivered == old(delivered)
      ensures old(open) && old(buff) != [] ==>
                r == Item(old(buff)[0]) && buff == old(buff)[1..] && delivered == old(delivered) + [old(buff)[0]]
      ensures old(open) && old(buff) == [] ==> r == WouldBlock && buff == old(buff) && delivered == old(delivered)
    {
      if !open {
        r := Exhausted;
      } else if buff == [] {
        r := WouldBlock;
      } else {
        r := Item(buff[0]);
        delivered := delivered + [buff[0]];
        buff := buff[1..];
      }
    }

    /**
     * Closing the input: the arbiter loop ends and closes the output,
     * whatever is still buffered; `lost` is that leftover.
     * Closing a closed channel panics in Go, so the input must be open.
     */
    method Close() returns (lost: seq<string>)
      requires Valid() && open
      modifies this
      ensures Valid() && !open
      ensures lost == old(buff) && buff == [] && dropped == old(buff)
      ensures pushed == old(pushed) && delivered == old(delivered)
    {
      lost := buff;
      dropped := buff;
      buff := [];
      open := false;
    }
  }
}
