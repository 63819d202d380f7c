/**
 * The write side of a TCP peer (`TcpPeer`): a send buffer filled by `send` and drained by the
 * epoll daemon through `peekWriteAvail`/`notifyWritten`, and a shutdown flag that is only ever
 * raised. A graceful `shutdown` leaves the socket open while bytes are still pending.
 *
 * One sequential owner is modelled: the queue mutex, the atomic flag and the lock hand-over of
 * `peekWriteAvail` are not. The socket and the epoll daemon are outside the model; what the peer
 * asks of them is recorded as effects.
 */
module Tcp {
  import opened Common

  /** What the peer asks of the outside world. */
  datatype Effect =
    | NotifyWriteable  // `EpollDaemon::notifyWriteable(this)`
    | SocketShutdown   // `::shutdown(fd, SHUT_RDWR)`

  /** Outcome of `send`: the source throws once the peer has been shut down. */
  datatype SendOutcome = Queued | SendAfterShutdown

  /** The bytes that `peek(size)` copies out of a buffer: at most `size` leading bytes. */
  function Peeked(buf: Bytes, size: nat): (r: Bytes)
    ensures |r| == Min(size, |buf|)
    ensures r <= buf
  {
    buf[..Min(size, |buf|)]
  }

  /** The buffer left after `discard(n)`: the first `n` bytes are gone, or all of them if fewer remain. */
  function Discarded(buf: Bytes, n: nat): (r: Bytes)
    ensures |r| == |buf| - Min(n, |buf|)
  {
    buf[Min(n, |buf|)..]
  }

  /** Peeking and then discarding the same amount splits the buffer without losing or reordering bytes. */
  lemma PeekThenDiscard(buf: Bytes, n: nat)
    ensures Peeked(buf, n) + Discarded(buf, n) == buf
  {
  }

  /** Two discards in a row remove as much as one discard of their sum. */
  lemma DiscardTwice(buf: Bytes, m: nat, n: nat)
    ensures Discarded(Discarded(buf, m), n) == Discarded(buf, m + n)
  {
  }

  /** Discarding from a buffer that had bytes appended removes the older bytes first. */
  lemma DiscardAfterAppend(buf: Bytes, data: Bytes, n: nat)
    requires n <= |buf|
    ensures Discarded(buf + data, n) == Discarded(buf, n) + data
  {
    assert (buf + data)[n..] == buf[n..] + data;
  }

  class TcpPeer {
    var sendBuffer: Bytes
    var shutDown: bool
    /** Requests made to the epoll daemon and the socket, oldest first. */
    ghost var effects: seq<Effect>
    /** Every byte `send` ever accepted, and those reported written since. */
    ghost var accepted: Bytes
    ghost var written: Bytes

    /** The send buffer is exactly the accepted bytes not yet written, in order. */
    ghost predicate Valid()
      reads this
    {
      accepted == written + sendBuffer
    }

    /** A peer starts with an empty buffer and the flag down; the socket handling is not modelled. */
    constructor ()
      ensures Valid() && !shutDown && sendBuffer == [] && effects == []
    {
      sendBuffer, shutDown := [], false;
      effects, accepted, written := [], [], [];
    }

    /**
     * `peekWriteAvail(lock, data, size)`: with `size == 0` only the number of pending bytes; with
     * a buffer, up to `size` leading bytes and their count. The buffer is not changed.
     */
    method PeekWriteAvail(size: nat) returns (n: nat, data: Bytes)
      ensures size == 0 ==> n == |sendBuffer| && data == []
      ensures size != 0 ==> n == |data| <= size && data <= sendBuffer
      ensures size != 0 && n < size ==> data == sendBuffer
    {
      if size == 0 {
        n, data := |sendBuffer|, [];
      } else {
        data := Peeked(sendBuffer, size);
        n := |data|;
      }
    }

    /** `notifyWritten(size)`: the daemon wrote `size` bytes, which leave the front of the buffer. */
    method NotifyWritten(size: nat)
      requires Valid()
      modifies this
      ensures Valid()
      ensures sendBuffer == Discarded(old(sendBuffer), size)
      ensures written == old(written) + Peeked(old(sendBuffer), size)
      ensures shutDown == old(shutDown) && effects == old(effects) && accepted == old(accepted)
    {
      PeekThenDiscard(sendBuffer, size);
      written := written + Peeked(sendBuffer, size);
      sendBuffer := Discarded(sendBuffer, size);
    }

    /** `send(data, size)`: refused once shut down; otherwise queues the bytes and wakes the daemon. */
    method Send(data: Bytes) returns (r: SendOutcome)
      requires Valid()
      modifies this
      ensures Valid()
      ensures r == SendAfterShutdown <==> old(shutDown)
      ensures r == SendAfterShutdown ==> unchanged(this)
      ensures r == Queued ==>
        && sendBuffer == old(sendBuffer) + data
        && accepted == old(accepted) + data && written == old(written)
        && effects == old(effects) + [NotifyWriteable]
        && shutDown == old(shutDown)
    {
      if shutDown {
        return SendAfterShutdown;
      }
      sendBuffer := sendBuffer + data;
      accepted := accepted + data;
      effects := effects + [NotifyWriteable];
      r := Queued;
    }

    /**
     * `shutdown()`: raises the flag; closes the socket at once if nothing is pending, otherwise
     * wakes the daemon so that the pending bytes are still written.
     */
    method Shutdown()
      modifies this
      ensures shutDown
      ensures sendBuffer == old(sendBuffer) && accepted == old(accepted) && written == old(written)
      ensures old(sendBuffer) == [] ==> effects == old(effects) + [SocketShutdown]
      ensures old(sendBuffer) != [] ==> effects == old(effects) + [NotifyWriteable]
    {
      shutDown := true;
      if sendBuffer == [] {
        effects := effects + [SocketShutdown];
      } else {
        effects := effects + [NotifyWriteable];
      }
    }

    /** `forceShutdown()`: raises the flag and closes the socket whatever is still pending. */
    method ForceShutdown()
      modifies this
      ensures shutDown
      ensures sendBuffer == old(sendBuffer) && accepted == old(accepted) && written == old(written)
      ensures effects == old(effects) + [SocketShutdown]
    {
      shutDown := true;
      effects := effects + [SocketShutdown];
    }
  }

  /** Once shut down, a peer refuses every later send and keeps its buffer. */
  method ShutdownThenSend(peer: TcpPeer, data: Bytes) returns (r: SendOutcome)
    requires peer.Valid()
    modifies peer
    ensures r == SendAfterShutdown && peer.shutDown
    ensures peer.sendBuffer == old(peer.sendBuffer)
  {
    peer.Shutdown();
    r := peer.Send(data);
  }
}
