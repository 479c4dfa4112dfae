/** docker/warp/connect4.py over sockets: the loops that grow buffers and move bytes. */
module Connect4Relay {
  import opened Wrappers
  import opened Connect4

  /** The readable side of a socket: a script of chunks, read once, in order. */
  class Source {
    const chunks: seq<Chunk>
    var next: nat

    ghost predicate Valid()
      reads this
    {
      next <= |chunks| && WellFormed(chunks)
    }

    constructor (chunks: seq<Chunk>)
      requires WellFormed(chunks)
      ensures Valid() && this.chunks == chunks && next == 0
    {
      this.chunks, next := chunks, 0;
    }

    /** None when recv raises; the empty string once the peer has closed. */
    method Recv() returns (data: Option<string>)
      requires Valid()
      modifies this
      ensures Valid()
      ensures old(next) == |chunks| ==> data == Some("") && next == old(next)
      ensures old(next) < |chunks| && chunks[old(next)].Broken? ==> data.None? && next == old(next)
      ensures old(next) < |chunks| && chunks[old(next)].Data? ==>
        data == Some(chunks[old(next)].bytes) && next == old(next) + 1
    {
      if next == |chunks| {
        return Some("");
      }
      match chunks[next] {
        case Broken => data := None;
        case Data(bytes) =>
          next := next + 1;
          data := Some(bytes);
      }
    }
  }

  /** The writable side: it takes bytes up to its capacity, if it has one, and then errors. */
  class Sink {
    const capacity: Option<nat>
    var received: string
    var finished: bool

    constructor (capacity: Option<nat>)
      ensures this.capacity == capacity && received == "" && !finished
    {
      this.capacity, received, finished := capacity, "", false;
    }

    method SendAll(data: string) returns (sent: bool)
      modifies this
      ensures finished == old(finished)
      ensures old(received) <= received <= old(received) + data
      ensures sent ==> received == old(received) + data
      ensures !sent ==> capacity.Some?
    {
      if capacity.None? || |received| + |data| <= capacity.value {
        received := received + data;
        return true;
      }
      var room := if capacity.value > |received| then capacity.value - |received| else 0;
      assert received + data[..room] <= received + data;
      received := received + data[..room];
      sent := false;
    }

    method ShutdownWrite()
      modifies this
      ensures finished && received == old(received)
    {
      finished := true;
    }
  }

  /** read_head. */
  method ReadHead(client: Source) returns (r: ReadOutcome)
    requires client.Valid() && client.next == 0
    modifies client
    ensures client.Valid()
    ensures r == ReadFrom(client.chunks, 0)
    ensures r.Head? ==> client.next == r.used
  {
    var buf := "";
    while FirstBlank(buf).None?
      invariant client.Valid() && buf == Bytes(client.chunks, client.next)
      invariant ReadFrom(client.chunks, 0) == ReadFrom(client.chunks, client.next)
      decreases |client.chunks| - client.next
    {
      var chunk := client.Recv();
      if chunk.None? {
        return Raised;
      }
      if chunk.value == "" {
        return Closed;
      }
      buf := buf + chunk.value;
      if |buf| > LIMIT {
        return TooLong;
      }
    }
    var blank := FirstBlank(buf).value;
    r := Head(buf[..blank], buf[blank + 4..], client.next);
  }

  /** Nothing on the way raises. */
  predicate NoErrors(chunks: seq<Chunk>, capacity: Option<nat>) {
    capacity.None? && forall i :: 0 <= i < |chunks| ==> chunks[i].Data?
  }

  /** pump: what arrives at the destination is an in-order prefix of what the source had left, all of
      it when no socket errs, and the destination is shut down either way. */
  method Pump(src: Source, dst: Sink)
    requires src.Valid()
    modifies src, dst
    ensures src.Valid() && dst.finished
    ensures old(dst.received) <= dst.received <= old(dst.received) + Later(src.chunks, old(src.next))
    ensures NoErrors(src.chunks, dst.capacity) ==> dst.received == old(dst.received) + Later(src.chunks, old(src.next))
  {
    ghost var start := dst.received;
    ghost var all := start + Later(src.chunks, src.next);
    var more := true;
    while more
      invariant src.Valid()
      invariant start <= dst.received <= all
      invariant more ==> dst.received + Later(src.chunks, src.next) == all
      invariant !more && NoErrors(src.chunks, dst.capacity) ==> dst.received == all
      decreases |src.chunks| - src.next, more
    {
      ghost var before, at := dst.received, src.next;
      var data := src.Recv();
      if data.None? || data.value == "" {
        more := false;
      } else {
        more := dst.SendAll(data.value);
        Regroup(before, data.value, Later(src.chunks, at + 1));
        PrefixTrans(dst.received, before + data.value, all);
      }
    }
    dst.ShutdownWrite();
  }

  lemma Regroup(a: string, b: string, c: string)
    ensures a + (b + c) == a + b + c && a + b <= a + b + c
  {
  }

  lemma PrefixTrans(a: string, b: string, c: string)
    requires a <= b <= c
    ensures a <= c
  {
  }

  /** do_connect, client to peer: what was read past the head goes first. */
  method Tunnel(client: Source, rest: string, peer: Sink)
    requires client.Valid()
    modifies client, peer
    ensures old(peer.received) <= peer.received <= old(peer.received) + rest + Later(client.chunks, old(client.next))
    ensures NoErrors(client.chunks, peer.capacity) ==>
              peer.finished && peer.received == old(peer.received) + rest + Later(client.chunks, old(client.next))
  {
    ghost var before, later := peer.received, Later(client.chunks, client.next);
    Regroup(before, rest, later);
    if rest != "" {
      var sent := peer.SendAll(rest);
      if !sent {
        PrefixTrans(peer.received, before + rest, before + rest + later);
        return;
      }
    }
    assert peer.received == before + rest;
    Pump(client, peer);
    PrefixTrans(before, before + rest, peer.received);
  }

  /** A CONNECT connection from its first byte: the peer receives an in-order prefix of the bytes
      after the head, all of them when no socket errs, however the client's stream is cut. */
  method Connect(client: Source, peer: Sink) returns (r: ReadOutcome)
    requires client.Valid() && client.next == 0 && peer.received == ""
    modifies client, peer
    ensures r == ReadFrom(client.chunks, 0)
    ensures !r.Head? ==> peer.received == ""
    ensures r.Head? ==> FirstBlank(Stream(client.chunks)) == Some(|r.head|)
                        && peer.received <= Stream(client.chunks)[|r.head| + 4..]
    ensures r.Head? && NoErrors(client.chunks, peer.capacity) ==>
              peer.finished && peer.received == Stream(client.chunks)[|r.head| + 4..]
  {
    r := ReadHead(client);
    HeadSplitsTheStream(client.chunks, 0);
    if r.Head? {
      TunnelAfterHead(client, r.head, r.rest, peer);
    }
  }

  method TunnelAfterHead(client: Source, head: string, rest: string, peer: Sink)
    requires client.Valid() && peer.received == ""
    requires head + BLANK + (rest + Later(client.chunks, client.next)) == Stream(client.chunks)
    modifies client, peer
    ensures |head| + 4 <= |Stream(client.chunks)| && peer.received <= Stream(client.chunks)[|head| + 4..]
    ensures NoErrors(client.chunks, peer.capacity) ==>
      peer.finished && peer.received == Stream(client.chunks)[|head| + 4..]
  {
    ghost var after := rest + Later(client.chunks, client.next);
    AfterHead(head, after, Stream(client.chunks));
    assert "" + rest + Later(client.chunks, client.next) == after;
    Tunnel(client, rest, peer);
  }

  lemma AfterHead(head: string, after: string, s: string)
    requires head + BLANK + after == s
    ensures |head| + 4 <= |s| && s[|head| + 4..] == after
  {
  }
}
