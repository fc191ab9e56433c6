/** `handle_puts` and the sending loop of `run_upload`, step by step. */
module UploadHandlers {
  import opened Basics
  import opened FileStream
  import opened Uploads
  import opened UploadRuns
  import Recovery

  class UploadServer {
    var parts: map<string, Bytes>
    var objects: map<string, Bytes>

    function View(): Disk
      reads this
    {
      Disk(parts, objects)
    }

    constructor ()
      ensures View() == Disk(map[], map[])
    {
      parts, objects := map[], map[];
    }

    /** Steps 1 to 7: the request is checked and the part opened. */
    method Open(size: nat, sha: string, lookup: Lookup, io: Io) returns (server: Server, sent: seq<Body>)
      modifies this
      ensures Outcome(server, View(), sent) == Begin(old(View()), size, sha, lookup, io)
      ensures server.Receiving? ==> server == Receiving(size, sha, server.offset, 0)
      ensures !server.AwaitEnd?
    {
      if !IsSha(sha) || lookup.Refused? {
        return Closed, [Failure];
      }
      if !lookup.Absent? {
        return Closed, if lookup.LinkFails? then [Failure] else if io.resume then [PutsResume(size), Ack] else [];
      }
      if !io.open {
        return Closed, [Failure];
      }
      if sha !in parts {
        parts := parts[sha := []];
      }
      assert View() == WithPart(old(View()), sha, Part(old(View()), sha));
      if !io.stat {
        return Closed, [Failure];
      }
      var offset := |parts[sha]|;
      if offset > size {
        if !io.truncate {
          return Closed, [Failure];
        }
        parts := parts[sha := []];
        offset := 0;
      }
      if !io.resume {
        return Closed, [];
      }
      sent := [PutsResume(offset)];
      if offset == size {
        return Verifying(size, sha), sent;
      }
      if !io.seek {
        return Closed, sent + [Failure];
      }
      server := Receiving(size, sha, offset, 0);
    }

    /** Receives the missing byte range, followed by the end marker; stops early when the
        connection is lost. */
    method ReceiveAll(size: nat, sha: string, offset: nat, packets: seq<Packet>, writes: seq<seq<Write>>)
        returns (server: Server, sent: seq<Body>)
      requires offset < size && sha in parts
      modifies this
      ensures Outcome(server, View(), sent) ==
        Serve(Receiving(size, sha, offset, 0), old(View()), packets, Calls(packets, writes))
    {
      hide Serve, OnPacket, Calls;
      ghost var start, before := Receiving(size, sha, offset, 0), old(View());
      ghost var calls := Calls(packets, writes);
      CallsAt(packets, writes);
      var expected, received, i := size - offset, 0, 0;
      assert packets[0..] == packets && calls[0..] == calls;
      while received < expected
        invariant 0 <= i <= |packets| && 0 <= received <= expected && sha in parts
        invariant Serve(start, before, packets, calls) == Serve(
            if received < expected then Receiving(size, sha, offset, received) else AwaitEnd(size, sha), View(),
            packets[i..], calls[i..])
        decreases |packets| - i
      {
        server := Receiving(size, sha, offset, received);
        if i == |packets| {
          ServeNothing(server, View(), packets[i..], calls[i..]);
          return server, [];
        }
        var packet := packets[i];
        ServeNext(server, View(), packets, calls, i);
        if !packet.mine || !packet.body.FileData? || !Acceptable(packet.body.bytes, expected - received) {
          RefusesPacket(server, View(), packet, calls[i]);
          return Closed, [Failure];
        }
        var bytes := packet.body.bytes;
        TakesData(server, View(), packet, calls[i]);
        var written, part := WriteN(parts[sha], bytes, Schedule(writes, i));
        parts := parts[sha := part];
        if written.Some? {
          return Closed, [Failure];
        }
        received, i := received + |bytes|, i + 1;
      }
      server, sent := AwaitEnd(size, sha), [];
      if i == |packets| {
        ServeNothing(server, View(), packets[i..], calls[i..]);
      } else {
        ServeNext(server, View(), packets, calls, i);
        TakesEnd(server, View(), packets[i], calls[i]);
        if packets[i].mine && packets[i].body.FileEnd? {
          server := Verifying(size, sha);
        } else {
          server, sent := Closed, [Failure];
        }
      }
    }

    /** Steps 8 to 10: the complete part is verified and published. */
    method Publish(hash: Hash, sha: string, io: Io) returns (sent: seq<Body>)
      requires sha in parts
      modifies this
      ensures Outcome(Closed, View(), sent) == Verify(hash, old(View()), sha, io)
    {
      if !io.sync || !io.seek || !io.rehash {
        return [Failure];
      }
      if hash(parts[sha]) != sha {
        parts := parts - {sha};
        return [Failure];
      }
      if io.rename {
        objects := objects[sha := parts[sha]];
        parts := parts - {sha};
      } else if sha in objects {
        parts := parts - {sha};
      } else {
        return [Failure];
      }
      sent := [if io.insert then Ack else Failure];
    }

    /** The whole handler, for any sender: the attempt of the specification that these packets
        and calls make. If nothing fails and the sender is honest, the upload is acknowledged,
        and the file stored, exactly if what is kept of the part is a beginning of the file. */
    method HandlePuts(hash: Hash, size: nat, sha: string, lookup: Lookup, packets: seq<Packet>,
                      writes: seq<seq<Write>>, first: Io, last: Io)
        returns (sent: seq<Body>, ghost server: Server)
      modifies this
      ensures Outcome(server, View(), sent) ==
        Attempt(hash, old(View()), size, sha, lookup, packets, [first, last] + Calls(packets, writes))
      ensures lookup.Absent? && first == SMOOTH && last == SMOOTH ==> forall source, bodies ::
        Honest(hash, old(View()), size, sha, packets, writes, source, bodies) ==>
          var kept := Recovery.Kept(Part(old(View()), sha), size);
          && (Ack in sent <==> kept <= source)
          && objects == (if kept <= source then old(objects)[sha := source] else old(objects)) && sha !in parts
    {
      hide Begin, Serve, Verify, Calls, Honest;
      BeginServes(View(), size, sha, lookup, first);
      ghost var calls := Calls(packets, writes);
      var phase, replies := Open(size, sha, lookup, first);
      sent := replies;
      ghost var begun, begunDisk := phase, View();
      if phase.Receiving? {
        phase, replies := ReceiveAll(size, sha, phase.offset, packets, writes);
        sent := sent + replies;
      } else {
        ServesNoMore(phase, View(), packets, calls);
      }
      ServeGrows(begun, size, sha, begunDisk, packets, calls);
      if phase.Verifying? {
        replies := Publish(hash, sha, last);
        sent := sent + replies;
        server := Closed;
      } else {
        server := phase;
      }
      ghost var ios := [first, last] + calls;
      assert ios[2..] == calls;
      if lookup.Absent? && first == SMOOTH && last == SMOOTH {
        forall source, bodies | Honest(hash, old(View()), size, sha, packets, writes, source, bodies)
          ensures var kept := Recovery.Kept(Part(old(View()), sha), size);
            && (Ack in sent <==> kept <= source)
            && objects == (if kept <= source then old(objects)[sha := source] else old(objects)) && sha !in parts
        {
          HonestSucceedsIff(hash, old(View()), size, sha, packets, writes, source, bodies);
        }
      }
    }
  }

  /** The system calls of a receiving loop, packet by packet. */
  function Calls(packets: seq<Packet>, writes: seq<seq<Write>>): (calls: seq<Io>)
    ensures |calls| == |packets|
  {
    seq(|packets|, i requires 0 <= i < |packets| =>
      SMOOTH.(written := Shortfall(Length(packets[i].body), Schedule(writes, i))))
  }

  lemma CallsAt(packets: seq<Packet>, writes: seq<seq<Write>>)
    ensures forall i :: 0 <= i < |packets| ==>
      Calls(packets, writes)[i] == SMOOTH.(written := Shortfall(Length(packets[i].body), Schedule(writes, i)))
  {
  }

  lemma ServeNext(server: Server, disk: Disk, packets: seq<Packet>, calls: seq<Io>, i: nat)
    requires i < |packets| == |calls| && (server.Receiving? || server.AwaitEnd?)
    ensures var next := OnPacket(server, disk, packets[i], calls[i]);
      var rest := Serve(next.server, next.disk, packets[i + 1..], calls[i + 1..]);
      && Serve(server, disk, packets[i..], calls[i..]) == rest.(replies := next.replies + rest.replies)
      && (next.server.Closed? || next.server.Verifying? ==> rest == Outcome(next.server, next.disk, []))
  {
    assert packets[i..][1..] == packets[i + 1..] && calls[i..][1..] == calls[i + 1..];
  }

  lemma ServesNoMore(server: Server, disk: Disk, packets: seq<Packet>, calls: seq<Io>)
    requires !server.Receiving? && !server.AwaitEnd?
    ensures Serve(server, disk, packets, calls) == Outcome(server, disk, [])
  {
  }

  lemma RefusesPacket(server: Server, disk: Disk, packet: Packet, io: Io)
    requires server.Receiving?
    requires !packet.mine || !packet.body.FileData?
      || !Acceptable(packet.body.bytes, server.size - server.offset - server.received)
    ensures OnPacket(server, disk, packet, io) == Outcome(Closed, disk, [Failure])
  {
  }

  lemma TakesData(server: Server, disk: Disk, packet: Packet, io: Io)
    requires server.Receiving? && packet.mine && packet.body.FileData? && server.sha in disk.parts
    requires Acceptable(packet.body.bytes, server.size - server.offset - server.received)
    ensures var bytes := packet.body.bytes;
      var disk' := WithPart(disk, server.sha, Written(disk.parts[server.sha], bytes, io.written));
      OnPacket(server, disk, packet, io) ==
        if io.written.Some? then Outcome(Closed, disk', [Failure])
        else Outcome(
          if server.offset + server.received + |bytes| == server.size then AwaitEnd(server.size, server.sha)
          else server.(received := server.received + |bytes|), disk', [])
  {
  }

  lemma TakesEnd(server: Server, disk: Disk, packet: Packet, io: Io)
    requires server.AwaitEnd?
    ensures OnPacket(server, disk, packet, io) ==
      if packet.mine && packet.body.FileEnd? then Outcome(Verifying(server.size, server.sha), disk, [])
      else Outcome(Closed, disk, [Failure])
  {
  }

  /** The packets are those of a sender that has the file, asks for it by its size and digest,
      and sends all that is missing; and every chunk can be written. */
  ghost predicate Honest(hash: Hash, disk: Disk, size: nat, sha: string, packets: seq<Packet>,
      writes: seq<seq<Write>>, source: Bytes, bodies: seq<Body>)
  {
    && Injective(hash) && sha == hash(source) && IsSha(sha) && size == |source| && packets == Recovery.Mine(bodies)
    && (var kept := Recovery.Kept(Part(disk, sha), size);
        if |kept| == size then bodies == [] else Recovery.Sends(bodies, source, |kept|))
    && forall i :: 0 <= i < |bodies| ==> Length(bodies[i]) <= Room(Schedule(writes, i))
  }

  lemma HonestSucceedsIff(hash: Hash, disk: Disk, size: nat, sha: string, packets: seq<Packet>,
      writes: seq<seq<Write>>, source: Bytes, bodies: seq<Body>)
    requires Honest(hash, disk, size, sha, packets, writes, source, bodies)
    ensures var kept := Recovery.Kept(Part(disk, sha), size);
      var after := Attempt(hash, disk, size, sha, Absent, packets, [SMOOTH, SMOOTH] + Calls(packets, writes));
      && (Ack in after.replies <==> kept <= source)
      && after.disk.objects == (if kept <= source then disk.objects[sha := source] else disk.objects)
      && sha !in after.disk.parts
  {
    hide Attempt, Recovery.Sends, Calls, Recovery.Mine;
    var calls := Calls(packets, writes);
    CallsAt(packets, writes);
    forall i | 0 <= i < |calls| ensures calls[i] == SMOOTH {
      Recovery.MineAt(bodies, i);
    }
    Recovery.UploadSucceedsIff(hash, disk, source, bodies, [SMOOTH, SMOOTH] + calls);
  }

  /** What one call of `read` does. */
  datatype Read = Got(n: nat) | ReadInterrupted | ReadFailed

  /** How much of the file the reads give before one fails or finds nothing. */
  function Yield(results: seq<Read>): nat {
    if results == [] || results[0].ReadFailed? || results[0] == Got(0) then 0
    else if results[0].ReadInterrupted? then Yield(results[1..])
    else Yield(results[1..]) + if results[0].n < CHUNK then results[0].n else CHUNK
  }

  /** The sending loop of `run_upload`: however the reads cut the file into pieces, what is
      sent continues it from the offset, as far as they give it; all of it and the end marker
      exactly if they give all that is missing. */
  method SendFrom(source: Bytes, offset: nat, results: seq<Read>) returns (ok: bool, sent: seq<Body>)
    requires offset <= |source|
    ensures Follows(sent, source, offset) && Stream(sent, ok)
    ensures ok <==> |source| - offset <= Yield(results)
    ensures Reach(sent, offset) == if ok then |source| else offset + Yield(results)
    ensures Data(sent) == source[offset..Reach(sent, offset)]
  {
    var pos, i := offset, 0;
    sent := [];
    assert results[0..] == results;
    while pos < |source|
      invariant 0 <= i <= |results| && offset <= pos <= |source|
      invariant Follows(sent, source, offset) && Stream(sent, false) && Reach(sent, offset) == pos
      invariant if pos < |source| then Yield(results) == pos - offset + Yield(results[i..])
                else |source| - offset <= Yield(results)
      decreases |results| - i
    {
      if i == |results| || results[i].ReadFailed? || results[i] == Got(0) {
        StreamCarries(sent, source, offset, false);
        return false, sent;
      }
      if results[i].Got? {
        var wanted := if |source| - pos > CHUNK then CHUNK else |source| - pos;
        var n := if results[i].n < wanted then results[i].n else wanted;
        NextFollows(source, pos, n);
        StreamsOn(sent, source, offset, FileData(source[pos..pos + n]));
        sent := sent + [FileData(source[pos..pos + n])];
        pos := pos + n;
      }
      i := i + 1;
    }
    NextFollows(source, pos, 0);
    StreamsOn(sent, source, offset, FileEnd);
    StreamCarries(sent + [FileEnd], source, offset, true);
    return true, sent + [FileEnd];
  }
}
