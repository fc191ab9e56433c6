/** The packets of a transfer, and what it means that a stream of them carries a file. */
module FileStream {
  import opened Basics

  const CHUNK := 4096

  /** SHA-256, as lower-case hexadecimal. */
  type Hash = Bytes -> string

  ghost predicate Injective(hash: Hash) {
    forall a, b :: hash(a) == hash(b) ==> a == b
  }

  datatype Body =
    | PutsRequest(size: nat, sha: string)
    | PutsResume(offset: nat)
    | GetsRequest
    | GetsInfo(size: nat, sha: string)
    | ResumePos(offset: nat)
    | FileData(bytes: Bytes)
    | FileEnd
    | Ack
    | Failure
    | Unknown                               // any other type, status or length

  /** `mine`: the packet carries the session of the transfer. */
  datatype Packet = Packet(mine: bool, body: Body)

  predicate IsHexDigit(c: char) {
    '0' <= c <= '9' || 'a' <= c <= 'f' || 'A' <= c <= 'F'
  }

  predicate IsSha(s: string) {
    |s| == 64 && forall i :: 0 <= i < 64 ==> IsHexDigit(s[i])
  }

  function Lower(s: string): string {
    if s == [] then [] else [if 'A' <= s[0] <= 'Z' then (s[0] as int + 32) as char else s[0]] + Lower(s[1..])
  }

  /** Letter by letter: capitals become small letters, all else stays. */
  lemma {:induction false} LowerAt(s: string, i: nat)
    requires i < |s|
    ensures |Lower(s)| == |s|
    ensures Lower(s)[i] == if 'A' <= s[i] <= 'Z' then (s[i] as int - 'A' as int + 'a' as int) as char else s[i]
  {
    if i > 0 {
      LowerAt(s[1..], i - 1);
    } else if |s| > 1 {
      LowerAt(s[1..], 0);
    }
  }

  /** No two contents have the same digest, and digests are in lower case. */
  ghost predicate IsDigest(hash: Hash) {
    Injective(hash) && forall b :: Lower(hash(b)) == hash(b)
  }

  predicate Acceptable(bytes: Bytes, missing: int) {
    0 < |bytes| <= CHUNK && |bytes| <= missing
  }

  /** What `write_n` leaves in the file. */
  function Written(part: Bytes, bytes: Bytes, written: Option<nat>): Bytes {
    if written.Some? && written.value < |bytes| then part + bytes[..written.value] else part + bytes
  }

  predicate IsPiece(bytes: Bytes, source: Bytes, from: nat) {
    0 < |bytes| <= CHUNK && from + |bytes| <= |source| && bytes == source[from..from + |bytes|]
  }

  /** These packets continue the file from `from` on, in order. */
  ghost predicate Follows(packets: seq<Body>, source: Bytes, from: nat)
    decreases |packets|
  {
    packets == []
    || (packets[0].FileData? && IsPiece(packets[0].bytes, source, from)
        && Follows(packets[1..], source, from + |packets[0].bytes|))
    || (packets[0].FileEnd? && from == |source|)
    || packets[0].Failure?
  }

  function Length(body: Body): nat {
    if body.FileData? then |body.bytes| else 0
  }

  /** How far they go. */
  function Reach(packets: seq<Body>, from: nat): nat
    decreases |packets|
  {
    if packets == [] then from else Reach(packets[1..], from + Length(packets[0]))
  }

  /** Data only, with the end marker last if it is there at all. */
  ghost predicate Stream(packets: seq<Body>, ended: bool) {
    && (ended ==> packets != [])
    && forall i :: 0 <= i < |packets| ==>
         if ended && i == |packets| - 1 then packets[i].FileEnd? else packets[i].FileData?
  }

  /** What an end that gives up may still send. */
  predicate Leftover(packets: seq<Body>) {
    packets == [] || packets == [Failure]
  }

  /** What was handed to the connection is not taken back. */
  function Sent(packets: seq<Body>, n: nat): seq<Body> {
    if n <= |packets| then packets[..n] else packets
  }

  lemma {:induction false} FollowsSome(packets: seq<Body>, source: Bytes, from: nat, n: nat, last: seq<Body>)
    requires Follows(packets, source, from) && n <= |packets| && Leftover(last)
    ensures Follows(packets[..n] + last, source, from)
  {
    hide IsPiece;
    if packets != [] && n > 0 {
      assert (packets[..n] + last)[1..] == packets[1..][..n - 1] + last;
      if packets[0].FileData? {
        FollowsSome(packets[1..], source, from + |packets[0].bytes|, n - 1, last);
      }
    } else {
      assert packets[..n] + last == last;
    }
  }

  lemma {:induction false} StreamsOn(packets: seq<Body>, source: Bytes, from: nat, next: Body)
    requires Follows(packets, source, from) && Stream(packets, false) && Reach(packets, from) <= |source|
    requires Follows([next], source, Reach(packets, from)) && (next.FileData? || next.FileEnd?)
    ensures Follows(packets + [next], source, from) && Stream(packets + [next], next.FileEnd?)
    ensures Reach(packets + [next], from) == Reach(packets, from) + Length(next)
  {
    hide IsPiece;
    if packets == [] {
      assert [next][1..] == [];
      assert packets + [next] == [next];
    } else {
      assert packets[0].FileData? && (packets + [next])[1..] == packets[1..] + [next];
      StreamsOn(packets[1..], source, from + |packets[0].bytes|, next);
    }
  }

  lemma NextFollows(source: Bytes, pos: nat, n: nat)
    requires if pos == |source| then n == 0 else 0 < n <= CHUNK && pos + n <= |source|
    ensures Follows([if n == 0 then FileEnd else FileData(source[pos..pos + n])], source, pos)
  {
  }

  lemma RestFollows(packets: seq<Body>, source: Bytes, from: nat)
    requires Follows(packets, source, from) && |packets| > 0 && packets[0].FileData?
    ensures Follows(packets[1..], source, from + |packets[0].bytes|) && IsPiece(packets[0].bytes, source, from)
  {
  }

  lemma {:induction false} DataRemains(packets: seq<Body>, source: Bytes, from: nat, ended: bool)
    requires Follows(packets, source, from) && Stream(packets, ended) && |packets| > 0 && packets[0].FileData?
    ensures Stream(packets[1..], ended) && Follows(packets[1..], source, from + |packets[0].bytes|)
    ensures Reach(packets[1..], from + |packets[0].bytes|) == Reach(packets, from)
    ensures from + |packets[0].bytes| == |source| ==>
      Reach(packets, from) == |source| && packets[1..] == if ended then [FileEnd] else []
  {
    if from + |packets[0].bytes| == |source| && |packets| > 1 {
      assert packets[1..][0] == packets[1];
    }
  }

  /** The bytes in a stream. */
  function Data(packets: seq<Body>): Bytes {
    if packets == [] then []
    else (if packets[0].FileData? then packets[0].bytes else []) + Data(packets[1..])
  }

  lemma {:induction false} StreamCarries(packets: seq<Body>, source: Bytes, from: nat, ended: bool)
    requires Follows(packets, source, from) && Stream(packets, ended) && from <= |source|
    ensures from <= Reach(packets, from) <= |source| && Data(packets) == source[from..Reach(packets, from)]
  {
    hide Follows;
    if packets == [] {
    } else if packets[0].FileData? {
      RestFollows(packets, source, from);
      DataRemains(packets, source, from, ended);
      StreamCarries(packets[1..], source, from + |packets[0].bytes|, ended);
      Slices(source, from, from + |packets[0].bytes|, Reach(packets, from));
    } else {
      assert |packets| == 1 && packets[1..] == [];
    }
  }

  lemma Slices(source: Bytes, from: nat, middle: nat, end: nat)
    requires from <= middle <= end <= |source|
    ensures source[from..middle] + source[middle..end] == source[from..end]
  {
  }

  /** What one call of `write` does. */
  datatype Write = Wrote(n: nat) | WriteInterrupted | WriteFailed

  /** How many bytes get through before a call fails. */
  function Room(writes: seq<Write>): nat {
    if writes == [] || writes[0].WriteFailed? then 0
    else (if writes[0].Wrote? then writes[0].n else 0) + Room(writes[1..])
  }

  /** The calls of `write` for packet `i`; without any, writing fails at once. */
  function Schedule(writes: seq<seq<Write>>, i: nat): seq<Write> {
    if i < |writes| then writes[i] else []
  }

  /** How much of the data is in the file when writing it fails; none when it does not fail. */
  function Shortfall(length: nat, writes: seq<Write>): Option<nat> {
    if length <= Room(writes) then None else Some(Room(writes))
  }

  lemma WrittenIs(file: Bytes, data: Bytes, total: nat)
    requires total <= |data|
    ensures Written(file, data, if total < |data| then Some(total) else None) == file + data[..total]
  {
    assert data[..|data|] == data;
  }

  /** `write_n`: all of the data is appended, exactly if the calls let as much through; or as much
      of it as they do, and the call fails. */
  method WriteN(file: Bytes, data: Bytes, writes: seq<Write>) returns (written: Option<nat>, file': Bytes)
    ensures written == Shortfall(|data|, writes) && file' == Written(file, data, written)
  {
    hide Written;
    var total, i := 0, 0;
    file' := file;
    assert writes[0..] == writes && data[..0] == [] && file + [] == file;
    while total < |data|
      invariant 0 <= i <= |writes| && 0 <= total <= |data| && file' == file + data[..total]
      invariant if total < |data| then Room(writes) == total + Room(writes[i..]) else |data| <= Room(writes)
      decreases |writes| - i
    {
      if i == |writes| || writes[i].WriteFailed? {
        WrittenIs(file, data, total);
        return Some(total), file';
      }
      assert writes[i..][1..] == writes[i + 1..];
      if writes[i].Wrote? {
        var n := if writes[i].n <= |data| - total then writes[i].n else |data| - total;
        assert file + data[..total] + data[total..total + n] == file + data[..total + n];
        file' := file' + data[total..total + n];
        total := total + n;
      }
      i := i + 1;
    }
    WrittenIs(file, data, total);
    written := None;
  }
}
