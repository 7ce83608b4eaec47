/** The buffer converters of sound_conv.c and the send buffer of the sound thread
    (sound-ucl.c): PCM blocks come in, packets of 160 codes go out, in order. */
module SendQueue {
  import opened Wrappers
  import opened G711
  import opened G711Theorems

  /** C division of a byte count by 2: towards zero. */
  function Half(size: int): int {
    if size >= 0 then size / 2 else -((-size) / 2)
  }

  /** The samples that a conversion of `size` bytes reads. */
  function Limit(size: int): nat {
    if Half(size) < 0 then 0 else Half(size)
  }

  /** alaw_enc and mulaw_enc: from `pcm` into `out`, at `start` */
  method EncodeBuffer(law: Law, pcm: seq<Sample>, out: array<Code>, start: nat, size: int)
    requires Limit(size) <= |pcm| && start + Limit(size) <= out.Length
    modifies out
    ensures out[..] == old(out[..start]) + EncodeAll(law, pcm[..Limit(size)]) + old(out[start + Limit(size)..])
  {
    hide Encode;
    var limit := Half(size);
    var i := 0;
    while i < limit
      invariant 0 <= i <= Limit(size)
      invariant forall k :: 0 <= k < start ==> out[k] == old(out[k])
      invariant forall k :: 0 <= k < i ==> out[start + k] == Encode(law, pcm[k])
      invariant forall k :: start + i <= k < out.Length ==> out[k] == old(out[k])
    {
      out[start + i] := Encode(law, pcm[i]);
      i := i + 1;
    }
    assert out[..start] == old(out[..start]) && out[start + i..] == old(out[start + i..]);
    assert out[start..start + i] == EncodeAll(law, pcm[..i]);
    assert out[..] == out[..start] + out[start..start + i] + out[start + i..];
  }

  /** alaw_dec and mulaw_dec */
  method DecodeBuffer(law: Law, data: seq<Code>, out: array<Sample>, size: int)
    requires size <= |data| && size <= out.Length
    modifies out
    ensures var n := if size < 0 then 0 else size;
            out[..] == DecodeAll(law, data[..n]) + old(out[n..])
  {
    var i := 0;
    while i < size
      invariant 0 <= i <= if size < 0 then 0 else size
      invariant forall k :: 0 <= k < i ==> out[k] == Decode(law, data[k])
      invariant forall k :: i <= k < out.Length ==> out[k] == old(out[k])
    {
      out[i] := Decode(law, data[i]);
      i := i + 1;
    }
  }

  // ---------------------------------------------------------------- turns of the thread

  const PACKET := 160       // MULAW_BYTES

  datatype Mode = SendRecv | SendOnly | RecvOnly

  /** A read of up to 640 bytes: the count it returned, -1 for an error, and the samples. */
  datatype Block = Block(size: int, data: seq<Sample>)

  predicate BlockOk(b: Block) {
    -1 <= b.size <= 4 * PACKET && Limit(b.size) <= |b.data|
  }

  /** What the outside does in one turn: the mode, the read, and, when a file ran short, the
      first read of the file reopened (None when that failed). */
  datatype Turn = Turn(mode: Mode, first: Block, again: Option<Block>)

  predicate TurnOk(t: Turn) {
    BlockOk(t.first) && (t.again.Some? ==> BlockOk(t.again.value))
  }

  function Samples(b: Block): seq<Sample>
    requires BlockOk(b)
  {
    b.data[..Limit(b.size)]
  }

  /** The samples that a turn takes in when `pos` codes wait, None when the thread stops: a turn
      reads only while less than four packets wait; a short read of a file restarts it. */
  function Taken(t: Turn, pos: nat): Option<seq<Sample>>
    requires TurnOk(t)
  {
    if t.mode == RecvOnly || pos >= 4 * PACKET then Some([])
    else if t.mode == SendRecv || t.first.size >= 4 * PACKET then Some(Samples(t.first))
    else if t.again.Some? then Some(Samples(t.again.value))
    else None
  }

  /** What waits after the turn: a packet leaves as soon as there is one. */
  function Waiting(t: Turn, pos: nat): nat
    requires TurnOk(t) && Taken(t, pos).Some?
  {
    var p := pos + |Taken(t, pos).value|;
    if t.mode != RecvOnly && p >= PACKET then p - PACKET else p
  }

  /** The samples that a whole run takes in. */
  function Accepted(turns: seq<Turn>, pos: nat): seq<Sample>
    requires forall i :: 0 <= i < |turns| ==> TurnOk(turns[i])
  {
    if turns == [] then []
    else match Taken(turns[0], pos)
      case None => []
      case Some(xs) => xs + Accepted(turns[1..], Waiting(turns[0], pos))
  }

  /** A turn that sends takes in every whole sample of its read while less than 640 codes wait; a
      file that ran short is read from its start instead, and the thread stops when that fails.
      Nothing is taken in otherwise. */
  lemma TakesAll(t: Turn, pos: nat)
    requires TurnOk(t)
    ensures t.mode == RecvOnly || pos >= 640 ==> Taken(t, pos) == Some([])
    ensures t.mode == SendRecv && pos < 640 ==>
              Taken(t, pos) == Some(if t.first.size < 0 then [] else t.first.data[..t.first.size / 2])
    ensures t.mode == SendOnly && pos < 640 && t.first.size == 640 ==> Taken(t, pos) == Some(t.first.data[..320])
    ensures t.mode == SendOnly && pos < 640 && t.first.size < 640 ==>
              Taken(t, pos) == match t.again
                               case None => None
                               case Some(b) => Some(if b.size < 0 then [] else b.data[..b.size / 2])
  {
  }

  /** The samples of all reads of a run, one after the other. */
  function AllReads(turns: seq<Turn>): seq<Sample>
    requires forall i :: 0 <= i < |turns| ==> TurnOk(turns[i])
  {
    if turns == [] then []
    else
      var b := turns[0].first;
      assert TurnOk(turns[0]);
      (if b.size < 0 then [] else b.data[..b.size / 2]) + AllReads(turns[1..])
  }

  /** A thread that sends and receives, and whose reads bring at most one packet each, never skips
      a read: everything that was read is taken in. */
  lemma {:induction false} NothingSkipped(turns: seq<Turn>, pos: nat)
    requires pos < PACKET
    requires forall i :: 0 <= i < |turns| ==> TurnOk(turns[i]) && turns[i].mode == SendRecv && turns[i].first.size <= 2 * PACKET
    ensures Accepted(turns, pos) == AllReads(turns)
  {
    hide Taken;
    if turns != [] {
      TakesAll(turns[0], pos);
      NothingSkipped(turns[1..], Waiting(turns[0], pos));
    }
  }

  function Flatten(packets: seq<seq<Code>>): seq<Code> {
    if packets == [] then [] else Flatten(packets[..|packets| - 1]) + packets[|packets| - 1]
  }

  lemma FlattenSnoc(packets: seq<seq<Code>>, p: seq<Code>)
    ensures Flatten(packets + [p]) == Flatten(packets) + p
  {
    assert (packets + [p])[..|packets|] == packets;
  }

  class Sender {
    const law: Law
    const buffer: array<Code>
    var pos: nat
    var packets: seq<seq<Code>>

    ghost predicate Valid()
      reads this
    {
      buffer.Length == 16 * PACKET && pos <= 5 * PACKET - 1
    }

    /** Everything that was encoded: the packets sent, then the codes that wait. */
    ghost function Stream(): seq<Code>
      requires Valid()
      reads this, buffer
    {
      Flatten(packets) + buffer[..pos]
    }

    constructor (law: Law)
      ensures Valid() && Stream() == [] && this.law == law && packets == [] && pos == 0 && fresh(buffer)
    {
      this.law := law;
      buffer := new Code[16 * PACKET](_ => 0);
      pos := 0;
      packets := [];
    }

    /** Encodes a block behind what waits. */
    method Take(b: Block)
      requires Valid() && BlockOk(b) && pos < 4 * PACKET
      modifies this`pos, buffer
      ensures buffer.Length == 16 * PACKET && pos == old(pos) + |Samples(b)| <= 6 * PACKET - 1
      ensures buffer[..pos] == old(buffer[..pos]) + EncodeAll(law, Samples(b))
    {
      EncodeBuffer(law, b.data, buffer, pos, b.size);
      pos := pos + Limit(b.size);
    }

    /** Sends the first packet that waits; memmove takes its place. */
    method SendPacket()
      requires buffer.Length == 16 * PACKET && PACKET <= pos <= 6 * PACKET - 1
      modifies this`pos, this`packets, buffer
      ensures Valid() && pos == old(pos) - PACKET
      ensures packets == old(packets) + [old(buffer[..PACKET])]
      ensures Stream() == old(Flatten(packets) + buffer[..pos])
    {
      hide Flatten;
      ghost var sent, waiting := Flatten(packets), buffer[..pos];
      var packet := buffer[..PACKET];
      FlattenSnoc(packets, packet);
      packets := packets + [packet];
      MoveDown();
      pos := pos - PACKET;
      assert waiting == packet + buffer[..pos];
      assert sent + packet + buffer[..pos] == sent + (packet + buffer[..pos]);
    }

    /** memmove (mulaw_buffer, mulaw_buffer + MULAW_BYTES, MULAW_BYTES * 15) */
    method MoveDown()
      requires buffer.Length == 16 * PACKET
      modifies buffer
      ensures forall k :: 0 <= k < 15 * PACKET ==> buffer[k] == old(buffer[k + PACKET])
    {
      forall k | 0 <= k < 15 * PACKET {
        buffer[k] := buffer[k + PACKET];
      }
    }

    /** Reads and encodes, unless four packets wait. */
    method Fill(t: Turn) returns (go: bool)
      requires Valid() && TurnOk(t) && t.mode != RecvOnly
      modifies this`pos, buffer
      ensures go == Taken(t, old(pos)).Some?
      ensures !go ==> pos == old(pos) && buffer[..pos] == old(buffer[..pos])
      ensures go ==> pos == old(pos) + |Taken(t, old(pos)).value| <= 6 * PACKET - 1
                     && buffer[..pos] == old(buffer[..pos]) + EncodeAll(law, Taken(t, old(pos)).value)
    {
      hide Encode;
      if pos < 4 * PACKET {
        var b := t.first;
        if t.mode != SendRecv && b.size < 4 * PACKET {
          if t.again.None? { return false; }
          b := t.again.value;
        }
        Take(b);
      } else {
        assert buffer[..pos] + [] == buffer[..pos];
      }
      go := true;
    }

    /** One turn of the thread. */
    method DoTurn(t: Turn) returns (go: bool)
      requires Valid() && TurnOk(t)
      modifies this`pos, this`packets, buffer
      ensures Valid() && go == Taken(t, old(pos)).Some?
      ensures !go ==> Stream() == old(Stream()) && pos == old(pos) && packets == old(packets)
      ensures go ==> Stream() == old(Stream()) + EncodeAll(law, Taken(t, old(pos)).value) && pos == Waiting(t, old(pos))
      ensures packets == old(packets) || exists p :: |p| == PACKET && packets == old(packets) + [p]
    {
      hide Flatten, Encode;
      if t.mode == RecvOnly {
        assert Stream() + [] == Stream();
        return true;
      }
      go := Fill(t);
      if go {
        assert Flatten(packets) + buffer[..pos] == old(Stream()) + EncodeAll(law, Taken(t, old(pos)).value);
        if pos >= PACKET { SendPacket(); }
      }
    }

    /** The thread, for the given turns.  At every turn at most 799 codes wait, and the packets
        sent so far, followed by them, are the encoding of the samples taken in, in order. */
    method Run(turns: seq<Turn>)
      requires Valid() && forall i :: 0 <= i < |turns| ==> TurnOk(turns[i])
      modifies this`pos, this`packets, buffer
      ensures Valid() && pos <= 799
      ensures Stream() == old(Stream()) + EncodeAll(law, Accepted(turns, old(pos)))
      ensures |packets| >= |old(packets)| && packets[..|old(packets)|] == old(packets)
      ensures forall i :: |old(packets)| <= i < |packets| ==> |packets[i]| == PACKET
    {
      hide Taken, Waiting, Stream, EncodeAll, TurnOk, Accepted;
      ghost var whole := Accepted(turns, pos);
      var n := 0;
      ghost var taken: seq<Sample> := [];
      NothingEncoded(law);
      assert turns[0..] == turns && [] + whole == whole && Stream() + [] == Stream();
      while n < |turns|
        invariant 0 <= n <= |turns| && Valid()
        invariant Stream() == old(Stream()) + EncodeAll(law, taken)
        invariant whole == taken + Accepted(turns[n..], pos)
        invariant |packets| >= |old(packets)| && packets[..|old(packets)|] == old(packets)
        invariant forall i :: |old(packets)| <= i < |packets| ==> |packets[i]| == PACKET
      {
        ghost var p, before := pos, Stream();
        AcceptedFirst(turns, n, p);
        var go := DoTurn(turns[n]);
        if !go { assert taken + [] == taken; return; }
        ghost var xs := Taken(turns[n], p).value;
        StreamGrows(law, old(Stream()), taken, xs);
        assert taken + (xs + Accepted(turns[n + 1..], pos)) == taken + xs + Accepted(turns[n + 1..], pos);
        taken := taken + xs;
        n := n + 1;
      }
      NothingAccepted(pos);
      assert turns[n..] == [] && taken + [] == taken;
    }
  }

  lemma NothingAccepted(pos: nat)
    ensures Accepted([], pos) == []
  {
  }

  lemma AcceptedFirst(turns: seq<Turn>, n: nat, pos: nat)
    requires n < |turns| && forall i :: 0 <= i < |turns| ==> TurnOk(turns[i])
    ensures TurnOk(turns[n])
    ensures Accepted(turns[n..], pos) ==
              if Taken(turns[n], pos).None? then []
              else Taken(turns[n], pos).value + Accepted(turns[n + 1..], Waiting(turns[n], pos))
  {
    hide Taken, Waiting;
    assert turns[n..][0] == turns[n] && turns[n..][1..] == turns[n + 1..];
  }

  lemma StreamGrows(law: Law, before: seq<Code>, xs: seq<Sample>, ys: seq<Sample>)
    ensures before + EncodeAll(law, xs) + EncodeAll(law, ys) == before + EncodeAll(law, xs + ys)
  {
    EncodeAppend(law, xs, ys);
  }

  lemma NothingEncoded(law: Law)
    ensures EncodeAll(law, []) == []
  {
  }

  lemma EncodeAppend(law: Law, xs: seq<Sample>, ys: seq<Sample>)
    ensures EncodeAll(law, xs + ys) == EncodeAll(law, xs) + EncodeAll(law, ys)
  {
  }
}
