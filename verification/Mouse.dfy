/** From mouse bytes to mouse packets (proj/mouse.c, proj/utils.c). */
module Mouse {
  import opened Consts

  /** What the user did with the mouse. */
  datatype Motion = Motion(lb: bool, rb: bool, mb: bool, xOv: bool, yOv: bool, deltaX: int, deltaY: int)

  /** Three bytes of the mouse, and the packet made of them. */
  datatype Triple = Triple(b0: byte, b1: byte, b2: byte)

  datatype Packet = Packet(bytes: Triple, motion: Motion)

  /** The bit of the given weight (a power of two). */
  predicate HasBit(b: byte, weight: nat)
    requires weight > 0
  {
    b / weight % 2 == 1
  }

  /** A 9-bit two's complement number: its low byte and its sign. */
  function Cpl2_9To16(value: byte, signBit: bool): int {
    if signBit then value - 256 else value
  }

  function AssemblyPacket(t: Triple): Packet {
    Packet(t, Motion(HasBit(t.b0, 1), HasBit(t.b0, 2), HasBit(t.b0, 4), HasBit(t.b0, 64), HasBit(t.b0, 128),
                     Cpl2_9To16(t.b1, HasBit(t.b0, 16)), Cpl2_9To16(t.b2, HasBit(t.b0, 32))))
  }

  /** Bit 3 is set in the first byte of every packet. */
  predicate Synched(b: byte) {
    b / 8 % 2 == 1
  }

  /** One interrupt: the bytes collected so far, and the three bytes that are complete, if any. */
  function Step(pending: seq<byte>, r: Read): (s: (seq<byte>, Option<Triple>))
    requires |pending| < 3
    ensures |s.0| < 3
  {
    if r.Failed? then ([], None)
    // the first byte is looked at when the second one arrives
    else if |pending| == 1 && !Synched(pending[0]) then ([], None)
    else if |pending| < 2 then (pending + [r.data], None)
    else ([], Some(Triple(pending[0], pending[1], r.data)))
  }

  class MouseHandler {
    const bytes: array<byte>
    var byteCount: nat

    ghost predicate Valid()
      reads `byteCount
    {
      bytes.Length == 3 && byteCount < 3
    }

    ghost function Pending(): seq<byte>
      requires Valid()
      reads `byteCount, bytes
    {
      bytes[..byteCount]
    }

    constructor ()
      ensures Valid() && Pending() == [] && fresh(bytes)
    {
      bytes := new byte[3](_ => 0);
      byteCount := 0;
    }

    method MouseIsSynched(size: nat) returns (synched: bool)
      requires Valid()
      ensures synched <==> size != 1 || Synched(bytes[0])
    {
      if size == 1 {
        return bytes[0] / 8 % 2 == 1;
      }
      return true;
    }

    method Handle(r: Read) returns (packet: Option<Packet>)
      requires Valid()
      modifies `byteCount, bytes
      ensures Valid() && Pending() == Step(old(Pending()), r).0
      ensures packet == match Step(old(Pending()), r).1
                        case None => None
                        case Some(t) => Some(AssemblyPacket(t))
    {
      if r.Failed? {
        byteCount := 0;
        return None;
      }
      ghost var was := Pending();
      bytes[byteCount] := r.data;
      assert bytes[..byteCount + 1] == was + [r.data];
      var synched := MouseIsSynched(byteCount);
      if !synched {
        byteCount := 0;
        return None;
      }
      byteCount := byteCount + 1;
      if byteCount < 3 {
        return None;
      }
      packet := Some(AssemblyPacket(Triple(bytes[0], bytes[1], bytes[2])));
      byteCount := 0;
    }
  }

  // ---------------------------------------------------------------- one packet

  function Weight(b: bool, weight: nat): nat {
    if b then weight else 0
  }

  predicate InRange(m: Motion) {
    -256 <= m.deltaX <= 255 && -256 <= m.deltaY <= 255
  }

  function FirstByte(m: Motion): byte {
    Weight(m.lb, 1) + Weight(m.rb, 2) + Weight(m.mb, 4) + 8 + Weight(m.deltaX < 0, 16) + Weight(m.deltaY < 0, 32)
    + Weight(m.xOv, 64) + Weight(m.yOv, 128)
  }

  /** The three bytes by which the mouse reports a motion. */
  function Encode(m: Motion): Triple
    requires InRange(m)
  {
    Triple(FirstByte(m), m.deltaX % 256, m.deltaY % 256)
  }

  lemma ButtonBits(m: Motion)
    ensures HasBit(FirstByte(m), 1) == m.lb && HasBit(FirstByte(m), 2) == m.rb && HasBit(FirstByte(m), 4) == m.mb
  {
  }

  lemma XSignBit(m: Motion)
    ensures HasBit(FirstByte(m), 16) == (m.deltaX < 0)
  {
  }

  lemma YSignBit(m: Motion)
    ensures Synched(FirstByte(m)) && HasBit(FirstByte(m), 32) == (m.deltaY < 0)
  {
  }

  lemma OverflowBits(m: Motion)
    ensures HasBit(FirstByte(m), 64) == m.xOv && HasBit(FirstByte(m), 128) == m.yOv
  {
  }

  lemma AssemblyUndoesEncode(m: Motion)
    requires InRange(m)
    ensures Synched(Encode(m).b0) && AssemblyPacket(Encode(m)) == Packet(Encode(m), m)
  {
    ButtonBits(m);
    XSignBit(m);
    YSignBit(m);
    OverflowBits(m);
  }

  /** What three bytes mean: buttons and overflows are bits of the first, x and y are in the other two. */
  lemma PacketMeaning(t: Triple)
    ensures var m := AssemblyPacket(t).motion;
            && m.lb == (t.b0 % 2 == 1) && m.rb == (t.b0 / 2 % 2 == 1) && m.mb == (t.b0 / 4 % 2 == 1)
            && m.xOv == (t.b0 / 64 % 2 == 1) && m.yOv == (t.b0 >= 128)
            && InRange(m) && m.deltaX % 256 == t.b1 && m.deltaY % 256 == t.b2
            && (m.deltaX < 0 <==> t.b0 / 16 % 2 == 1) && (m.deltaY < 0 <==> t.b0 / 32 % 2 == 1)
  {
    assert t.b0 / 1 == t.b0;
  }

  // ---------------------------------------------------------------- running the handler

  function PendingAfter(stream: seq<Read>): (p: seq<byte>)
    ensures |p| < 3
    decreases |stream|
  {
    if stream == [] then [] else Step(PendingAfter(stream[..|stream| - 1]), stream[|stream| - 1]).0
  }

  /** The packets handed on, each with the index of the read that completed it. */
  function Completed(stream: seq<Read>): seq<(nat, Triple)>
    decreases |stream|
  {
    if stream == [] then []
    else
      var most, n := stream[..|stream| - 1], |stream| - 1;
      var s := Step(PendingAfter(most), stream[n]);
      Completed(most) + if s.1.Some? then [(n, s.1.value)] else []
  }

  lemma OneMoreRead(stream: seq<Read>, r: Read)
    ensures var s := Step(PendingAfter(stream), r);
            && PendingAfter(stream + [r]) == s.0
            && Completed(stream + [r])
               == Completed(stream) + if s.1.Some? then [(|stream|, s.1.value)] else []
  {
    assert (stream + [r])[..|stream|] == stream;
  }

  // ---------------------------------------------------------------- streams without errors

  function Reports(motions: seq<Motion>): (stream: seq<Read>)
    requires forall i :: 0 <= i < |motions| ==> InRange(motions[i])
    ensures |stream| == 3 * |motions|
    decreases |motions|
  {
    if motions == [] then []
    else
      var t := Encode(motions[|motions| - 1]);
      Reports(motions[..|motions| - 1]) + [Got(t.b0)] + [Got(t.b1)] + [Got(t.b2)]
  }

  lemma TripleSteps(t: Triple)
    requires Synched(t.b0)
    ensures Step([], Got(t.b0)) == ([t.b0], None)
    ensures Step([t.b0], Got(t.b1)) == ([t.b0, t.b1], None)
    ensures Step([t.b0, t.b1], Got(t.b2)) == ([], Some(t))
  {
    assert [t.b0] + [t.b1] == [t.b0, t.b1] && [] + [t.b0] == [t.b0];
  }

  lemma ThreeMoreReads(stream: seq<Read>, t: Triple)
    requires Synched(t.b0) && PendingAfter(stream) == []
    ensures var more := stream + [Got(t.b0)] + [Got(t.b1)] + [Got(t.b2)];
            PendingAfter(more) == [] && Completed(more) == Completed(stream) + [(|stream| + 2, t)]
  {
    var s1 := stream + [Got(t.b0)];
    var s2 := s1 + [Got(t.b1)];
    TripleSteps(t);
    OneMoreRead(stream, Got(t.b0));
    assert Completed(s1) == Completed(stream);
    OneMoreRead(s1, Got(t.b1));
    assert Completed(s2) == Completed(stream);
    OneMoreRead(s2, Got(t.b2));
  }

  /** An error forgets the bytes collected, and two bytes of which the first has bit 3 clear are dropped together. */
  lemma BytesAreDropped(stream: seq<Read>, b: byte, c: byte)
    ensures PendingAfter(stream + [Failed]) == [] && Completed(stream + [Failed]) == Completed(stream)
    ensures PendingAfter(stream) == [] && !Synched(b) ==>
              var more := stream + [Got(b)] + [Got(c)];
              PendingAfter(more) == [] && Completed(more) == Completed(stream)
  {
    OneMoreRead(stream, Failed);
    OneMoreRead(stream, Got(b));
    OneMoreRead(stream + [Got(b)], Got(c));
    assert Completed(stream) + [] == Completed(stream);
  }

  /** Every motion that the mouse reports is handed on as it was made, in order, with its third byte. */
  lemma {:induction false} EveryMotionArrives(motions: seq<Motion>)
    requires forall i :: 0 <= i < |motions| ==> InRange(motions[i])
    ensures PendingAfter(Reports(motions)) == []
    ensures |Completed(Reports(motions))| == |motions|
    ensures forall k :: 0 <= k < |motions| ==>
              var c := Completed(Reports(motions))[k];
              c.0 == 3 * k + 2 && AssemblyPacket(c.1) == Packet(Encode(motions[k]), motions[k])
    decreases |motions|
  {
    if motions != [] {
      var most, m := motions[..|motions| - 1], motions[|motions| - 1];
      EveryMotionArrives(most);
      AssemblyUndoesEncode(m);
      ThreeMoreReads(Reports(most), Encode(m));
    }
  }

  // ---------------------------------------------------------------- any stream

  /** The packet completed by read `i` is the three reads up to `i`, the first with bit 3 set. */
  predicate FromThreeReads(stream: seq<Read>, c: (nat, Triple)) {
    var i := c.0;
    && 2 <= i < |stream|
    && stream[i - 2].Got? && stream[i - 1].Got? && stream[i].Got?
    && Synched(stream[i - 2].data)
    && c.1 == Triple(stream[i - 2].data, stream[i - 1].data, stream[i].data)
  }

  /** The number of reads up to and including the last completed packet. */
  function Used(done: seq<(nat, Triple)>): nat {
    if done == [] then 0 else done[|done| - 1].0 + 1
  }

  /** `pending` are the latest reads, none of them among the first `used`. */
  predicate AreLatest(stream: seq<Read>, pending: seq<byte>, used: nat) {
    var n := |stream|;
    && used + |pending| <= n
    && (|pending| == 1 ==> stream[n - 1] == Got(pending[0]))
    && (|pending| == 2 ==> stream[n - 2] == Got(pending[0]) && stream[n - 1] == Got(pending[1]) && Synched(pending[0]))
  }

  /** The bytes collected so far are the latest reads, none of them used by a packet. */
  predicate PendingIsLatest(stream: seq<Read>) {
    AreLatest(stream, PendingAfter(stream), Used(Completed(stream)))
  }

  predicate Separate(stream: seq<Read>, done: seq<(nat, Triple)>) {
    && (forall k :: 0 <= k < |done| ==> FromThreeReads(stream, done[k]))
    && (forall k :: 1 <= k < |done| ==> done[k - 1].0 + 3 <= done[k].0)
  }

  lemma StaysFromThreeReads(most: seq<Read>, r: Read, c: (nat, Triple))
    requires FromThreeReads(most, c)
    ensures FromThreeReads(most + [r], c)
  {
  }

  lemma LatestStep(most: seq<Read>, r: Read)
    requires PendingIsLatest(most)
    ensures PendingIsLatest(most + [r])
  {
    OneMoreRead(most, r);
    var p, done := PendingAfter(most), Completed(most);
    if Step(p, r).1.None? {
      assert Completed(most + [r]) == done;
    }
  }

  lemma TripleStep(p: seq<byte>, r: Read)
    requires |p| < 3 && Step(p, r).1.Some?
    ensures |p| == 2 && r.Got? && Step(p, r).1.value == Triple(p[0], p[1], r.data)
  {
  }

  lemma CompletedTriple(most: seq<Read>, r: Read, pending: seq<byte>, used: nat)
    requires |pending| < 3 && AreLatest(most, pending, used) && Step(pending, r).1.Some?
    ensures FromThreeReads(most + [r], (|most|, Step(pending, r).1.value))
    ensures used + 2 <= |most|
  {
    TripleStep(pending, r);
    var all := most + [r];
    assert all[|most| - 2] == most[|most| - 2] && all[|most| - 1] == most[|most| - 1] && all[|most|] == r;
  }

  lemma SeparateStep(most: seq<Read>, r: Read)
    requires PendingIsLatest(most) && Separate(most, Completed(most))
    ensures Separate(most + [r], Completed(most + [r]))
  {
    var done, next := Completed(most), Step(PendingAfter(most), r).1;
    OneMoreRead(most, r);
    forall k | 0 <= k < |done| ensures FromThreeReads(most + [r], done[k]) {
      StaysFromThreeReads(most, r, done[k]);
    }
    if next.Some? {
      CompletedTriple(most, r, PendingAfter(most), Used(done));
    } else {
      assert done + [] == done;
    }
  }

  /** Whatever is read, packets are made of three valid reads in a row, and no read is used twice. */
  lemma {:induction false} PacketsAreSeparate(stream: seq<Read>)
    ensures PendingIsLatest(stream) && Separate(stream, Completed(stream))
    decreases |stream|
  {
    if stream != [] {
      var most, r := stream[..|stream| - 1], stream[|stream| - 1];
      assert stream == most + [r];
      PacketsAreSeparate(most);
      LatestStep(most, r);
      SeparateStep(most, r);
    }
  }
}
