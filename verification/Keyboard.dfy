/** From keyboard bytes to scan codes (proj/keyboard.c). */
module Keyboard {
  import opened Consts

  const TWO_BYTE_SCANCODE_PREFIX: byte := 0xE0

  /** A scan code, by its last byte. */
  datatype Scancode = One(code: byte) | Two(code: byte)

  /** The last two bytes and whether they complete a scan code. */
  datatype State = State(b0: byte, b1: byte, assembled: bool)

  function GetScancode(s: State, b: byte): State {
    if !s.assembled && s.b0 == TWO_BYTE_SCANCODE_PREFIX then State(s.b0, b, true)
    else if s.assembled && b == TWO_BYTE_SCANCODE_PREFIX then State(b, s.b1, false)
    else State(b, s.b1, true)
  }

  function Code(s: State): Scancode {
    if s.b0 == TWO_BYTE_SCANCODE_PREFIX then Two(s.b1) else One(s.b0)
  }

  /** One interrupt; an error read changes nothing. */
  function Step(s: State, r: Read): (State, Option<Scancode>) {
    if r.Failed? then (s, None)
    else
      var s' := GetScancode(s, r.data);
      (s', if s'.assembled then Some(Code(s')) else None)
  }

  /** The caller's key press is left alone while a code is incomplete. */
  function KeyAfter(s: State, r: Read, key: Scancode): Scancode {
    var code := Step(s, r).1;
    if code.Some? then code.value else key
  }

  class KeyboardHandler {
    const bytes: array<byte>
    var assembledWord: bool

    ghost predicate Valid() {
      bytes.Length == 2
    }

    ghost function View(): State
      requires Valid()
      reads `assembledWord, bytes
    {
      State(bytes[0], bytes[1], assembledWord)
    }

    constructor ()
      ensures Valid() && View() == State(0, 0, false) && fresh(bytes)
    {
      bytes := new byte[2](_ => 0);
      assembledWord := false;
    }

    /** keyboard_get_scancode: stores the byte and says whether a scan code is complete. */
    method KeyboardGetScancode(thisByte: byte) returns (complete: bool)
      requires Valid()
      modifies bytes
      ensures State(bytes[0], bytes[1], complete) == GetScancode(old(View()), thisByte)
    {
      if !assembledWord && bytes[0] == TWO_BYTE_SCANCODE_PREFIX {
        bytes[1] := thisByte;
        return true;
      } else if assembledWord && thisByte == TWO_BYTE_SCANCODE_PREFIX {
        bytes[0] := thisByte;
        return false;
      } else {
        bytes[0] := thisByte;
        return true;
      }
    }

    /**
     keyboard_handler: `got` is its return value, and `key` the code of the caller's key press,
     before and after.
     */
    method Handle(r: Read, key: Scancode) returns (got: bool, key': Scancode)
      requires Valid()
      modifies `assembledWord, bytes
      ensures View() == Step(old(View()), r).0
      ensures got <==> r.Got?
      ensures key' == KeyAfter(old(View()), r, key)
    {
      key' := key;
      if r.Failed? {
        return false, key;
      }
      assembledWord := KeyboardGetScancode(r.data);
      if assembledWord {
        var size := if bytes[0] == TWO_BYTE_SCANCODE_PREFIX then 2 else 1;
        key' := if size == 1 then One(bytes[size - 1]) else Two(bytes[size - 1]);
      }
      got := true;
    }
  }

  // ---------------------------------------------------------------- streams

  function Decode(s: State, stream: seq<Read>): seq<Scancode>
    decreases |stream|
  {
    if stream == [] then []
    else
      var n := Step(s, stream[0]);
      (if n.1.Some? then [n.1.value] else []) + Decode(n.0, stream[1..])
  }

  /** The bytes of the reads that did not fail. */
  function Bytes(stream: seq<Read>): seq<byte>
    decreases |stream|
  {
    if stream == [] then []
    else (if stream[0].Got? then [stream[0].data] else []) + Bytes(stream[1..])
  }

  /** One-byte codes are anything but the prefix; a second byte may be anything. */
  predicate IsCode(c: Scancode) {
    c.One? ==> c.code != 0xE0
  }

  function CodeBytes(c: Scancode): seq<byte> {
    if c.One? then [c.code] else [0xE0, c.code]
  }

  function Encode(codes: seq<Scancode>): seq<byte>
    decreases |codes|
  {
    if codes == [] then []
    else CodeBytes(codes[0]) + Encode(codes[1..])
  }

  function Clean(bytes: seq<byte>): seq<Read>
    decreases |bytes|
  {
    if bytes == [] then [] else [Got(bytes[0])] + Clean(bytes[1..])
  }

  /** Error reads make no difference, wherever they fall. */
  lemma {:induction false} ErrorsAreSkipped(s: State, stream: seq<Read>)
    ensures Decode(s, stream) == Decode(s, Clean(Bytes(stream)))
    decreases |stream|
  {
    if stream != [] {
      var n, rest := Step(s, stream[0]), Bytes(stream[1..]);
      ErrorsAreSkipped(n.0, stream[1..]);
      if stream[0].Got? {
        assert Bytes(stream) == [stream[0].data] + rest && Bytes(stream)[1..] == rest;
        assert Clean(Bytes(stream))[1..] == Clean(rest);
      } else {
        assert Bytes(stream) == [] + rest == rest;
        assert Decode(s, stream) == [] + Decode(n.0, stream[1..]);
      }
    }
  }

  lemma OneByte(s: State, b: byte, rest: seq<byte>)
    ensures var n := Step(s, Got(b));
            Decode(s, Clean([b] + rest)) == (if n.1.Some? then [n.1.value] else []) + Decode(n.0, Clean(rest))
  {
    assert ([b] + rest)[1..] == rest;
    assert Clean([b] + rest)[1..] == Clean(rest);
  }

  /** After a complete scan code, the next one is decoded. */
  lemma OneCode(s: State, c: Scancode, rest: seq<byte>) returns (s': State)
    requires s.assembled && IsCode(c)
    ensures s'.assembled && Decode(s, Clean(CodeBytes(c) + rest)) == [c] + Decode(s', Clean(rest))
  {
    if c.One? {
      OneByte(s, c.code, rest);
      s' := Step(s, Got(c.code)).0;
    } else {
      var s1 := Step(s, Got(0xE0)).0;
      assert CodeBytes(c) + rest == [0xE0] + ([c.code] + rest);
      OneByte(s, 0xE0, [c.code] + rest);
      OneByte(s1, c.code, rest);
      s' := Step(s1, Got(c.code)).0;
    }
  }

  /** After a complete scan code, any list of codes is decoded to itself. */
  lemma {:induction false} CleanStream(s: State, codes: seq<Scancode>)
    requires s.assembled && forall i :: 0 <= i < |codes| ==> IsCode(codes[i])
    ensures Decode(s, Clean(Encode(codes))) == codes
    decreases |codes|
  {
    if codes != [] {
      var s' := OneCode(s, codes[0], Encode(codes[1..]));
      CleanStream(s', codes[1..]);
      assert codes == [codes[0]] + codes[1..];
    }
  }

  /** The same with error reads anywhere in between. */
  lemma Stream(s: State, codes: seq<Scancode>, stream: seq<Read>)
    requires s.assembled && forall i :: 0 <= i < |codes| ==> IsCode(codes[i])
    requires Bytes(stream) == Encode(codes)
    ensures Decode(s, stream) == codes
  {
    ErrorsAreSkipped(s, stream);
    CleanStream(s, codes);
  }

  /** Right after power-on the decoder is right exactly when the first code is not a two-byte one. */
  lemma {:induction false} PowerOn(codes: seq<Scancode>, stream: seq<Read>)
    requires forall i :: 0 <= i < |codes| ==> IsCode(codes[i])
    requires Bytes(stream) == Encode(codes)
    ensures Decode(State(0, 0, false), stream) == codes <==> codes == [] || codes[0].One?
  {
    var s := State(0, 0, false);
    ErrorsAreSkipped(s, stream);
    if codes != [] {
      var c, rest := codes[0], Encode(codes[1..]);
      assert codes == [c] + codes[1..];
      if c.One? {
        OneByte(s, c.code, rest);
        CleanStream(State(c.code, 0, true), codes[1..]);
      } else {
        var s1 := State(TWO_BYTE_SCANCODE_PREFIX, 0, true);
        assert Encode(codes) == [TWO_BYTE_SCANCODE_PREFIX] + ([c.code] + rest);
        OneByte(s, TWO_BYTE_SCANCODE_PREFIX, [c.code] + rest);
        assert Decode(s, Clean(Encode(codes))) == [Two(0)] + Decode(s1, Clean([c.code] + rest));
        if c.code == 0 {
          OneByte(s1, 0, rest);
          CleanStream(State(0, 0, true), codes[1..]);
        }
      }
    }
  }

  // ---------------------------------------------------------------- what the caller sees

  /** The key presses of a caller that takes the key whenever the handler returns true, with no other interrupt in between. */
  function Seen(s: State, key: Scancode, stream: seq<Read>): seq<Scancode>
    decreases |stream|
  {
    if stream == [] then []
    else
      var r := stream[0];
      var key' := KeyAfter(s, r, key);
      (if r.Got? then [key'] else []) + Seen(Step(s, r).0, key', stream[1..])
  }

  /** Each two-byte code is seen after a repetition of the key before it. */
  function WithRepeats(key: Scancode, codes: seq<Scancode>): (seen: seq<Scancode>)
    ensures |seen| >= |codes|
    ensures |seen| == |codes| <==> forall i :: 0 <= i < |codes| ==> codes[i].One?
    decreases |codes|
  {
    if codes == [] then []
    else
      var rest := WithRepeats(codes[0], codes[1..]);
      assert codes == [codes[0]] + codes[1..];
      (if codes[0].One? then [codes[0]] else [key, codes[0]]) + rest
  }

  lemma {:induction false} SeenSkipsErrors(s: State, key: Scancode, stream: seq<Read>)
    ensures Seen(s, key, stream) == Seen(s, key, Clean(Bytes(stream)))
    decreases |stream|
  {
    if stream != [] {
      var key', rest := KeyAfter(s, stream[0], key), Bytes(stream[1..]);
      SeenSkipsErrors(Step(s, stream[0]).0, key', stream[1..]);
      if stream[0].Got? {
        assert Bytes(stream) == [stream[0].data] + rest && Bytes(stream)[1..] == rest;
        assert Clean(Bytes(stream))[1..] == Clean(rest);
      } else {
        assert Bytes(stream) == [] + rest == rest;
        assert Seen(s, key, stream) == [] + Seen(s, key, stream[1..]);
      }
    }
  }

  lemma SeenByte(s: State, key: Scancode, b: byte, rest: seq<byte>)
    ensures var key' := KeyAfter(s, Got(b), key);
            Seen(s, key, Clean([b] + rest)) == [key'] + Seen(Step(s, Got(b)).0, key', Clean(rest))
  {
    assert ([b] + rest)[1..] == rest;
    assert Clean([b] + rest)[1..] == Clean(rest);
  }

  lemma CodeSeen(s: State, key: Scancode, c: Scancode, rest: seq<byte>) returns (s': State)
    requires s.assembled && IsCode(c)
    ensures s'.assembled
    ensures Seen(s, key, Clean(CodeBytes(c) + rest)) == (if c.One? then [c] else [key, c]) + Seen(s', c, Clean(rest))
  {
    if c.One? {
      SeenByte(s, key, c.code, rest);
      s' := Step(s, Got(c.code)).0;
    } else {
      var s1 := Step(s, Got(0xE0)).0;
      assert CodeBytes(c) + rest == [0xE0] + ([c.code] + rest);
      SeenByte(s, key, 0xE0, [c.code] + rest);
      SeenByte(s1, key, c.code, rest);
      s' := Step(s1, Got(c.code)).0;
    }
  }

  lemma {:induction false} CleanSeen(s: State, key: Scancode, codes: seq<Scancode>)
    requires s.assembled && forall i :: 0 <= i < |codes| ==> IsCode(codes[i])
    ensures Seen(s, key, Clean(Encode(codes))) == WithRepeats(key, codes)
    decreases |codes|
  {
    if codes != [] {
      var s' := CodeSeen(s, key, codes[0], Encode(codes[1..]));
      CleanSeen(s', codes[0], codes[1..]);
    }
  }

  /** The caller sees exactly the codes if and only if none of them has two bytes. */
  lemma CallerSees(s: State, key: Scancode, codes: seq<Scancode>, stream: seq<Read>)
    requires s.assembled && forall i :: 0 <= i < |codes| ==> IsCode(codes[i])
    requires Bytes(stream) == Encode(codes)
    ensures Seen(s, key, stream) == WithRepeats(key, codes)
    ensures Seen(s, key, stream) == codes <==> forall i :: 0 <= i < |codes| ==> codes[i].One?
  {
    SeenSkipsErrors(s, key, stream);
    CleanSeen(s, key, codes);
    if forall i :: 0 <= i < |codes| ==> codes[i].One? {
      NoRepeats(key, codes);
    }
  }

  lemma {:induction false} NoRepeats(key: Scancode, codes: seq<Scancode>)
    requires forall i :: 0 <= i < |codes| ==> codes[i].One?
    ensures WithRepeats(key, codes) == codes
    decreases |codes|
  {
    if codes != [] {
      NoRepeats(codes[0], codes[1..]);
    }
  }
}
