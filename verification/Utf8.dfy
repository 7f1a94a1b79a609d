/**
  * The streaming UTF-8 decoder of the platform (`new TextDecoder("utf-8", { fatal: false })`)
  * as the WHATWG Encoding standard defines it (section 8.1.1, "UTF-8 decoder"), and
  * the encoding of section 3 of RFC 3629 that it inverts.
  */
module Utf8 {

  type Byte = b: int | 0 <= b < 256
  /** Text is a sequence of code points. */
  type Text = seq<int>

  const REPLACEMENT := 0xFFFD
  const BOM := 0xFEFF
  const LF := 0x0A
  const CR := 0x0D

  /** What one step of the decoder emits. */
  datatype Item = Scalar(value: int) | Malformed

  /** `rest` continuation bytes are still needed; the next one must lie in `lower..upper`. */
  datatype State = State(rest: nat, acc: nat, lower: int, upper: int)

  const GROUND := State(0, 0, 0x80, 0xBF)

  predicate IsScalar(v: int) {
    0 <= v < 0xD800 || 0xE000 <= v < 0x110000
  }

  /** The states that occur: what is still to come can only complete a shortest-form, non-surrogate scalar. */
  predicate Reachable(st: State) {
    && 0x80 <= st.lower <= st.upper <= 0xBF
    && match st.rest
       case 0 => st == GROUND
       case 1 => st.lower == 0x80 && st.upper == 0xBF && 2 <= st.acc <= 0x43FF && !(0x360 <= st.acc < 0x380)
       case 2 => && 0x20 <= st.acc * 64 + st.lower - 0x80 && st.acc * 64 + st.upper - 0x80 <= 0x43FF
                 && (st.acc * 64 + st.upper - 0x80 < 0x360 || 0x380 <= st.acc * 64 + st.lower - 0x80)
       case 3 => 0x10 <= st.acc * 64 + st.lower - 0x80 && st.acc * 64 + st.upper - 0x80 <= 0x10F
       case _ => false
  }

  function StartByte(b: Byte): (r: (State, seq<Item>))
    ensures Reachable(r.0)
  {
    if b < 0x80 then (GROUND, [Scalar(b)])
    else if 0xC2 <= b <= 0xDF then (State(1, b - 0xC0, 0x80, 0xBF), [])
    else if 0xE0 <= b <= 0xEF then
      (State(2, b - 0xE0, if b == 0xE0 then 0xA0 else 0x80, if b == 0xED then 0x9F else 0xBF), [])
    else if 0xF0 <= b <= 0xF4 then
      (State(3, b - 0xF0, if b == 0xF0 then 0x90 else 0x80, if b == 0xF4 then 0x8F else 0xBF), [])
    else (GROUND, [Malformed])
  }

  /** The handler: an unexpected byte ends the sequence in progress as malformed and is looked at afresh. */
  function Step(st: State, b: Byte): (r: (State, seq<Item>))
    requires Reachable(st)
    ensures Reachable(r.0)
  {
    if st.rest == 0 then StartByte(b)
    else if !(st.lower <= b <= st.upper) then (StartByte(b).0, [Malformed] + StartByte(b).1)
    else
      var acc := st.acc * 64 + (b - 0x80);
      if st.rest == 1 then (GROUND, [Scalar(acc)]) else (State(st.rest - 1, acc, 0x80, 0xBF), [])
  }

  function Decode(st: State, bytes: seq<Byte>): (r: (State, seq<Item>))
    requires Reachable(st)
    ensures Reachable(r.0)
    decreases |bytes|
  {
    if bytes == [] then (st, []) else
      var (st1, out1) := Step(st, bytes[0]);
      var (st2, out2) := Decode(st1, bytes[1..]);
      (st2, out1 + out2)
  }

  /** End of input: an unfinished sequence is malformed. */
  function Flush(st: State): seq<Item> {
    if st.rest == 0 then [] else [Malformed]
  }

  lemma {:induction false} DecodeConcat(st: State, a: seq<Byte>, b: seq<Byte>)
    requires Reachable(st)
    ensures var (st1, out1) := Decode(st, a); var (st2, out2) := Decode(st1, b);
      Decode(st, a + b) == (st2, out1 + out2)
    decreases |a|
  {
    hide Step, Reachable;
    if a == [] {
      assert a + b == b && [] + Decode(st, b).1 == Decode(st, b).1;
    } else {
      assert (a + b)[0] == a[0] && (a + b)[1..] == a[1..] + b;
      var (st1, out1) := Step(st, a[0]);
      DecodeConcat(st1, a[1..], b);
      var (st2, out2) := Decode(st1, a[1..]);
      assert out1 + (out2 + Decode(st2, b).1) == (out1 + out2) + Decode(st2, b).1;
    }
  }

  // ---------------------------------------------------------------- RFC 3629

  function Encode(v: int): (bytes: seq<Byte>)
    requires IsScalar(v)
  {
    if v < 0x80 then [v]
    else if v < 0x800 then [0xC0 + v / 64, 0x80 + v % 64]
    else if v < 0x10000 then [0xE0 + v / 64 / 64, 0x80 + v / 64 % 64, 0x80 + v % 64]
    else [0xF0 + v / 64 / 64 / 64, 0x80 + v / 64 / 64 % 64, 0x80 + v / 64 % 64, 0x80 + v % 64]
  }

  function EncodeAll(vs: Text): seq<Byte>
    requires forall v :: v in vs ==> IsScalar(v)
  {
    if vs == [] then [] else Encode(vs[0]) + EncodeAll(vs[1..])
  }

  function Scalars(vs: Text): seq<Item> {
    seq(|vs|, i requires 0 <= i < |vs| => Scalar(vs[i]))
  }

  /** The value that continuation bytes add up to. */
  function Accumulate(acc: int, tail: seq<Byte>): int
    decreases |tail|
  {
    if tail == [] then acc else Accumulate(acc * 64 + tail[0] - 0x80, tail[1..])
  }

  /** The continuation bytes a state waits for complete exactly one scalar. */
  lemma {:induction false} DecodeTail(st: State, tail: seq<Byte>)
    requires Reachable(st) && |tail| == st.rest && st.rest > 0
    requires st.lower <= tail[0] <= st.upper
    requires forall i :: 1 <= i < |tail| ==> 0x80 <= tail[i] <= 0xBF
    ensures Decode(st, tail) == (GROUND, [Scalar(Accumulate(st.acc, tail))])
    decreases |tail|
  {
    var (st1, out1) := Step(st, tail[0]);
    if |tail| == 1 {
      assert Decode(st1, tail[1..]) == (GROUND, []);
      assert out1 + [] == out1;
    } else {
      DecodeTail(st1, tail[1..]);
      assert out1 + [Scalar(Accumulate(st.acc, tail))] == [Scalar(Accumulate(st.acc, tail))];
    }
  }

  lemma AccumulateEncoded(v: int)
    requires IsScalar(v) && 0x80 <= v
    ensures var e := Encode(v);
      Accumulate(e[0] - (if |e| == 2 then 0xC0 else if |e| == 3 then 0xE0 else 0xF0), e[1..]) == v
  {
    var e := Encode(v);
    if |e| == 3 {
      assert e[1..][1..] == e[2..];
      assert Accumulate(v / 64, e[2..]) == v;
    } else if |e| == 4 {
      assert e[1..][1..] == e[2..] && e[2..][1..] == e[3..];
      assert Accumulate(v / 64 / 64, e[2..]) == Accumulate(v / 64, e[3..]) == v;
    }
  }

  lemma DecodeOne(st: State, b: Byte)
    requires Reachable(st)
    ensures Decode(st, [b]) == Step(st, b)
  {
    assert [b][1..] == [];
    assert Step(st, b).1 + [] == Step(st, b).1;
  }

  lemma DecodeFirst(st: State, bytes: seq<Byte>)
    requires Reachable(st) && bytes != []
    ensures var (st1, out1) := Step(st, bytes[0]); var (st2, out2) := Decode(st1, bytes[1..]);
      Decode(st, bytes) == (st2, out1 + out2)
  {
  }

  lemma DecodeNothing(st: State)
    requires Reachable(st)
    ensures Decode(st, []) == (st, [])
  {
  }

  /** The lead byte of an encoding waits for exactly the bytes behind it. */
  lemma EncodedLead(v: int)
    requires IsScalar(v) && 0x80 <= v
    ensures var e := Encode(v); var (st, out) := StartByte(e[0]);
      && out == [] && 1 <= st.rest == |e| - 1 && st.lower <= e[1] <= st.upper
      && st.acc == e[0] - (if |e| == 2 then 0xC0 else if |e| == 3 then 0xE0 else 0xF0)
      && forall i :: 2 <= i < |e| ==> 0x80 <= e[i] <= 0xBF
  {
  }

  lemma DecodeEncode(v: int)
    requires IsScalar(v)
    ensures Decode(GROUND, Encode(v)) == (GROUND, [Scalar(v)])
  {
    if v < 0x80 {
      DecodeOne(GROUND, v);
    } else {
      EncodedLead(v);
      AccumulateEncoded(v);
      hide IsScalar, Encode, StartByte, Accumulate, Decode;
      var e := Encode(v);
      assert forall i :: 1 <= i < |e[1..]| ==> e[1..][i] == e[i + 1];
      DecodeTail(StartByte(e[0]).0, e[1..]);
      DecodeFirst(GROUND, e);
      assert [] + [Scalar(v)] == [Scalar(v)];
    }
  }

  /** Every text, encoded, is decoded to itself with nothing left over. */
  lemma {:induction false} DecodeEncodeAll(vs: Text)
    requires forall v :: v in vs ==> IsScalar(v)
    ensures Decode(GROUND, EncodeAll(vs)) == (GROUND, Scalars(vs))
  {
    if vs != [] {
      DecodeEncode(vs[0]);
      DecodeEncodeAll(vs[1..]);
      DecodeConcat(GROUND, Encode(vs[0]), EncodeAll(vs[1..]));
      assert EncodeAll(vs) == Encode(vs[0]) + EncodeAll(vs[1..]);
      assert Scalars(vs) == [Scalar(vs[0])] + Scalars(vs[1..]);
    }
  }

  /** Decoded to rest with nothing malformed. */
  predicate Clean(st: State, bytes: seq<Byte>)
    requires Reachable(st)
  {
    Decode(st, bytes).0 == GROUND && Malformed !in Decode(st, bytes).1
  }

  lemma CleanFirst(st: State, bytes: seq<Byte>)
    requires Reachable(st) && Clean(st, bytes) && (bytes != [] || st.rest > 0)
    ensures bytes != [] && Malformed !in Step(st, bytes[0]).1 && Clean(Step(st, bytes[0]).0, bytes[1..])
    ensures Decode(st, bytes).1 == Step(st, bytes[0]).1 + Decode(Step(st, bytes[0]).0, bytes[1..]).1
  {
    if bytes == [] {
      DecodeNothing(st);
      assert false;
    }
    DecodeFirst(st, bytes);
    hide Decode, Step;
    var (st1, out1) := Step(st, bytes[0]);
    var out2 := Decode(st1, bytes[1..]).1;
    assert forall item :: item in out1 || item in out2 ==> item in out1 + out2;
  }

  /** The next byte a state waits for, if it is not malformed. */
  lemma CleanStep(st: State, b: Byte)
    requires Reachable(st) && st.rest > 0 && Malformed !in Step(st, b).1
    ensures st.lower <= b <= st.upper
    ensures var acc := st.acc * 64 + b - 0x80;
      Step(st, b) == if st.rest == 1 then (GROUND, [Scalar(acc)]) else (State(st.rest - 1, acc, 0x80, 0xBF), [])
  {
  }

  /** Without a malformed item, a state's missing bytes really are there, in range, and make one scalar. */
  lemma {:induction false} CleanDecodeHasTail(st: State, bytes: seq<Byte>)
    requires Reachable(st) && st.rest > 0 && Clean(st, bytes)
    ensures |bytes| >= st.rest && st.lower <= bytes[0] <= st.upper
    ensures forall i :: 1 <= i < st.rest ==> 0x80 <= bytes[i] <= 0xBF
    ensures Decode(st, bytes).1 == [Scalar(Accumulate(st.acc, bytes[..st.rest]))] + Decode(GROUND, bytes[st.rest..]).1
    ensures Clean(GROUND, bytes[st.rest..])
    decreases |bytes|
  {
    hide Decode, Clean, Step, Reachable;
    CleanFirst(st, bytes);
    CleanStep(st, bytes[0]);
    var st1 := Step(st, bytes[0]).0;
    if st.rest > 1 {
      CleanDecodeHasTail(st1, bytes[1..]);
      assert bytes[..st.rest][1..] == bytes[1..][..st1.rest];
      assert bytes[1..][st1.rest..] == bytes[st.rest..];
      assert forall i :: 1 <= i < st.rest ==> bytes[i] == bytes[1..][i - 1];
      assert [] + Decode(st1, bytes[1..]).1 == Decode(st1, bytes[1..]).1;
    }
    AccumulateOne(st.acc, bytes[..st.rest]);
  }

  lemma AccumulateOne(acc: int, tail: seq<Byte>)
    requires tail != []
    ensures Accumulate(acc, tail) == Accumulate(acc * 64 + tail[0] - 0x80, tail[1..])
    ensures |tail| == 1 ==> Accumulate(acc, tail) == acc * 64 + tail[0] - 0x80
  {
  }

  lemma EncodeTwo(b: Byte, c: Byte)
    requires 0xC2 <= b <= 0xDF && 0x80 <= c <= 0xBF
    ensures var v := (b - 0xC0) * 64 + c - 0x80; IsScalar(v) && Encode(v) == [b, c]
  {
  }

  lemma EncodeThree(b: Byte, c: Byte, d: Byte)
    requires 0xE0 <= b <= 0xEF && 0x80 <= c <= 0xBF && 0x80 <= d <= 0xBF
    requires (b == 0xE0 ==> 0xA0 <= c) && (b == 0xED ==> c <= 0x9F)
    ensures var v := ((b - 0xE0) * 64 + c - 0x80) * 64 + d - 0x80; IsScalar(v) && Encode(v) == [b, c, d]
  {
    var u := (b - 0xE0) * 64 + c - 0x80;
    assert (u * 64 + d - 0x80) / 64 == u;
  }

  lemma EncodeFour(b: Byte, c: Byte, d: Byte, e: Byte)
    requires 0xF0 <= b <= 0xF4 && 0x80 <= c <= 0xBF && 0x80 <= d <= 0xBF && 0x80 <= e <= 0xBF
    requires (b == 0xF0 ==> 0x90 <= c) && (b == 0xF4 ==> c <= 0x8F)
    ensures var v := (((b - 0xF0) * 64 + c - 0x80) * 64 + d - 0x80) * 64 + e - 0x80;
      IsScalar(v) && Encode(v) == [b, c, d, e]
  {
    var t := (b - 0xF0) * 64 + c - 0x80;
    var u := t * 64 + d - 0x80;
    assert (u * 64 + e - 0x80) / 64 == u && u / 64 == t;
  }

  lemma AccumulateTail(acc: int, tail: seq<Byte>)
    requires 1 <= |tail| <= 3
    ensures |tail| == 1 ==> Accumulate(acc, tail) == acc * 64 + tail[0] - 0x80
    ensures |tail| == 2 ==> Accumulate(acc, tail) == (acc * 64 + tail[0] - 0x80) * 64 + tail[1] - 0x80
    ensures |tail| == 3 ==>
      Accumulate(acc, tail) == ((acc * 64 + tail[0] - 0x80) * 64 + tail[1] - 0x80) * 64 + tail[2] - 0x80
  {
    var a1 := acc * 64 + tail[0] - 0x80;
    if |tail| == 2 {
      assert Accumulate(a1, tail[1..]) == a1 * 64 + tail[1] - 0x80;
    } else if |tail| == 3 {
      var a2 := a1 * 64 + tail[1] - 0x80;
      assert Accumulate(a1, tail[1..]) == Accumulate(a2, tail[2..]) == a2 * 64 + tail[2] - 0x80;
    }
  }

  lemma EncodeAccumulated(b: Byte, tail: seq<Byte>)
    requires StartByte(b).0.rest > 0
    requires var st := StartByte(b).0;
      |tail| == st.rest && st.lower <= tail[0] <= st.upper && forall i :: 1 <= i < |tail| ==> 0x80 <= tail[i] <= 0xBF
    ensures var v := Accumulate(StartByte(b).0.acc, tail);
      IsScalar(v) && Encode(v) == [b] + tail
  {
    hide Accumulate, Encode, IsScalar;
    AccumulateTail(StartByte(b).0.acc, tail);
    if |tail| == 1 {
      EncodeTwo(b, tail[0]);
    } else if |tail| == 2 {
      EncodeThree(b, tail[0], tail[1]);
    } else {
      EncodeFour(b, tail[0], tail[1], tail[2]);
    }
  }

  /** The text of a list of scalars, as `EncodeAll` takes it. */
  function Values(out: seq<Item>): Text {
    if out == [] then []
    else [if out[0].Scalar? then out[0].value else REPLACEMENT] + Values(out[1..])
  }

  /**
    * Bytes are well formed, that is some text's encoding, exactly when the decoder
    * ends at rest without a malformed item; and then the text is what it emitted.
    */
  lemma {:induction false} WellFormedIffCleanDecode(bytes: seq<Byte>)
    ensures var (st, out) := Decode(GROUND, bytes);
      && (st == GROUND && Malformed !in out ==>
            (forall v :: v in Values(out) ==> IsScalar(v)) && bytes == EncodeAll(Values(out)))
      && (forall vs: Text | (forall v :: v in vs ==> IsScalar(v)) ::
            bytes == EncodeAll(vs) ==> st == GROUND && Malformed !in out && Values(out) == vs)
  {
    forall vs: Text | (forall v :: v in vs ==> IsScalar(v)) && bytes == EncodeAll(vs)
      ensures Decode(GROUND, bytes).0 == GROUND && Malformed !in Decode(GROUND, bytes).1
        && Values(Decode(GROUND, bytes).1) == vs
    {
      DecodeEncodeAll(vs);
      ValuesOfScalars(vs);
    }
    if Clean(GROUND, bytes) {
      CleanDecodeIsEncoding(bytes);
    }
  }

  lemma {:induction false} ValuesOfScalars(vs: Text)
    ensures Values(Scalars(vs)) == vs
  {
    if vs != [] {
      assert Scalars(vs)[1..] == Scalars(vs[1..]);
      ValuesOfScalars(vs[1..]);
    }
  }

  lemma {:induction false} CleanDecodeIsEncoding(bytes: seq<Byte>)
    requires Clean(GROUND, bytes)
    ensures var vs := Values(Decode(GROUND, bytes).1);
      (forall v :: v in vs ==> IsScalar(v)) && bytes == EncodeAll(vs)
    decreases |bytes|
  {
    if bytes == [] {
      DecodeNothing(GROUND);
    } else {
      var v, n := CleanHead(bytes);
      CleanDecodeIsEncoding(bytes[n..]);
      var out := Decode(GROUND, bytes[n..]).1;
      hide Decode, Clean, IsScalar, Encode;
      assert ([Scalar(v)] + out)[1..] == out;
      var vs := Values(out);
      assert Values([Scalar(v)] + out) == [v] + vs;
      assert ([v] + vs)[1..] == vs;
      assert EncodeAll([v] + vs) == Encode(v) + EncodeAll(vs);
      assert bytes == bytes[..n] + bytes[n..];
    }
  }

  /** Cleanly decoded bytes begin with one encoding, and the rest is cleanly decoded. */
  lemma CleanHead(bytes: seq<Byte>) returns (v: int, n: nat)
    requires bytes != [] && Clean(GROUND, bytes)
    ensures IsScalar(v) && 0 < n <= |bytes| && Encode(v) == bytes[..n] && Clean(GROUND, bytes[n..])
    ensures Decode(GROUND, bytes).1 == [Scalar(v)] + Decode(GROUND, bytes[n..]).1
  {
    CleanFirst(GROUND, bytes);
    var b := bytes[0];
    var st := StartByte(b).0;
    if b < 0x80 {
      v, n := b, 1;
      assert bytes[..1] == [b];
    } else {
      CleanLead(b);
      hide Decode, Clean, StartByte, Accumulate, Encode, IsScalar;
      var tail := bytes[1..];
      CleanDecodeHasTail(st, tail);
      EncodeAccumulated(b, tail[..st.rest]);
      v, n := Accumulate(st.acc, tail[..st.rest]), st.rest + 1;
      assert tail[st.rest..] == bytes[n..];
      assert bytes[..n] == [b] + tail[..st.rest];
      assert [] + Decode(st, tail).1 == Decode(st, tail).1;
    }
  }

  lemma CleanLead(b: Byte)
    requires b >= 0x80 && Malformed !in StartByte(b).1
    ensures StartByte(b).1 == [] && StartByte(b).0.rest > 0
  {
  }

  /**
    * A newline byte is never swallowed: it ends whatever was in progress, leaves the
    * decoder at rest, and is the only byte that emits a newline.
    */
  lemma StepNewline(st: State, b: Byte)
    requires Reachable(st)
    ensures b == LF ==> Step(st, b) == (GROUND, if st.rest == 0 then [Scalar(LF)] else [Malformed, Scalar(LF)])
    ensures b != LF ==> Scalar(LF) !in Step(st, b).1
  {
    assert [Malformed] + [Scalar(LF)] == [Malformed, Scalar(LF)];
  }
}
