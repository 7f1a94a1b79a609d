/** `TextDecoder` as an object: the UTF-8 machine plus the byte-order mark it drops at the start of a stream. */
module TextDecoding {
  import opened Utf8

  /** `bomSeen`: something has been emitted since the stream began. */
  datatype Decoder = Decoder(state: State, bomSeen: bool) {
    predicate Valid() {
      Reachable(state)
    }
  }

  const FRESH := Decoder(GROUND, false)

  function ValueOf(item: Item): int {
    if item.Scalar? then item.value else REPLACEMENT
  }

  /** The text of the emitted items; a byte-order mark that comes first is dropped. */
  function Emit(bomSeen: bool, out: seq<Item>): (bool, Text)
    decreases |out|
  {
    if out == [] then (bomSeen, [])
    else
      var rest := Emit(true, out[1..]);
      (rest.0, (if !bomSeen && ValueOf(out[0]) == BOM then [] else [ValueOf(out[0])]) + rest.1)
  }

  /** `decode(bytes, { stream: true })`: the decoder afterwards and the text. */
  function DecodeText(d: Decoder, bytes: seq<Byte>): (r: (Decoder, Text))
    requires d.Valid()
    ensures r.0.Valid()
  {
    var (st, out) := Decode(d.state, bytes);
    var (seen, text) := Emit(d.bomSeen, out);
    (Decoder(st, seen), text)
  }

  /** `Buffer#toString("utf8")`: no byte-order mark handling, and nothing is held back. */
  function BufferToString(bytes: seq<Byte>): Text {
    var (st, out) := Decode(GROUND, bytes);
    Emit(true, out + Flush(st)).1
  }

  lemma {:induction false} EmitConcat(seen: bool, a: seq<Item>, b: seq<Item>)
    ensures var (seen1, text1) := Emit(seen, a); var (seen2, text2) := Emit(seen1, b);
      Emit(seen, a + b) == (seen2, text1 + text2)
    decreases |a|
  {
    if a == [] {
      assert a + b == b && [] + Emit(seen, b).1 == Emit(seen, b).1;
    } else {
      assert (a + b)[0] == a[0] && (a + b)[1..] == a[1..] + b;
      EmitConcat(true, a[1..], b);
      var head: Text := if !seen && ValueOf(a[0]) == BOM then [] else [ValueOf(a[0])];
      var (seen1, text1) := Emit(true, a[1..]);
      assert head + (text1 + Emit(seen1, b).1) == (head + text1) + Emit(seen1, b).1;
    }
  }

  /** Decoding in two reads is decoding in one, wherever the bytes are cut. */
  lemma DecodeTextConcat(d: Decoder, a: seq<Byte>, b: seq<Byte>)
    requires d.Valid()
    ensures var (d1, text1) := DecodeText(d, a); var (d2, text2) := DecodeText(d1, b);
      DecodeText(d, a + b) == (d2, text1 + text2)
  {
    DecodeConcat(d.state, a, b);
    EmitConcat(d.bomSeen, Decode(d.state, a).1, Decode(Decode(d.state, a).0, b).1);
  }

  lemma EmitNewlines(seen: bool, out: seq<Item>)
    ensures LF in Emit(seen, out).1 <==> Scalar(LF) in out
    decreases |out|
  {
    if out != [] {
      EmitNewlines(true, out[1..]);
      assert out == [out[0]] + out[1..];
    }
  }

  lemma {:induction false} NewlineBytes(d: Decoder, bytes: seq<Byte>)
    requires d.Valid()
    ensures LF in DecodeText(d, bytes).1 <==> LF in bytes
    decreases |bytes|
  {
    EmitNewlines(d.bomSeen, Decode(d.state, bytes).1);
    DecodeNewlines(d.state, bytes);
  }

  lemma {:induction false} DecodeNewlines(st: State, bytes: seq<Byte>)
    requires Reachable(st)
    ensures Scalar(LF) in Decode(st, bytes).1 <==> LF in bytes
    decreases |bytes|
  {
    if bytes != [] {
      StepNewline(st, bytes[0]);
      DecodeNewlines(Step(st, bytes[0]).0, bytes[1..]);
      assert bytes == [bytes[0]] + bytes[1..];
    }
  }

  /** After a newline byte no decoder remembers what came before it. */
  lemma NewlineForgets(d: Decoder)
    requires d.Valid()
    ensures DecodeText(d, [LF]) == (Decoder(GROUND, true), DecodeText(d, [LF]).1)
    ensures var text := DecodeText(d, [LF]).1; text != [] && text[|text| - 1] == LF && LF !in text[..|text| - 1]
  {
    StepNewline(d.state, LF);
    assert [LF][1..] == [];
    var out := Step(d.state, LF).1;
    assert Decode(d.state, [LF]) == (GROUND, out) by {
      assert out + [] == out;
    }
    if |out| == 2 {
      assert out[1..] == [Scalar(LF)] && out[1..][1..] == [];
      assert Emit(d.bomSeen, out) == (true, [REPLACEMENT] + ([LF] + []));
    } else {
      assert out[1..] == [];
      assert Emit(d.bomSeen, out) == (true, [LF] + []);
    }
  }

  /** The decoder object one watch loop carries from tick to tick. */
  class TextDecoder {
    var rest: nat
    var acc: nat
    var lower: int
    var upper: int
    var bomSeen: bool

    function Value(): Decoder
      reads this
    {
      Decoder(State(rest, acc, lower, upper), bomSeen)
    }

    constructor ()
      ensures Value() == FRESH
    {
      rest, acc, lower, upper, bomSeen := 0, 0, 0x80, 0xBF, false;
    }

    /** `decode(buf, { stream: true })`. */
    method DecodeStream(buf: seq<Byte>) returns (text: Text)
      requires Value().Valid()
      modifies this
      ensures Value() == DecodeText(old(Value()), buf).0 && text == DecodeText(old(Value()), buf).1
    {
      ghost var start := Value();
      text := [];
      for i := 0 to |buf|
        invariant Value().Valid()
        invariant DecodeText(start, buf[..i]) == (Value(), text)
      {
        ghost var before := Value();
        var emitted := Push(buf[i]);
        assert buf[..i + 1] == buf[..i] + [buf[i]];
        DecodeTextConcat(start, buf[..i], [buf[i]]);
        text := text + emitted;
      }
      assert buf[..|buf|] == buf;
    }

    /** One byte through the handler. */
    method Push(b: Byte) returns (text: Text)
      requires Value().Valid()
      modifies this
      ensures Value().Valid()
      ensures DecodeText(old(Value()), [b]) == (Value(), text)
    {
      ghost var before := Value();
      var out: seq<Item> := [];
      if rest != 0 && !(lower <= b <= upper) {
        rest, acc, lower, upper := 0, 0, 0x80, 0xBF;
        out := [Malformed];
      }
      if rest == 0 {
        var started := StartByte(b);
        rest, acc, lower, upper := started.0.rest, started.0.acc, started.0.lower, started.0.upper;
        assert [] + started.1 == started.1;
        out := out + started.1;
      } else {
        acc := acc * 64 + (b - 0x80);
        rest, lower, upper := rest - 1, 0x80, 0xBF;
        if rest == 0 {
          out := [Scalar(acc)];
          acc := 0;
        }
      }
      assert Step(before.state, b) == (Value().state, out);
      assert Decode(before.state, [b]) == (Value().state, out) by {
        assert [b][1..] == [];
        assert out + [] == out;
      }
      var emitted := Emit(bomSeen, out);
      bomSeen := emitted.0;
      text := emitted.1;
    }

    /** `decode()` without arguments: what is pending is dropped and the next read starts a new stream. */
    method Finish()
      modifies this
      ensures Value() == FRESH
    {
      rest, acc, lower, upper, bomSeen := 0, 0, 0x80, 0xBF, false;
    }
  }
}
