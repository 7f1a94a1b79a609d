/**
  * Newline framing over any alphabet: the frames a separator terminates, and the
  * remainder after the last one. Shared by the socket framers and the log reader.
  */
module Framing {

  /** `indexOf(sep)`, with the length in place of -1. */
  function IndexOf<T(==)>(s: seq<T>, sep: T): (i: nat)
    ensures i <= |s| && sep !in s[..i]
    ensures i < |s| ==> s[i] == sep
  {
    if s == [] || s[0] == sep then 0
    else
      var i := 1 + IndexOf(s[1..], sep);
      assert s[..i] == [s[0]] + s[1..][..i - 1];
      i
  }

  function Frames<T(==)>(s: seq<T>, sep: T): seq<seq<T>>
    decreases |s|
  {
    var i := IndexOf(s, sep);
    if i == |s| then [] else [s[..i]] + Frames(s[i + 1..], sep)
  }

  function Remainder<T(==)>(s: seq<T>, sep: T): seq<T>
    decreases |s|
  {
    var i := IndexOf(s, sep);
    if i == |s| then s else Remainder(s[i + 1..], sep)
  }

  lemma IndexOfAt<T>(a: seq<T>, sep: T, b: seq<T>)
    requires sep !in a
    ensures IndexOf(a + [sep] + b, sep) == |a| && IndexOf(a, sep) == |a|
  {
    assert (a + [sep] + b)[|a|] == sep;
  }

  lemma FramesCons<T>(a: seq<T>, sep: T, b: seq<T>)
    requires sep !in a
    ensures Frames(a + [sep] + b, sep) == [a] + Frames(b, sep)
    ensures Remainder(a + [sep] + b, sep) == Remainder(b, sep)
    ensures Frames(a, sep) == [] && Remainder(a, sep) == a
  {
    IndexOfAt(a, sep, b);
    hide IndexOf;
    var s := a + [sep] + b;
    assert s[..|a|] == a && s[|a| + 1..] == b;
  }

  /** A sequence that holds the separator is a first frame, the separator and the rest. */
  lemma FirstFrame<T>(s: seq<T>, sep: T) returns (a: seq<T>, b: seq<T>)
    requires sep in s
    ensures sep !in a && s == a + [sep] + b
  {
    var i := IndexOf(s, sep);
    assert s[..|s|] == s;
    a, b := s[..i], s[i + 1..];
  }

  /** One round of a frame loop: the part before the first separator is a frame, the rest is still to do. */
  lemma FramesStep<T>(s: seq<T>, sep: T)
    ensures var i := IndexOf(s, sep);
      if i == |s| then sep !in s && Frames(s, sep) == [] && Remainder(s, sep) == s
      else && sep in s && Frames(s, sep) == [s[..i]] + Frames(s[i + 1..], sep)
           && Remainder(s, sep) == Remainder(s[i + 1..], sep)
  {
    hide IndexOf;
    var i := IndexOf(s, sep);
    if i == |s| {
      assert s[..i] == s;
      assert sep !in s;
    } else {
      assert s[i] == sep;
    }
  }

  lemma ConcatAssoc<T>(a: seq<T>, b: seq<T>, c: seq<T>)
    ensures (a + b) + c == a + (b + c)
  {
  }

  /** Taking a sequence in two pieces, holding the remainder back in between, finds the same frames. */
  lemma {:induction false} FramesConcat<T>(s: seq<T>, t: seq<T>, sep: T)
    ensures Frames(s + t, sep) == Frames(s, sep) + Frames(Remainder(s, sep) + t, sep)
    ensures Remainder(s + t, sep) == Remainder(Remainder(s, sep) + t, sep)
    decreases |s|
  {
    if sep in s {
      var a, b := FirstFrame(s, sep);
      FramesConcat(b, t, sep);
      FramesCons(a, sep, b);
      FramesCons(a, sep, b + t);
      ConcatAssoc(a + [sep], b, t);
      ConcatAssoc([a], Frames(b, sep), Frames(Remainder(b, sep) + t, sep));
    } else {
      FramesCons(s, sep, []);
    }
  }

  lemma {:induction false} RemainderHasNoSep<T>(s: seq<T>, sep: T)
    ensures sep !in Remainder(s, sep)
    decreases |s|
  {
    if sep in s {
      var a, b := FirstFrame(s, sep);
      FramesCons(a, sep, b);
      RemainderHasNoSep(b, sep);
    } else {
      FramesCons(s, sep, []);
    }
  }

  function Concat<T>(chunks: seq<seq<T>>): seq<T> {
    if chunks == [] then [] else chunks[0] + Concat(chunks[1..])
  }

  /** The messages, each terminated by the separator. */
  function Terminated<T>(messages: seq<seq<T>>, sep: T): seq<T> {
    if messages == [] then [] else messages[0] + [sep] + Terminated(messages[1..], sep)
  }

  lemma {:induction false} FramesOfTerminated<T>(messages: seq<seq<T>>, sep: T)
    requires forall m :: m in messages ==> sep !in m
    ensures Frames(Terminated(messages, sep), sep) == messages && Remainder(Terminated(messages, sep), sep) == []
  {
    if messages != [] {
      assert messages == [messages[0]] + messages[1..];
      FramesOfTerminated(messages[1..], sep);
      FramesCons(messages[0], sep, Terminated(messages[1..], sep));
    }
  }
}
