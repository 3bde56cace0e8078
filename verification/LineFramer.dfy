/** Cutting a byte stream into lines, whatever chunks it arrives in. */
module LineFramer {

  type Bytes = seq<bv8>

  const NEWLINE: bv8 := 10

  // The chunks one after the other.
  ghost function Concat(chunks: seq<Bytes>, n: nat): Bytes
    requires n <= |chunks|
  {
    if n == 0 then [] else Concat(chunks, n - 1) + chunks[n - 1]
  }

  // The lines, each with its newline restored.
  ghost function Joined(lines: seq<Bytes>): Bytes
  {
    if lines == [] then [] else Joined(lines[..|lines| - 1]) + lines[|lines| - 1] + [NEWLINE]
  }

  // The reader is at its end at the first empty chunk, or where the chunks stop.
  ghost predicate ReadUpTo(chunks: seq<Bytes>, n: nat)
  {
    && n <= |chunks| && (n < |chunks| ==> chunks[n] == [])
    && forall i :: 0 <= i < n ==> chunks[i] != []
  }

  // `lines` and `rest` are a framing of `input`.
  ghost predicate Frames(lines: seq<Bytes>, rest: Bytes, input: Bytes)
  {
    && Joined(lines) + rest == input
    && NEWLINE !in rest
    && forall i :: 0 <= i < |lines| ==> NEWLINE !in lines[i]
  }

  // The position of the first newline.
  function Find(buf: Bytes): (k: nat)
    requires NEWLINE in buf
    ensures k < |buf| && buf[k] == NEWLINE && NEWLINE !in buf[..k]
  {
    if buf[0] == NEWLINE then 0
    else
      assert buf == [buf[0]] + buf[1..];
      var k := 1 + Find(buf[1..]);
      assert buf[..k] == [buf[0]] + buf[1..][..k - 1];
      k
  }

  // The lines of one chunk: what the buffer holds is cut until no newline is left.
  method Split(lines: seq<Bytes>, buffer: Bytes) returns (lines': seq<Bytes>, buf: Bytes)
    requires forall i :: 0 <= i < |lines| ==> NEWLINE !in lines[i]
    ensures Frames(lines', buf, Joined(lines) + buffer)
    ensures lines <= lines'
  {
    lines', buf := lines, buffer;
    while NEWLINE in buf
      invariant lines <= lines' && Joined(lines') + buf == Joined(lines) + buffer
      invariant forall i :: 0 <= i < |lines'| ==> NEWLINE !in lines'[i]
      decreases |buf|
    {
      var k := Find(buf);
      var line, rest := buf[..k], buf[k + 1..];
      assert buf == line + [NEWLINE] + rest;
      assert (lines' + [line])[..|lines'|] == lines';
      lines', buf := lines' + [line], rest;
    }
  }

  /**
   * The lines of a stream, and what is left behind its last newline.  They are a
   * framing of all that was read.
   */
  method ReadLines(chunks: seq<Bytes>) returns (lines: seq<Bytes>, rest: Bytes, n: nat)
    ensures ReadUpTo(chunks, n)
    ensures Frames(lines, rest, Concat(chunks, n))
  {
    lines, rest, n := [], [], 0;
    while n < |chunks| && chunks[n] != []
      invariant n <= |chunks| && forall i :: 0 <= i < n ==> chunks[i] != []
      invariant Frames(lines, rest, Concat(chunks, n))
    {
      ghost var before := Joined(lines) + rest;
      assert Joined(lines) + (rest + chunks[n]) == before + chunks[n];
      lines, rest := Split(lines, rest + chunks[n]);
      n := n + 1;
    }
  }

  /******* There is one framing *******/

  lemma {:induction false} JoinedFirst(lines: seq<Bytes>)
    requires lines != []
    ensures Joined(lines) == lines[0] + [NEWLINE] + Joined(lines[1..])
  {
    if |lines| > 1 {
      var most, last := lines[..|lines| - 1], lines[|lines| - 1];
      JoinedFirst(most);
      assert lines[1..][..|lines| - 2] == most[1..];
    } else {
      assert lines[..0] == [] && lines[1..] == [];
    }
  }

  // Two framings of one text start with the same line.
  lemma {:induction false} SameFirst(a: Bytes, x: Bytes, b: Bytes, y: Bytes)
    requires a + [NEWLINE] + x == b + [NEWLINE] + y && NEWLINE !in a && NEWLINE !in b
    ensures a == b && x == y
  {
    var all := a + [NEWLINE] + x;
    assert all[|a|] == NEWLINE && all[|b|] == NEWLINE;
    assert forall i :: 0 <= i < |a| ==> all[i] == a[i];
    assert forall i :: 0 <= i < |b| ==> all[i] == b[i];
    assert |a| == |b|;
    assert a == all[..|a|] && b == all[..|b|];
    assert x == all[|a| + 1..] && y == all[|b| + 1..];
  }

  /**
   * A line once yielded stays as it is: the lines of a longer input begin with the
   * lines of any part of it read so far.
   */
  lemma {:induction false} LinesOnlyGrow(lines: seq<Bytes>, rest: Bytes, input: Bytes, lines': seq<Bytes>,
                                         rest': Bytes, more: Bytes)
    requires Frames(lines, rest, input) && Frames(lines', rest', input + more)
    ensures lines <= lines'
  {
    if lines != [] {
      JoinedFirst(lines);
      assert (input + more)[|lines[0]|] == NEWLINE;
      assert lines' == [] ==> rest' == input + more;
      JoinedFirst(lines');
      var x, y := Joined(lines[1..]) + rest, Joined(lines'[1..]) + rest';
      assert lines[0] + [NEWLINE] + (x + more) == input + more && lines'[0] + [NEWLINE] + y == input + more;
      SameFirst(lines[0], x + more, lines'[0], y);
      LinesOnlyGrow(lines[1..], rest, x, lines'[1..], rest', more);
      assert lines == [lines[0]] + lines[1..] && lines' == [lines'[0]] + lines'[1..];
    }
  }

  /**
   * The framing is a function of the bytes: wherever the chunks were cut, the same
   * lines come out and the same rest is left.
   */
  lemma {:induction false} OneFraming(lines: seq<Bytes>, rest: Bytes, lines': seq<Bytes>, rest': Bytes, input: Bytes)
    requires Frames(lines, rest, input) && Frames(lines', rest', input)
    ensures lines == lines' && rest == rest'
  {
    assert input + [] == input;
    LinesOnlyGrow(lines, rest, input, lines', rest', []);
    LinesOnlyGrow(lines', rest', input, lines, rest, []);
    assert rest == input[|Joined(lines)|..] && rest' == input[|Joined(lines')|..];
  }

  /**
   * Two ways of cutting the same bytes into chunks give the same lines: any two
   * results that satisfy the reader's contract are equal.
   */
  lemma {:induction false} ChunksDoNotMatter(chunks: seq<Bytes>, n: nat, lines: seq<Bytes>, rest: Bytes,
                          chunks': seq<Bytes>, n': nat, lines': seq<Bytes>, rest': Bytes)
    requires ReadUpTo(chunks, n) && Frames(lines, rest, Concat(chunks, n))
    requires ReadUpTo(chunks', n') && Frames(lines', rest', Concat(chunks', n'))
    ensures Concat(chunks, n) == Concat(chunks', n') <==> lines == lines' && rest == rest'
  {
    if Concat(chunks, n) == Concat(chunks', n') {
      OneFraming(lines, rest, lines', rest', Concat(chunks, n));
    }
  }
}
