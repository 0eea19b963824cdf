/**
 A log buffer that keeps the newest lines. Text arrives in arbitrary pieces; a
 line that one write leaves unterminated is continued by the next.
 */
module LineBuffer {
  import opened Wrappers

  type byte = x: int | 0 <= x < 256

  const NEWLINE: byte := 10

  datatype Error = InvalidData | Panic

  // ---- lines ----

  predicate Terminated(line: seq<byte>) {
    line != [] && line[|line| - 1] == NEWLINE
  }

  /** No line to continue: there is none, or the last one ended. */
  predicate Closed(lines: seq<seq<byte>>) {
    lines == [] || Terminated(lines[|lines| - 1])
  }

  /** One more byte. */
  function Extend(lines: seq<seq<byte>>, c: byte): seq<seq<byte>> {
    if Closed(lines) then lines + [[c]]
    else lines[..|lines| - 1] + [lines[|lines| - 1] + [c]]
  }

  /** The lines of a text, each with its newline; only the last may lack one. */
  function Lines(text: seq<byte>): seq<seq<byte>> {
    if text == [] then [] else Extend(Lines(text[..|text| - 1]), text[|text| - 1])
  }

  function Flatten(lines: seq<seq<byte>>): seq<byte> {
    if lines == [] then [] else Flatten(lines[..|lines| - 1]) + lines[|lines| - 1]
  }

  function Lengths(lines: seq<seq<byte>>): (r: seq<nat>)
    ensures |r| == |lines| && forall i | 0 <= i < |r| :: r[i] == |lines[i]|
  {
    seq(|lines|, i requires 0 <= i < |lines| => |lines[i]|)
  }

  function Sum(lengths: seq<nat>): nat {
    if lengths == [] then 0 else Sum(lengths[..|lengths| - 1]) + lengths[|lengths| - 1]
  }

  /** A newline occurs only at the end of a line, and no line is empty. */
  ghost predicate OneLine(line: seq<byte>) {
    line != [] && forall i | 0 <= i < |line| - 1 :: line[i] != NEWLINE
  }

  ghost predicate AreLines(lines: seq<seq<byte>>) {
    && (forall i {:trigger lines[i]} | 0 <= i < |lines| :: OneLine(lines[i]))
    && (forall i {:trigger Terminated(lines[i])} | 0 <= i < |lines| - 1 :: Terminated(lines[i]))
  }

  lemma FlattenSnoc(lines: seq<seq<byte>>, line: seq<byte>)
    ensures Flatten(lines + [line]) == Flatten(lines) + line
  {
    assert (lines + [line])[..|lines|] == lines;
  }

  lemma ExtendFlatten(lines: seq<seq<byte>>, c: byte)
    ensures Flatten(Extend(lines, c)) == Flatten(lines) + [c]
  {
    if Closed(lines) {
      FlattenSnoc(lines, [c]);
    } else {
      var before, line := lines[..|lines| - 1], lines[|lines| - 1];
      FlattenSnoc(before, line + [c]);
      assert Flatten(before) + (line + [c]) == Flatten(before) + line + [c];
    }
  }

  lemma ExtendLines(lines: seq<seq<byte>>, c: byte)
    requires AreLines(lines)
    ensures AreLines(Extend(lines, c))
  {
    var e := Extend(lines, c);
    forall i | 0 <= i < |e|
      ensures OneLine(e[i]) && (i < |e| - 1 ==> Terminated(e[i]))
    {
      if i < |lines| {
        assert OneLine(lines[i]);
        assert i < |lines| - 1 ==> Terminated(lines[i]);
      }
    }
  }

  /** `Lines` splits the text: it loses nothing, and only the last line may be unterminated. */
  lemma {:induction false} LinesSplit(text: seq<byte>)
    ensures Flatten(Lines(text)) == text && AreLines(Lines(text))
  {
    if text != [] {
      var before, c := text[..|text| - 1], text[|text| - 1];
      LinesSplit(before);
      ExtendFlatten(Lines(before), c);
      ExtendLines(Lines(before), c);
      assert text == before + [c];
    }
  }

  // ---- continuing a text ----

  /** The lines `y` written after the lines `x`. */
  function Glue(x: seq<seq<byte>>, y: seq<seq<byte>>): seq<seq<byte>> {
    if y == [] then x
    else if Closed(x) then x + y
    else x[..|x| - 1] + [x[|x| - 1] + y[0]] + y[1..]
  }

  lemma ExtendSnoc(p: seq<seq<byte>>, line: seq<byte>, c: byte)
    ensures Extend(p + [line], c) == if Terminated(line) then p + [line, [c]] else p + [line + [c]]
  {
    var x := p + [line];
    assert x[|x| - 1] == line && x[..|x| - 1] == p;
    assert x + [[c]] == p + [line, [c]];
  }

  lemma GlueSnoc(p: seq<seq<byte>>, a: seq<byte>, y: seq<seq<byte>>)
    requires !Terminated(a) && y != []
    ensures Glue(p + [a], y) == p + [a + y[0]] + y[1..]
  {
    var x := p + [a];
    assert x[|x| - 1] == a && x[..|x| - 1] == p;
  }

  /** An open line continued by `b`. */
  lemma GlueOne(p: seq<seq<byte>>, a: seq<byte>, b: seq<byte>, c: byte)
    requires !Terminated(a) && b != []
    ensures Extend(Glue(p + [a], [b]), c) == Glue(p + [a], Extend([b], c))
  {
    GlueSnoc(p, a, [b]);
    assert p + [a + b] + [b][1..] == p + [a + b];
    ExtendSnoc(p, a + b, c);
    ExtendSnoc([], b, c);
    assert [] + [b] == [b];
    assert (a + b)[|a + b| - 1] == b[|b| - 1];
    GlueSnoc(p, a, Extend([b], c));
    if Terminated(b) {
      assert [b, [c]][1..] == [[c]];
      assert p + [a + b, [c]] == p + [a + b] + [[c]];
    } else {
      assert a + b + [c] == a + (b + [c]);
      assert p + [a + (b + [c])] + [b + [c]][1..] == p + [a + (b + [c])];
    }
  }

  lemma GlueMany(x: seq<seq<byte>>, y: seq<seq<byte>>, c: byte)
    requires !Closed(x) && |y| > 1
    ensures Extend(Glue(x, y), c) == Glue(x, Extend(y, c))
  {
    var g, e := Glue(x, y), Extend(y, c);
    assert g == x[..|x| - 1] + [x[|x| - 1] + y[0]] + y[1..];
    assert g[|g| - 1] == y[|y| - 1];
    assert e[0] == y[0];
    if Closed(y) {
      assert e[1..] == y[1..] + [[c]];
    } else {
      assert e[1..] == y[1..|y| - 1] + [y[|y| - 1] + [c]];
      assert g[..|g| - 1] == x[..|x| - 1] + [x[|x| - 1] + y[0]] + y[1..|y| - 1];
    }
  }

  lemma GlueExtend(x: seq<seq<byte>>, y: seq<seq<byte>>, c: byte)
    requires AreLines(y)
    ensures Extend(Glue(x, y), c) == Glue(x, Extend(y, c))
  {
    if y == [] {
      GlueFirst(x, c);
    } else if Closed(x) {
      GlueClosed(x, y, c);
    } else if |y| == 1 {
      assert y == [y[0]] && OneLine(y[0]);
      assert x == x[..|x| - 1] + [x[|x| - 1]];
      GlueOne(x[..|x| - 1], x[|x| - 1], y[0], c);
    } else {
      GlueMany(x, y, c);
    }
  }

  lemma GlueFirst(x: seq<seq<byte>>, c: byte)
    ensures Extend(x, c) == Glue(x, [[c]])
  {
  }

  lemma GlueClosed(x: seq<seq<byte>>, y: seq<seq<byte>>, c: byte)
    requires Closed(x) && y != []
    ensures Extend(Glue(x, y), c) == Glue(x, Extend(y, c))
  {
    assert (x + y)[|x + y| - 1] == y[|y| - 1];
    if !Closed(y) {
      assert (x + y)[..|x + y| - 1] == x + y[..|y| - 1];
      assert x + y[..|y| - 1] + [y[|y| - 1] + [c]] == x + (y[..|y| - 1] + [y[|y| - 1] + [c]]);
    }
  }

  /** Splitting a text and splitting its continuation gives the same lines as splitting it whole. */
  lemma {:induction false} LinesGlue(a: seq<byte>, b: seq<byte>)
    ensures Lines(a + b) == Glue(Lines(a), Lines(b))
  {
    if b == [] {
      assert a + b == a;
    } else {
      var before, c := b[..|b| - 1], b[|b| - 1];
      assert (a + b)[..|a + b| - 1] == a + before;
      LinesGlue(a, before);
      LinesSplit(before);
      GlueExtend(Lines(a), Lines(before), c);
    }
  }

  /** The last `k` lines. */
  function Last(lines: seq<seq<byte>>, k: nat): seq<seq<byte>> {
    if |lines| <= k then lines else lines[|lines| - k..]
  }

  /** Dropping old lines early makes no difference. */
  lemma LastGlue(x: seq<seq<byte>>, y: seq<seq<byte>>, k: nat)
    ensures Last(Glue(Last(x, k), y), k) == Last(Glue(x, y), k)
  {
    if |x| > k > 0 {
      var z := Last(x, k);
      assert z[|z| - 1] == x[|x| - 1];
      assert Glue(x, y) == x[..|x| - k] + Glue(z, y);
    }
  }

  lemma {:induction false} FlattenCons(lines: seq<seq<byte>>)
    requires lines != []
    ensures Flatten(lines) == lines[0] + Flatten(lines[1..])
  {
    if |lines| > 1 {
      FlattenCons(lines[..|lines| - 1]);
      assert lines[..|lines| - 1][1..] == lines[1..][..|lines| - 2];
    } else {
      assert lines[..0] == [] && lines[1..] == [];
    }
  }

  lemma {:induction false} LengthsSum(lines: seq<seq<byte>>)
    ensures Sum(Lengths(lines)) == |Flatten(lines)|
  {
    if lines != [] {
      LengthsSum(lines[..|lines| - 1]);
      assert Lengths(lines)[..|lines| - 1] == Lengths(lines[..|lines| - 1]);
    }
  }

  /** The text of some lines ends inside a line exactly when their last line is open. */
  lemma LastByte(lines: seq<seq<byte>>)
    requires AreLines(lines)
    ensures Closed(lines) <==> Flatten(lines) == [] || Flatten(lines)[|Flatten(lines)| - 1] == NEWLINE
  {
    if lines != [] {
      assert OneLine(lines[|lines| - 1]);
    }
  }

  /** What a buffer with this limit holds of some lines: all, or one fewer than the limit. */
  function Trim(lines: seq<seq<byte>>, maxCapacity: Option<nat>): seq<seq<byte>>
    requires maxCapacity != Some(0)
  {
    if maxCapacity.None? then lines else Last(lines, maxCapacity.value - 1)
  }

  /**
   Writing `buf` after `text`: continuing the lines kept so far and trimming
   keeps the right lines of the whole text.
   */
  lemma TrimContinues(text: seq<byte>, buf: seq<byte>, maxCapacity: Option<nat>)
    requires maxCapacity != Some(0)
    ensures Trim(Lines(text + buf), maxCapacity) == Trim(Glue(Trim(Lines(text), maxCapacity), Lines(buf)), maxCapacity)
  {
    LinesGlue(text, buf);
    TrimGlue(Lines(text), Lines(buf), maxCapacity);
  }

  lemma TrimGlue(x: seq<seq<byte>>, y: seq<seq<byte>>, maxCapacity: Option<nat>)
    requires maxCapacity != Some(0)
    ensures Trim(Glue(x, y), maxCapacity) == Trim(Glue(Trim(x, maxCapacity), y), maxCapacity)
  {
    if maxCapacity.Some? {
      LastGlue(x, y, maxCapacity.value - 1);
    }
  }

  lemma TrimKeepsLines(text: seq<byte>, maxCapacity: Option<nat>)
    requires maxCapacity != Some(0)
    ensures AreLines(Trim(Lines(text), maxCapacity))
  {
    LinesSplit(text);
    var whole, kept := Lines(text), Trim(Lines(text), maxCapacity);
    var skipped := |whole| - |kept|;
    forall i | 0 <= i < |kept|
      ensures OneLine(kept[i]) && (i < |kept| - 1 ==> Terminated(kept[i]))
    {
      assert kept[i] == whole[skipped + i];
      assert i < |kept| - 1 ==> Terminated(whole[skipped + i]);
    }
  }

  // ---- the buffer ----

  class LineBuffer {
    const maxCapacity: Option<nat>
    const isUtf8: seq<byte> -> bool
    var lineLengths: seq<nat>
    var lineBuffer: seq<byte>
    /** Everything written so far. */
    ghost var text: seq<byte>

    ghost predicate Valid()
      reads this
    {
      if maxCapacity == Some(0) then lineLengths == [] && lineBuffer == []
      else Holds(Trim(Lines(text), maxCapacity))
    }

    ghost predicate Holds(lines: seq<seq<byte>>)
      reads this
    {
      lineBuffer == Flatten(lines) && lineLengths == Lengths(lines)
    }

    constructor (maxCapacity: Option<nat>, isUtf8: seq<byte> -> bool)
      ensures Valid() && text == [] && this.maxCapacity == maxCapacity && this.isUtf8 == isUtf8
    {
      this.maxCapacity, this.isUtf8, lineLengths, lineBuffer, text := maxCapacity, isUtf8, [], [], [];
    }

    /**
     Write a piece of text. However the text was cut into pieces, the buffer then
     holds the last lines of everything written. It panics exactly when the limit
     is zero.
     */
    method Write(buf: seq<byte>) returns (r: Result<nat, Error>)
      requires Valid()
      modifies this
      ensures Valid()
      ensures r == if !isUtf8(buf) then Err(InvalidData) else if maxCapacity == Some(0) then Err(Panic) else Ok(|buf|)
      ensures text == if r.Ok? then old(text) + buf else old(text)
    {
      if !isUtf8(buf) { return Err(InvalidData); }
      var added := Lines(buf);
      if maxCapacity == Some(0) {
        AppendLines([], added);
        DropAll(Glue([], added));
        return Err(Panic);
      }
      ghost var lines := Trim(Lines(text), maxCapacity);
      TrimKeepsLines(text, maxCapacity);
      AppendLines(lines, added);
      if maxCapacity.Some? {
        DropOldest(Glue(lines, added), maxCapacity.value);
      }
      TrimContinues(text, buf, maxCapacity);
      text := text + buf;
      return Ok(|buf|);
    }

    /** The recorded lengths always add up to the length of the buffer. */
    lemma LengthsAgree()
      requires Valid()
      ensures Sum(lineLengths) == |lineBuffer|
    {
      if maxCapacity != Some(0) {
        LengthsSum(Trim(Lines(text), maxCapacity));
      }
    }

    /** Append lines, continuing an unterminated last line with the first of them. */
    method AppendLines(ghost lines: seq<seq<byte>>, added: seq<seq<byte>>)
      requires Holds(lines) && AreLines(lines)
      modifies `lineBuffer, `lineLengths
      ensures Holds(Glue(lines, added))
    {
      LastByte(lines);
      if lineBuffer != [] && lineBuffer[|lineBuffer| - 1] != NEWLINE && added != [] {
        Continue(lines, added[0]);
        PushLines(lines[..|lines| - 1] + [lines[|lines| - 1] + added[0]], added[1..]);
      } else {
        assert added == [] ==> lines + added == lines;
        PushLines(lines, added);
      }
    }

    /** Add the rest of the last line. */
    method Continue(ghost lines: seq<seq<byte>>, rest: seq<byte>)
      requires Holds(lines) && lines != []
      modifies `lineBuffer, `lineLengths
      ensures Holds(lines[..|lines| - 1] + [lines[|lines| - 1] + rest])
    {
      ghost var before, line := lines[..|lines| - 1], lines[|lines| - 1];
      FlattenSnoc(before, line + rest);
      assert Flatten(before) + (line + rest) == Flatten(lines) + rest;
      lineLengths := lineLengths[..|lineLengths| - 1] + [lineLengths[|lineLengths| - 1] + |rest|];
      lineBuffer := lineBuffer + rest;
      assert lineLengths == Lengths(before + [line + rest]);
    }

    method PushLine(ghost lines: seq<seq<byte>>, line: seq<byte>)
      requires Holds(lines)
      modifies `lineBuffer, `lineLengths
      ensures Holds(lines + [line])
    {
      FlattenSnoc(lines, line);
      lineLengths := lineLengths + [|line|];
      lineBuffer := lineBuffer + line;
      assert lineLengths == Lengths(lines + [line]);
    }

    method PushLines(ghost lines: seq<seq<byte>>, added: seq<seq<byte>>)
      requires Holds(lines)
      modifies `lineBuffer, `lineLengths
      ensures Holds(lines + added)
    {
      var n := 0;
      ghost var now := lines;
      while n < |added|
        invariant n <= |added| && Holds(now) && |now| == |lines| + n
        invariant forall i | 0 <= i < |now| :: now[i] == if i < |lines| then lines[i] else added[i - |lines|]
      {
        PushLine(now, added[n]);
        now := now + [added[n]];
        n := n + 1;
      }
      assert now == lines + added;
    }

    /** Drop the oldest lines while there are as many as the limit or more. */
    method DropOldest(ghost lines: seq<seq<byte>>, limit: nat)
      requires limit > 0 && Holds(lines)
      modifies `lineBuffer, `lineLengths
      ensures Holds(Last(lines, limit - 1))
    {
      ghost var n := 0;
      while |lineLengths| >= limit
        invariant n <= |lines| && (n > 0 ==> |lines| - n >= limit - 1)
        invariant Holds(lines[n..])
        decreases |lineLengths|
      {
        DropFirst(lines[n..]);
        assert lines[n..][1..] == lines[n + 1..];
        n := n + 1;
      }
      assert lines[n..] == Last(lines, limit - 1);
    }

    /** With limit zero there is always one more line to drop; it fails once none is left. */
    method DropAll(ghost lines: seq<seq<byte>>)
      requires Holds(lines)
      modifies `lineBuffer, `lineLengths
      ensures lineBuffer == [] && lineLengths == []
    {
      ghost var left := lines;
      while lineLengths != []
        invariant Holds(left)
        decreases |lineLengths|
      {
        DropFirst(left);
        left := left[1..];
      }
    }

    method DropFirst(ghost lines: seq<seq<byte>>)
      requires lines != [] && Holds(lines)
      modifies `lineBuffer, `lineLengths
      ensures Holds(lines[1..])
    {
      FlattenCons(lines);
      assert Lengths(lines)[1..] == Lengths(lines[1..]);
      var oldest := lineLengths[0];
      lineLengths := lineLengths[1..];
      lineBuffer := lineBuffer[oldest..];
    }
  }
}
