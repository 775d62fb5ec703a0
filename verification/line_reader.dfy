/**
 `WifiBridge::readLine`: the line reader every bridge response goes through.

 The serial input that arrives before the timeout is a finite sequence of
 characters; reaching its end stands for the timeout expiring. The reader takes
 characters from the front until it sees a line feed, runs out of input, or has
 stored `capacity - 1` characters. Carriage returns are consumed but never
 stored, and the buffer is always NUL-terminated right after the last stored
 character.
 */
module LineReader {
  import opened CStrings

  const LF: char := '\n'
  const CR: char := '\r'

  /** The characters of `s` with every carriage return removed, in order. */
  function StripCR(s: seq<char>): (r: seq<char>)
    ensures |r| <= |s|
    ensures CR !in r
  {
    if |s| == 0 then []
    else StripCR(s[..|s| - 1]) + (if s[|s| - 1] == CR then [] else [s[|s| - 1]])
  }

  /** No line feed among the first `k` characters of `s`. */
  predicate NoLfBefore(s: seq<char>, k: nat)
    requires k <= |s|
  {
    forall i | 0 <= i < k :: s[i] != LF
  }

  /**
   What one call of `readLine` did to the stream: the characters it stored, how
   many input characters it consumed, and whether a line feed ended the read.
   */
  datatype LineRead = LineRead(line: seq<char>, consumed: nat, terminated: bool)
  {
    /** The value `readLine` returns: true on a line feed, otherwise true iff something was stored. */
    predicate Succeeded()
    {
      terminated || |line| > 0
    }
  }

  /**
   The relational description of a read with room for `limit` characters
   (`limit == capacity - 1`): which prefix of the input is consumed and what is
   stored, independent of how the reader walks the input.
   */
  predicate IsLineRead(input: seq<char>, limit: nat, r: LineRead)
  {
    && r.consumed <= |input|
    && if r.terminated then
         && 0 < r.consumed
         && input[r.consumed - 1] == LF
         && NoLfBefore(input, r.consumed - 1)
         && r.line == StripCR(input[..r.consumed - 1])
         && |r.line| < limit
       else
         && NoLfBefore(input, r.consumed)
         && r.line == StripCR(input[..r.consumed])
         && |r.line| <= limit
         && (r.consumed == |input| || |r.line| == limit)
         // the reader stops as soon as the buffer is full: no character is taken after that
         && (0 < r.consumed ==> |StripCR(input[..r.consumed - 1])| < limit)
  }

  /** Removing carriage returns from a longer prefix never yields fewer characters. */
  lemma {:induction false} StripCRMonotone(s: seq<char>, i: nat, j: nat)
    requires i <= j <= |s|
    ensures |StripCR(s[..i])| <= |StripCR(s[..j])|
    decreases j - i
  {
    if i < j {
      StripCRMonotone(s, i, j - 1);
      assert s[..j][..j - 1] == s[..j - 1];
    }
  }

  /** The relational description fixes the read completely. */
  lemma IsLineReadUnique(input: seq<char>, limit: nat, r1: LineRead, r2: LineRead)
    requires IsLineRead(input, limit, r1) && IsLineRead(input, limit, r2)
    ensures r1 == r2
  {
    ConsumedNotBelow(input, limit, r1, r2);
    ConsumedNotBelow(input, limit, r2, r1);
  }

  /** Helper of `IsLineReadUnique`: neither read can stop before the other. */
  lemma ConsumedNotBelow(input: seq<char>, limit: nat, r1: LineRead, r2: LineRead)
    requires IsLineRead(input, limit, r1) && IsLineRead(input, limit, r2)
    ensures r2.consumed <= r1.consumed
  {
    if !r1.terminated && 0 < r2.consumed && r1.consumed <= r2.consumed - 1 {
      StripCRMonotone(input, r1.consumed, r2.consumed - 1);
    }
  }

  /**
   The reader loop from stream position `pos` with `line` stored so far. The
   preconditions are the loop's invariant: `line` is what the consumed prefix
   leaves after dropping carriage returns, no line feed was seen, and the
   buffer was not yet full before the last character was taken.
   */
  function Scan(input: seq<char>, limit: nat, pos: nat, line: seq<char>): (r: LineRead)
    requires pos <= |input|
    requires line == StripCR(input[..pos])
    requires NoLfBefore(input, pos)
    requires |line| <= limit
    requires 0 < pos ==> |StripCR(input[..pos - 1])| < limit
    ensures IsLineRead(input, limit, r)
    ensures pos <= r.consumed
    decreases |input| - pos
  {
    if pos == |input| || |line| == limit then LineRead(line, pos, false)
    else if input[pos] == LF then LineRead(line, pos + 1, true)
    else if input[pos] == CR then
      assert input[..pos + 1][..pos] == input[..pos];
      Scan(input, limit, pos + 1, line)
    else
      assert input[..pos + 1][..pos] == input[..pos];
      Scan(input, limit, pos + 1, line + [input[pos]])
  }

  /**
   `readLine(buffer, capacity, timeout)` over the input that arrives before the
   timeout. The source computes `capacity - 1` in an unsigned type, so a zero
   capacity is outside what it can handle.
   */
  function ReadLine(input: seq<char>, capacity: nat): (r: LineRead)
    requires capacity >= 1
    ensures IsLineRead(input, capacity - 1, r)
    ensures |r.line| <= capacity - 1
    ensures CR !in r.line && LF !in r.line
    ensures r.consumed <= |input|
    ensures 0 < |input| && capacity >= 2 ==> 0 < r.consumed
  {
    var r := Scan(input, capacity - 1, 0, []);
    LineFreeOfLf(input, capacity - 1, r);
    r
  }

  /** The stored characters never include a line feed. */
  lemma LineFreeOfLf(input: seq<char>, limit: nat, r: LineRead)
    requires IsLineRead(input, limit, r)
    ensures LF !in r.line
  {
    var k := if r.terminated then r.consumed - 1 else r.consumed;
    StripCRKeepsOnly(input[..k]);
  }

  /** Every character `StripCR` keeps comes from its input. */
  lemma {:induction false} StripCRKeepsOnly(s: seq<char>)
    ensures forall c | c in StripCR(s) :: c in s
  {
    if |s| > 0 {
      StripCRKeepsOnly(s[..|s| - 1]);
    }
  }

  /**
   The NUL-terminated buffer left by `readLine`: the stored characters, a NUL
   right after them, and the caller's bytes beyond that untouched.
   */
  predicate BufferHolds(filled: seq<char>, original: seq<char>, line: seq<char>)
  {
    && |filled| == |original|
    && |line| < |filled|
    && filled[..|line|] == line
    && filled[|line|] == NUL
    && filled[|line| + 1..] == original[|line| + 1..]
  }

  /** Taking one more input character extends the carriage-return-free prefix by at most that character. */
  lemma StripCRStep(s: seq<char>, k: nat)
    requires k < |s|
    ensures StripCR(s[..k + 1]) == StripCR(s[..k]) + (if s[k] == CR then [] else [s[k]])
  {
    assert s[..k + 1][..k] == s[..k];
  }

  /** Storing `c` at `index` extends the stored prefix and leaves the rest of the caller's buffer alone. */
  lemma StoreStep(filled: seq<char>, buffer: seq<char>, index: nat, c: char)
    requires |filled| == |buffer| && index < |filled|
    requires filled[index..] == buffer[index..]
    ensures filled[index := c][..index + 1] == filled[..index] + [c]
    ensures filled[index := c][index + 1..] == buffer[index + 1..]
  {
    assert filled[index + 1..] == filled[index..][1..];
    assert buffer[index + 1..] == buffer[index..][1..];
  }

  /** Writing the terminating NUL after the stored characters gives the buffer `readLine` leaves. */
  lemma TerminateStep(filled: seq<char>, buffer: seq<char>, line: seq<char>)
    requires |filled| == |buffer| && |line| < |filled|
    requires filled[..|line|] == line
    requires filled[|line|..] == buffer[|line|..]
    ensures BufferHolds(filled[|line| := NUL], buffer, line)
  {
    StoreStep(filled, buffer, |line|, NUL);
  }

  /** A line feed reached while the buffer still has room ends the read successfully. */
  lemma ReadEndsAtLf(input: seq<char>, limit: nat, pos: nat, line: seq<char>)
    requires pos < |input| && input[pos] == LF
    requires line == StripCR(input[..pos]) && NoLfBefore(input, pos) && |line| < limit
    ensures IsLineRead(input, limit, LineRead(line, pos + 1, true))
  {
  }

  /** Running out of input or of room ends the read without a line feed. */
  lemma ReadEndsWithoutLf(input: seq<char>, limit: nat, pos: nat, line: seq<char>)
    requires pos <= |input|
    requires line == StripCR(input[..pos]) && NoLfBefore(input, pos) && |line| <= limit
    requires pos == |input| || |line| == limit
    requires 0 < pos ==> |StripCR(input[..pos - 1])| < limit
    ensures IsLineRead(input, limit, LineRead(line, pos, false))
  {
  }

  /**
   `readLine` as the source writes it: a loop that takes one character per
   iteration and stores it into the caller's buffer of `|buffer|` bytes.
   `open` says whether the serial channel exists; without one the call fails
   at once, takes nothing and leaves the buffer as it was, not even
   terminated. Returns the success flag, the buffer afterwards and how many
   input characters were taken from the stream.
   */
  method ReadLineIntoBuffer(open: bool, input: seq<char>, buffer: seq<char>)
    returns (ok: bool, filled: seq<char>, consumed: nat)
    requires open ==> |buffer| >= 1
    ensures !open ==> !ok && filled == buffer && consumed == 0
    ensures open ==> var r := ReadLine(input, |buffer|);
      && ok == r.Succeeded()
      && consumed == r.consumed
      && BufferHolds(filled, buffer, r.line)
  {
    if !open {
      return false, buffer, 0;
    }
    var limit := |buffer| - 1;
    var pos := 0;
    var index := 0;
    filled := buffer;
    while pos < |input| && index < limit
      invariant pos <= |input|
      invariant index <= limit
      invariant |filled| == |buffer|
      invariant filled[..index] == StripCR(input[..pos])
      invariant filled[index..] == buffer[index..]
      invariant NoLfBefore(input, pos)
      invariant 0 < pos ==> |StripCR(input[..pos - 1])| < limit
      decreases |input| - pos
    {
      var c := input[pos];
      StripCRStep(input, pos);
      if c == LF {
        var r := LineRead(filled[..index], pos + 1, true);
        ReadEndsAtLf(input, limit, pos, r.line);
        TerminateStep(filled, buffer, r.line);
        IsLineReadUnique(input, limit, r, ReadLine(input, |buffer|));
        return true, filled[index := NUL], pos + 1;
      }
      if c != CR {
        StoreStep(filled, buffer, index, c);
        filled := filled[index := c];
        index := index + 1;
      }
      pos := pos + 1;
    }
    var r := LineRead(filled[..index], pos, false);
    ReadEndsWithoutLf(input, limit, pos, r.line);
    TerminateStep(filled, buffer, r.line);
    IsLineReadUnique(input, limit, r, ReadLine(input, |buffer|));
    ok := index > 0;
    filled := filled[index := NUL];
    consumed := pos;
  }

  /** A line ended by CR LF is stored without the carriage return. */
  lemma CrLfLineIsStoredWithoutCr(x: char, y: char, capacity: nat)
    requires x != CR && x != LF && y != CR && y != LF
    requires capacity >= 3
    ensures ReadLine([x, y, CR, LF], capacity).Succeeded()
    ensures ReadLine([x, y, CR, LF], capacity).line == [x, y]
  {
    var input := [x, y, CR, LF];
    StripCRStep(input, 0);
    StripCRStep(input, 1);
    StripCRStep(input, 2);
    assert input[..0] == [];
    var expected;
    if capacity == 3 {
      expected := LineRead([x, y], 2, false);
      ReadEndsWithoutLf(input, 2, 2, [x, y]);
    } else {
      expected := LineRead([x, y], 4, true);
      ReadEndsAtLf(input, capacity - 1, 3, [x, y]);
    }
    IsLineReadUnique(input, capacity - 1, expected, ReadLine(input, capacity));
  }

  /** A timeout with nothing received fails and leaves the buffer empty. */
  lemma NothingReceivedFails(capacity: nat)
    requires capacity >= 1
    ensures !ReadLine([], capacity).Succeeded()
    ensures ReadLine([], capacity).line == []
  {
  }

  /** A bare line feed succeeds with an empty line. */
  lemma BareLineFeedSucceedsEmpty(capacity: nat)
    requires capacity >= 2
    ensures ReadLine("\n", capacity) == LineRead([], 1, true)
  {
  }

  /**
   A buffer of capacity one can hold nothing but the NUL, so the reader fails
   without taking a single character from the stream.
   */
  lemma CapacityOneReadsNothing(input: seq<char>)
    ensures ReadLine(input, 1) == LineRead([], 0, false)
  {
  }
}
