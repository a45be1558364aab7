/** An input stream read with `std::getline`. The stream is its whole text and
    a read position. `GetLine` extracts one line and reports whether the stream
    still converts to `true` afterwards, that is whether failbit is clear. */
module Stream {
  import opened Text

  /** The lines that `while (stream) { std::getline(stream, line); ... }` sees
      in `s`: the newline pieces, then one more empty line when `s` is
      non-empty and does not end with a newline. Such text leaves only eofbit
      set after its last line, so the loop runs once more, and that last
      `getline` extracts nothing and fails. */
  function ReadLines(s: string): seq<string> {
    Split(s, '\n') + (if s != [] && s[|s| - 1] != '\n' then [""] else [])
  }

  /** A line ended by a newline is read as itself, and reading goes on after it. */
  lemma ReadLinesAfterNewline(line: string, rest: string)
    requires '\n' !in line
    ensures ReadLines(line + ['\n'] + rest) == [line] + ReadLines(rest)
  {
    var s := line + ['\n'] + rest;
    SplitWordThen(line, '\n', rest);
    if rest != [] {
      assert s[|s| - 1] == rest[|rest| - 1];
    }
  }

  /** A last line without a newline is read as itself, then one failing read
      gives the empty line. */
  lemma ReadLinesOfLastLine(line: string)
    requires line != [] && '\n' !in line
    ensures ReadLines(line) == [line, ""]
  {
    SplitWord(line, '\n');
    assert line[|line| - 1] in line;
  }

  /** One `std::getline(stream, line)` call from position `pos`. It extracts the
      characters up to the next '\n', then consumes and drops that '\n'.
      Reaching the end of the text sets eofbit only. A call that extracts
      nothing at all, because the text is used up, also sets failbit; only then
      does the stream convert to `false`. */
  method GetLine(text: string, pos: nat) returns (line: string, next: nat, good: bool)
    requires pos <= |text|
    ensures pos <= next <= |text|
    ensures good <==> pos < |text|
    ensures !good ==> line == "" && next == pos && [line] == ReadLines(text[pos..])
    ensures good ==> pos < next && [line] + ReadLines(text[next..]) == ReadLines(text[pos..])
  {
    next := pos;
    while next < |text| && text[next] != '\n'
      invariant pos <= next <= |text|
      invariant forall k :: pos <= k < next ==> text[k] != '\n'
    {
      next := next + 1;
    }
    line := text[pos..next];
    assert '\n' !in line by {
      forall k | 0 <= k < |line|
        ensures line[k] != '\n'
      {
        assert line[k] == text[pos + k];
      }
    }
    good := pos < |text|;
    if !good {
      assert text[pos..] == [];
    } else if next < |text| {
      // the delimiter is extracted and discarded
      assert text[pos..] == line + ['\n'] + text[next + 1..];
      ReadLinesAfterNewline(line, text[next + 1..]);
      next := next + 1;
    } else {
      // end of text after at least one character: eofbit alone
      assert text[pos..] == line && text[next..] == [];
      ReadLinesOfLastLine(line);
    }
  }
}
