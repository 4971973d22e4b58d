/** The pass-through word counter: a loop over reads of any sizes, an automaton that carries one
    bit from chunk to chunk, and a loop over partial writes of any sizes. */
module WordCount {
  import opened Ctype

  // ---------- what is counted ----------

  function Lines(s: seq<char>): nat
  {
    if s == [] then 0 else Lines(s[..|s| - 1]) + if s[|s| - 1] == '\n' then 1 else 0
  }

  predicate EndsInWord(s: seq<char>)
  {
    s != [] && !IsSpace(s[|s| - 1])
  }

  /** Words, counted at their first characters. */
  function Words(s: seq<char>): nat
  {
    if s == [] then 0
    else
      var before := s[..|s| - 1];
      Words(before) + if !IsSpace(s[|s| - 1]) && !EndsInWord(before) then 1 else 0
  }

  /** s[i..j] is a word: a run of non-space characters that cannot be made longer. */
  predicate MaximalRun(s: seq<char>, i: nat, j: nat)
  {
    && i < j <= |s|
    && (forall k :: i <= k < j ==> !IsSpace(s[k]))
    && (i == 0 || IsSpace(s[i - 1]))
    && (j == |s| || IsSpace(s[j]))
  }

  function Runs(s: seq<char>): set<(nat, nat)>
  {
    set i: nat, j: nat | i < j <= |s| && MaximalRun(s, i, j) :: (i, j)
  }

  lemma {:induction false} LastRun(s: seq<char>) returns (i: nat)
    requires EndsInWord(s)
    ensures MaximalRun(s, i, |s|)
  {
    var t := s[..|s| - 1];
    if EndsInWord(t) {
      i := LastRun(t);
      assert forall k :: i <= k < |t| ==> s[k] == t[k];
    } else {
      i := |s| - 1;
    }
  }

  lemma RunsKept(s: seq<char>, c: char, i: nat, j: nat)
    requires j <= |s|
    ensures MaximalRun(s + [c], i, j) <==> MaximalRun(s, i, j) && (j < |s| || IsSpace(c))
  {
    var t := s + [c];
    assert forall k :: 0 <= k < |s| ==> t[k] == s[k];
    if MaximalRun(t, i, j) {
      forall k | i <= k < j ensures !IsSpace(s[k]) { assert !IsSpace(t[k]); }
    }
  }

  lemma RunsAppend(s: seq<char>, c: char)
    ensures |Runs(s + [c])| == |Runs(s)| + if !IsSpace(c) && !EndsInWord(s) then 1 else 0
  {
    if IsSpace(c) {
      SpaceAppended(s, c);
    } else if !EndsInWord(s) {
      WordBegun(s, c);
    } else {
      WordGrown(s, c);
    }
  }

  lemma SpaceAppended(s: seq<char>, c: char)
    requires IsSpace(c)
    ensures Runs(s + [c]) == Runs(s)
  {
    forall i: nat, j: nat | i < j <= |s| + 1
      ensures MaximalRun(s + [c], i, j) <==> j <= |s| && MaximalRun(s, i, j)
    {
      if j <= |s| {
        RunsKept(s, c, i, j);
      } else {
        assert IsSpace((s + [c])[|s|]);
      }
    }
  }

  lemma WordBegun(s: seq<char>, c: char)
    requires !IsSpace(c) && !EndsInWord(s)
    ensures Runs(s + [c]) == Runs(s) + {(|s|, |s| + 1)}
  {
    var t := s + [c];
    forall i: nat, j: nat | i < j <= |t|
      ensures MaximalRun(t, i, j) <==> (j <= |s| && MaximalRun(s, i, j)) || (i == |s| && j == |t|)
    {
      if j <= |s| {
        RunsKept(s, c, i, j);
        assert j == |s| ==> IsSpace(s[j - 1]);
      } else if i < |s| {
        assert IsSpace(t[|s| - 1]);
      }
    }
  }

  lemma WordGrown(s: seq<char>, c: char)
    requires !IsSpace(c) && EndsInWord(s)
    ensures |Runs(s + [c])| == |Runs(s)|
  {
    var t := s + [c];
    var a := LastRun(s);
    assert forall k :: 0 <= k < |s| ==> t[k] == s[k];
    forall i: nat, j: nat | i < j <= |t|
      ensures MaximalRun(t, i, j) <==> (j < |s| && MaximalRun(s, i, j)) || (i == a && j == |t|)
      ensures MaximalRun(s, i, |s|) ==> i == a
    {
      if j <= |s| {
        RunsKept(s, c, i, j);
      }
      if MaximalRun(s, i, |s|) || (j == |t| && MaximalRun(t, i, j)) {
        OneStart(t, a, i);
      }
    }
    assert MaximalRun(t, a, |t|) && (a, |s|) in Runs(s) && (a, |t|) !in Runs(s);
    assert Runs(t) == (Runs(s) - {(a, |s|)}) + {(a, |t|)};
  }

  /** Two words that reach the last but one character of t start at the same place. */
  lemma OneStart(t: seq<char>, a: nat, i: nat)
    requires |t| >= 2 && a < |t| - 1 && i < |t|
    requires forall k :: a <= k < |t| ==> !IsSpace(t[k])
    requires a == 0 || IsSpace(t[a - 1])
    requires forall k :: i <= k < |t| - 1 ==> !IsSpace(t[k])
    requires i == 0 || IsSpace(t[i - 1])
    ensures i == a
  {
  }

  /** Words counts the maximal runs of non-space characters. */
  lemma {:induction false} WordsAreRuns(s: seq<char>)
    ensures Words(s) == |Runs(s)|
  {
    if s == [] {
      assert Runs(s) == {};
    } else {
      WordsAreRuns(s[..|s| - 1]);
      assert s == s[..|s| - 1] + [s[|s| - 1]];
      RunsAppend(s[..|s| - 1], s[|s| - 1]);
    }
  }

  /** Lines counts the newline characters. */
  lemma {:induction false} LinesAreNewlines(s: seq<char>)
    ensures Lines(s) == multiset(s)['\n']
  {
    if s != [] {
      LinesAreNewlines(s[..|s| - 1]);
      assert s == s[..|s| - 1] + [s[|s| - 1]];
    }
  }

  // ---------- counting chunk by chunk ----------

  /** Whether a word is open after a chunk, given whether one was open before it. */
  predicate Open(inWord: bool, chunk: seq<char>)
  {
    if chunk == [] then inWord else !IsSpace(chunk[|chunk| - 1])
  }

  /** The words a chunk adds, given whether one was open before it. */
  function ChunkWords(inWord: bool, chunk: seq<char>): nat
  {
    if chunk == [] then 0
    else
      var before := chunk[..|chunk| - 1];
      ChunkWords(inWord, before)
      + if !IsSpace(chunk[|chunk| - 1]) && !Open(inWord, before) then 1 else 0
  }

  /** One bit is enough between chunks: however a stream is cut, the chunks' counts add up. */
  lemma {:induction false} ChunkIndependence(s: seq<char>, chunk: seq<char>)
    ensures Words(s + chunk) == Words(s) + ChunkWords(EndsInWord(s), chunk)
    ensures Lines(s + chunk) == Lines(s) + Lines(chunk)
    ensures EndsInWord(s + chunk) == Open(EndsInWord(s), chunk)
  {
    if chunk == [] {
      assert s + chunk == s;
    } else {
      var before := chunk[..|chunk| - 1];
      assert (s + chunk)[..|s + chunk| - 1] == s + before;
      ChunkIndependence(s, before);
    }
  }

  // ---------- the loop ----------

  class Info {
    var bytes: nat
    var words: nat
    var lines: nat

    constructor ()
      ensures bytes == 0 && words == 0 && lines == 0
    {
      bytes, words, lines := 0, 0, 0;
    }
  }

  datatype Call = Reading | Writing

  /** info holds its first counts and those of s on top. */
  predicate Counted(info: Info, bytes: nat, words: nat, lines: nat, s: seq<char>)
    reads info
  {
    info.bytes == bytes + |s| && info.words == words + Words(s) && info.lines == lines + Lines(s)
  }

  /** Reads input to its end through a buffer, counts it and writes it on.  How much each read and
      each write moves is arbitrary (a write of 0 bytes is the loop trying again, and is left
      out); fails says which calls fail, by what has been read or written before them.  On success
      everything was counted and written.  Otherwise the next read or the next write is one that
      fails; the counts are those of what was read, and all of it was written before a failing
      read, a proper part before a failing write. */
  method CopyFile(input: seq<char>, bufferSize: nat, info: Info, fails: (Call, nat) -> bool)
    returns (ok: bool, output: seq<char>)
    requires bufferSize > 0
    modifies info
    ensures old(info.bytes) <= info.bytes <= old(info.bytes) + |input|
    ensures var read := input[..info.bytes - old(info.bytes)];
            && info.words == old(info.words) + |Runs(read)|
            && info.lines == old(info.lines) + multiset(read)['\n']
            && output <= read
    ensures ok ==> info.bytes == old(info.bytes) + |input| && output == input
    ensures ok ==> !fails(Reading, 0) && !fails(Reading, |input|) && (input != [] ==> !fails(Writing, 0))
    ensures !ok ==>
              var read := input[..info.bytes - old(info.bytes)];
              if output == read then fails(Reading, |read|) else fails(Writing, |output|)
  {
    var buffer := new char[bufferSize];
    var inWord := false;
    var pos := 0;
    ok, output := true, [];
    while ok
      invariant buffer.Length == bufferSize && 0 <= pos <= |input|
      invariant Counted(info, old(info.bytes), old(info.words), old(info.lines), input[..pos])
      invariant inWord == EndsInWord(input[..pos])
      invariant output <= input[..pos] && (ok ==> output == input[..pos])
      invariant ok && pos > 0 ==> !fails(Reading, 0) && !fails(Writing, 0)
      invariant !ok ==> if output == input[..pos] then fails(Reading, pos) else fails(Writing, |output|)
      decreases |input| - pos, ok
    {
      if fails(Reading, pos) {
        ok := false;
      } else if pos == |input| {
        break;
      } else {
        var part;
        pos, inWord, ok, part := CopyChunk(input, pos, buffer, inWord, info, fails,
                                           old(info.bytes), old(info.words), old(info.lines));
        output := output + part;
      }
    }
    WordsAreRuns(input[..pos]);
    LinesAreNewlines(input[..pos]);
  }

  /** One round of the loop. */
  method CopyChunk(input: seq<char>, pos: nat, buffer: array<char>, wasInWord: bool, info: Info,
                   fails: (Call, nat) -> bool, ghost bytes: nat, ghost words: nat, ghost lines: nat)
    returns (next: nat, inWord: bool, ok: bool, part: seq<char>)
    requires pos < |input| && buffer.Length > 0 && wasInWord == EndsInWord(input[..pos])
    requires Counted(info, bytes, words, lines, input[..pos])
    modifies info, buffer
    ensures pos < next <= |input| && inWord == EndsInWord(input[..next])
    ensures Counted(info, bytes, words, lines, input[..next])
    ensures input[..pos] + part <= input[..next]
    ensures ok ==> input[..pos] + part == input[..next] && !fails(Writing, pos)
    ensures !ok ==> pos + |part| < next && fails(Writing, pos + |part|)
  {
    var readBytes := Read(input, pos, buffer);
    next := pos + readBytes;
    assert input[..pos] + buffer[..readBytes] == input[..next];
    info.bytes := info.bytes + readBytes;
    inWord := CountChunk(buffer, readBytes, wasInWord, info);
    LinesAreNewlines(buffer[..readBytes]);
    ChunkIndependence(input[..pos], buffer[..readBytes]);
    ok, part := WriteAll(buffer, readBytes, pos, fails);
  }

  /** read: some bytes of the rest of the input, at most a buffer full. */
  method Read(input: seq<char>, pos: nat, buffer: array<char>) returns (readBytes: nat)
    requires pos < |input| && buffer.Length > 0
    modifies buffer
    ensures 1 <= readBytes <= buffer.Length && pos + readBytes <= |input|
    ensures buffer[..readBytes] == input[pos..pos + readBytes]
  {
    readBytes :| 1 <= readBytes <= buffer.Length && pos + readBytes <= |input|;
    forall k | 0 <= k < readBytes {
      buffer[k] := input[pos + k];
    }
  }

  /** The loop over partial writes, before bytes having been written already. */
  method WriteAll(buffer: array<char>, readBytes: nat, before: nat, fails: (Call, nat) -> bool)
    returns (ok: bool, output: seq<char>)
    requires readBytes <= buffer.Length
    ensures output <= buffer[..readBytes]
    ensures ok ==> output == buffer[..readBytes] && (readBytes > 0 ==> !fails(Writing, before))
    ensures !ok ==> |output| < readBytes && fails(Writing, before + |output|)
  {
    var written := 0;
    output := [];
    while written < readBytes
      invariant 0 <= written <= readBytes
      invariant output == buffer[..written]
      invariant written > 0 ==> !fails(Writing, before)
    {
      if fails(Writing, before + written) {
        return false, output;
      }
      var writeBytes: nat :| 1 <= writeBytes <= readBytes - written;
      output := output + buffer[written..written + writeBytes];
      written := written + writeBytes;
    }
    ok := true;
  }

  /** The loop over one chunk. */
  method CountChunk(buffer: array<char>, readBytes: nat, wasInWord: bool, info: Info)
    returns (inWord: bool)
    requires readBytes <= buffer.Length
    modifies info`words, info`lines
    ensures info.words == old(info.words) + ChunkWords(wasInWord, buffer[..readBytes])
    ensures info.lines == old(info.lines) + multiset(buffer[..readBytes])['\n']
    ensures inWord == Open(wasInWord, buffer[..readBytes])
  {
    inWord := wasInWord;
    for i := 0 to readBytes
      invariant info.words == old(info.words) + ChunkWords(wasInWord, buffer[..i])
      invariant info.lines == old(info.lines) + Lines(buffer[..i])
      invariant inWord == Open(wasInWord, buffer[..i])
    {
      assert buffer[..i + 1][..i] == buffer[..i];
      if buffer[i] == '\n' {
        info.lines := info.lines + 1;
      }
      if !IsSpace(buffer[i]) {
        if !inWord {
          info.words := info.words + 1;
          inWord := true;
        }
      } else {
        inWord := false;
      }
    }
    LinesAreNewlines(buffer[..readBytes]);
  }
}
