/** A line that ends in a path and in no newline: the walk steps over the line's NUL and goes on in
    whatever lies behind it in the buffer.  Exactly when that does harm. */
module ShellTail {
  import opened Ctype
  import opened ShellParser
  import opened ShellGrammar
  import opened ShellItems
  import opened ShellLine
  import opened ShellRedirect
  import opened ShellRoundTrip

  // ---------- the passes only ever write NULs ----------

  /** The same memory but for NULs written from position p on. */
  predicate Zeroed(m: seq<char>, later: seq<char>, p: int)
  {
    && |later| == |m|
    && (forall k :: 0 <= k < |m| ==> later[k] == m[k] || later[k] == NUL)
    && (forall k :: 0 <= k < |m| && k < p ==> later[k] == m[k])
  }

  lemma {:induction false} BlanksZero(m: seq<char>, p: nat)
    ensures Zeroed(m, ZeroBlanks(m, p).0, p)
    ensures forall k :: ZeroBlanks(m, p).1 <= k < |m| ==> ZeroBlanks(m, p).0[k] == m[k]
    decreases |m| - p
  {
    if p < |m| && IsSpace(m[p]) {
      BlanksZero(m[p := NUL], p + 1);
    }
  }

  /** The memory and the place at which the walk goes on behind a redirection. */
  function AfterPath(m: seq<char>, p: nat): (r: (seq<char>, nat))
    requires p < |m| && (m[p] == '<' || m[p] == '>')
    ensures r.1 > p
  {
    var other := if m[p] == '<' then '>' else '<';
    var zeroed := ZeroBlanks(m[p := NUL], p + 1);
    var end := PathEnd(zeroed.0, zeroed.1, other);
    if end < |m| && zeroed.0[end] != other then (zeroed.0[end := NUL], end + 1) else (zeroed.0, end)
  }

  lemma AfterPathIs(m: seq<char>, p: nat, input: int, output: int) returns (i: int, o: int)
    requires p < |m| && (m[p] == '<' || m[p] == '>')
    ensures var next := AfterPath(m, p);
            && Zeroed(m, next.0, p) && next.0[p] == NUL
            && (forall k :: next.1 <= k < |m| ==> next.0[k] == m[k])
            && RedirectFrom(m, p, input, output) == RedirectFrom(next.0, next.1, i, o)
  {
    hide ZeroBlanks, PathEnd;
    var other := if m[p] == '<' then '>' else '<';
    var zeroed := ZeroBlanks(m[p := NUL], p + 1);
    BlanksZero(m[p := NUL], p + 1);
    i := if m[p] == '<' then zeroed.1 else input;
    o := if m[p] == '<' then output else zeroed.1;
  }

  lemma {:induction false} RedirectZeroes(m: seq<char>, p: nat, input: int, output: int)
    ensures var r := RedirectFrom(m, p, input, output);
            r.Redirected? ==> Zeroed(m, r.memory, p)
    decreases |m| - p
  {
    hide AfterPath, ZeroBlanks, PathEnd;
    if p < |m| && m[p] != NUL {
      if m[p] == '<' || m[p] == '>' {
        var i, o := AfterPathIs(m, p, input, output);
        var next := AfterPath(m, p);
        RedirectZeroes(next.0, next.1, i, o);
      } else {
        RedirectZeroes(m, p + 1, input, output);
      }
    }
  }

  /** Without a NUL the walk leaves the buffer, whatever it cuts on the way. */
  lemma {:induction false} RunsOff(m: seq<char>, p: nat, input: int, output: int)
    requires forall k :: p <= k < |m| ==> m[k] != NUL
    ensures RedirectFrom(m, p, input, output).Overrun?
    decreases |m| - p
  {
    hide AfterPath, ZeroBlanks, PathEnd;
    if p < |m| {
      if m[p] == '<' || m[p] == '>' {
        var i, o := AfterPathIs(m, p, input, output);
        var next := AfterPath(m, p);
        RunsOff(next.0, next.1, i, o);
      } else {
        RunsOff(m, p + 1, input, output);
      }
    }
  }

  lemma {:induction false} TokensZero(m: seq<char>, p: nat, inWord: bool, argv: seq<nat>)
    ensures var r := TokensFrom(m, p, inWord, argv);
            r.Argv? ==> Zeroed(m, r.memory, p)
    decreases |m| - p
  {
    if p < |m| && m[p] != NUL {
      if IsSpace(m[p]) {
        TokensZero(m[p := NUL], p + 1, false, argv);
      } else if inWord {
        TokensZero(m, p + 1, true, argv);
      } else if |argv| < MAX_ARGV_SIZE {
        TokensZero(m, p + 1, true, argv + [p]);
      }
    }
  }

  lemma {:induction false} ArgvZeroes(m: seq<char>, commands: seq<nat>, i: nat, argvs: seq<seq<nat>>,
                                      input: int, output: int)
    requires i <= |commands|
    ensures var r := ArgvAll(m, commands, i, argvs, input, output);
            r.Parsed? ==> Zeroed(m, r.memory, 0)
    decreases |commands| - i
  {
    hide TokensFrom;
    if i < |commands| {
      var tokens := TokensFrom(m, commands[i], false, []);
      TokensZero(m, commands[i], false, []);
      if tokens.Argv? {
        ArgvZeroes(tokens.memory, commands, i + 1, argvs + [tokens.argv], input, output);
      }
    }
  }

  lemma {:induction false} LoopZeroes(m: seq<char>, commands: seq<nat>, i: nat, input: int, output: int)
    requires i <= |commands|
    ensures var r := RedirectAll(m, commands, i, input, output);
            r.Parsed? ==> Zeroed(m, r.memory, 0)
    decreases |commands| - i
  {
    hide RedirectFrom, ArgvAll;
    if i == |commands| {
      ArgvZeroes(m, commands, 0, [], input, output);
    } else {
      var current := RedirectFrom(m, commands[i], NULL, NULL);
      RedirectZeroes(m, commands[i], NULL, NULL);
      if current.Redirected? {
        LoopZeroes(current.memory, commands, i + 1,
                   if current.input != NULL then current.input else input,
                   if current.output != NULL then current.output else output);
      }
    }
  }

  // ---------- what the walk does behind the line ----------

  /** Not calm: the walk leaves the buffer, or writes a NUL over an operator. */
  lemma {:induction false} WalkStirred(a: seq<char>, rest: seq<char>, input: int, output: int)
    requires !Calm(rest)
    ensures var r := RedirectFrom(a + rest, |a|, input, output);
            && (NUL !in rest ==> r.Overrun?)
            && (r.Redirected? ==>
                  && |r.memory| == |a| + |rest|
                  && exists k :: 0 <= k < |rest| && rest[k] != NUL && r.memory[|a| + k] == NUL)
    decreases |rest|
  {
    var m := a + rest;
    hide AfterPath, ZeroBlanks, PathEnd;
    if NUL !in rest {
      assert forall k :: |a| <= k < |m| ==> m[k] == rest[k - |a|];
      RunsOff(m, |a|, input, output);
    }
    if rest != [] {
      assert m[|a|] == rest[0];
      if rest[0] == '<' || rest[0] == '>' {
        var i, o := AfterPathIs(m, |a|, input, output);
        var next := AfterPath(m, |a|);
        RedirectZeroes(next.0, next.1, i, o);
        var r := RedirectFrom(m, |a|, input, output);
        assert r.Redirected? ==> r.memory[|a| + 0] == NUL;
      } else {
        assert m == (a + [rest[0]]) + rest[1..];
        WalkStirred(a + [rest[0]], rest[1..], input, output);
        Shift(a, rest, RedirectFrom(m, |a|, input, output));
      }
    }
  }

  lemma Shift(a: seq<char>, rest: seq<char>, r: Redirections)
    requires rest != []
    requires r.Redirected? ==>
               && |r.memory| == |a| + |rest|
               && exists k :: 0 <= k < |rest[1..]| && rest[1..][k] != NUL && r.memory[|a + [rest[0]]| + k] == NUL
    ensures r.Redirected? ==>
              exists k :: 0 <= k < |rest| && rest[k] != NUL && r.memory[|a| + k] == NUL
  {
    if r.Redirected? {
      var k :| 0 <= k < |rest[1..]| && rest[1..][k] != NUL && r.memory[|a + [rest[0]]| + k] == NUL;
      assert rest[k + 1] != NUL && r.memory[|a| + (k + 1)] == NUL;
    }
  }

  /** What main makes of a last stretch whose walk gets behind the line. */
  lemma StirredStretch(p: Pipeline, k: nat, rest: seq<char>, commands: seq<nat>, input: int)
    requires GoodPipeline(p) && StartsOf(p, commands) && k < |p| && OpenToEnd(p, k) && !Calm(rest)
    ensures var r := RedirectAll(CutMemory(p, k, rest), commands, k, input, NULL);
            && (NUL !in rest ==> r.OutOfBounds?)
            && (r.Parsed? ==> r.memory != TokenMemory(p, |p|, rest))
  {
    hide RedirectFrom, ArgvAll, Start, Lay, Stage, Spellable, EndsOpen, OpenToEnd, StretchInput, StretchOutput,
         StretchEnd, Calm;
    var a := Lay(Stage(p, |p|, CutOut, Spelled));
    var walk := RedirectFrom(CutMemory(p, k, rest), Start(p, k), NULL, NULL);
    WalkStretch(p, k, rest, NULL, NULL);
    CutWhole(p, rest);
    WalkStirred(a, rest, StretchInput(p, k, NULL), StretchOutput(p, k, NULL));
    if walk.Redirected? {
      var j :| 0 <= j < |rest| && rest[j] != NUL && walk.memory[|a| + j] == NUL;
      LoopZeroes(walk.memory, commands, k + 1, if walk.input != NULL then walk.input else input, walk.output);
      TokenWhole(p, rest);
      assert TokenMemory(p, |p|, rest)[|a| + j] == rest[j];
    }
  }

  lemma TokenWhole(p: Pipeline, rest: seq<char>)
    ensures |Lay(Stage(p, |p|, Tokenised, CutOut))| == Start(p, |p|)
  {
    var s := Stage(p, |p|, Tokenised, CutOut);
    LayLength(s, p, |p|);
    assert s[..|p|] == s;
  }

  lemma {:induction false} StirredFrom(p: Pipeline, k: nat, rest: seq<char>, commands: seq<nat>, input: int)
    requires GoodPipeline(p) && StartsOf(p, commands) && k < |p| && (k == 0 ==> input == NULL)
    requires EndsOpen(p[|p| - 1].items) && !Calm(rest) && !BadFrom(p, k)
    ensures var r := RedirectAll(CutMemory(p, k, rest), commands, k, input, NULL);
            && (NUL !in rest ==> r.OutOfBounds?)
            && (r.Parsed? ==> r.memory != TokenMemory(p, |p|, rest))
    decreases |p| - k
  {
    hide RedirectFrom, RedirectAll, CutMemory, TokenMemory, Start, EndsOpen, Spellable, Calm, StretchInput,
         StretchOutput, StretchHas;
    var e := StretchEnd(p, k);
    if e == |p| {
      OpenIsLast(p, k);
      StirredStretch(p, k, rest, commands, input);
    } else {
      LoopStretch(p, k, rest, commands, input);
      StretchFound(p, k, NULL, NULL);
      StirredFrom(p, e, rest, commands, if k == 0 then StretchInput(p, 0, NULL) else input);
    }
  }

  /** A line that the parser would accept is read as it stands exactly when it does not end in a
      path, or what lies behind its NUL has a NUL of its own and no redirection before that.  With
      no NUL behind it, as for a path that fills the buffer, the walk leaves the buffer. */
  lemma TailIff(p: Pipeline, tail: seq<char>)
    requires GoodPipeline(p) && Ordinary(p) && !Refused(p) && Fits(p)
    requires tail != [] && (tail[0] == '\n' || tail[0] == NUL)
    ensures var r := ParseLine(SpellLine(p) + tail);
            && (r == Clean(p, tail[1..]) <==> CleanBehind(p, tail[1..]))
            && (EndsOpen(p[|p| - 1].items) && NUL !in tail[1..] ==> r.OutOfBounds?)
  {
    hide ParseLine, RedirectAll, SpellLine, CutMemory, TokenMemory, Refused, FitsArgv, Spellable, CommandStarts,
         StretchInput, OutputAfter, Calm, EndsOpen;
    var rest := tail[1..];
    if CleanBehind(p, rest) {
      ParseVerdict(p, tail);
      NoCalm(rest);
    } else {
      ParseSplit(p, tail);
      CommandsStart(p);
      BadIsRefused(p);
      StirredFrom(p, 0, rest, CommandStarts(p), NULL);
    }
  }

  /** Calm in other words: there is a NUL, and no operator before the first. */
  lemma {:induction false} CalmIff(rest: seq<char>)
    ensures Calm(rest) <==> exists f :: 0 <= f < |rest| && rest[f] == NUL && Quiet(rest[..f])
    decreases |rest|
  {
    if rest == [] {
    } else if rest[0] == NUL {
      assert Quiet(rest[..0]);
    } else {
      CalmIff(rest[1..]);
      if f :| 0 <= f < |rest| && rest[f] == NUL && Quiet(rest[..f]) {
        assert rest[..f][0] == rest[0];
        assert rest[1..][..f - 1] == rest[..f][1..];
        assert rest[1..][f - 1] == NUL && Quiet(rest[1..][..f - 1]);
      }
      if g :| 0 <= g < |rest[1..]| && rest[1..][g] == NUL && Quiet(rest[1..][..g]) {
        if rest[0] != '<' && rest[0] != '>' {
          assert rest[..g + 1] == [rest[0]] + rest[1..][..g];
          assert rest[g + 1] == NUL && Quiet(rest[..g + 1]);
        }
      }
    }
  }

  lemma {:induction false} NoCalm(rest: seq<char>)
    ensures Calm(rest) ==> NUL in rest
    decreases |rest|
  {
    if rest != [] {
      NoCalm(rest[1..]);
    }
  }
}
