/** What the parser makes of a line spelled from a pipeline, whatever its redirections, and the
    round trip: exactly which pipelines come back whole. */
module ShellRoundTrip {
  import opened Sequences
  import opened ShellParser
  import opened ShellGrammar
  import opened ShellItems
  import opened ShellLine
  import opened ShellRedirect

  // ---------- tokenising every command ----------

  /** Memory when every command has been cut and the first k tokenised. */
  function TokenMemory(p: Pipeline, k: nat, rest: seq<char>): seq<char>
  {
    Lay(Stage(p, k, Tokenised, CutOut)) + rest
  }

  lemma CutIsTokened(p: Pipeline, rest: seq<char>)
    ensures CutMemory(p, |p|, rest) == TokenMemory(p, 0, rest)
  {
    assert Stage(p, |p|, CutOut, Spelled) == Stage(p, 0, Tokenised, CutOut);
  }

  /** The argument vector of command k. */
  function ArgvOf(p: Pipeline, k: nat): seq<nat>
    requires k < |p|
  {
    WordsFrom(p[k].items, Items(p, k))
  }

  lemma {:induction false} WordsCount(items: seq<Item>, at: nat)
    ensures |WordsFrom(items, at)| == |Leading(items)|
    decreases |items|
  {
    if items != [] && items[0].Word? {
      WordsCount(items[1..], at + |Spell(items[0])|);
    }
  }

  /** parse_argv on one command that has been cut. */
  predicate TokenisesCommand(a: seq<char>, c: Command, b: seq<char>)
  {
    var found := WordsFrom(c.items, |a| + |c.lead|);
    TokensFrom(a + Segment(c, CutOut) + b, |a|, false, [])
    == if |found| < MAX_ARGV_SIZE then Argv(a + Segment(c, Tokenised) + b, found)
       else if |found| == MAX_ARGV_SIZE then NoRoom
       else TooManyArguments
  }

  lemma TokeniseCommand(a: seq<char>, c: Command, b: seq<char>)
    requires Spellable(c) && b != [] && b[0] == NUL
    ensures TokenisesCommand(a, c, b)
  {
    hide TokensFrom, Left, WordsFrom, GoodItems;
    var zeros := Zeros(|c.lead|);
    BlanksZeroed(a, c.lead, Left(c.items, false) + b, false, []);
    TokenItems(a + zeros, c.items, b, false, []);
    assert [] + WordsFrom(c.items, |a + zeros|) == WordsFrom(c.items, |a| + |c.lead|);
    Assoc(a, c.lead, Left(c.items, false));
    Assoc(a + c.lead, Left(c.items, false), b);
    Assoc(a + zeros, Left(c.items, false), b);
    Assoc(a, zeros, Left(c.items, true));
  }

  lemma TokeniseAt(p: Pipeline, k: nat, rest: seq<char>)
    requires GoodPipeline(p) && k < |p|
    ensures var found := ArgvOf(p, k);
            (TokensFrom(TokenMemory(p, k, rest), Start(p, k), false, [])
             == if |found| < MAX_ARGV_SIZE then Argv(TokenMemory(p, k + 1, rest), found)
                else if |found| == MAX_ARGV_SIZE then NoRoom
                else TooManyArguments)
  {
    hide TokensFrom, Stage, Lay, Start, WordsFrom, Spellable, Before, Behind;
    Around(p, k, Tokenised, CutOut, rest);
    assert Spellable(p[k]);
    TokeniseCommand(Before(p, k, Tokenised), p[k], Behind(p, k, CutOut, rest));
  }

  function Argvs(p: Pipeline, k: nat): (r: seq<seq<nat>>)
    requires k <= |p|
    ensures |r| == k && forall j :: 0 <= j < k ==> r[j] == ArgvOf(p, j)
  {
    seq(k, j requires 0 <= j < k => ArgvOf(p, j))
  }

  /** The command with too many words decides: one too many for the closing NULL, which goes past
      the end of argv, or more, which is refused. */
  function Overflow(p: Pipeline, k: nat): Line
    requires k < |p| && !FitsArgv(p, k)
  {
    if |Leading(p[k].items)| == MAX_ARGV_SIZE then OutOfBounds else UnsupportedArguments
  }

  predicate FirstCrowded(p: Pipeline, from: nat, k: nat)
  {
    from <= k < |p| && !FitsArgv(p, k) && forall j :: from <= j < k ==> FitsArgv(p, j)
  }

  /** Every command gets its argument vector, or the first with too many words ends the line. */
  lemma {:induction false} ArgvLine(p: Pipeline, k: nat, rest: seq<char>, commands: seq<nat>, input: int, output: int)
    requires GoodPipeline(p) && k <= |p| && StartsOf(p, commands)
    ensures var r := ArgvAll(TokenMemory(p, k, rest), commands, k, Argvs(p, k), input, output);
            && ((forall j :: k <= j < |p| ==> FitsArgv(p, j)) ==>
                  r == Parsed(TokenMemory(p, |p|, rest), Argvs(p, |p|), input, output))
            && (forall j :: FirstCrowded(p, k, j) ==> r == Overflow(p, j))
    decreases |p| - k
  {
    hide TokensFrom, TokenMemory, Start, ArgvOf, Leading, WordsFrom, GoodPipeline;
    if k < |p| {
      TokeniseAt(p, k, rest);
      CountAt(p, k);
      if FitsArgv(p, k) {
        ArgvLine(p, k + 1, rest, commands, input, output);
        assert Argvs(p, k) + [ArgvOf(p, k)] == Argvs(p, k + 1);
        assert forall j :: FirstCrowded(p, k, j) ==> FirstCrowded(p, k + 1, j);
      }
    }
  }

  lemma CountAt(p: Pipeline, k: nat)
    requires k < |p|
    ensures |ArgvOf(p, k)| == |Leading(p[k].items)|
  {
    WordsCount(p[k].items, Items(p, k));
  }

  // ---------- what the pointers point at ----------

  lemma CommandStands(a: seq<char>, c: Command, b: seq<char>, otherwise: int)
    requires Spellable(c) && b != [] && b[0] == NUL
    ensures var m, at := a + Segment(c, Tokenised) + b, |a| + |c.lead|;
            && WordsAt(m, WordsFrom(c.items, at), Leading(c.items))
            && Leaves(m, at, c.items, true, otherwise) && Leaves(m, at, c.items, false, otherwise)
  {
    hide WordsAt, Leaves, Left, WordsFrom, Leading, GoodItems;
    var zeros := Zeros(|c.lead|);
    Assoc(a, zeros, Left(c.items, true));
    WordsStand(a + zeros, c.items, b);
    PathStands(a + zeros, c.items, b, true, true, otherwise);
    PathStands(a + zeros, c.items, b, true, false, otherwise);
  }

  /** The pointer holds the path, or there is no path and the pointer is the one from before. */
  predicate PointsAt(m: seq<char>, at: int, to: Redirection, otherwise: int)
  {
    if to.None? then at == otherwise else StringAt(m, at, to.path)
  }

  lemma LineStands(p: Pipeline, k: nat, rest: seq<char>, otherwise: int)
    requires GoodPipeline(p) && k < |p|
    ensures var m := TokenMemory(p, |p|, rest);
            && WordsAt(m, ArgvOf(p, k), Leading(p[k].items))
            && PointsAt(m, InputAfter(p, k, otherwise), Path(p[k].items, true), otherwise)
            && PointsAt(m, OutputAfter(p, k, otherwise), Path(p[k].items, false), otherwise)
            && (Path(p[k].items, true).None? <==> !HasIn(p[k].items))
  {
    hide WordsAt, StringAt, Stage, Lay, Start, WordsFrom, Leading, PathFrom, Path, Spellable, Before, Behind,
         HasIn, HasOut;
    Around(p, k, Tokenised, Tokenised, rest);
    StageDone(p, k);
    assert Spellable(p[k]);
    CommandStands(Before(p, k, Tokenised), p[k], Behind(p, k, Tokenised, rest), otherwise);
  }

  lemma StageDone(p: Pipeline, k: nat)
    ensures Stage(p, k, Tokenised, Tokenised) == Stage(p, |p|, Tokenised, CutOut)
  {
  }

  /** The input pointer of the first stretch holds the last input path of the line, if no input
      redirection stands behind that stretch. */
  lemma {:induction false} InputStands(p: Pipeline, k: nat, rest: seq<char>, input: int)
    requires GoodPipeline(p) && k < |p|
    requires forall i :: StretchEnd(p, k) <= i < |p| ==> !HasIn(p[i].items)
    ensures PointsAt(TokenMemory(p, |p|, rest), StretchInput(p, k, input), LastInput(p, k), input)
    decreases |p| - k
  {
    hide StringAt, TokenMemory, InputAfter, EndsOpen, GoodPipeline, Path, HasIn;
    LineStands(p, k, rest, input);
    if EndsOpen(p[k].items) && k + 1 < |p| {
      InputStands(p, k + 1, rest, InputAfter(p, k, input));
    } else {
      NoInput(p, k + 1, rest);
    }
  }

  lemma {:induction false} NoInput(p: Pipeline, k: nat, rest: seq<char>)
    requires GoodPipeline(p) && k <= |p| && forall i :: k <= i < |p| ==> !HasIn(p[i].items)
    ensures LastInput(p, k).None?
    decreases |p| - k
  {
    hide GoodPipeline, Path, HasIn;
    if k < |p| {
      LineStands(p, k, rest, NULL);
      NoInput(p, k + 1, rest);
    }
  }

  lemma InputsFirst(p: Pipeline)
    requires p != [] && !Refused(p)
    ensures forall i :: StretchEnd(p, 0) <= i < |p| ==> !HasIn(p[i].items)
  {
    hide HasIn, HasOut, EndsOpen;
    StretchHeads(p, 0);
    forall i | StretchEnd(p, 0) <= i < |p| ensures !HasIn(p[i].items) {
      HeadBehind(p, StretchEnd(p, 0), i);
      assert !Stray(p, i);
    }
  }

  lemma {:induction false} HeadBehind(p: Pipeline, e: nat, i: nat)
    requires e <= i < |p| && Head(p, e) == e
    ensures Head(p, i) >= e
    decreases i
  {
    hide EndsOpen;
    if i > e && EndsOpen(p[i - 1].items) {
      HeadBehind(p, e, i - 1);
    }
  }

  // ---------- the whole line ----------

  lemma {:induction false} LineClean(p: Pipeline)
    requires GoodPipeline(p)
    ensures forall k :: 0 <= k < |SpellLine(p)| ==> SpellLine(p)[k] != NUL && SpellLine(p)[k] != '\n'
    decreases |p|
  {
    SpellClean(p[0]);
    if |p| > 1 {
      LineClean(p[1..]);
    }
  }

  /** The buffer behind the line: a newline or a NUL, and if the line ends in a path, a NUL behind
      that, as fgets leaves it behind a newline. */
  predicate GoodTail(p: Pipeline, tail: seq<char>)
    requires p != []
  {
    && tail != [] && (tail[0] == '\n' || tail[0] == NUL)
    && CleanBehind(p, tail[1..])
  }

  /** A line that main passes to the parser: not empty and not "exit". */
  predicate Ordinary(p: Pipeline)
  {
    SpellLine(p) != [] && SpellLine(p) != "exit"
  }

  function CommandStarts(p: Pipeline): seq<nat>
  {
    [0] + StartsFrom(p, 0)
  }

  lemma CommandsStart(p: Pipeline)
    requires p != []
    ensures StartsOf(p, CommandStarts(p))
  {
    StartsAre(p, 0);
  }

  /** Stripped and split, the line lies in memory command by command. */
  lemma ParseSplit(p: Pipeline, tail: seq<char>)
    requires GoodPipeline(p) && Ordinary(p) && tail != [] && (tail[0] == '\n' || tail[0] == NUL)
    ensures ParseLine(SpellLine(p) + tail)
         == if |p| > MAX_COMMANDS then UnsupportedCommands
            else RedirectAll(CutMemory(p, 0, tail[1..]), CommandStarts(p), 0, NULL, NULL)
  {
    hide SplitFrom, SpellLine, CutMemory, CommandStarts, LineEnd, RedirectAll, Spellable;
    LineClean(p);
    LineStripped(SpellLine(p), tail);
    LineSplit(p, tail[1..]);
  }

  /** strcspn finds the end of the line. */
  lemma LineStripped(line: seq<char>, tail: seq<char>)
    requires forall k :: 0 <= k < |line| ==> line[k] != NUL && line[k] != '\n'
    requires tail != [] && (tail[0] == '\n' || tail[0] == NUL)
    ensures var m := line + tail;
            && LineEnd(m, 0) == |line| && m[..|line|] == line
            && m[|line| := NUL] == line + ([NUL] + tail[1..])
  {
    hide LineEnd;
    var m := line + tail;
    assert m[|line|] == tail[0];
    assert forall k :: 0 <= k < |line| ==> m[k] == line[k];
  }

  lemma LineSplit(p: Pipeline, rest: seq<char>)
    requires GoodPipeline(p)
    ensures SplitFrom(SpellLine(p) + ([NUL] + rest), 0, [0])
         == if |p| > MAX_COMMANDS then TooManyCommands
            else Split.Cut(CutMemory(p, 0, rest), CommandStarts(p))
  {
    hide SplitFrom, SpellLine, Lay, StartsFrom, Spellable;
    SplitAll([], p, rest, [0]);
    assert [] + SpellLine(p) == SpellLine(p);
    assert [] + Lay(Stage(p, 0, Spelled, Spelled)) == Lay(Stage(p, 0, CutOut, Spelled)) by {
      FirstStage(p);
    }
  }

  lemma FirstStage(p: Pipeline)
    ensures Stage(p, 0, Spelled, Spelled) == Stage(p, 0, CutOut, Spelled)
  {
  }

  /** The result when nothing behind the line gets into it. */
  function Clean(p: Pipeline, rest: seq<char>): Line
    requires p != []
  {
    Parsed(TokenMemory(p, |p|, rest), Argvs(p, |p|), StretchInput(p, 0, NULL), OutputAfter(p, |p| - 1, NULL))
  }

  /** The last pass, over memory in which every command has been cut. */
  lemma ArgvClean(p: Pipeline, rest: seq<char>)
    requires GoodPipeline(p)
    ensures var r := ArgvAll(CutMemory(p, |p|, rest), CommandStarts(p), 0, [], StretchInput(p, 0, NULL),
                             OutputAfter(p, |p| - 1, NULL));
            && ((forall k :: 0 <= k < |p| ==> FitsArgv(p, k)) ==> r == Clean(p, rest))
            && (forall k :: FirstCrowded(p, 0, k) ==> r == Overflow(p, k))
  {
    hide ArgvAll, CutMemory, TokenMemory, FitsArgv, StretchInput, OutputAfter, CommandStarts;
    CommandsStart(p);
    CutIsTokened(p, rest);
    ArgvLine(p, 0, rest, CommandStarts(p), StretchInput(p, 0, NULL), OutputAfter(p, |p| - 1, NULL));
  }

  /** Everything the parser can say of a line of at most 16 commands. */
  predicate Verdict(p: Pipeline, rest: seq<char>, r: Line)
    requires p != []
  {
    && (Refused(p) ==> r == Misplaced(p))
    && (!Refused(p) && Fits(p) ==> r == Clean(p, rest))
    && (!Refused(p) ==> forall k :: 0 <= k < |p| && FirstCrowded(p, 0, k) ==> r == Overflow(p, k))
  }

  lemma ParseVerdict(p: Pipeline, tail: seq<char>)
    requires GoodPipeline(p) && Ordinary(p) && GoodTail(p, tail) && |p| <= MAX_COMMANDS
    ensures Verdict(p, tail[1..], ParseLine(SpellLine(p) + tail))
  {
    hide ParseLine, RedirectAll, ArgvAll, SpellLine, CutMemory, Refused, FitsArgv, StretchInput, OutputAfter,
         CommandStarts, Spellable, Clean, Overflow;
    ParseSplit(p, tail);
    CommandsStart(p);
    LoopFrom(p, 0, tail[1..], CommandStarts(p), NULL);
    BadIsRefused(p);
    ArgvClean(p, tail[1..]);
  }

  lemma {:induction false} SomeCrowded(p: Pipeline, from: nat) returns (k: nat)
    requires from <= |p| && exists j :: from <= j < |p| && !FitsArgv(p, j)
    ensures FirstCrowded(p, from, k)
    decreases |p| - from
  {
    k := from;
    if FitsArgv(p, from) {
      k := SomeCrowded(p, from + 1);
    }
  }

  lemma CleanFinds(p: Pipeline, rest: seq<char>)
    requires GoodPipeline(p) && !Refused(p)
    ensures Finds(Clean(p, rest), p)
  {
    hide WordsAt, StringAt, TokenMemory, ArgvOf, Leading, Path, StretchInput, OutputAfter, Refused, LastInput,
         InputAfter, HasIn;
    forall k | 0 <= k < |p|
      ensures WordsAt(TokenMemory(p, |p|, rest), ArgvOf(p, k), Leading(p[k].items))
    {
      LineStands(p, k, rest, NULL);
    }
    LineStands(p, |p| - 1, rest, NULL);
    InputsFirst(p);
    InputStands(p, 0, rest, NULL);
  }

  /** The fate of every line of at most 16 commands, wherever its redirections stand.  It is
      refused exactly when a redirection is stray: an input in a stretch that does not begin the
      line, or an output in a stretch that does not begin with the last command.  Otherwise, with
      room in argv, it is parsed, and the parser has found each command's leading words, the last
      input path of the line and the output path of the last command. */
  lemma Placement(p: Pipeline, tail: seq<char>)
    requires GoodPipeline(p) && Ordinary(p) && GoodTail(p, tail) && |p| <= MAX_COMMANDS
    ensures var r := ParseLine(SpellLine(p) + tail);
            && (NotPlaced(r) <==> Refused(p))
            && (Refused(p) ==> r == Misplaced(p))
            && (Finds(r, p) <==> !Refused(p) && Fits(p))
  {
    hide ParseLine, SpellLine, Refused, FitsArgv, StretchInput, OutputAfter, WordsAt, PathAt, TokenMemory,
         Leading, Path, LastInput, GoodPipeline;
    ParseVerdict(p, tail);
    if !Refused(p) {
      if Fits(p) {
        CleanFinds(p, tail[1..]);
      } else {
        var k := SomeCrowded(p, 0);
      }
    }
  }

  /** No path stands against a bar. */
  predicate Closed(p: Pipeline)
  {
    forall k :: 0 <= k < |p| - 1 ==> !EndsOpen(p[k].items)
  }

  /** As long as no path touches a bar, exactly the misplaced redirections are refused. */
  lemma ClosedPlacement(p: Pipeline, tail: seq<char>)
    requires GoodPipeline(p) && Ordinary(p) && GoodTail(p, tail) && |p| <= MAX_COMMANDS && Closed(p)
    ensures NotPlaced(ParseLine(SpellLine(p) + tail)) <==> !Legal(p)
  {
    hide ParseLine, SpellLine, Spellable, EndsOpen, HasIn, HasOut, Finds, Fits;
    Placement(p, tail);
    assert forall k :: 0 <= k < |p| ==> Head(p, k) == k;
    if !Legal(p) {
      var k :| 0 <= k < |p| && ((k > 0 && HasIn(p[k].items)) || (k < |p| - 1 && HasOut(p[k].items)));
      assert Stray(p, k);
    }
  }

  // ---------- the round trip ----------

  lemma {:induction false} LeadingAll(items: seq<Item>)
    ensures |Leading(items)| <= |Words(items)|
    ensures |Leading(items)| == |Words(items)| <==> WordsLead(items)
    ensures WordsLead(items) ==> Leading(items) == Words(items)
    decreases |items|
  {
    if items != [] {
      LeadingAll(items[1..]);
      WordsLeadFirst(items);
      NoWordsBehind(items[1..]);
    }
  }

  lemma WordsLeadFirst(items: seq<Item>)
    requires items != []
    ensures WordsLead(items)
        <==> (if items[0].Word? then WordsLead(items[1..])
              else forall j :: 0 < j < |items| ==> !items[j].Word?)
  {
    assert forall k :: 0 <= k < |items[1..]| ==> items[1..][k] == items[k + 1];
    if items[0].Word? && WordsLead(items[1..]) {
      forall i, j | 0 <= i < j < |items| && items[j].Word? ensures items[i].Word? {
        if i > 0 {
          assert items[1..][j - 1].Word?;
          assert items[1..][i - 1].Word?;
        }
      }
    }
    if WordsLead(items) {
      forall i, j | 0 <= i < j < |items[1..]| && items[1..][j].Word? ensures items[1..][i].Word? {
        assert items[j + 1].Word?;
        assert items[i + 1].Word?;
      }
    }
  }

  lemma {:induction false} NoWordsBehind(items: seq<Item>)
    ensures |Words(items)| == 0 <==> forall j :: 0 <= j < |items| ==> !items[j].Word?
    decreases |items|
  {
    if items != [] {
      NoWordsBehind(items[1..]);
      assert items == [items[0]] + items[1..];
    }
  }

  predicate AllWordsLead(p: Pipeline)
  {
    forall k :: 0 <= k < |p| ==> WordsLead(p[k].items)
  }

  lemma FindsMeans(p: Pipeline, r: Line)
    requires GoodPipeline(p) && Legal(p) && Finds(r, p)
    ensures Means(r, p) <==> AllWordsLead(p)
  {
    hide StringAt, PathAt, Leading, Words, WordsLead, HasIn, HasOut, LastInput, Path;
    forall k | 0 <= k < |p|
      ensures WordsAt(r.memory, r.argvs[k], Words(p[k].items)) <==> WordsLead(p[k].items)
    {
      LeadingAll(p[k].items);
    }
    LegalInput(p);
  }

  lemma LegalInput(p: Pipeline)
    requires GoodPipeline(p) && Legal(p)
    ensures LastInput(p, 0) == Path(p[0].items, true)
  {
    NoInput(p, 1, []);
  }

  /** The round trip: the parser gives back the pipeline whose spelling it reads, every word and
      path a string inside the one buffer, exactly when it is within the limits, does not clash,
      and no word stands behind a redirection. */
  lemma RoundTrip(p: Pipeline, tail: seq<char>)
    requires GoodPipeline(p) && Ordinary(p) && Legal(p) && GoodTail(p, tail)
    ensures Means(ParseLine(SpellLine(p) + tail), p) <==> Fits(p) && !Clashing(p) && AllWordsLead(p)
  {
    hide ParseLine, SpellLine, Refused, Clashing, FitsArgv, AllWordsLead, Spellable, WordsAt, PathAt, Leading,
         Words, LastInput, Path;
    LegalRefused(p);
    if |p| > MAX_COMMANDS {
      ParseSplit(p, tail);
    } else {
      Placement(p, tail);
      ParseVerdict(p, tail);
      if !Refused(p) && Fits(p) {
        FindsMeans(p, ParseLine(SpellLine(p) + tail));
      } else if !Refused(p) {
        var k := SomeCrowded(p, 0);
      }
    }
  }

  /** What the parser says of the legal lines it does not accept: too many commands; the clash;
      or, with 64 words somewhere, a write past argv, with more, too many arguments. */
  lemma Refusals(p: Pipeline, tail: seq<char>)
    requires GoodPipeline(p) && Ordinary(p) && Legal(p) && GoodTail(p, tail)
    ensures var r := ParseLine(SpellLine(p) + tail);
            && (|p| > MAX_COMMANDS ==> r == UnsupportedCommands)
            && (Clashing(p) ==> r == OutputNotLast)
            && (!Clashing(p) && |p| <= MAX_COMMANDS ==>
                  forall k :: FirstCrowded(p, 0, k) ==> r == Overflow(p, k))
  {
    hide ParseLine, SpellLine, Refused, Clashing, FitsArgv, Spellable, Overflow;
    LegalRefused(p);
    NoLongClash(p);
    if |p| > MAX_COMMANDS {
      ParseSplit(p, tail);
    } else {
      ParseVerdict(p, tail);
      if Clashing(p) {
        Clash(p, tail);
      }
    }
  }

  lemma NoLongClash(p: Pipeline)
    ensures Clashing(p) ==> |p| == 2
  {
  }

  /** A legal line that is refused: its input path touches the bar and the second command has an
      output redirection. */
  lemma Clash(p: Pipeline, tail: seq<char>)
    requires GoodPipeline(p) && Ordinary(p) && Legal(p) && GoodTail(p, tail) && Clashing(p)
    ensures ParseLine(SpellLine(p) + tail) == OutputNotLast
  {
    hide RedirectFrom, ArgvAll, ParseLine, SpellLine, CommandStarts, CutMemory, EndsOpen, HasOut, HasIn, StretchInput,
         Start, Spellable;
    ParseSplit(p, tail);
    CommandsStart(p);
    WalkClean(p, 0, tail[1..]);
    StretchFound(p, 0, NULL, NULL);
    assert StretchHas(p, 1, false);
  }

  /** The limits in numbers: 16 commands of 63 words each. */
  lemma Limits(p: Pipeline, tail: seq<char>)
    requires GoodPipeline(p) && Ordinary(p) && Legal(p) && GoodTail(p, tail) && !Clashing(p)
    ensures var r := ParseLine(SpellLine(p) + tail);
            && (|p| >= 17 <==> r == UnsupportedCommands)
            && (r.Parsed? <==> |p| <= 16 && forall k :: 0 <= k < |p| ==> |Leading(p[k].items)| <= 63)
            && (|p| <= 16 ==> forall k :: 0 <= k < |p| && FirstCrowded(p, 0, k) ==>
                  r == if |Leading(p[k].items)| == 64 then OutOfBounds else UnsupportedArguments)
  {
    hide ParseLine, SpellLine, Refused, Clashing, Spellable, Leading, Legal, CleanBehind, Clean, FitsArgv, Overflow,
         FirstCrowded, Ordinary;
    LegalRefused(p);
    Refusals(p, tail);
    forall k | 0 <= k < |p| {
      FitsIs(p, k);
    }
    if |p| <= 16 {
      ParseVerdict(p, tail);
      ParsedIs(p, tail[1..]);
      forall k | 0 <= k < |p| && FirstCrowded(p, 0, k)
        ensures ParseLine(SpellLine(p) + tail)
             == if |Leading(p[k].items)| == 64 then OutOfBounds else UnsupportedArguments
      {
        CrowdedIs(p, k);
      }
      if !forall k :: 0 <= k < |p| ==> FitsArgv(p, k) {
        var k := SomeCrowded(p, 0);
      }
    }
  }

  lemma FitsIs(p: Pipeline, k: nat)
    requires k < |p|
    ensures FitsArgv(p, k) <==> |Leading(p[k].items)| <= 63
  {
  }

  lemma CrowdedIs(p: Pipeline, k: nat)
    requires FirstCrowded(p, 0, k)
    ensures k < |p| && !FitsArgv(p, k)
    ensures Overflow(p, k) == if |Leading(p[k].items)| == 64 then OutOfBounds else UnsupportedArguments
  {
  }

  lemma ParsedIs(p: Pipeline, rest: seq<char>)
    requires p != []
    ensures Clean(p, rest).Parsed?
  {
  }

  // ---------- lines that are not parsed ----------

  lemma {:induction false} ArgvSays(m: seq<char>, commands: seq<nat>, i: nat, argvs: seq<seq<nat>>,
                                    input: int, output: int)
    requires i <= |commands|
    ensures var r := ArgvAll(m, commands, i, argvs, input, output);
            !r.Empty? && !r.Exit?
    decreases |commands| - i
  {
    hide TokensFrom;
    if i < |commands| {
      var t := TokensFrom(m, commands[i], false, []);
      if t.Argv? {
        ArgvSays(t.memory, commands, i + 1, argvs + [t.argv], input, output);
      }
    }
  }

  lemma {:induction false} RedirectSays(m: seq<char>, commands: seq<nat>, i: nat, input: int, output: int)
    requires i <= |commands|
    ensures var r := RedirectAll(m, commands, i, input, output);
            !r.Empty? && !r.Exit?
    decreases |commands| - i
  {
    hide RedirectFrom, ArgvAll;
    if i == |commands| {
      ArgvSays(m, commands, 0, [], input, output);
    } else {
      var t := RedirectFrom(m, commands[i], NULL, NULL);
      if t.Redirected? {
        RedirectSays(t.memory, commands, i + 1, if t.input != NULL then t.input else input,
                     if t.output != NULL then t.output else output);
      }
    }
  }

  /** Passed over is exactly the empty line, and exactly "exit" ends the shell. */
  lemma SpecialLines(line: seq<char>, tail: seq<char>)
    requires forall k :: 0 <= k < |line| ==> line[k] != NUL && line[k] != '\n'
    requires tail != [] && (tail[0] == '\n' || tail[0] == NUL)
    ensures ParseLine(line + tail) == Empty <==> line == ""
    ensures ParseLine(line + tail) == Exit <==> line == "exit"
  {
    hide SplitFrom, RedirectAll, LineEnd;
    LineStripped(line, tail);
    var split := SplitFrom((line + tail)[|line| := NUL], 0, [0]);
    if split.Cut? {
      RedirectSays(split.memory, split.commands, 0, NULL, NULL);
    }
  }
}
