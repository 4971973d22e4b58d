/** get_redirection over the commands of a whole line: which command each redirection is credited
    to.  A path against a bar makes the walk run on into the command behind it, so the commands
    fall into stretches, each walked from its first command. */
module ShellRedirect {
  import opened Sequences
  import opened ShellParser
  import opened ShellGrammar
  import opened ShellItems
  import opened ShellLine

  /** Memory when the first k commands have been cut. */
  function CutMemory(p: Pipeline, k: nat, rest: seq<char>): seq<char>
  {
    Lay(Stage(p, k, CutOut, Spelled)) + rest
  }

  lemma {:induction false} StartNext(p: Pipeline, k: nat)
    requires k < |p|
    ensures Start(p, k + 1) == Start(p, k) + |SpellCommand(p[k])| + 1
    decreases k
  {
    if k == 0 {
      assert Start(p[1..], 0) == 0;
    } else {
      StartNext(p[1..], k - 1);
    }
  }

  /** Where the items of command k start. */
  function Items(p: Pipeline, k: nat): nat
    requires k < |p|
  {
    Start(p, k) + |p[k].lead|
  }

  /** What passing over command k makes of the pointers. */
  function InputAfter(p: Pipeline, k: nat, input: int): int
    requires k < |p|
  {
    PathFrom(p[k].items, true, Items(p, k), input)
  }

  function OutputAfter(p: Pipeline, k: nat, output: int): int
    requires k < |p|
  {
    PathFrom(p[k].items, false, Items(p, k), output)
  }

  function OneIf(b: bool): nat
  {
    if b then 1 else 0
  }

  /** The walk goes over one command and cuts it. */
  predicate WalksCommand(a: seq<char>, c: Command, b: seq<char>, input: int, output: int)
  {
    var at := |a| + |c.lead|;
    RedirectFrom(a + Segment(c, Spelled) + b, |a|, input, output)
    == RedirectFrom(a + Segment(c, CutOut) + b, |a| + |SpellCommand(c)| + OneIf(EndsOpen(c.items)),
                    PathFrom(c.items, true, at, input), PathFrom(c.items, false, at, output))
  }

  lemma WalkCommand(a: seq<char>, c: Command, b: seq<char>, input: int, output: int)
    requires Spellable(c) && b != [] && b[0] == NUL
    ensures WalksCommand(a, c, b, input, output)
  {
    hide RedirectFrom, Left, SpellAll, PathFrom, GoodItems, EndsOpen;
    BlankQuiet(c.lead);
    WalkOver(a, c.lead, SpellAll(c.items) + b, input, output);
    RedirectItems(a + c.lead, c.items, b, input, output);
    Assoc(a, c.lead, SpellAll(c.items));
    Assoc(a + c.lead, SpellAll(c.items), b);
    Assoc(a, c.lead, Left(c.items, false));
  }

  /** The same for command k of a line. */
  lemma WalkInto(p: Pipeline, k: nat, rest: seq<char>, input: int, output: int)
    requires GoodPipeline(p) && k < |p|
    ensures var end := Start(p, k) + |SpellCommand(p[k])|;
            && RedirectFrom(CutMemory(p, k, rest), Start(p, k), input, output)
               == RedirectFrom(CutMemory(p, k + 1, rest), end + OneIf(EndsOpen(p[k].items)),
                               InputAfter(p, k, input), OutputAfter(p, k, output))
            && end < |CutMemory(p, k + 1, rest)| && CutMemory(p, k + 1, rest)[end] == NUL
  {
    hide RedirectFrom, Stage, Lay, SpellCommand, Start, PathFrom, EndsOpen, Spellable, Before, Behind;
    Around(p, k, CutOut, Spelled, rest);
    assert Spellable(p[k]);
    WalkCommand(Before(p, k, CutOut), p[k], Behind(p, k, Spelled, rest), input, output);
  }

  lemma StopsAt(m: seq<char>, at: nat, input: int, output: int)
    requires at < |m| && m[at] == NUL
    ensures RedirectFrom(m, at, input, output) == Redirected(m, input, output)
  {
  }

  /** A NUL comes, and no redirection before it. */
  predicate Calm(rest: seq<char>)
  {
    rest != [] && (rest[0] == NUL || (rest[0] != '<' && rest[0] != '>' && Calm(rest[1..])))
  }

  lemma {:induction false} WalkCalm(a: seq<char>, rest: seq<char>, input: int, output: int)
    requires Calm(rest)
    ensures RedirectFrom(a + rest, |a|, input, output) == Redirected(a + rest, input, output)
    decreases |rest|
  {
    assert (a + rest)[|a|] == rest[0];
    if rest[0] != NUL {
      assert a + rest == (a + [rest[0]]) + rest[1..];
      WalkCalm(a + [rest[0]], rest[1..], input, output);
    }
  }

  /** What lies behind the line's own NUL matters only to a line that ends in a path. */
  predicate CleanBehind(p: Pipeline, rest: seq<char>)
    requires p != []
  {
    EndsOpen(p[|p| - 1].items) ==> Calm(rest)
  }

  // ---------- one stretch ----------

  /** How many commands have been cut when the walk that passes over command k ends. */
  function StretchEnd(p: Pipeline, k: nat): (e: nat)
    requires k < |p|
    ensures k < e <= |p|
    decreases |p| - k
  {
    if EndsOpen(p[k].items) && k + 1 < |p| then StretchEnd(p, k + 1) else k + 1
  }

  /** The walk that passes over command k reaches the end of the line in a path. */
  predicate OpenToEnd(p: Pipeline, k: nat)
    requires k < |p|
    decreases |p| - k
  {
    EndsOpen(p[k].items) && (k + 1 == |p| || OpenToEnd(p, k + 1))
  }

  function StretchInput(p: Pipeline, k: nat, input: int): int
    requires k < |p|
    decreases |p| - k
  {
    var after := InputAfter(p, k, input);
    if EndsOpen(p[k].items) && k + 1 < |p| then StretchInput(p, k + 1, after) else after
  }

  function StretchOutput(p: Pipeline, k: nat, output: int): int
    requires k < |p|
    decreases |p| - k
  {
    var after := OutputAfter(p, k, output);
    if EndsOpen(p[k].items) && k + 1 < |p| then StretchOutput(p, k + 1, after) else after
  }

  predicate StretchHas(p: Pipeline, k: nat, input: bool)
    requires k < |p|
    decreases |p| - k
  {
    Has(p[k].items, input) || (EndsOpen(p[k].items) && k + 1 < |p| && StretchHas(p, k + 1, input))
  }

  /** The walk from command k on, to the end of its stretch. */
  predicate WalksStretch(p: Pipeline, k: nat, rest: seq<char>, input: int, output: int)
    requires k < |p|
  {
    var i, o := StretchInput(p, k, input), StretchOutput(p, k, output);
    RedirectFrom(CutMemory(p, k, rest), Start(p, k), input, output)
    == if OpenToEnd(p, k) then RedirectFrom(CutMemory(p, |p|, rest), Start(p, |p|), i, o)
       else Redirected(CutMemory(p, StretchEnd(p, k), rest), i, o)
  }

  lemma {:induction false} WalkStretch(p: Pipeline, k: nat, rest: seq<char>, input: int, output: int)
    requires GoodPipeline(p) && k < |p|
    ensures WalksStretch(p, k, rest, input, output)
    decreases |p| - k
  {
    hide RedirectFrom, CutMemory, SpellCommand, Start, EndsOpen, GoodPipeline, InputAfter, OutputAfter;
    WalkInto(p, k, rest, input, output);
    StartNext(p, k);
    if !EndsOpen(p[k].items) {
      StopsAt(CutMemory(p, k + 1, rest), Start(p, k) + |SpellCommand(p[k])|,
              InputAfter(p, k, input), OutputAfter(p, k, output));
    } else if k + 1 < |p| {
      WalkStretch(p, k + 1, rest, InputAfter(p, k, input), OutputAfter(p, k, output));
    }
  }

  lemma CutWhole(p: Pipeline, rest: seq<char>)
    ensures |Lay(Stage(p, |p|, CutOut, Spelled))| == Start(p, |p|)
  {
    var s := Stage(p, |p|, CutOut, Spelled);
    LayLength(s, p, |p|);
    assert s[..|p|] == s;
  }

  lemma {:induction false} OpenIsLast(p: Pipeline, k: nat)
    requires k < |p|
    ensures OpenToEnd(p, k) <==> StretchEnd(p, k) == |p| && EndsOpen(p[|p| - 1].items)
    decreases |p| - k
  {
    if EndsOpen(p[k].items) && k + 1 < |p| {
      OpenIsLast(p, k + 1);
    }
  }

  /** With nothing stirring behind the line the walk ends with its stretch. */
  lemma WalkClean(p: Pipeline, k: nat, rest: seq<char>)
    requires GoodPipeline(p) && k < |p| && CleanBehind(p, rest)
    ensures RedirectFrom(CutMemory(p, k, rest), Start(p, k), NULL, NULL)
         == Redirected(CutMemory(p, StretchEnd(p, k), rest), StretchInput(p, k, NULL), StretchOutput(p, k, NULL))
  {
    hide RedirectFrom, Lay, Stage, Start, EndsOpen, GoodPipeline, StretchInput, StretchOutput, StretchEnd, Calm;
    WalkStretch(p, k, rest, NULL, NULL);
    OpenIsLast(p, k);
    if OpenToEnd(p, k) {
      CutWhole(p, rest);
      WalkCalm(Lay(Stage(p, |p|, CutOut, Spelled)), rest, StretchInput(p, k, NULL), StretchOutput(p, k, NULL));
    }
  }

  lemma HasNone(input: bool)
    ensures !Has([], input)
  {
  }

  lemma {:induction false} PathFound(items: seq<Item>, input: bool, at: nat, otherwise: int)
    ensures Has(items, input) ==> PathFrom(items, input, at, otherwise) >= 0
    ensures !Has(items, input) ==> PathFrom(items, input, at, otherwise) == otherwise
    decreases |items|
  {
    hide Has, Spell;
    HasNone(input);
    if items != [] {
      var x := items[0];
      HasFirst(items, input);
      PathFound(items[1..], input, at + |Spell(x)|, if Is(x, input) then at + 1 + |x.gap| else otherwise);
    }
  }

  /** A stretch has a pointer to show exactly when it has a redirection. */
  lemma {:induction false} StretchFound(p: Pipeline, k: nat, input: int, output: int)
    requires k < |p|
    ensures if StretchHas(p, k, true) then StretchInput(p, k, input) >= 0 else StretchInput(p, k, input) == input
    ensures if StretchHas(p, k, false) then StretchOutput(p, k, output) >= 0
            else StretchOutput(p, k, output) == output
    decreases |p| - k
  {
    hide Has, Items, PathFrom, EndsOpen;
    PathFound(p[k].items, true, Items(p, k), input);
    PathFound(p[k].items, false, Items(p, k), output);
    if EndsOpen(p[k].items) && k + 1 < |p| {
      StretchFound(p, k + 1, InputAfter(p, k, input), OutputAfter(p, k, output));
    }
  }

  // ---------- commands already cut ----------

  /** A command that has been cut shows get_redirection nothing any more. */
  lemma CutStops(a: seq<char>, c: Command, b: seq<char>)
    requires Spellable(c) && b != [] && b[0] == NUL
    ensures var m := a + Segment(c, CutOut) + b;
            RedirectFrom(m, |a|, NULL, NULL) == Redirected(m, NULL, NULL)
  {
    hide RedirectFrom, Left, GoodItems;
    BlankQuiet(c.lead);
    WalkOver(a, c.lead, Left(c.items, false) + b, NULL, NULL);
    Assoc(a, c.lead, Left(c.items, false));
    Assoc(a + c.lead, Left(c.items, false), b);
    LeftStops(a + c.lead, c.items, b);
  }

  lemma {:induction false} LeftStops(a: seq<char>, items: seq<Item>, b: seq<char>)
    requires GoodItems(items) && b != [] && b[0] == NUL
    ensures var m := a + Left(items, false) + b;
            RedirectFrom(m, |a|, NULL, NULL) == Redirected(m, NULL, NULL)
    decreases |items|
  {
    var m := a + Left(items, false) + b;
    if items == [] || !items[0].Word? {
      assert m[|a|] == NUL;
    } else {
      hide RedirectFrom, Left, GoodItems;
      LeftStep(a, items, b);
      GoodRest(items);
      LeftStops(a + Spell(items[0]), items[1..], b);
    }
  }

  lemma LeftStep(a: seq<char>, items: seq<Item>, b: seq<char>)
    requires GoodItems(items) && items != [] && items[0].Word?
    ensures var m := a + Left(items, false) + b;
            && m == (a + Spell(items[0])) + Left(items[1..], false) + b
            && RedirectFrom(m, |a|, NULL, NULL) == RedirectFrom(m, |a + Spell(items[0])|, NULL, NULL)
  {
    hide RedirectFrom, GoodItems;
    var x, rest := items[0], Left(items[1..], false);
    GoodRest(items);
    assert Quiet(Spell(x));
    Assoc(a, Spell(x), rest);
    Assoc(a + Spell(x), rest, b);
    WalkOver(a, Spell(x), rest + b, NULL, NULL);
  }

  /** The walk over a command that an earlier one has passed over finds nothing. */
  lemma WalkCut(p: Pipeline, i: nat, cut: nat, rest: seq<char>)
    requires GoodPipeline(p) && i < cut <= |p|
    ensures var m := CutMemory(p, cut, rest);
            RedirectFrom(m, Start(p, i), NULL, NULL) == Redirected(m, NULL, NULL)
  {
    hide RedirectFrom, Lay, Segment, Spellable;
    var s := Stage(p, cut, CutOut, Spelled);
    var b := [NUL] + Lay(s[i + 1..]);
    LayAt(s, i);
    LayLength(s, p, i);
    Assoc(Lay(s[..i]) + s[i], b, rest);
    assert Spellable(p[i]);
    CutStops(Lay(s[..i]), p[i], b + rest);
  }

  // ---------- the loop over the commands ----------

  predicate StartsOf(p: Pipeline, commands: seq<nat>)
  {
    |commands| == |p| && forall k :: 0 <= k < |p| ==> commands[k] == Start(p, k)
  }

  predicate NotPlaced(r: Line)
  {
    r.InputNotFirst? || r.OutputNotLast?
  }

  lemma {:induction false} SkipCut(p: Pipeline, i: nat, cut: nat, rest: seq<char>, commands: seq<nat>,
                                   input: int, output: int)
    requires GoodPipeline(p) && i <= cut <= |p| && StartsOf(p, commands)
    ensures RedirectAll(CutMemory(p, cut, rest), commands, i, input, output)
         == RedirectAll(CutMemory(p, cut, rest), commands, cut, input, output)
    decreases cut - i
  {
    hide RedirectFrom, CutMemory, Start, ArgvAll, GoodPipeline;
    if i < cut {
      WalkCut(p, i, cut, rest);
      SkipCut(p, i + 1, cut, rest, commands, input, output);
    }
  }

  /** A stretch whose redirections main refuses. */
  predicate BadStretch(p: Pipeline, k: nat)
    requires k < |p|
  {
    (k > 0 && StretchHas(p, k, true)) || (k + 1 < |p| && StretchHas(p, k, false))
  }

  /** What main says of it: the input is looked at first. */
  function StretchVerdict(p: Pipeline, k: nat): Line
    requires k < |p|
  {
    if k > 0 && StretchHas(p, k, true) then InputNotFirst else OutputNotLast
  }

  /** main's loop over one stretch. */
  lemma LoopStretch(p: Pipeline, k: nat, rest: seq<char>, commands: seq<nat>, input: int)
    requires GoodPipeline(p) && StartsOf(p, commands) && k < |p| && (k == 0 ==> input == NULL)
    requires StretchEnd(p, k) < |p| || CleanBehind(p, rest)
    ensures var e := StretchEnd(p, k);
            var r := RedirectAll(CutMemory(p, k, rest), commands, k, input, NULL);
            if BadStretch(p, k) then r == StretchVerdict(p, k)
            else r == RedirectAll(CutMemory(p, e, rest), commands, e,
                                  if k == 0 then StretchInput(p, 0, NULL) else input,
                                  StretchOutput(p, k, NULL))
  {
    hide RedirectFrom, CutMemory, Start, ArgvAll, GoodPipeline, EndsOpen, Calm, StretchInput, StretchOutput, StretchHas;
    var e := StretchEnd(p, k);
    WalkStretch(p, k, rest, NULL, NULL);
    OpenIsLast(p, k);
    if CleanBehind(p, rest) {
      WalkClean(p, k, rest);
    }
    StretchFound(p, k, NULL, NULL);
    if !BadStretch(p, k) {
      SkipCut(p, k + 1, e, rest, commands, if k == 0 then StretchInput(p, 0, NULL) else input,
              StretchOutput(p, k, NULL));
    }
  }

  /** Some stretch from command k on is refused. */
  predicate BadFrom(p: Pipeline, k: nat)
    requires k < |p|
    decreases |p| - k
  {
    BadStretch(p, k) || (StretchEnd(p, k) < |p| && BadFrom(p, StretchEnd(p, k)))
  }

  /** What main says of the first one that is. */
  function VerdictFrom(p: Pipeline, k: nat): Line
    requires k < |p| && BadFrom(p, k)
    decreases |p| - k
  {
    if BadStretch(p, k) then StretchVerdict(p, k) else VerdictFrom(p, StretchEnd(p, k))
  }

  lemma {:induction false} LastOutput(p: Pipeline, k: nat)
    requires k < |p| && StretchEnd(p, k) == |p| && (k + 1 < |p| ==> !StretchHas(p, k, false))
    ensures StretchOutput(p, k, NULL) == OutputAfter(p, |p| - 1, NULL)
    decreases |p| - k
  {
    PathFound(p[k].items, false, Items(p, k), NULL);
    if k + 1 < |p| {
      PathFound(p[k + 1].items, false, Items(p, k + 1), NULL);
      LastOutput(p, k + 1);
    }
  }

  /** The whole loop, from a stretch on: refused, or every pointer in its place. */
  lemma {:induction false} LoopFrom(p: Pipeline, k: nat, rest: seq<char>, commands: seq<nat>, input: int)
    requires GoodPipeline(p) && StartsOf(p, commands) && k < |p| && (k == 0 ==> input == NULL)
    requires CleanBehind(p, rest)
    ensures var r := RedirectAll(CutMemory(p, k, rest), commands, k, input, NULL);
            if BadFrom(p, k) then r == VerdictFrom(p, k)
            else r == ArgvAll(CutMemory(p, |p|, rest), commands, 0, [],
                              if k == 0 then StretchInput(p, 0, NULL) else input,
                              OutputAfter(p, |p| - 1, NULL))
    decreases |p| - k
  {
    hide RedirectFrom, CutMemory, Start, ArgvAll, GoodPipeline, EndsOpen, Calm, StretchInput, StretchOutput,
         StretchHas, OutputAfter;
    var e := StretchEnd(p, k);
    LoopStretch(p, k, rest, commands, input);
    if !BadStretch(p, k) {
      if e < |p| {
        StretchFound(p, k, NULL, NULL);
        LoopFrom(p, e, rest, commands, if k == 0 then StretchInput(p, 0, NULL) else input);
      } else {
        LastOutput(p, k);
      }
    }
  }

  // ---------- stretches and heads ----------

  lemma {:induction false} StretchHeads(p: Pipeline, k: nat)
    requires k < |p|
    ensures var e := StretchEnd(p, k);
            && (forall i :: k <= i < e ==> Head(p, i) == Head(p, k))
            && (forall input :: StretchHas(p, k, input) <==> exists i :: k <= i < e && Has(p[i].items, input))
            && (e < |p| ==> Head(p, e) == e)
    decreases |p| - k
  {
    hide Has, EndsOpen;
    if EndsOpen(p[k].items) && k + 1 < |p| {
      StretchHeads(p, k + 1);
    }
  }

  /** Refusing stretch by stretch is refusing exactly the lines with a stray redirection. */
  lemma {:induction false} BadIsStray(p: Pipeline, k: nat)
    requires k < |p| && Head(p, k) == k
    ensures BadFrom(p, k) <==> exists i :: k <= i < |p| && Stray(p, i)
    decreases |p| - k
  {
    hide EndsOpen, StretchHas;
    var e := StretchEnd(p, k);
    StretchHeads(p, k);
    StrayStretch(p, k);
    if e < |p| {
      BadIsStray(p, e);
    }
  }

  /** An input redirection is stray from command i on, and nothing is stray in an earlier stretch. */
  predicate InputFirst(p: Pipeline, i: nat)
    requires i < |p|
  {
    && HasIn(p[i].items) && Head(p, i) > 0
    && forall j :: 0 <= j < |p| && Stray(p, j) ==> Head(p, i) <= Head(p, j)
  }

  lemma {:induction false} FirstVerdict(p: Pipeline, k: nat)
    requires k < |p| && Head(p, k) == k && BadFrom(p, k) && forall j :: 0 <= j < k ==> !Stray(p, j)
    ensures VerdictFrom(p, k) == if exists i :: 0 <= i < |p| && InputFirst(p, i) then InputNotFirst else OutputNotLast
    decreases |p| - k
  {
    hide EndsOpen, StretchHas, HasIn, HasOut, Head;
    var e := StretchEnd(p, k);
    StretchHeads(p, k);
    StrayStretch(p, k);
    HeadsBehind(p, k);
    if BadStretch(p, k) {
      StretchFirst(p, k);
    } else {
      FirstVerdict(p, e);
    }
  }

  /** The heads of later stretches are later. */
  lemma {:induction false} HeadsBehind(p: Pipeline, k: nat)
    requires k < |p| && Head(p, k) == k
    ensures forall i :: k <= i < |p| ==> k <= Head(p, i)
    ensures forall i :: StretchEnd(p, k) <= i < |p| ==> StretchEnd(p, k) <= Head(p, i)
    decreases |p| - k
  {
    hide EndsOpen;
    StretchHeads(p, k);
    var e := StretchEnd(p, k);
    if e < |p| {
      HeadsBehind(p, e);
    }
  }

  lemma StretchFirst(p: Pipeline, k: nat)
    requires k < |p| && Head(p, k) == k && BadStretch(p, k) && forall j :: 0 <= j < k ==> !Stray(p, j)
    requires forall i :: k <= i < |p| ==> k <= Head(p, i)
    requires forall i :: StretchEnd(p, k) <= i < |p| ==> StretchEnd(p, k) <= Head(p, i)
    ensures StretchVerdict(p, k)
         == if exists i :: 0 <= i < |p| && InputFirst(p, i) then InputNotFirst else OutputNotLast
  {
    hide EndsOpen, StretchHas, HasIn, HasOut, Head;
    var e := StretchEnd(p, k);
    StretchHeads(p, k);
    StrayStretch(p, k);
    var l :| k <= l < e && Stray(p, l);
    if k > 0 && StretchHas(p, k, true) {
      var i :| k <= i < e && Has(p[i].items, true);
      assert InputFirst(p, i);
    }
    if i :| 0 <= i < |p| && InputFirst(p, i) {
      assert Stray(p, i);
      assert Head(p, i) <= Head(p, l) == k;
      assert k <= i < e;
      assert Has(p[i].items, true);
    }
  }

  lemma StrayStretch(p: Pipeline, k: nat)
    requires k < |p| && Head(p, k) == k
    ensures BadStretch(p, k) <==> exists i :: k <= i < StretchEnd(p, k) && Stray(p, i)
  {
    hide EndsOpen, StretchHas, HasIn, HasOut, Head;
    var e := StretchEnd(p, k);
    StretchHeads(p, k);
    assert forall i :: k <= i < e ==>
        (Stray(p, i) <==> (Has(p[i].items, true) && k > 0) || (Has(p[i].items, false) && k + 1 < |p|));
  }

  lemma BadIsRefused(p: Pipeline)
    requires p != []
    ensures BadFrom(p, 0) <==> Refused(p)
    ensures BadFrom(p, 0) ==> VerdictFrom(p, 0) == Misplaced(p)
  {
    BadIsStray(p, 0);
    if BadFrom(p, 0) {
      FirstVerdict(p, 0);
    }
  }

  /** What the parser says of a line with a stray redirection. */
  function Misplaced(p: Pipeline): Line
  {
    if exists i :: 0 <= i < |p| && InputFirst(p, i) then InputNotFirst else OutputNotLast
  }

  /** A legal line is refused exactly when it is the clashing one. */
  lemma LegalRefused(p: Pipeline)
    requires p != [] && Legal(p)
    ensures Refused(p) <==> Clashing(p)
  {
    hide EndsOpen, HasIn, HasOut;
    var n := |p|;
    if Clashing(p) {
      assert Head(p, 1) == 0;
      assert Stray(p, 1);
    }
    if k :| 0 <= k < n && Stray(p, k) {
      assert k == n - 1 && n > 1 && HasOut(p[k].items);
      assert EndsOpen(p[k - 1].items);
      EndsIn(p[k - 1].items);
    }
  }

  lemma EndsIn(items: seq<Item>)
    requires EndsOpen(items)
    ensures HasIn(items) || HasOut(items)
  {
    assert !items[|items| - 1].Word?;
  }
}
