/** What each pass of the parser does to one command, wherever it lies in memory: before and
    behind stand for everything around it. */
module ShellItems {
  import opened Sequences
  import opened Ctype
  import opened ShellParser
  import opened ShellGrammar

  function Zeros(n: nat): seq<char>
  {
    seq(n, _ => NUL)
  }

  /** An item after get_redirection has passed over it. */
  function CutItem(x: Item): (s: seq<char>)
    ensures |s| == |Spell(x)|
  {
    match x
    case Word(text, after) => text + after
    case In(gap, text, after) => [NUL] + Zeros(|gap|) + text + Ended(after)
    case Out(gap, text, after) => [NUL] + Zeros(|gap|) + text + Ended(after)
  }

  function Ended(after: seq<char>): (s: seq<char>)
    ensures |s| == |after|
  {
    if after == [] then [] else [NUL] + after[1..]
  }

  /** The items after get_redirection, and, with words, after parse_argv as well. */
  function Left(items: seq<Item>, words: bool): (s: seq<char>)
    ensures |s| == |SpellAll(items)|
  {
    if items == [] then []
    else if items[0].Word? then
      items[0].text + (if words then Zeros(|items[0].after|) else items[0].after) + Left(items[1..], words)
    else CutItem(items[0]) + Left(items[1..], false)
  }

  /** Where the path of the last input (output) redirection starts, if there is one. */
  function PathFrom(items: seq<Item>, input: bool, at: nat, otherwise: int): int
  {
    if items == [] then otherwise
    else
      PathFrom(items[1..], input, at + |Spell(items[0])|,
               if (input && items[0].In?) || (!input && items[0].Out?) then at + 1 + |items[0].gap|
               else otherwise)
  }

  function WordsFrom(items: seq<Item>, at: nat): seq<nat>
  {
    if items == [] || !items[0].Word? then []
    else [at] + WordsFrom(items[1..], at + |Spell(items[0])|)
  }

  // ---------- the inner loops ----------

  lemma {:induction false} ZeroBlanksOver(a: seq<char>, gap: seq<char>, b: seq<char>)
    requires Blank(gap) && b != [] && !IsSpace(b[0])
    ensures ZeroBlanks(a + gap + b, |a|) == (a + Zeros(|gap|) + b, |a| + |gap|)
    decreases |gap|
  {
    var m := a + gap + b;
    if gap == [] {
      assert m[|a|] == b[0];
      assert Zeros(0) == [] && a + [] + b == m;
    } else {
      assert m[|a|] == gap[0];
      assert m[|a| := NUL] == (a + [NUL]) + gap[1..] + b;
      ZeroBlanksOver(a + [NUL], gap[1..], b);
      assert (a + [NUL]) + Zeros(|gap| - 1) + b == a + Zeros(|gap|) + b;
    }
  }

  lemma {:induction false} PathEndOver(a: seq<char>, path: seq<char>, b: seq<char>, other: char)
    requires PathText(path, other) && (other == '<' || other == '>')
    requires b != [] && (IsSpace(b[0]) || b[0] == NUL || b[0] == other)
    ensures PathEnd(a + path + b, |a|, other) == |a| + |path|
    decreases |path|
  {
    var m := a + path + b;
    if path == [] {
      assert m[|a|] == b[0];
    } else {
      assert m[|a|] == path[0];
      assert m == (a + [path[0]]) + path[1..] + b;
      PathEndOver(a + [path[0]], path[1..], b, other);
    }
  }

  /** Characters get_redirection walks over. */
  predicate Quiet(s: seq<char>)
  {
    forall k :: 0 <= k < |s| ==> s[k] != NUL && s[k] != '<' && s[k] != '>'
  }

  lemma {:induction false} WalkOver(a: seq<char>, s: seq<char>, b: seq<char>, input: int, output: int)
    requires Quiet(s)
    ensures RedirectFrom(a + s + b, |a|, input, output) == RedirectFrom(a + s + b, |a| + |s|, input, output)
    decreases |s|
  {
    if s != [] {
      var m := a + s + b;
      assert m[|a|] == s[0];
      assert m == (a + [s[0]]) + s[1..] + b;
      WalkOver(a + [s[0]], s[1..], b, input, output);
    }
  }

  lemma BlankQuiet(s: seq<char>)
    requires Blank(s)
    ensures Quiet(s)
  {
  }

  // ---------- one item under get_redirection ----------

  lemma WordWalked(a: seq<char>, x: Item, b: seq<char>, input: int, output: int)
    requires x.Word? && GoodItem(x)
    ensures RedirectFrom(a + Spell(x) + b, |a|, input, output)
         == RedirectFrom(a + CutItem(x) + b, |a| + |Spell(x)|, input, output)
  {
    WalkOver(a, Spell(x), b, input, output);
  }

  /** The operator and its gap are zeroed, and the path is passed. */
  lemma PathPassed(a: seq<char>, op: char, gap: seq<char>, text: seq<char>, b: seq<char>, input: int, output: int)
    requires op == '<' || op == '>'
    requires Blank(gap) && PathText(text, if op == '<' then '>' else '<')
    requires b != [] && (IsSpace(b[0]) || b[0] == NUL || b[0] == (if op == '<' then '>' else '<'))
    requires text == [] ==> !IsSpace(b[0])
    ensures var other := if op == '<' then '>' else '<';
            var cut := a + [NUL] + Zeros(|gap|) + text;
            var path := |a| + 1 + |gap|;
            var i := if op == '<' then path else input;
            var o := if op == '<' then output else path;
            && |cut| == path + |text|
            && RedirectFrom(a + [op] + gap + text + b, |a|, input, output)
               == if b[0] != other then RedirectFrom((cut + b)[|cut| := NUL], |cut| + 1, i, o)
                  else RedirectFrom(cut + b, |cut|, i, o)
  {
    hide ZeroBlanks, PathEnd, Zeros, Blank;
    var other := if op == '<' then '>' else '<';
    var m := a + [op] + gap + text + b;
    var start := a + [NUL] + Zeros(|gap|);
    ZerosLength(|gap|);
    OperatorAt(a, op, gap, text, b);
    ZeroBlanksOver(a + [NUL], gap, text + b);
    Assoc(start, text, b);
    PathEndOver(start, text, b, other);
    assert (start + text + b)[|start + text|] == b[0];
  }

  lemma ZerosLength(n: nat)
    ensures |Zeros(n)| == n
  {
  }

  lemma OperatorAt(a: seq<char>, op: char, gap: seq<char>, text: seq<char>, b: seq<char>)
    ensures var m := a + [op] + gap + text + b;
            m[|a|] == op && m[|a| := NUL] == (a + [NUL]) + gap + (text + b)
  {
  }

  function Operator(x: Item): char
    requires !x.Word?
  {
    if x.In? then '<' else '>'
  }

  /** Everything of a redirection up to the end of its path, cut. */
  function CutUpTo(x: Item): seq<char>
    requires !x.Word?
  {
    [NUL] + Zeros(|x.gap|) + x.text
  }

  lemma SpellShape(a: seq<char>, x: Item, b: seq<char>)
    requires !x.Word?
    ensures a + Spell(x) + b == a + [Operator(x)] + x.gap + x.text + (x.after + b)
    ensures a + [NUL] + Zeros(|x.gap|) + x.text == a + CutUpTo(x)
    ensures |a + CutUpTo(x)| + |x.after| == |a| + |Spell(x)|
  {
    var op := [Operator(x)];
    Assoc(a, op + x.gap + x.text, x.after);
    Assoc(a, op + x.gap, x.text);
    Assoc(a, op, x.gap);
    Assoc(a + op + x.gap + x.text, x.after, b);
    Assoc(a, [NUL], Zeros(|x.gap|));
    Assoc(a, [NUL] + Zeros(|x.gap|), x.text);
  }

  lemma UpdateAt(c: seq<char>, s: seq<char>, b: seq<char>)
    requires s != []
    ensures (c + (s + b))[|c| := NUL] == c + [NUL] + s[1..] + b
  {
  }

  lemma CutShape(a: seq<char>, x: Item, b: seq<char>)
    requires !x.Word?
    ensures x.after == [] ==> a + CutItem(x) + b == a + CutUpTo(x) + b
    ensures x.after != [] ==>
              && a + CutItem(x) + b == (a + CutUpTo(x) + [NUL]) + x.after[1..] + b
              && (a + CutUpTo(x) + (x.after + b))[|a + CutUpTo(x)| := NUL]
                 == (a + CutUpTo(x) + [NUL]) + x.after[1..] + b
  {
    if x.after == [] {
      assert CutUpTo(x) + [] == CutUpTo(x);
    } else {
      Assoc(a, CutUpTo(x), [NUL] + x.after[1..]);
      Assoc(a + CutUpTo(x), [NUL], x.after[1..]);
      UpdateAt(a + CutUpTo(x), x.after, b);
    }
  }

  /** The path pointer and the one it leaves alone, after a redirection. */
  function NewInput(x: Item, at: nat, input: int): int
    requires !x.Word?
  {
    if x.In? then at + 1 + |x.gap| else input
  }

  function NewOutput(x: Item, at: nat, output: int): int
    requires !x.Word?
  {
    if x.In? then output else at + 1 + |x.gap|
  }

  /** A redirection with a blank behind its path. */
  lemma ClosedPath(a: seq<char>, x: Item, b: seq<char>, input: int, output: int)
    requires !x.Word? && GoodItem(x) && x.after != []
    ensures RedirectFrom(a + Spell(x) + b, |a|, input, output)
         == RedirectFrom(a + CutItem(x) + b, |a| + |Spell(x)|,
                         NewInput(x, |a|, input), NewOutput(x, |a|, output))
  {
    hide RedirectFrom;
    var cut := a + CutUpTo(x);
    SpellShape(a, x, b);
    CutShape(a, x, b);
    assert (x.after + b)[0] == x.after[0];
    PathPassed(a, Operator(x), x.gap, x.text, x.after + b, input, output);
    BlankQuiet(x.after[1..]);
    WalkOver(cut + [NUL], x.after[1..], b, NewInput(x, |a|, input), NewOutput(x, |a|, output));
  }

  /** A redirection with nothing behind its path: it ends at the other operator, or at a NUL, and
      then the walk goes on behind that NUL. */
  lemma OpenPath(a: seq<char>, x: Item, b: seq<char>, input: int, output: int)
    requires !x.Word? && GoodItem(x) && x.after == []
    requires b != [] && (b[0] == NUL || b[0] == (if x.In? then '>' else '<'))
    ensures RedirectFrom(a + Spell(x) + b, |a|, input, output)
         == RedirectFrom(a + CutItem(x) + b, |a| + |Spell(x)| + (if b[0] == NUL then 1 else 0),
                         NewInput(x, |a|, input), NewOutput(x, |a|, output))
  {
    hide RedirectFrom;
    var cut := a + CutUpTo(x);
    SpellShape(a, x, b);
    CutShape(a, x, b);
    assert x.after + b == b;
    PathPassed(a, Operator(x), x.gap, x.text, b, input, output);
    assert b[0] == NUL ==> (cut + b)[|cut| := NUL] == cut + b;
  }

  // ---------- all items of a command under get_redirection ----------

  lemma SpellFirst(items: seq<Item>, b: seq<char>)
    requires GoodItems(items) && b != [] && b[0] == NUL
    ensures SpellAll(items) + b != []
    ensures items == [] ==> SpellAll(items) + b == b
    ensures items != [] && items[0].In? ==> (SpellAll(items) + b)[0] == '<'
    ensures items != [] && items[0].Out? ==> (SpellAll(items) + b)[0] == '>'
  {
  }

  lemma GoodRest(items: seq<Item>)
    requires GoodItems(items) && items != []
    ensures GoodItem(items[0]) && GoodItems(items[1..])
    ensures |items| > 1 && items[0].after == [] ==> MayTouch(items[0], items[1])
    ensures |items| > 1 ==> (EndsOpen(items) <==> EndsOpen(items[1..]))
  {
    assert forall k :: 0 <= k < |items[1..]| ==> items[1..][k] == items[k + 1];
  }

  /** One item under get_redirection, whatever follows it. */
  lemma RedirectItem(a: seq<char>, items: seq<Item>, b: seq<char>, input: int, output: int)
    requires GoodItems(items) && items != [] && b != [] && b[0] == NUL
    ensures var x, tail := items[0], SpellAll(items[1..]) + b;
            (RedirectFrom(a + Spell(x) + tail, |a|, input, output)
             == RedirectFrom(a + CutItem(x) + tail,
                             |a| + |Spell(x)| + (if |items| == 1 && EndsOpen(items) then 1 else 0),
                             if x.Word? then input else NewInput(x, |a|, input),
                             if x.Word? then output else NewOutput(x, |a|, output)))
  {
    hide RedirectFrom, SpellAll, Spell, CutItem, NewInput, NewOutput, GoodItems, GoodItem;
    var x, tail := items[0], SpellAll(items[1..]) + b;
    GoodRest(items);
    SpellFirst(items[1..], b);
    if x.Word? {
      WordWalked(a, x, tail, input, output);
    } else if x.after != [] {
      ClosedPath(a, x, tail, input, output);
    } else {
      OpenPath(a, x, tail, input, output);
    }
  }

  lemma SpellRegroup(a: seq<char>, items: seq<Item>, b: seq<char>)
    requires items != []
    ensures a + SpellAll(items) + b == a + Spell(items[0]) + (SpellAll(items[1..]) + b)
    ensures a + CutItem(items[0]) + (SpellAll(items[1..]) + b)
         == (a + CutItem(items[0])) + SpellAll(items[1..]) + b
    ensures a + Left(items, false) + b == (a + CutItem(items[0])) + Left(items[1..], false) + b
  {
    var x, rest := items[0], items[1..];
    Assoc(a, Spell(x), SpellAll(rest));
    Assoc(a + Spell(x), SpellAll(rest), b);
    Assoc(a + CutItem(x), SpellAll(rest), b);
    Assoc(a, CutItem(x), Left(rest, false));
  }

  lemma PathFromFirst(items: seq<Item>, at: nat, input: int, output: int)
    requires items != []
    ensures var x, next := items[0], at + |Spell(items[0])|;
            && PathFrom(items, true, at, input)
               == PathFrom(items[1..], true, next, if x.Word? then input else NewInput(x, at, input))
            && PathFrom(items, false, at, output)
               == PathFrom(items[1..], false, next, if x.Word? then output else NewOutput(x, at, output))
  {
  }

  lemma RedirectLast(a: seq<char>, items: seq<Item>, b: seq<char>, input: int, output: int)
    requires GoodItems(items) && |items| == 1 && b != [] && b[0] == NUL
    ensures RedirectFrom(a + SpellAll(items) + b, |a|, input, output)
         == RedirectFrom(a + Left(items, false) + b,
                         |a| + |SpellAll(items)| + (if EndsOpen(items) then 1 else 0),
                         PathFrom(items, true, |a|, input), PathFrom(items, false, |a|, output))
  {
    hide RedirectFrom, Spell, SpellAll, CutItem, Left, PathFrom, GoodItems, EndsOpen, NewInput, NewOutput;
    RedirectItem(a, items, b, input, output);
    SpellOne(items, b);
    PathFromFirst(items, |a|, input, output);
    PathFromNone(items, |a| + |Spell(items[0])|);
  }

  lemma SpellOne(items: seq<Item>, b: seq<char>)
    requires |items| == 1
    ensures SpellAll(items) == Spell(items[0]) && Left(items, false) == CutItem(items[0])
    ensures SpellAll(items[1..]) + b == b
  {
    var x := items[0];
    assert items[1..] == [] && SpellAll([]) == [] && [] + b == b;
    assert SpellAll(items) == Spell(x) + [] == Spell(x);
    assert Left(items, false) == CutItem(x) + [] == CutItem(x);
  }

  lemma PathFromNone(items: seq<Item>, at: nat)
    requires |items| == 1
    ensures forall input, otherwise :: PathFrom(items[1..], input, at, otherwise) == otherwise
  {
  }

  lemma SpellLength(a: seq<char>, items: seq<Item>)
    requires items != []
    ensures |a + CutItem(items[0])| == |a| + |Spell(items[0])|
    ensures |SpellAll(items)| == |Spell(items[0])| + |SpellAll(items[1..])|
  {
  }

  /** get_redirection goes over the items and cuts them. */
  predicate Walks(a: seq<char>, items: seq<Item>, b: seq<char>, input: int, output: int)
  {
    RedirectFrom(a + SpellAll(items) + b, |a|, input, output)
    == RedirectFrom(a + Left(items, false) + b,
                    |a| + |SpellAll(items)| + (if EndsOpen(items) then 1 else 0),
                    PathFrom(items, true, |a|, input), PathFrom(items, false, |a|, output))
  }

  lemma WalksMore(a: seq<char>, items: seq<Item>, b: seq<char>, input: int, output: int)
    requires GoodItems(items) && |items| > 1 && b != [] && b[0] == NUL
    requires var x := items[0];
             Walks(a + CutItem(x), items[1..], b,
                   if x.Word? then input else NewInput(x, |a|, input),
                   if x.Word? then output else NewOutput(x, |a|, output))
    ensures Walks(a, items, b, input, output)
  {
    hide RedirectFrom, SpellAll, Spell, CutItem, Left, PathFrom, NewInput, NewOutput, GoodItems, EndsOpen;
    RedirectItem(a, items, b, input, output);
    SpellRegroup(a, items, b);
    PathFromFirst(items, |a|, input, output);
    GoodRest(items);
    SpellLength(a, items);
  }

  /** get_redirection on the items of a command. */
  lemma {:induction false} RedirectItems(a: seq<char>, items: seq<Item>, b: seq<char>, input: int, output: int)
    requires GoodItems(items) && b != [] && b[0] == NUL
    ensures Walks(a, items, b, input, output)
    decreases |items|
  {
    if items == [] {
      assert a + [] + b == a + b;
    } else if |items| == 1 {
      RedirectLast(a, items, b, input, output);
    } else {
      var x := items[0];
      GoodRest(items);
      RedirectItems(a + CutItem(x), items[1..], b,
                    if x.Word? then input else NewInput(x, |a|, input),
                    if x.Word? then output else NewOutput(x, |a|, output));
      WalksMore(a, items, b, input, output);
    }
  }

  // ---------- a command under parse_argv ----------

  lemma {:induction false} BlanksZeroed(a: seq<char>, s: seq<char>, b: seq<char>, inWord: bool, argv: seq<nat>)
    requires Blank(s)
    ensures TokensFrom(a + s + b, |a|, inWord, argv)
         == TokensFrom(a + Zeros(|s|) + b, |a| + |s|, if s == [] then inWord else false, argv)
    decreases |s|
  {
    var m := a + s + b;
    if s == [] {
      assert a + Zeros(0) + b == m;
    } else {
      BlankQuiet(s);
      assert m[|a|] == s[0];
      assert m[|a| := NUL] == (a + [NUL]) + s[1..] + b;
      BlanksZeroed(a + [NUL], s[1..], b, false, argv);
      assert (a + [NUL]) + Zeros(|s| - 1) + b == a + Zeros(|s|) + b;
    }
  }

  lemma {:induction false} WordPassed(a: seq<char>, s: seq<char>, b: seq<char>, argv: seq<nat>)
    requires Plain(s)
    ensures TokensFrom(a + s + b, |a|, true, argv) == TokensFrom(a + s + b, |a| + |s|, true, argv)
    decreases |s|
  {
    if s != [] {
      var m := a + s + b;
      assert m[|a|] == s[0];
      assert m == (a + [s[0]]) + s[1..] + b;
      WordPassed(a + [s[0]], s[1..], b, argv);
    }
  }

  lemma WordTaken(a: seq<char>, x: Item, b: seq<char>, argv: seq<nat>)
    requires x.Word? && GoodItem(x) && |argv| < MAX_ARGV_SIZE
    ensures TokensFrom(a + Spell(x) + b, |a|, false, argv)
         == TokensFrom(a + x.text + Zeros(|x.after|) + b, |a| + |Spell(x)|, x.after == [], argv + [|a|])
  {
    hide TokensFrom, Zeros;
    var t, rest := [x.text[0]], x.text[1..];
    assert x.text == t + rest;
    Assoc(a, x.text, x.after);
    Assoc(a + x.text, x.after, b);
    Assoc(a, t, rest);
    WordBegins(a, x.text, x.after + b, argv);
    WordPassed(a + t, rest, x.after + b, argv + [|a|]);
    BlanksZeroed(a + x.text, x.after, b, true, argv + [|a|]);
  }

  lemma WordBegins(a: seq<char>, text: seq<char>, b: seq<char>, argv: seq<nat>)
    requires text != [] && Plain(text) && |argv| < MAX_ARGV_SIZE
    ensures TokensFrom(a + text + b, |a|, false, argv) == TokensFrom(a + text + b, |a| + 1, true, argv + [|a|])
  {
    assert (a + text + b)[|a|] == text[0];
  }

  lemma TokenRegroup(a: seq<char>, items: seq<Item>, b: seq<char>)
    requires items != [] && items[0].Word?
    ensures var x, rest := items[0], items[1..];
            var cut := a + x.text + Zeros(|x.after|);
            && a + Left(items, false) + b == a + Spell(x) + (Left(rest, false) + b)
            && cut + (Left(rest, false) + b) == cut + Left(rest, false) + b
            && cut + Left(rest, true) + b == a + Left(items, true) + b
            && |cut| == |a| + |Spell(x)|
  {
    var x, rest := items[0], items[1..];
    var zeros := Zeros(|x.after|);
    Assoc(a, Spell(x), Left(rest, false));
    Assoc(a + Spell(x), Left(rest, false), b);
    Assoc(a, x.text, zeros);
    Assoc(a + x.text + zeros, Left(rest, false), b);
    Assoc(a, x.text + zeros, Left(rest, true));
  }

  lemma TokensStop(a: seq<char>, items: seq<Item>, b: seq<char>, inWord: bool, argv: seq<nat>)
    requires b != [] && b[0] == NUL && (items == [] || !items[0].Word?)
    ensures WordsFrom(items, |a|) == [] && Left(items, true) == Left(items, false)
    ensures TokensFrom(a + Left(items, false) + b, |a|, inWord, argv)
         == if |argv| < MAX_ARGV_SIZE then Argv(a + Left(items, false) + b, argv) else NoRoom
  {
    assert (a + Left(items, false) + b)[|a|] == NUL;
  }

  lemma WordsFromFirst(items: seq<Item>, at: nat, argv: seq<nat>)
    requires items != [] && items[0].Word?
    ensures argv + [at] + WordsFrom(items[1..], at + |Spell(items[0])|) == argv + WordsFrom(items, at)
    ensures |WordsFrom(items, at)| >= 1
  {
    Assoc(argv, [at], WordsFrom(items[1..], at + |Spell(items[0])|));
  }

  /** parse_argv finds the words of the items, as far as argv has room. */
  predicate Tokenises(a: seq<char>, items: seq<Item>, b: seq<char>, inWord: bool, argv: seq<nat>)
  {
    var found := argv + WordsFrom(items, |a|);
    TokensFrom(a + Left(items, false) + b, |a|, inWord, argv)
    == if |found| < MAX_ARGV_SIZE then Argv(a + Left(items, true) + b, found)
       else if |found| == MAX_ARGV_SIZE then NoRoom
       else TooManyArguments
  }

  lemma TokenisesMore(a: seq<char>, items: seq<Item>, b: seq<char>, argv: seq<nat>)
    requires GoodItems(items) && items != [] && items[0].Word? && |argv| < MAX_ARGV_SIZE
    requires var x := items[0];
             Tokenises(a + x.text + Zeros(|x.after|), items[1..], b, x.after == [], argv + [|a|])
    ensures Tokenises(a, items, b, false, argv)
  {
    hide TokensFrom, Left, WordsFrom, Zeros, Spell;
    var x := items[0];
    GoodRest(items);
    TokenRegroup(a, items, b);
    WordTaken(a, x, Left(items[1..], false) + b, argv);
    WordsFromFirst(items, |a|, argv);
  }

  /** parse_argv on the items of a command that get_redirection has cut. */
  lemma {:induction false} TokenItems(a: seq<char>, items: seq<Item>, b: seq<char>, inWord: bool, argv: seq<nat>)
    requires GoodItems(items) && b != [] && b[0] == NUL && |argv| <= MAX_ARGV_SIZE
    requires inWord ==> items == [] || !items[0].Word?
    ensures Tokenises(a, items, b, inWord, argv)
    decreases |items|
  {
    if items == [] || !items[0].Word? {
      TokensStop(a, items, b, inWord, argv);
      assert argv + [] == argv;
    } else if |argv| < MAX_ARGV_SIZE {
      var x := items[0];
      GoodRest(items);
      TokenItems(a + x.text + Zeros(|x.after|), items[1..], b, x.after == [], argv + [|a|]);
      TokenisesMore(a, items, b, argv);
    } else {
      WordsFromFirst(items, |a|, argv);
      assert (a + Left(items, false) + b)[|a|] == items[0].text[0];
    }
  }
}
