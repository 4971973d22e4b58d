/** The passes of the parser over a whole line: how commands lie in memory one behind the other,
    and what each pass makes of them. */
module ShellLine {
  import opened Sequences
  import opened ShellParser
  import opened ShellGrammar
  import opened ShellItems

  // ---------- strings left in memory ----------

  lemma StringStands(a: seq<char>, text: seq<char>, b: seq<char>)
    requires NUL !in text && b != [] && b[0] == NUL
    ensures StringAt(a + text + b, |a|, text)
  {
    assert (a + text + b)[|a| + |text|] == b[0];
  }

  /** What follows an item's text in memory starts with a NUL. */
  lemma LeftFirst(items: seq<Item>, words: bool, b: seq<char>)
    requires b != [] && b[0] == NUL && (items == [] || !items[0].Word?)
    ensures Left(items, words) + b != [] && (Left(items, words) + b)[0] == NUL
  {
  }

  lemma Regroup(a: seq<char>, t: seq<char>, z: seq<char>, l: seq<char>, b: seq<char>)
    ensures a + (t + z + l) + b == a + t + (z + (l + b))
    ensures (a + t + z) + l + b == a + t + (z + (l + b))
  {
    Assoc(a, t + z, l);
    Assoc(a, t, z);
    Assoc(a + t + z, l, b);
    Assoc(a + t, z, l + b);
  }

  lemma WordsAtMore(m: seq<char>, at: nat, text: seq<char>, argv: seq<nat>, words: seq<seq<char>>)
    requires StringAt(m, at, text) && WordsAt(m, argv, words)
    ensures WordsAt(m, [at] + argv, [text] + words)
  {
    hide StringAt;
  }

  lemma WordStands(a: seq<char>, items: seq<Item>, b: seq<char>)
    requires GoodItems(items) && items != [] && items[0].Word? && b != [] && b[0] == NUL
    ensures StringAt(a + Left(items, true) + b, |a|, items[0].text)
    ensures a + Left(items, true) + b
         == (a + items[0].text + Zeros(|items[0].after|)) + Left(items[1..], true) + b
  {
    var x, rest := items[0], items[1..];
    var zeros, left := Zeros(|x.after|), Left(rest, true);
    GoodRest(items);
    Regroup(a, x.text, zeros, left, b);
    if x.after == [] {
      LeftFirst(rest, true, b);
      assert zeros + (left + b) == left + b;
    }
    StringStands(a, x.text, zeros + (left + b));
  }

  /** Every word parse_argv notes is a string in memory: its own text. */
  lemma {:induction false} WordsStand(a: seq<char>, items: seq<Item>, b: seq<char>)
    requires GoodItems(items) && b != [] && b[0] == NUL
    ensures WordsAt(a + Left(items, true) + b, WordsFrom(items, |a|), Leading(items))
    decreases |items|
  {
    hide StringAt, Left, WordsAt, GoodItem, GoodItems, Zeros, Spell;
    if items != [] && items[0].Word? {
      var x, rest := items[0], items[1..];
      var next := a + x.text + Zeros(|x.after|);
      GoodRest(items);
      TokenRegroup(a, items, b);
      WordStands(a, items, b);
      WordsStand(next, rest, b);
      WordsAtMore(a + Left(items, true) + b, |a|, x.text, WordsFrom(rest, |next|), Leading(rest));
    } else {
      NoWords(a + Left(items, true) + b);
    }
  }

  lemma NoWords(m: seq<char>)
    ensures WordsAt(m, [], [])
  {
  }

  /** Whether a redirection of the given kind is among the items. */
  predicate Has(items: seq<Item>, input: bool)
  {
    if input then HasIn(items) else HasOut(items)
  }

  lemma HasFirst(items: seq<Item>, input: bool)
    requires items != []
    ensures Has(items, input) <==> Is(items[0], input) || Has(items[1..], input)
  {
    assert forall k :: 0 <= k < |items[1..]| ==> items[1..][k] == items[k + 1];
    assert forall k :: 1 <= k < |items| ==> items[k] == items[1..][k - 1];
  }

  /** The last redirection of a kind leaves its path as a string in memory. */
  predicate Leaves(m: seq<char>, at: nat, items: seq<Item>, input: bool, otherwise: int)
  {
    var found := PathFrom(items, input, at, otherwise);
    if Has(items, input) then
      found >= 0 && Path(items, input).To? && StringAt(m, found, Path(items, input).path)
    else found == otherwise && Path(items, input).None?
  }

  /** The first item as it lies in memory. */
  function FirstLeft(x: Item, words: bool): (s: seq<char>)
    ensures |s| == |Spell(x)|
  {
    if x.Word? then x.text + (if words then Zeros(|x.after|) else x.after) else CutItem(x)
  }

  lemma HeadLeft(a: seq<char>, items: seq<Item>, words: bool, b: seq<char>)
    requires items != []
    ensures var x := items[0];
            && a + Left(items, words) + b == (a + FirstLeft(x, words)) + Left(items[1..], x.Word? && words) + b
            && |a + FirstLeft(x, words)| == |a| + |Spell(x)|
  {
    var x := items[0];
    Assoc(a, FirstLeft(x, words), Left(items[1..], x.Word? && words));
  }

  lemma CutAssoc(a: seq<char>, z: seq<char>, t: seq<char>, e: seq<char>, tail: seq<char>)
    ensures a + ([NUL] + z + t + e) + tail == (a + [NUL] + z) + t + (e + tail)
  {
    Assoc(a, [NUL] + z + t, e);
    Assoc(a, [NUL] + z, t);
    Assoc(a, [NUL], z);
    Assoc(a + [NUL] + z + t, e, tail);
  }

  lemma LastPath(a: seq<char>, items: seq<Item>, b: seq<char>)
    requires GoodItems(items) && items != [] && !items[0].Word? && b != [] && b[0] == NUL
    ensures StringAt(a + CutItem(items[0]) + (Left(items[1..], false) + b), |a| + 1 + |items[0].gap|, items[0].text)
  {
    var x, rest := items[0], items[1..];
    var tail := Left(rest, false) + b;
    GoodRest(items);
    if x.after == [] {
      LeftFirst(rest, false, b);
      assert Ended(x.after) + tail == tail;
    } else {
      assert (Ended(x.after) + tail)[0] == NUL;
    }
    CutAssoc(a, Zeros(|x.gap|), x.text, Ended(x.after), tail);
    assert |a + [NUL] + Zeros(|x.gap|)| == |a| + 1 + |x.gap|;
    StringStands(a + [NUL] + Zeros(|x.gap|), x.text, Ended(x.after) + tail);
  }

  lemma LeavesMore(m: seq<char>, at: nat, items: seq<Item>, input: bool, otherwise: int)
    requires items != []
    requires Leaves(m, at + |Spell(items[0])|, items[1..], input,
                    if Is(items[0], input) then at + 1 + |items[0].gap| else otherwise)
    requires Is(items[0], input) ==> StringAt(m, at + 1 + |items[0].gap|, items[0].text)
    ensures Leaves(m, at, items, input, otherwise)
  {
    hide Has, StringAt, Spell;
    HasFirst(items, input);
  }

  lemma {:induction false} PathStands(a: seq<char>, items: seq<Item>, b: seq<char>, words: bool,
                                      input: bool, otherwise: int)
    requires GoodItems(items) && b != [] && b[0] == NUL
    ensures Leaves(a + Left(items, words) + b, |a|, items, input, otherwise)
    decreases |items|
  {
    hide StringAt, Left, Spell, Leaves, FirstLeft, CutItem;
    if items != [] {
      var x, rest := items[0], items[1..];
      GoodRest(items);
      HeadLeft(a, items, words, b);
      PathStands(a + FirstLeft(x, words), rest, b, x.Word? && words, input,
                 if Is(x, input) then |a| + 1 + |x.gap| else otherwise);
      if Is(x, input) {
        LastPath(a, items, b);
        HeadCut(x, words);
        Assoc(a + CutItem(x), Left(rest, false), b);
      }
      LeavesMore(a + Left(items, words) + b, |a|, items, input, otherwise);
    } else {
      LeavesNone(a + Left(items, words) + b, |a|, input, otherwise);
    }
  }

  lemma HeadCut(x: Item, words: bool)
    requires !x.Word?
    ensures FirstLeft(x, words) == CutItem(x)
  {
  }

  lemma LeavesNone(m: seq<char>, at: nat, input: bool, otherwise: int)
    ensures Leaves(m, at, [], input, otherwise)
  {
  }

  // ---------- commands in memory ----------

  /** Strings one behind the other, each with its NUL. */
  function Lay(segments: seq<seq<char>>): seq<char>
  {
    if segments == [] then [] else segments[0] + [NUL] + Lay(segments[1..])
  }

  /** A command as it lies in memory: split off, with redirections cut, tokenised. */
  datatype Pass = Spelled | CutOut | Tokenised

  function Segment(c: Command, pass: Pass): (s: seq<char>)
    ensures |s| == |SpellCommand(c)|
  {
    match pass
    case Spelled => SpellCommand(c)
    case CutOut => c.lead + Left(c.items, false)
    case Tokenised => Zeros(|c.lead|) + Left(c.items, true)
  }

  /** The first i commands are one pass further than the others. */
  function Stage(p: Pipeline, i: nat, done: Pass, todo: Pass): seq<seq<char>>
  {
    seq(|p|, k requires 0 <= k < |p| => Segment(p[k], if k < i then done else todo))
  }

  /** Where command k starts. */
  function Start(p: Pipeline, k: nat): nat
    requires k <= |p|
  {
    if k == 0 then 0 else |SpellCommand(p[0])| + 1 + Start(p[1..], k - 1)
  }

  lemma {:induction false} LayLength(segments: seq<seq<char>>, p: Pipeline, k: nat)
    requires |segments| == |p| && k <= |p|
    requires forall j :: 0 <= j < |p| ==> |segments[j]| == |SpellCommand(p[j])|
    ensures |Lay(segments[..k])| == Start(p, k)
    decreases k
  {
    if k > 0 {
      assert segments[..k][1..] == segments[1..][..k - 1];
      LayLength(segments[1..], p[1..], k - 1);
    }
  }

  lemma {:induction false} LayAt(segments: seq<seq<char>>, k: nat)
    requires k < |segments|
    ensures Lay(segments) == Lay(segments[..k]) + segments[k] + ([NUL] + Lay(segments[k + 1..]))
    decreases k
  {
    if k == 0 {
      assert segments[..0] == [] && [] + segments[0] == segments[0];
      Assoc(segments[0], [NUL], Lay(segments[1..]));
    } else {
      var rest := segments[1..];
      LayAt(rest, k - 1);
      assert segments[..k][1..] == rest[..k - 1] && rest[k..] == segments[k + 1..];
      var h, t := segments[0] + [NUL], [NUL] + Lay(segments[k + 1..]);
      Assoc(h, Lay(rest[..k - 1]), segments[k]);
      Assoc(h, Lay(rest[..k - 1]) + segments[k], t);
    }
  }

  /** Memory around command k: what lies before it, and what lies behind it from its NUL on. */
  function Before(p: Pipeline, k: nat, done: Pass): seq<char>
    requires k < |p|
  {
    Lay(Stage(p, k, done, done)[..k])
  }

  function Behind(p: Pipeline, k: nat, todo: Pass, rest: seq<char>): seq<char>
    requires k < |p|
  {
    [NUL] + Lay(Stage(p, 0, todo, todo)[k + 1..]) + rest
  }

  lemma Around(p: Pipeline, k: nat, done: Pass, todo: Pass, rest: seq<char>)
    requires k < |p|
    ensures Lay(Stage(p, k, done, todo)) + rest
         == Before(p, k, done) + Segment(p[k], todo) + Behind(p, k, todo, rest)
    ensures Lay(Stage(p, k + 1, done, todo)) + rest
         == Before(p, k, done) + Segment(p[k], done) + Behind(p, k, todo, rest)
    ensures |Before(p, k, done)| == Start(p, k)
    ensures Behind(p, k, todo, rest) != [] && Behind(p, k, todo, rest)[0] == NUL
  {
    hide Lay, Segment;
    AroundAt(p, k, k, done, todo, rest);
    AroundAt(p, k, k + 1, done, todo, rest);
    LayLength(Stage(p, k, done, done), p, k);
  }

  lemma AroundAt(p: Pipeline, k: nat, i: nat, done: Pass, todo: Pass, rest: seq<char>)
    requires k < |p| && k <= i <= k + 1
    ensures Lay(Stage(p, i, done, todo)) + rest
         == Before(p, k, done) + Segment(p[k], if k < i then done else todo) + Behind(p, k, todo, rest)
  {
    hide Lay, Segment;
    var s := Stage(p, i, done, todo);
    LayAt(s, k);
    assert s[..k] == Stage(p, k, done, done)[..k];
    assert s[k + 1..] == Stage(p, 0, todo, todo)[k + 1..];
    Assoc(Lay(s[..k]) + s[k], [NUL] + Lay(s[k + 1..]), rest);
  }

  // ---------- splitting ----------

  lemma {:induction false} SplitOver(a: seq<char>, s: seq<char>, b: seq<char>, commands: seq<nat>)
    requires forall k :: 0 <= k < |s| ==> s[k] != NUL && s[k] != '|'
    ensures SplitFrom(a + s + b, |a|, commands) == SplitFrom(a + s + b, |a| + |s|, commands)
    decreases |s|
  {
    if s != [] {
      assert (a + s + b)[|a|] == s[0];
      assert a + s + b == (a + [s[0]]) + s[1..] + b;
      SplitOver(a + [s[0]], s[1..], b, commands);
    }
  }

  /** Where the commands behind the first start. */
  function StartsFrom(p: Pipeline, at: nat): seq<nat>
  {
    if |p| <= 1 then []
    else [at + |SpellCommand(p[0])| + 1] + StartsFrom(p[1..], at + |SpellCommand(p[0])| + 1)
  }

  lemma {:induction false} StartsAre(p: Pipeline, at: nat)
    requires p != []
    ensures |StartsFrom(p, at)| == |p| - 1
    ensures forall k :: 0 < k < |p| ==> StartsFrom(p, at)[k - 1] == at + Start(p, k)
    decreases |p|
  {
    hide SpellCommand;
    if |p| > 1 {
      var next := at + |SpellCommand(p[0])| + 1;
      StartsAre(p[1..], next);
      forall k | 0 < k < |p| ensures StartsFrom(p, at)[k - 1] == at + Start(p, k) {
        if k == 1 {
          assert Start(p[1..], 0) == 0;
        } else {
          assert StartsFrom(p[1..], next)[k - 2] == next + Start(p[1..], k - 1);
        }
      }
    }
  }

  lemma SpellClean(c: Command)
    requires Spellable(c)
    ensures forall k :: 0 <= k < |SpellCommand(c)| ==>
              SpellCommand(c)[k] != NUL && SpellCommand(c)[k] != '|' && SpellCommand(c)[k] != '\n'
  {
    ItemsClean(c.items);
  }

  lemma {:induction false} ItemsClean(items: seq<Item>)
    requires GoodItems(items)
    ensures forall k :: 0 <= k < |SpellAll(items)| ==>
              SpellAll(items)[k] != NUL && SpellAll(items)[k] != '|' && SpellAll(items)[k] != '\n'
    decreases |items|
  {
    if items != [] {
      GoodRest(items);
      ItemClean(items[0]);
      ItemsClean(items[1..]);
    }
  }

  lemma ItemClean(x: Item)
    requires GoodItem(x)
    ensures forall k :: 0 <= k < |Spell(x)| ==>
              Spell(x)[k] != NUL && Spell(x)[k] != '|' && Spell(x)[k] != '\n'
  {
    if !x.Word? {
      assert forall k :: 0 <= k < |x.gap| ==> x.gap[k] != NUL && x.gap[k] != '|' && x.gap[k] != '\n';
    }
    assert forall k :: 0 <= k < |x.text| ==> x.text[k] != NUL && x.text[k] != '|' && x.text[k] != '\n';
    assert forall k :: 0 <= k < |x.after| ==> x.after[k] != NUL && x.after[k] != '|' && x.after[k] != '\n';
  }

  /** The splitting loop lays the commands out and notes where they start; one command too many
      is refused. */
  predicate Splits(a: seq<char>, p: Pipeline, rest: seq<char>, commands: seq<nat>)
  {
    SplitFrom(a + SpellLine(p) + ([NUL] + rest), |a|, commands)
    == if |commands| + |p| - 1 <= MAX_COMMANDS then
         Cut(a + Lay(Stage(p, 0, Spelled, Spelled)) + rest, commands + StartsFrom(p, |a|))
       else TooManyCommands
  }

  lemma SplitOne(a: seq<char>, p: Pipeline, rest: seq<char>, commands: seq<nat>)
    requires |p| == 1 && Spellable(p[0]) && |commands| <= MAX_COMMANDS
    ensures Splits(a, p, rest, commands)
  {
    var r := SpellCommand(p[0]);
    SpellClean(p[0]);
    SplitOver(a, r, [NUL] + rest, commands);
    assert (a + r + ([NUL] + rest))[|a| + |r|] == NUL;
    LayOne(Stage(p, 0, Spelled, Spelled), r);
    Assoc(a, r, [NUL]);
    Assoc(a + r, [NUL], rest);
    assert commands + [] == commands;
  }

  /** The loop reaches the first bar. */
  lemma SplitAtBar(a: seq<char>, c: Command, line: seq<char>, b: seq<char>, commands: seq<nat>)
    requires Spellable(c)
    ensures var r := SpellCommand(c);
            var next := a + r + [NUL];
            SplitFrom(a + (r + ['|'] + line) + b, |a|, commands)
            == if |commands| >= MAX_COMMANDS then TooManyCommands
               else SplitFrom(next + line + b, |next|, commands + [|next|])
  {
    hide SplitFrom, SpellCommand, Spellable;
    var r := SpellCommand(c);
    SpellClean(c);
    LineShape(a, r, line, b);
    SplitOver(a, r, ['|'] + (line + b), commands);
    BarSplit(a + r, line + b, commands);
    Assoc(a + r + [NUL], line, b);
  }

  lemma BarSplit(a: seq<char>, b: seq<char>, commands: seq<nat>)
    ensures SplitFrom(a + (['|'] + b), |a|, commands)
         == if |commands| >= MAX_COMMANDS then TooManyCommands
            else SplitFrom(a + [NUL] + b, |a + [NUL]|, commands + [|a + [NUL]|])
  {
    var m := a + (['|'] + b);
    assert m[|a|] == '|';
    assert m[|a| := NUL] == a + [NUL] + b;
  }

  lemma LaidMore(a: seq<char>, p: Pipeline, rest: seq<char>)
    requires |p| > 1
    ensures var next := a + SpellCommand(p[0]) + [NUL];
            && a + Lay(Stage(p, 0, Spelled, Spelled)) + rest
               == next + Lay(Stage(p[1..], 0, Spelled, Spelled)) + rest
            && SpellLine(p) == SpellCommand(p[0]) + ['|'] + SpellLine(p[1..])
  {
    var q := p[1..];
    assert Stage(p, 0, Spelled, Spelled)[1..] == Stage(q, 0, Spelled, Spelled);
    LayShape(a, SpellCommand(p[0]), Lay(Stage(q, 0, Spelled, Spelled)), rest);
  }

  lemma SplitMore(a: seq<char>, p: Pipeline, rest: seq<char>, commands: seq<nat>)
    requires |p| > 1 && Spellable(p[0]) && |commands| <= MAX_COMMANDS
    requires var next := a + SpellCommand(p[0]) + [NUL];
             |commands| < MAX_COMMANDS ==> Splits(next, p[1..], rest, commands + [|next|])
    ensures Splits(a, p, rest, commands)
  {
    hide SplitFrom, Lay, Stage, SpellCommand, SpellLine, Spellable, StartsFrom;
    var next := a + SpellCommand(p[0]) + [NUL];
    SplitAtBar(a, p[0], SpellLine(p[1..]), [NUL] + rest, commands);
    LaidMore(a, p, rest);
    StartsMore(a, p, commands);
  }

  lemma StartsMore(a: seq<char>, p: Pipeline, commands: seq<nat>)
    requires |p| > 1
    ensures var next := a + SpellCommand(p[0]) + [NUL];
            commands + [|next|] + StartsFrom(p[1..], |next|) == commands + StartsFrom(p, |a|)
  {
  }

  lemma {:induction false} SplitAll(a: seq<char>, p: Pipeline, rest: seq<char>, commands: seq<nat>)
    requires p != [] && forall k :: 0 <= k < |p| ==> Spellable(p[k])
    requires 1 <= |commands| <= MAX_COMMANDS
    ensures Splits(a, p, rest, commands)
    decreases |p|
  {
    if |p| == 1 {
      SplitOne(a, p, rest, commands);
    } else {
      var next := a + SpellCommand(p[0]) + [NUL];
      if |commands| < MAX_COMMANDS {
        SplitAll(next, p[1..], rest, commands + [|next|]);
      }
      SplitMore(a, p, rest, commands);
    }
  }

  lemma LayOne(segments: seq<seq<char>>, r: seq<char>)
    requires segments == [r]
    ensures Lay(segments) == r + [NUL]
  {
    assert segments[1..] == [] && Lay([]) == [];
    assert r + [NUL] + [] == r + [NUL];
  }

  lemma LineShape(a: seq<char>, r: seq<char>, line: seq<char>, b: seq<char>)
    ensures a + (r + ['|'] + line) + b == a + r + (['|'] + (line + b))
  {
    Assoc(r, ['|'], line);
    Assoc(a, r, ['|'] + line);
    Assoc(a + r, ['|'] + line, b);
    Assoc(['|'], line, b);
  }

  lemma LayShape(a: seq<char>, r: seq<char>, laid: seq<char>, rest: seq<char>)
    ensures a + (r + [NUL] + laid) + rest == (a + r + [NUL]) + laid + rest
  {
    Assoc(a, r + [NUL], laid);
    Assoc(a, r, [NUL]);
  }
}
