/** The parser's defects, each at its smallest line.  What every such line does is in
    ShellRoundTrip.dfy and ShellTail.dfy. */
module ShellExamples {
  import opened ShellParser
  import opened ShellGrammar
  import opened ShellItems
  import opened ShellLine
  import opened ShellRedirect
  import opened ShellRoundTrip

  const END := "\n\0"

  // ---------- one command or two ----------

  function TwoItems(x: Item, y: Item): Command
  {
    Command("", [x, y])
  }

  lemma SpellTwo(x: Item, y: Item)
    ensures SpellCommand(TwoItems(x, y)) == Spell(x) + Spell(y)
  {
    assert [x, y][1..] == [y] && [y][1..] == [];
    assert SpellAll([y]) == Spell(y) + [];
  }

  /** A word and a path that nothing stands behind. */
  predicate Ends(word: Item, path: Item)
  {
    word.Word? && GoodItem(word) && word.after != [] && !path.Word? && GoodItem(path) && path.after == []
  }

  lemma GoodTwo(word: Item, path: Item)
    requires Ends(word, path)
    ensures var c := TwoItems(word, path);
            && Spellable(c) && EndsOpen(c.items) && WordsLead(c.items)
            && (HasIn(c.items) <==> path.In?) && (HasOut(c.items) <==> path.Out?)
            && Leading(c.items) == [word.text] && Path(c.items, path.In?) == To(path.text)
            && Path(c.items, !path.In?) == None
  {
    var items := [word, path];
    assert items[1..] == [path] && [path][1..] == [];
    assert items[1] == path;
    assert Path([path], true) == if path.In? then To(path.text) else None;
    assert Path([path], false) == if path.Out? then To(path.text) else None;
  }

  /** Two commands, each a word and a path, the first path against the bar. */
  function Pair(w: Item, x: Item, v: Item, y: Item): Pipeline
  {
    [TwoItems(w, x), TwoItems(v, y)]
  }

  lemma PairShape(w: Item, x: Item, v: Item, y: Item)
    requires Ends(w, x) && Ends(v, y)
    ensures var p := Pair(w, x, v, y);
            && GoodPipeline(p) && Fits(p) && Head(p, 0) == Head(p, 1) == 0
            && EndsOpen(p[0].items) && EndsOpen(p[1].items)
            && (HasIn(p[0].items) <==> x.In?) && (HasOut(p[0].items) <==> x.Out?)
            && (HasIn(p[1].items) <==> y.In?) && (HasOut(p[1].items) <==> y.Out?)
            && (y.In? ==> LastInput(p, 0) == To(y.text) && Path(p[1].items, false) == None)
            && SpellLine(p) == Spell(w) + Spell(x) + ['|'] + (Spell(v) + Spell(y))
  {
    hide Spellable, EndsOpen, HasIn, HasOut, Leading, Path, SpellLine, SpellCommand, Spell;
    var p := Pair(w, x, v, y);
    GoodTwo(w, x);
    GoodTwo(v, y);
    SpellTwo(w, x);
    SpellTwo(v, y);
    OneBar(p[0], p[1]);
    if y.In? {
      assert LastInput(p, 2) == None && LastInput(p, 1) == Path(p[1].items, true);
    }
  }

  lemma SpellWord(text: seq<char>, after: seq<char>)
    ensures Spell(Word(text, after)) == text + after
  {
  }

  lemma SpellIn(text: seq<char>)
    ensures Spell(In("", text, "")) == ['<'] + text
  {
    assert ['<'] + "" == ['<'] && ['<'] + text + "" == ['<'] + text;
  }

  lemma SpellOut(text: seq<char>)
    ensures Spell(Out("", text, "")) == ['>'] + text
  {
    assert ['>'] + "" == ['>'] && ['>'] + text + "" == ['>'] + text;
  }

  lemma OneBar(a: Command, b: Command)
    ensures SpellLine([a, b]) == SpellCommand(a) + ['|'] + SpellCommand(b)
  {
    assert [a, b][1..] == [b];
  }

  // ---------- the clash ----------

  lemma SortUniqSpelled()
    ensures Spell(Word("sort", " ")) + Spell(In("", "in", "")) + ['|']
            + (Spell(Word("uniq", " ")) + Spell(Out("", "out", ""))) == "sort <in|uniq >out"
    ensures "sort <in|uniq >out" + END == "sort <in|uniq >out\n\0"
  {
    hide Spell;
    SpellWord("sort", " ");
    SpellIn("in");
    SpellWord("uniq", " ");
    SpellOut("out");
    assert "sort" + " " == "sort " && "uniq" + " " == "uniq ";
    assert "sort " + "<in" == "sort <in" && "uniq " + ">out" == "uniq >out";
    assert "sort <in" + ['|'] == "sort <in|";
    assert "sort <in|" + "uniq >out" == "sort <in|uniq >out";
  }

  /** A legal line, refused. */
  lemma ClashExample()
    ensures ParseLine("sort <in|uniq >out\n\0") == OutputNotLast
  {
    hide ParseLine, SpellLine, Spell, Spellable, EndsOpen, HasIn, HasOut, Pair, Fits;
    var w, x, v, y := Word("sort", " "), In("", "in", ""), Word("uniq", " "), Out("", "out", "");
    PairShape(w, x, v, y);
    SortUniqSpelled();
    assert |Pair(w, x, v, y)| == 2 by { PairSize(w, x, v, y); }
    Clash(Pair(w, x, v, y), END);
  }

  lemma PairSize(w: Item, x: Item, v: Item, y: Item)
    ensures |Pair(w, x, v, y)| == 2
  {
  }

  // ---------- misplaced redirections ----------

  /** ls >out|wc */
  function LsWc(): Pipeline
  {
    [TwoItems(Word("ls", " "), Out("", "out", "")), Command("", [Word("wc", "")])]
  }

  lemma LsWcShape()
    ensures var p := LsWc();
            |p| == 2 && GoodPipeline(p) && Stray(p, 0) && !EndsOpen(p[1].items) && SpellLine(p) == "ls >out|wc"
    ensures "ls >out|wc" + END == "ls >out|wc\n\0"
  {
    hide SpellLine, SpellCommand, Spellable, EndsOpen, HasIn, HasOut, Path, Leading, WordsLead;
    var p := LsWc();
    var w, x, v := Word("ls", " "), Out("", "out", ""), Word("wc", "");
    GoodTwo(w, x);
    SpellTwo(w, x);
    WcShape();
    OneBar(p[0], p[1]);
    assert (Spell(w) + Spell(x)) + ['|'] + "wc" == "ls >out|wc";
  }

  lemma WcShape()
    ensures var c := Command("", [Word("wc", "")]);
            Spellable(c) && !EndsOpen(c.items) && SpellCommand(c) == "wc"
  {
    var v := Word("wc", "");
    assert [v][1..] == [] && SpellAll([v]) == Spell(v) + [] == "wc";
  }

  /** A misplaced output, refused. */
  lemma RefusedExample()
    ensures ParseLine("ls >out|wc\n\0") == OutputNotLast
  {
    hide ParseLine, SpellLine, Spellable, EndsOpen, Stray, LsWc, Finds, Fits;
    LsWcShape();
    Placement(LsWc(), END);
  }

  lemma TwoInputsSpelled()
    ensures Spell(Word("a", " ")) + Spell(In("", "x", "")) + ['|']
            + (Spell(Word("b", " ")) + Spell(In("", "y", ""))) == "a <x|b <y"
    ensures "a <x|b <y" + END == "a <x|b <y\n\0"
  {
    hide Spell;
    SpellWord("a", " ");
    SpellIn("x");
    SpellWord("b", " ");
    SpellIn("y");
    assert "a" + " " == "a " && "b" + " " == "b ";
    assert "a " + "<x" == "a <x" && "b " + "<y" == "b <y";
    assert "a <x" + ['|'] == "a <x|";
    assert "a <x|" + "b <y" == "a <x|b <y";
  }

  /** A misplaced input, accepted, and taken for the first command's in place of its own. */
  lemma AcceptedExample()
    ensures var r := ParseLine("a <x|b <y\n\0");
            r.Parsed? && StringAt(r.memory, r.input, "y") && r.output == NULL
  {
    hide ParseLine, SpellLine, Spell, Spellable, EndsOpen, HasIn, HasOut, Pair, Fits, Path, LastInput, StringAt,
         WordsAt, Head;
    var w, x, v, y := Word("a", " "), In("", "x", ""), Word("b", " "), In("", "y", "");
    PairShape(w, x, v, y);
    TwoInputsSpelled();
    assert |Pair(w, x, v, y)| == 2 by { PairSize(w, x, v, y); }
    Placement(Pair(w, x, v, y), END);
  }

  // ---------- words behind a redirection ----------

  /** cat <in -n */
  function CatN(): Command
  {
    Command("", [Word("cat", " "), In("", "in", " "), Word("-n", "")])
  }

  lemma CatNShape()
    ensures var c := CatN();
            && Spellable(c) && SpellCommand(c) == "cat <in -n"
            && Words(c.items) == ["cat", "-n"] && Leading(c.items) == ["cat"] && !WordsLead(c.items)
            && !HasOut(c.items) && !EndsOpen(c.items)
  {
    var x, y, z := Word("cat", " "), In("", "in", " "), Word("-n", "");
    var items := [x, y, z];
    assert items[1..] == [y, z] && [y, z][1..] == [z] && [z][1..] == [];
    assert items[2].Word? && !items[1].Word?;
    assert Words([]) == [] && ["-n"] + Words([]) == ["-n"];
    assert Words([z]) == ["-n"] && [] + ["-n"] == ["-n"];
    assert Words([y, z]) == ["-n"] && ["cat"] + ["-n"] == ["cat", "-n"];
    assert Leading([y, z]) == [] && ["cat"] + Leading([y, z]) == ["cat"];
    CatNSpelled();
  }

  lemma CatNSpelled()
    ensures SpellCommand(CatN()) == "cat <in -n"
  {
    var x, y, z := Word("cat", " "), In("", "in", " "), Word("-n", "");
    assert [x, y, z][1..] == [y, z] && [y, z][1..] == [z] && [z][1..] == [];
    assert Spell(z) == "-n" && SpellAll([]) == [];
    assert SpellAll([z]) == Spell(z) + [] == "-n";
    assert Spell(y) == "<in ";
    assert SpellAll([y, z]) == Spell(y) + SpellAll([z]) == "<in -n";
    assert Spell(x) == "cat ";
    assert SpellAll([x, y, z]) == Spell(x) + SpellAll([y, z]) == "cat <in -n";
    assert [] + "cat <in -n" == "cat <in -n";
  }

  /** The words behind the path are lost. */
  lemma LostExample()
    ensures var r := ParseLine("cat <in -n\n\0");
            && r.Parsed? && |r.argvs| == 1 && WordsAt(r.memory, r.argvs[0], ["cat"])
            && !Means(r, [CatN()])
  {
    hide ParseLine, SpellLine, SpellCommand, Spellable, EndsOpen, HasIn, HasOut, CatN, Leading, Path, StringAt,
         LastInput, WordsLead;
    var p := [CatN()];
    CatNShape();
    assert SpellLine(p) == "cat <in -n" by {
      OneLine(CatN());
    }
    assert Head(p, 0) == 0;
    Placement(p, END);
    RoundTrip(p, END);
    assert SpellLine(p) + END == "cat <in -n\n\0";
  }

  lemma OneLine(c: Command)
    ensures SpellLine([c]) == SpellCommand(c)
  {
  }

  // ---------- what an earlier line leaves behind ----------

  /** "cat <a<b" reads one path, "a<b"; its '<' stays in the buffer. */
  lemma FirstLine(junk: seq<char>)
    ensures ParseLine("cat <a<b\n\0" + junk) == Parsed("cat\0\0a<b\0\0" + junk, [[0]], 5, NULL)
  {
    hide RedirectAll, SplitFrom, LineEnd;
    var line := "cat <a<b";
    assert "cat <a<b\n\0" + junk == line + ("\n\0" + junk);
    LineStripped(line, "\n\0" + junk);
    var m := line + ("\0\0" + junk);
    assert [NUL] + ("\n\0" + junk)[1..] == "\0\0" + junk;
    FirstSplit(junk);
    FirstRedirect(junk);
    FirstTokens(junk);
    var cut := "cat \0a<b\0\0" + junk;
    LoopOneCommand(m, cut, 5);
  }

  lemma FirstSplit(junk: seq<char>)
    ensures var m := "cat <a<b" + ("\0\0" + junk);
            SplitFrom(m, 0, [0]) == Split.Cut(m, [0])
  {
    var m := "cat <a<b" + ("\0\0" + junk);
    SplitOver([], "cat <a<b", "\0\0" + junk, [0]);
    assert [] + "cat <a<b" == "cat <a<b";
    assert m[8] == NUL;
  }

  lemma FirstRedirect(junk: seq<char>)
    ensures RedirectFrom("cat <a<b" + ("\0\0" + junk), 0, NULL, NULL)
         == Redirected("cat \0a<b\0\0" + junk, 5, NULL)
  {
    var m := "cat <a<b" + ("\0\0" + junk);
    WalkOver([], "cat ", "<a<b\0\0" + junk, NULL, NULL);
    assert [] + "cat " + ("<a<b\0\0" + junk) == m;
    var cut := "cat \0a<b\0\0" + junk;
    assert m[4] == '<' && m[4 := NUL] == cut;
    assert cut[5] == 'a' && cut[6] == '<' && cut[7] == 'b' && cut[8] == NUL && cut[9] == NUL;
    assert ZeroBlanks(cut, 5) == (cut, 5);
    assert PathEnd(cut, 8, '>') == 8;
    assert PathEnd(cut, 7, '>') == 8;
    assert PathEnd(cut, 6, '>') == 8;
    assert cut[8 := NUL] == cut;
    StopsAt(cut, 9, 5, NULL);
  }

  lemma FirstTokens(junk: seq<char>)
    ensures ArgvAll("cat \0a<b\0\0" + junk, [0], 0, [], 5, NULL)
         == Parsed("cat\0\0a<b\0\0" + junk, [[0]], 5, NULL)
  {
    OneWord("cat", " ", "\0a<b\0\0" + junk);
    assert "cat" + " " + ("\0a<b\0\0" + junk) == "cat \0a<b\0\0" + junk;
    assert Zeros(1) == "\0";
    assert "cat" + Zeros(1) + ("\0a<b\0\0" + junk) == "cat\0\0a<b\0\0" + junk;
    ArgvOne("cat \0a<b\0\0" + junk, "cat\0\0a<b\0\0" + junk, 5);
  }

  lemma ArgvOne(m: seq<char>, later: seq<char>, input: int)
    requires TokensFrom(m, 0, false, []) == Argv(later, [0])
    ensures ArgvAll(m, [0], 0, [], input, NULL) == Parsed(later, [[0]], input, NULL)
  {
    hide TokensFrom;
    assert [] + [[0]] == [[0]];
  }

  /** parse_argv on one word, at the start of memory. */
  lemma OneWord(text: seq<char>, after: seq<char>, b: seq<char>)
    requires text != [] && Plain(text) && Blank(after) && b != [] && b[0] == NUL
    ensures TokensFrom(text + after + b, 0, false, []) == Argv(text + Zeros(|after|) + b, [0])
  {
    hide TokensFrom, Zeros, Spell;
    var x := Word(text, after);
    WordTaken([], x, b, []);
    assert Spell(x) == text + after by { SpellWord(text, after); }
    assert [] + (text + after) == text + after && [] + text == text;
    assert [] + [0] == [0];
    ZerosLength(|after|);
    TokensEnd(text + Zeros(|after|), b, after == [], [0]);
  }

  lemma TokensEnd(a: seq<char>, b: seq<char>, inWord: bool, argv: seq<nat>)
    requires b != [] && b[0] == NUL && |argv| < MAX_ARGV_SIZE
    ensures TokensFrom(a + b, |a|, inWord, argv) == Argv(a + b, argv)
  {
  }

  /** The last line of the input, "a  <x" without a newline, after "cat <a<b": the walk gets
      behind its NUL, finds the '<' that the first line left there, and b is read in place of x. */
  lemma LeftoverExample(junk: seq<char>)
    ensures var first := ParseLine("cat <a<b\n\0" + junk);
            && first.Parsed? && |first.memory| > 6
            && var buffer := "a  <x\0" + first.memory[6..];
               var second := ParseLine(buffer);
               second.Parsed? && StringAt(second.memory, second.input, "b")
  {
    FirstLine(junk);
    var memory := "cat\0\0a<b\0\0" + junk;
    assert memory[6..] == "<b\0\0" + junk;
    SecondLine(junk);
  }

  lemma SecondLine(junk: seq<char>)
    ensures var r := ParseLine("a  <x\0" + ("<b\0\0" + junk));
            r.Parsed? && StringAt(r.memory, r.input, "b")
  {
    hide SplitFrom, RedirectAll, LineEnd;
    var line, rest := "a  <x", "<b\0\0" + junk;
    assert "a  <x\0" + rest == line + ([NUL] + rest);
    assert ([NUL] + rest)[1..] == rest;
    LineStripped(line, [NUL] + rest);
    var m := line + ([NUL] + rest);
    SecondSplit(rest);
    SecondRedirect(junk);
    var cut := "a  \0x\0\0b\0\0" + junk;
    LoopOneCommand(m, cut, 7);
    SecondTokens(junk);
  }

  lemma SecondTokens(junk: seq<char>)
    ensures var r := ArgvAll("a  \0x\0\0b\0\0" + junk, [0], 0, [], 7, NULL);
            r.Parsed? && StringAt(r.memory, r.input, "b")
  {
    hide ArgvAll, Zeros, TokensFrom;
    var cut := "a  \0x\0\0b\0\0" + junk;
    OneWord("a", "  ", "\0x\0\0b\0\0" + junk);
    assert "a" + "  " + ("\0x\0\0b\0\0" + junk) == cut;
    ZerosLength(2);
    var later := "a" + Zeros(2) + ("\0x\0\0b\0\0" + junk);
    ArgvOne(cut, later, 7);
    assert later[7] == 'b' && later[8] == NUL && later[7..8] == "b";
  }

  lemma LoopOneCommand(m: seq<char>, cut: seq<char>, input: int)
    requires RedirectFrom(m, 0, NULL, NULL) == Redirected(cut, input, NULL) && input != NULL
    ensures RedirectAll(m, [0], 0, NULL, NULL) == ArgvAll(cut, [0], 0, [], input, NULL)
  {
    hide RedirectFrom;
    assert RedirectAll(cut, [0], 1, input, NULL) == ArgvAll(cut, [0], 0, [], input, NULL);
  }

  lemma SecondSplit(rest: seq<char>)
    ensures var m := "a  <x" + ([NUL] + rest);
            SplitFrom(m, 0, [0]) == Split.Cut(m, [0])
  {
    SplitOver([], "a  <x", [NUL] + rest, [0]);
    assert [] + "a  <x" == "a  <x";
  }

  /** The line's own redirection, and the step over its NUL. */
  lemma SecondOwn(rest: seq<char>)
    ensures RedirectFrom("a  <x" + ([NUL] + rest), 0, NULL, NULL) == RedirectFrom("a  \0x\0" + rest, 6, 4, NULL)
  {
    hide RedirectFrom;
    var x := In("", "x", "");
    WalkOver([], "a  ", "<x" + ([NUL] + rest), NULL, NULL);
    assert [] + "a  " + ("<x" + ([NUL] + rest)) == "a  <x" + ([NUL] + rest);
    assert Spell(x) == "<x" && CutItem(x) == "\0x";
    OpenPath("a  ", x, [NUL] + rest, NULL, NULL);
    assert "a  " + "<x" + ([NUL] + rest) == "a  <x" + ([NUL] + rest);
    assert "a  " + "\0x" + ([NUL] + rest) == "a  \0x\0" + rest;
  }

  lemma SecondStale(a: seq<char>, junk: seq<char>)
    requires |a| == 6
    ensures RedirectFrom(a + ("<b\0\0" + junk), 6, 4, NULL) == Redirected(a + ("\0b\0\0" + junk), 7, NULL)
  {
    hide RedirectFrom;
    var x, b := In("", "b", ""), "\0\0" + junk;
    assert Spell(x) == "<b" && CutItem(x) == "\0b";
    OpenPath(a, x, b, 4, NULL);
    assert a + "<b" + b == a + ("<b\0\0" + junk);
    assert a + "\0b" + b == a + ("\0b\0\0" + junk);
    StopsAt(a + "\0b" + b, 9, 7, NULL);
  }

  lemma SecondRedirect(junk: seq<char>)
    ensures RedirectFrom("a  <x" + ([NUL] + ("<b\0\0" + junk)), 0, NULL, NULL)
         == Redirected("a  \0x\0\0b\0\0" + junk, 7, NULL)
  {
    hide RedirectFrom;
    SecondOwn("<b\0\0" + junk);
    SecondStale("a  \0x\0", junk);
    assert "a  \0x\0" + ("\0b\0\0" + junk) == "a  \0x\0\0b\0\0" + junk;
  }
}
