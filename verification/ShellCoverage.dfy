/** The grammar leaves no line out: whatever stands before the newline is spelled from some
    pipeline, so what is proved of pipelines is proved of every line. */
module ShellCoverage {
  import opened Sequences
  import opened Ctype
  import opened ShellParser
  import opened ShellGrammar

  /** The characters of a line: neither its newline nor a NUL. */
  predicate LineText(s: seq<char>)
  {
    forall k :: 0 <= k < |s| ==> s[k] != NUL && s[k] != '\n'
  }

  predicate CommandText(s: seq<char>)
  {
    LineText(s) && '|' !in s
  }

  function Blanks(s: seq<char>): (n: nat)
    ensures n <= |s|
    ensures forall k :: 0 <= k < n ==> IsSpace(s[k])
    ensures n < |s| ==> !IsSpace(s[n])
  {
    if s != [] && IsSpace(s[0]) then 1 + Blanks(s[1..]) else 0
  }

  /** How far a word, or a path that the operator `other` ends, goes. */
  function TextEnd(s: seq<char>, word: bool, other: char): (n: nat)
    ensures n <= |s|
    ensures forall k :: 0 <= k < n ==> !IsSpace(s[k]) && s[k] != other && (word ==> s[k] != '<' && s[k] != '>')
    ensures n < |s| ==> IsSpace(s[n]) || s[n] == other || (word && (s[n] == '<' || s[n] == '>'))
  {
    if s == [] || IsSpace(s[0]) || s[0] == other || (word && (s[0] == '<' || s[0] == '>')) then 0
    else 1 + TextEnd(s[1..], word, other)
  }

  predicate Starts(items: seq<Item>, s: seq<char>)
  {
    if s == [] then items == []
    else items != [] && (items[0].In? <==> s[0] == '<') && (items[0].Out? <==> s[0] == '>')
  }

  /** An item and what is left of the command behind it. */
  lemma FirstItem(s: seq<char>) returns (x: Item, rest: seq<char>)
    requires CommandText(s) && s != [] && !IsSpace(s[0])
    ensures GoodItem(x) && s == Spell(x) + rest && CommandText(rest) && |rest| < |s|
    ensures (x.In? <==> s[0] == '<') && (x.Out? <==> s[0] == '>')
    ensures rest != [] ==> !IsSpace(rest[0])
    ensures rest != [] && x.after == [] ==>
              if x.Word? then rest[0] == '<' || rest[0] == '>' else rest[0] == if x.In? then '>' else '<'
  {
    if s[0] == '<' || s[0] == '>' {
      x, rest := FirstPath(s);
    } else {
      x, rest := FirstWord(s);
    }
  }

  lemma Halves(s: seq<char>, n: nat)
    requires n <= |s|
    ensures s == s[..n] + s[n..]
    ensures CommandText(s) ==> CommandText(s[..n]) && CommandText(s[n..])
    ensures LineText(s) ==> LineText(s[..n]) && LineText(s[n..])
  {
  }

  /** The blanks at the start of s, and the rest. */
  lemma TakeBlanks(s: seq<char>) returns (blanks: seq<char>, rest: seq<char>)
    requires CommandText(s)
    ensures s == blanks + rest && Blank(blanks) && CommandText(rest)
    ensures rest != [] ==> !IsSpace(rest[0])
    ensures s != [] && !IsSpace(s[0]) ==> blanks == []
  {
    var n := Blanks(s);
    Halves(s, n);
    blanks, rest := s[..n], s[n..];
  }

  /** The word, or the path, at the start of s, and the rest. */
  lemma TakeText(s: seq<char>, word: bool, other: char) returns (text: seq<char>, rest: seq<char>)
    requires CommandText(s) && (other == '<' || other == '>')
    ensures s == text + rest && CommandText(rest)
    ensures if word then Plain(text) else PathText(text, other)
    ensures rest != [] ==> IsSpace(rest[0]) || rest[0] == other || (word && (rest[0] == '<' || rest[0] == '>'))
    ensures text == [] <==> s == [] || IsSpace(s[0]) || s[0] == other || (word && (s[0] == '<' || s[0] == '>'))
  {
    var n := TextEnd(s, word, other);
    Halves(s, n);
    text, rest := s[..n], s[n..];
  }

  lemma FirstWord(s: seq<char>) returns (x: Item, rest: seq<char>)
    requires CommandText(s) && s != [] && !IsSpace(s[0]) && s[0] != '<' && s[0] != '>'
    ensures x.Word? && GoodItem(x) && s == Spell(x) + rest && CommandText(rest) && |rest| < |s|
    ensures rest != [] ==> !IsSpace(rest[0])
    ensures rest != [] && x.after == [] ==> rest[0] == '<' || rest[0] == '>'
  {
    hide CommandText, Blank, Plain, IsSpace;
    var text, tail := TakeText(s, true, '<');
    var after;
    after, rest := TakeBlanks(tail);
    x := Word(text, after);
    Assoc(text, after, rest);
    NothingTaken(after, rest, tail);
  }

  lemma NothingTaken(after: seq<char>, rest: seq<char>, tail: seq<char>)
    requires tail == after + rest
    ensures after == [] ==> rest == tail
    ensures |tail| == |after| + |rest|
  {
  }

  lemma FirstPath(s: seq<char>) returns (x: Item, rest: seq<char>)
    requires CommandText(s) && s != [] && (s[0] == '<' || s[0] == '>')
    ensures !x.Word? && GoodItem(x) && s == Spell(x) + rest && CommandText(rest) && |rest| < |s|
    ensures x.In? <==> s[0] == '<'
    ensures rest != [] ==> !IsSpace(rest[0])
    ensures rest != [] && x.after == [] ==> rest[0] == if x.In? then '>' else '<'
  {
    hide CommandText, Blank, PathText, IsSpace;
    var other := if s[0] == '<' then '>' else '<';
    Halves(s, 1);
    var gap, path := TakeBlanks(s[1..]);
    var text, tail := TakeText(path, false, other);
    var after;
    after, rest := TakeBlanks(tail);
    x := if s[0] == '<' then In(gap, text, after) else Out(gap, text, after);
    PathPieces(s[0], gap, text, after, rest);
    NothingTaken(after, rest, tail);
    NothingTaken(text, tail, path);
    NothingTaken(gap, path, s[1..]);
    assert s[..1] == [s[0]];
  }

  lemma PathPieces(op: char, gap: seq<char>, text: seq<char>, after: seq<char>, rest: seq<char>)
    ensures [op] + gap + text + after + rest == [op] + (gap + (text + (after + rest)))
  {
    Assoc([op] + gap + text, after, rest);
    Assoc([op] + gap, text, after + rest);
    Assoc([op], gap, text + (after + rest));
  }

  lemma {:induction false} ItemsOf(s: seq<char>) returns (items: seq<Item>)
    requires CommandText(s) && (s == [] || !IsSpace(s[0]))
    ensures GoodItems(items) && SpellAll(items) == s && Starts(items, s)
    decreases |s|
  {
    if s == [] {
      return [];
    }
    var x, rest := FirstItem(s);
    var more := ItemsOf(rest);
    items := [x] + more;
    GoodMore(x, more, rest);
  }

  lemma GoodMore(x: Item, more: seq<Item>, rest: seq<char>)
    requires GoodItem(x) && GoodItems(more) && SpellAll(more) == rest && Starts(more, rest)
    requires rest != [] && x.after == [] ==>
               if x.Word? then rest[0] == '<' || rest[0] == '>' else rest[0] == if x.In? then '>' else '<'
    ensures GoodItems([x] + more) && SpellAll([x] + more) == Spell(x) + rest
  {
    var items := [x] + more;
    assert items[1..] == more;
    assert forall k :: 1 <= k < |items| ==> items[k] == more[k - 1];
    forall k | 0 <= k < |items| - 1 && items[k].after == [] ensures MayTouch(items[k], items[k + 1]) {
      if k > 0 {
        assert MayTouch(more[k - 1], more[k]);
      }
    }
  }

  lemma CommandOf(s: seq<char>) returns (c: Command)
    requires CommandText(s)
    ensures Spellable(c) && SpellCommand(c) == s
  {
    hide CommandText, Blank, IsSpace, GoodItems, SpellAll;
    var lead, rest := TakeBlanks(s);
    var items := ItemsOf(rest);
    c := Command(lead, items);
  }

  function Bar(s: seq<char>): (n: nat)
    ensures n <= |s| && '|' !in s[..n]
    ensures n < |s| ==> s[n] == '|'
  {
    if s == [] || s[0] == '|' then 0
    else
      var n := Bar(s[1..]);
      assert s[..n + 1] == [s[0]] + s[1..][..n];
      1 + n
  }

  /** The line up to its first bar, and behind it. */
  lemma AtBar(s: seq<char>) returns (first: seq<char>, rest: seq<char>)
    requires LineText(s) && Bar(s) < |s|
    ensures s == first + ['|'] + rest && CommandText(first) && LineText(rest) && |rest| < |s|
  {
    hide LineText, Bar;
    var n := Bar(s);
    Halves(s, n);
    Halves(s, n + 1);
    OneBehind(s, n);
    LineCommand(s[..n]);
    first, rest := s[..n], s[n + 1..];
  }

  lemma OneBehind(s: seq<char>, n: nat)
    requires n < |s|
    ensures s[..n + 1] == s[..n] + [s[n]]
  {
  }

  lemma LineCommand(s: seq<char>)
    requires LineText(s) && '|' !in s
    ensures CommandText(s)
  {
  }

  /** Every line is spelled from a pipeline. */
  lemma {:induction false} EveryLine(s: seq<char>) returns (p: Pipeline)
    requires LineText(s)
    ensures GoodPipeline(p) && SpellLine(p) == s
    decreases |s|
  {
    hide LineText, Spellable, SpellCommand, SpellLine, Bar;
    if Bar(s) == |s| {
      NoBar(s);
      var c := CommandOf(s);
      p := [c];
      OneCommand(c);
    } else {
      var first, rest := AtBar(s);
      var c := CommandOf(first);
      var more := EveryLine(rest);
      p := [c] + more;
      MoreCommands(c, more);
    }
  }

  lemma NoBar(s: seq<char>)
    requires LineText(s) && Bar(s) == |s|
    ensures CommandText(s)
  {
    assert s[..|s|] == s;
  }

  lemma OneCommand(c: Command)
    ensures SpellLine([c]) == SpellCommand(c)
  {
  }

  lemma MoreCommands(c: Command, rest: Pipeline)
    requires rest != []
    ensures SpellLine([c] + rest) == SpellCommand(c) + ['|'] + SpellLine(rest)
  {
    assert ([c] + rest)[1..] == rest;
  }
}
