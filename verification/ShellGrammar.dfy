/** Command lines as a user writes them, how they are spelled, and what they mean. */
module ShellGrammar {
  import opened Ctype
  import opened ShellParser

  /** A word, or a redirection: the operator, blanks, and a path.  after is the blank behind it. */
  datatype Item =
    | Word(text: seq<char>, after: seq<char>)
    | In(gap: seq<char>, text: seq<char>, after: seq<char>)
    | Out(gap: seq<char>, text: seq<char>, after: seq<char>)

  datatype Command = Command(lead: seq<char>, items: seq<Item>)

  type Pipeline = seq<Command>

  predicate Plain(text: seq<char>)
  {
    forall k :: 0 <= k < |text| ==>
      text[k] != NUL && !IsSpace(text[k]) && text[k] != '|' && text[k] != '<' && text[k] != '>'
  }

  predicate Blank(s: seq<char>)
  {
    forall k :: 0 <= k < |s| ==> IsSpace(s[k]) && s[k] != '\n'
  }

  /** A path goes on to a blank or to the other operator; its own operator belongs to it. */
  predicate PathText(text: seq<char>, other: char)
  {
    forall k :: 0 <= k < |text| ==>
      text[k] != NUL && !IsSpace(text[k]) && text[k] != '|' && text[k] != other
  }

  /** A path may be empty; then nothing but the other operator or the command's end follows it. */
  predicate GoodItem(x: Item)
  {
    && Blank(x.after)
    && match x
       case Word(text, _) => text != [] && Plain(text)
       case In(gap, text, after) => Blank(gap) && PathText(text, '>') && (text == [] ==> after == [])
       case Out(gap, text, after) => Blank(gap) && PathText(text, '<') && (text == [] ==> after == [])
  }

  /** Two items may touch only where the second one's first character ends the first. */
  predicate MayTouch(x: Item, y: Item)
  {
    match x
    case Word(_, _) => !y.Word?
    case In(_, _, _) => y.Out?
    case Out(_, _, _) => y.In?
  }

  predicate GoodItems(items: seq<Item>)
  {
    && (forall k :: 0 <= k < |items| ==> GoodItem(items[k]))
    && (forall k :: 0 <= k < |items| - 1 ==> items[k].after == [] ==> MayTouch(items[k], items[k + 1]))
  }

  predicate HasIn(items: seq<Item>)
  {
    exists k :: 0 <= k < |items| && items[k].In?
  }

  predicate HasOut(items: seq<Item>)
  {
    exists k :: 0 <= k < |items| && items[k].Out?
  }

  predicate Spellable(c: Command)
  {
    Blank(c.lead) && GoodItems(c.items)
  }

  /** Redirections only where the shell allows them: input first, output last. */
  predicate Legal(p: Pipeline)
  {
    && (forall k :: 0 < k < |p| ==> !HasIn(p[k].items))
    && (forall k :: 0 <= k < |p| - 1 ==> !HasOut(p[k].items))
  }

  predicate GoodPipeline(p: Pipeline)
  {
    p != [] && forall k :: 0 <= k < |p| ==> Spellable(p[k])
  }

  /** Command k has no more words, before its redirections, than argv has places; the last place
      is for the closing NULL. */
  predicate FitsArgv(p: Pipeline, k: nat)
    requires k < |p|
  {
    |Leading(p[k].items)| < MAX_ARGV_SIZE
  }

  predicate Fits(p: Pipeline)
  {
    |p| <= MAX_COMMANDS && forall k :: 0 <= k < |p| ==> FitsArgv(p, k)
  }

  // ---------- spelling ----------

  function Spell(x: Item): (s: seq<char>)
    ensures x.text != [] || !x.Word? ==> s != []
  {
    match x
    case Word(text, after) => text + after
    case In(gap, text, after) => ['<'] + gap + text + after
    case Out(gap, text, after) => ['>'] + gap + text + after
  }

  function SpellAll(items: seq<Item>): seq<char>
  {
    if items == [] then [] else Spell(items[0]) + SpellAll(items[1..])
  }

  function SpellCommand(c: Command): seq<char>
  {
    c.lead + SpellAll(c.items)
  }

  function SpellLine(p: Pipeline): seq<char>
  {
    if p == [] then []
    else if |p| == 1 then SpellCommand(p[0])
    else SpellCommand(p[0]) + ['|'] + SpellLine(p[1..])
  }

  // ---------- meaning ----------

  /** The arguments of a command: its words, wherever its redirections stand. */
  function Words(items: seq<Item>): seq<seq<char>>
  {
    if items == [] then [] else (if items[0].Word? then [items[0].text] else []) + Words(items[1..])
  }

  /** The words before the first redirection. */
  function Leading(items: seq<Item>): seq<seq<char>>
  {
    if items == [] || !items[0].Word? then [] else [items[0].text] + Leading(items[1..])
  }

  /** No word stands behind a redirection. */
  predicate WordsLead(items: seq<Item>)
  {
    forall i, j :: 0 <= i < j < |items| && items[j].Word? ==> items[i].Word?
  }

  datatype Redirection = None | To(path: seq<char>)

  predicate Is(x: Item, input: bool)
  {
    if input then x.In? else x.Out?
  }

  /** The path of the last input redirection, or of the last output redirection. */
  function Path(items: seq<Item>, input: bool): Redirection
  {
    if items == [] then None
    else
      var later := Path(items[1..], input);
      if later.To? then later
      else if Is(items[0], input) then To(items[0].text)
      else None
  }

  /** A NUL-terminated string in memory. */
  predicate StringAt(m: seq<char>, at: int, text: seq<char>)
  {
    && 0 <= at && at + |text| < |m|
    && m[at..at + |text|] == text && m[at + |text|] == NUL && NUL !in text
  }

  predicate PathAt(m: seq<char>, at: int, to: Redirection)
  {
    if to.None? then at == NULL else StringAt(m, at, to.path)
  }

  /** The parser has found the pipeline: each command's words and both paths, as strings inside
      the one buffer. */
  predicate Means(r: Line, p: Pipeline)
  {
    && r.Parsed? && |p| >= 1 && |r.argvs| == |p|
    && (forall k :: 0 <= k < |p| ==> WordsAt(r.memory, r.argvs[k], Words(p[k].items)))
    && PathAt(r.memory, r.input, Path(p[0].items, true))
    && PathAt(r.memory, r.output, Path(p[|p| - 1].items, false))
  }

  predicate WordsAt(m: seq<char>, argv: seq<nat>, words: seq<seq<char>>)
  {
    |argv| == |words| && forall j :: 0 <= j < |words| ==> StringAt(m, argv[j], words[j])
  }

  /** The command ends in a path with nothing behind it. */
  predicate EndsOpen(items: seq<Item>)
  {
    items != [] && !items[|items| - 1].Word? && items[|items| - 1].after == []
  }

  /** The first command of the stretch that command k stands in: a path against a bar makes the
      command behind the bar part of the stretch. */
  function Head(p: Pipeline, k: nat): (h: nat)
    requires k < |p|
    ensures h <= k
  {
    if k > 0 && EndsOpen(p[k - 1].items) then Head(p, k - 1) else k
  }

  /** A redirection of command k that, taken for one of its stretch's first command, is misplaced. */
  predicate Stray(p: Pipeline, k: nat)
    requires k < |p|
  {
    (HasIn(p[k].items) && Head(p, k) > 0) || (HasOut(p[k].items) && Head(p, k) + 1 < |p|)
  }

  predicate Refused(p: Pipeline)
  {
    exists k :: 0 <= k < |p| && Stray(p, k)
  }

  /** The path of the last input redirection from command k on. */
  function LastInput(p: Pipeline, k: nat): Redirection
    requires k <= |p|
    decreases |p| - k
  {
    if k == |p| then None
    else
      var later := LastInput(p, k + 1);
      if later.To? then later else Path(p[k].items, true)
  }

  /** What the parser finds in a line it does not refuse: each command's leading words, the last
      input path of the whole line, and the last command's output path. */
  predicate Finds(r: Line, p: Pipeline)
  {
    && r.Parsed? && |p| >= 1 && |r.argvs| == |p|
    && (forall k :: 0 <= k < |p| ==> WordsAt(r.memory, r.argvs[k], Leading(p[k].items)))
    && PathAt(r.memory, r.input, LastInput(p, 0))
    && PathAt(r.memory, r.output, Path(p[|p| - 1].items, false))
  }

  /** The one shape of a legal line that the parser refuses: "< path" against the bar, and an
      output redirection in the command behind it. */
  predicate Clashing(p: Pipeline)
  {
    |p| == 2 && EndsOpen(p[0].items) && HasOut(p[1].items)
  }
}
