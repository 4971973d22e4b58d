/** The shell's parser: one line buffer, cut into NUL-terminated pieces in place.  The functions
    say what each loop leaves in memory; the methods run the loops on the array itself.  A
    position is an index into the buffer, NULL is -1. */
module ShellParser {
  import opened Ctype

  const MAX_COMMANDS := 16
  const MAX_ARGV_SIZE := 64
  const NUL := '\0'
  const NULL := -1

  // ---------- cutting the line at '|' ----------

  datatype Split = Cut(memory: seq<char>, commands: seq<nat>) | TooManyCommands | SplitOverrun

  /** The splitting loop from position p on, with the commands found before it. */
  function SplitFrom(m: seq<char>, p: nat, commands: seq<nat>): Split
    decreases |m| - p
  {
    if p >= |m| then SplitOverrun
    else if m[p] == NUL then Cut(m, commands)
    else if m[p] == '|' then
      if |commands| >= MAX_COMMANDS then TooManyCommands
      else SplitFrom(m[p := NUL], p + 1, commands + [p + 1])
    else SplitFrom(m, p + 1, commands)
  }

  method SplitLine(buffer: array<char>) returns (r: Split)
    modifies buffer
    ensures r == SplitFrom(old(buffer[..]), 0, [0])
    ensures r.Cut? ==> buffer[..] == r.memory
  {
    var position := 0;
    var commands: seq<nat> := [0];
    while position < buffer.Length && buffer[position] != NUL
      invariant 0 <= position <= buffer.Length
      invariant SplitFrom(buffer[..], position, commands) == SplitFrom(old(buffer[..]), 0, [0])
    {
      if buffer[position] == '|' {
        if |commands| >= MAX_COMMANDS {
          return TooManyCommands;
        }
        buffer[position] := NUL;
        commands := commands + [position + 1];
      }
      position := position + 1;
    }
    r := if position < buffer.Length then Cut(buffer[..], commands) else SplitOverrun;
  }

  // ---------- cutting out redirections ----------

  /** Overrun stands for reading past the end of the buffer. */
  datatype Redirections = Redirected(memory: seq<char>, input: int, output: int) | Overrun

  /** Blanks from p on are zeroed. */
  function ZeroBlanks(m: seq<char>, p: nat): (r: (seq<char>, nat))
    ensures |r.0| == |m| && r.1 >= p
    decreases |m| - p
  {
    if p < |m| && IsSpace(m[p]) then ZeroBlanks(m[p := NUL], p + 1) else (m, p)
  }

  /** The end of the path that starts at p: a blank, a NUL or the other redirection. */
  function PathEnd(m: seq<char>, p: nat, other: char): (r: nat)
    ensures r >= p
    decreases |m| - p
  {
    if p < |m| && !IsSpace(m[p]) && m[p] != NUL && m[p] != other then PathEnd(m, p + 1, other) else p
  }

  /** get_redirection from position p on. */
  function RedirectFrom(m: seq<char>, p: nat, input: int, output: int): Redirections
    decreases |m| - p
  {
    if p >= |m| then Overrun
    else if m[p] == NUL then Redirected(m, input, output)
    else if m[p] == '<' || m[p] == '>' then
      var other := if m[p] == '<' then '>' else '<';
      var zeroed := ZeroBlanks(m[p := NUL], p + 1);
      var end := PathEnd(zeroed.0, zeroed.1, other);
      var i := if m[p] == '<' then zeroed.1 else input;
      var o := if m[p] == '<' then output else zeroed.1;
      if end >= |m| then Overrun
      else if zeroed.0[end] != other then RedirectFrom(zeroed.0[end := NUL], end + 1, i, o)
      else RedirectFrom(zeroed.0, end, i, o)
    else RedirectFrom(m, p + 1, input, output)
  }

  /** Zeroing blanks and walking over the path behind a '<' or '>', in place. */
  method CutPath(buffer: array<char>, start: nat, other: char) returns (path: nat, end: nat)
    requires start < buffer.Length
    modifies buffer
    ensures var zeroed := ZeroBlanks(old(buffer[..])[start := NUL], start + 1);
            && path == zeroed.1 && buffer[..] == zeroed.0
            && end == PathEnd(zeroed.0, path, other) && start < end
  {
    buffer[start] := NUL;
    var position := start + 1;
    ghost var zeroed := ZeroBlanks(buffer[..], start + 1);
    while position < buffer.Length && IsSpace(buffer[position])
      invariant start < position <= buffer.Length
      invariant ZeroBlanks(buffer[..], position) == zeroed
    {
      buffer[position] := NUL;
      position := position + 1;
    }
    path := position;
    while position < buffer.Length && !IsSpace(buffer[position])
          && buffer[position] != NUL && buffer[position] != other
      invariant path <= position <= buffer.Length
      invariant PathEnd(buffer[..], position, other) == PathEnd(buffer[..], path, other)
    {
      position := position + 1;
    }
    end := position;
  }

  method GetRedirection(buffer: array<char>, start: nat) returns (r: Redirections)
    modifies buffer
    ensures r == RedirectFrom(old(buffer[..]), start, NULL, NULL)
    ensures r.Redirected? ==> buffer[..] == r.memory
  {
    var position := start;
    var input, output := NULL, NULL;
    while position < buffer.Length && buffer[position] != NUL
      invariant RedirectFrom(buffer[..], position, input, output)
             == RedirectFrom(old(buffer[..]), start, NULL, NULL)
      decreases buffer.Length - position
    {
      if buffer[position] == '<' || buffer[position] == '>' {
        var isInput := buffer[position] == '<';
        var other := if isInput then '>' else '<';
        var path, end := CutPath(buffer, position, other);
        if end >= buffer.Length {
          return Overrun;
        }
        if isInput {
          input := path;
        } else {
          output := path;
        }
        position := end;
        if buffer[position] != other {
          buffer[position] := NUL;
          position := position + 1;
        }
      } else {
        position := position + 1;
      }
    }
    r := if position < buffer.Length then Redirected(buffer[..], input, output) else Overrun;
  }

  // ---------- words ----------

  /** NoRoom stands for the terminating NULL written past the end of argv. */
  datatype Tokens = Argv(memory: seq<char>, argv: seq<nat>) | TooManyArguments | NoRoom | TokensOverrun

  /** parse_argv from position p on. */
  function TokensFrom(m: seq<char>, p: nat, inWord: bool, argv: seq<nat>): Tokens
    decreases |m| - p
  {
    if p >= |m| then TokensOverrun
    else if m[p] == NUL then if |argv| < MAX_ARGV_SIZE then Argv(m, argv) else NoRoom
    else if IsSpace(m[p]) then TokensFrom(m[p := NUL], p + 1, false, argv)
    else if inWord then TokensFrom(m, p + 1, true, argv)
    else if |argv| >= MAX_ARGV_SIZE then TooManyArguments
    else TokensFrom(m, p + 1, true, argv + [p])
  }

  method ParseArgv(buffer: array<char>, start: nat) returns (r: Tokens)
    modifies buffer
    ensures r == TokensFrom(old(buffer[..]), start, false, [])
    ensures r.Argv? ==> buffer[..] == r.memory
  {
    var command := start;
    var inWord := false;
    var argv: seq<nat> := [];
    while command < buffer.Length && buffer[command] != NUL
      invariant TokensFrom(buffer[..], command, inWord, argv)
             == TokensFrom(old(buffer[..]), start, false, [])
      decreases buffer.Length - command
    {
      if !IsSpace(buffer[command]) {
        if !inWord {
          if |argv| >= MAX_ARGV_SIZE {
            return TooManyArguments;
          }
          argv := argv + [command];
          inWord := true;
        }
      } else {
        buffer[command] := NUL;
        inWord := false;
      }
      command := command + 1;
    }
    if command >= buffer.Length {
      return TokensOverrun;
    }
    r := if |argv| < MAX_ARGV_SIZE then Argv(buffer[..], argv) else NoRoom;
  }

  // ---------- a whole line ----------

  datatype Line =
    | Empty
    | Exit
    | Parsed(memory: seq<char>, argvs: seq<seq<nat>>, input: int, output: int)
    | InputNotFirst
    | OutputNotLast
    | UnsupportedCommands
    | UnsupportedArguments
    | OutOfBounds

  /** The redirection loop of main from command i on. */
  function RedirectAll(m: seq<char>, commands: seq<nat>, i: nat, input: int, output: int): Line
    requires i <= |commands|
    decreases |commands| - i
  {
    if i == |commands| then ArgvAll(m, commands, 0, [], input, output)
    else
      match RedirectFrom(m, commands[i], NULL, NULL)
      case Overrun => OutOfBounds
      case Redirected(memory, currentInput, currentOutput) =>
        if currentInput != NULL && i != 0 then InputNotFirst
        else if currentOutput != NULL && i + 1 != |commands| then OutputNotLast
        else
          RedirectAll(memory, commands, i + 1,
                      if currentInput != NULL then currentInput else input,
                      if currentOutput != NULL then currentOutput else output)
  }

  /** The parse_argv calls of run_commands from command i on. */
  function ArgvAll(m: seq<char>, commands: seq<nat>, i: nat, argvs: seq<seq<nat>>, input: int, output: int): Line
    requires i <= |commands|
    decreases |commands| - i
  {
    if i == |commands| then Parsed(m, argvs, input, output)
    else
      match TokensFrom(m, commands[i], false, [])
      case Argv(memory, argv) => ArgvAll(memory, commands, i + 1, argvs + [argv], input, output)
      case TooManyArguments => UnsupportedArguments
      case NoRoom => OutOfBounds
      case TokensOverrun => OutOfBounds
  }

  /** The first newline or NUL: what strcspn finds. */
  function LineEnd(m: seq<char>, p: nat): (r: nat)
    requires p <= |m|
    ensures p <= r <= |m|
    ensures forall k :: p <= k < r ==> m[k] != '\n' && m[k] != NUL
    ensures r < |m| ==> m[r] == '\n' || m[r] == NUL
    decreases |m| - p
  {
    if p < |m| && m[p] != '\n' && m[p] != NUL then LineEnd(m, p + 1) else p
  }

  /** What main makes of a buffer filled by fgets, up to the forks. */
  function ParseLine(m: seq<char>): Line
  {
    var end := LineEnd(m, 0);
    if end >= |m| then OutOfBounds
    else if end == 0 then Empty
    else if m[..end] == "exit" then Exit
    else
      match SplitFrom(m[end := NUL], 0, [0])
      case TooManyCommands => UnsupportedCommands
      case SplitOverrun => OutOfBounds
      case Cut(memory, commands) => RedirectAll(memory, commands, 0, NULL, NULL)
  }

  /** The same in place: strip, split, cut out the redirections, tokenise. */
  method ReadLine(buffer: array<char>) returns (r: Line)
    modifies buffer
    ensures r == ParseLine(old(buffer[..]))
    ensures r.Parsed? ==> buffer[..] == r.memory
  {
    var end := 0;
    while end < buffer.Length && buffer[end] != '\n' && buffer[end] != NUL
      invariant 0 <= end <= buffer.Length
      invariant LineEnd(buffer[..], end) == LineEnd(buffer[..], 0)
    {
      end := end + 1;
    }
    if end >= buffer.Length {
      return OutOfBounds;
    }
    buffer[end] := NUL;
    if end == 0 {
      return Empty;
    }
    if buffer[..end] == "exit" {
      return Exit;
    }
    var split := SplitLine(buffer);
    match split {
      case TooManyCommands => return UnsupportedCommands;
      case SplitOverrun => return OutOfBounds;
      case Cut(_, _) =>
    }
    r := ReadCommands(buffer, split.commands);
  }

  method ReadCommands(buffer: array<char>, commands: seq<nat>) returns (r: Line)
    modifies buffer
    ensures r == RedirectAll(old(buffer[..]), commands, 0, NULL, NULL)
    ensures r.Parsed? ==> buffer[..] == r.memory
  {
    var input, output := NULL, NULL;
    for i := 0 to |commands|
      invariant RedirectAll(buffer[..], commands, i, input, output)
             == RedirectAll(old(buffer[..]), commands, 0, NULL, NULL)
    {
      var current := GetRedirection(buffer, commands[i]);
      if current.Overrun? {
        return OutOfBounds;
      }
      if current.input != NULL {
        if i != 0 {
          return InputNotFirst;
        }
        input := current.input;
      }
      if current.output != NULL {
        if i + 1 != |commands| {
          return OutputNotLast;
        }
        output := current.output;
      }
    }
    r := ReadArguments(buffer, commands, input, output);
  }

  method ReadArguments(buffer: array<char>, commands: seq<nat>, input: int, output: int) returns (r: Line)
    modifies buffer
    ensures r == ArgvAll(old(buffer[..]), commands, 0, [], input, output)
    ensures r.Parsed? ==> buffer[..] == r.memory
  {
    var argvs: seq<seq<nat>> := [];
    for i := 0 to |commands|
      invariant ArgvAll(buffer[..], commands, i, argvs, input, output)
             == ArgvAll(old(buffer[..]), commands, 0, [], input, output)
    {
      var tokens := ParseArgv(buffer, commands[i]);
      match tokens {
        case Argv(_, argv) => argvs := argvs + [argv];
        case TooManyArguments => return UnsupportedArguments;
        case NoRoom => return OutOfBounds;
        case TokensOverrun => return OutOfBounds;
      }
    }
    r := Parsed(buffer[..], argvs, input, output);
  }
}
