/** run_commands: forks one process per command and wires neighbours with pipes.  A process is its
    descriptor table; the calls have the meaning of POSIX, a new descriptor being the lowest one
    not open. */
module ShellPipes {

  const STDIN := 0
  const STDOUT := 1
  const NO_FD := -1

  /** What a descriptor refers to; Outer is anything the shell itself was started with. */
  datatype End = Outer(k: int) | InputFile | OutputFile | PipeRead(pipe: nat) | PipeWrite(pipe: nat)

  type Table = map<int, End>

  /** The shell's own table: standard input is open, or no line would have been read, and nothing
      is a pipe of this line. */
  predicate ShellTable(t: Table)
  {
    STDIN in t && forall fd :: fd in t ==> fd >= 0 && t[fd].Outer?
  }

  /** The table process k of n is to run with. */
  function Wired(shell: Table, n: nat, input: bool, output: bool, k: nat): Table
    requires STDIN in shell
  {
    var fed := shell[STDIN := if k > 0 then PipeRead(k - 1) else if input then InputFile else shell[STDIN]];
    if k + 1 < n then fed[STDOUT := PipeWrite(k)]
    else if output then fed[STDOUT := OutputFile]
    else fed
  }

  /** The shell's standard output is open, or nothing has to take its place. */
  predicate CanWire(shell: Table, n: nat, output: bool)
  {
    STDOUT in shell || (n <= 1 && !output)
  }

  /** Who holds an end: processes and their descriptors. */
  function Holders(tables: seq<Table>, end: End): set<(nat, int)>
  {
    set k: nat, fd | k < |tables| && fd in tables[k] && tables[k][fd] == end :: (k, fd)
  }

  predicate AllWired(shell: Table, n: nat, input: bool, output: bool, tables: seq<Table>)
    requires ShellTable(shell)
  {
    |tables| <= n && forall k :: 0 <= k < |tables| ==> tables[k] == Wired(shell, n, input, output, k)
  }

  /** In a wired pipeline the write end of a pipe is the standard output of the process before it
      and nothing else anywhere, its read end the standard input of the process behind it and
      nothing else: the reader sees the end of the stream as soon as its writer has gone. */
  lemma PipeHolders(shell: Table, n: nat, input: bool, output: bool, tables: seq<Table>, j: nat)
    requires ShellTable(shell) && AllWired(shell, n, input, output, tables) && j + 1 < n
    ensures Holders(tables, PipeWrite(j)) == if j < |tables| then {(j, STDOUT)} else {}
    ensures Holders(tables, PipeRead(j)) == if j + 1 < |tables| then {(j + 1, STDIN)} else {}
    ensures Holders([shell], PipeWrite(j)) == Holders([shell], PipeRead(j)) == {}
  {
    forall k, fd | 0 <= k < |tables| && fd in tables[k]
      ensures tables[k][fd] == PipeWrite(j) <==> k == j && fd == STDOUT
      ensures tables[k][fd] == PipeRead(j) <==> k == j + 1 && fd == STDIN
    {
      assert tables[k] == Wired(shell, n, input, output, k);
    }
    assert j < |tables| ==> STDOUT in tables[j];
    assert j + 1 < |tables| ==> STDIN in tables[j + 1];
  }

  /** The output file is the standard output of the last process and the input file the standard
      input of the first, if the line names them, and neither is anything else anywhere. */
  lemma FileHolders(shell: Table, n: nat, input: bool, output: bool, tables: seq<Table>)
    requires ShellTable(shell) && AllWired(shell, n, input, output, tables) && |tables| == n > 0
    ensures Holders(tables, OutputFile) == if output then {(n - 1, STDOUT)} else {}
    ensures Holders(tables, InputFile) == if input then {(0, STDIN)} else {}
    ensures Holders([shell], OutputFile) == Holders([shell], InputFile) == {}
  {
    forall k, fd | 0 <= k < n && fd in tables[k]
      ensures tables[k][fd] == OutputFile <==> output && k == n - 1 && fd == STDOUT
      ensures tables[k][fd] == InputFile <==> input && k == 0 && fd == STDIN
    {
      assert tables[k] == Wired(shell, n, input, output, k);
    }
    assert output ==> STDOUT in tables[n - 1];
    assert STDIN in tables[0];
  }

  /** Everything else a process has it has from the shell: standard input of the first and standard
      output of the last when no file is named, and every descriptor but those two. */
  lemma OthersInherited(shell: Table, n: nat, input: bool, output: bool, tables: seq<Table>, k: nat)
    requires ShellTable(shell) && AllWired(shell, n, input, output, tables) && |tables| == n && k < n
    ensures STDIN in tables[k] && (k == 0 && !input ==> tables[k][STDIN] == shell[STDIN])
    ensures k == n - 1 && !output ==>
              (STDOUT in tables[k] <==> STDOUT in shell)
              && (STDOUT in shell ==> tables[k][STDOUT] == shell[STDOUT])
    ensures k < n - 1 || output ==> STDOUT in tables[k]
    ensures forall fd :: fd != STDIN && fd != STDOUT ==>
              (fd in tables[k] <==> fd in shell) && (fd in shell ==> tables[k][fd] == shell[fd])
  {
    assert tables[k] == Wired(shell, n, input, output, k);
  }

  class Process {
    var fds: Table

    constructor (fds: Table)
      ensures this.fds == fds
    {
      this.fds := fds;
    }

    constructor Fork(parent: Process)
      ensures fds == parent.fds
    {
      fds := parent.fds;
    }

    /** The lowest descriptor not open is opened. */
    method Open(end: End) returns (fd: int)
      modifies this
      ensures fd >= 0 && fd !in old(fds) && forall j :: 0 <= j < fd ==> j in old(fds)
      ensures fds == old(fds)[fd := end]
    {
      fd := 0;
      var used := fds.Keys;
      while fd in fds
        invariant fd >= 0 && fds == old(fds)
        invariant forall j :: 0 <= j < fd ==> j in fds
        invariant forall j :: j in used <==> j in fds && !(0 <= j < fd)
        decreases |used|
      {
        used := used - {fd};
        fd := fd + 1;
      }
      fds := fds[fd := end];
    }

    method Pipe(k: nat) returns (reader: int, writer: int)
      modifies this
      ensures reader >= 0 && writer >= 0 && reader != writer && reader !in old(fds) && writer !in old(fds)
      ensures forall j :: 0 <= j < reader ==> j in old(fds)
      ensures fds == old(fds)[reader := PipeRead(k)][writer := PipeWrite(k)]
    {
      reader := Open(PipeRead(k));
      writer := Open(PipeWrite(k));
    }

    method Close(fd: int)
      modifies this
      ensures fds == old(fds) - {fd}
    {
      fds := fds - {fd};
    }

    method Dup2(from: int, to: int)
      requires from in fds
      modifies this
      ensures fds == old(fds)[to := old(fds)[from]]
    {
      fds := fds[to := fds[from]];
    }

    /** open, dup2 and close: a standard stream becomes the file.  A standard output that is closed
        is the very descriptor that open returns, and is closed again. */
    method Redirect(end: End, to: int)
      requires STDIN in fds && (to == STDIN || to == STDOUT)
      modifies this
      ensures fds == if to in old(fds) then old(fds)[to := end] else old(fds)
    {
      var fd := Open(end);
      Dup2(fd, to);
      Close(fd);
    }

    /** What the child does between fork and exec. */
    method Wire(ghost shell: Table, n: nat, input: bool, output: bool, i: nat, prev: int, reader: int, writer: int)
      requires ShellTable(shell) && i < n
      requires prev == NO_FD <==> i == 0
      requires i > 0 ==> prev !in shell
      requires i + 1 < n ==> reader !in shell && writer !in shell && reader != writer
      requires i > 0 && i + 1 < n ==> reader != prev && writer != prev
      requires fds == AtFork(shell, n, i, prev, reader, writer)
      modifies this
      ensures CanWire(shell, n, output) ==> fds == Wired(shell, n, input, output, i)
      ensures !CanWire(shell, n, output) && i == 0 && (n > 1 ==> reader == STDOUT) ==> STDOUT !in fds
    {
      if i == 0 && input {
        Redirect(InputFile, STDIN);
      }
      if i + 1 == n && output {
        Redirect(OutputFile, STDOUT);
      }
      if prev != NO_FD {
        Dup2(prev, STDIN);
        Close(prev);
      }
      if i + 1 != n {
        Dup2(writer, STDOUT);
        Close(reader);
        Close(writer);
      }
    }
  }

  /** The shell's table at fork i: besides its own descriptors at most one inherited read end, and
      the pipe just made. */
  function AtFork(shell: Table, n: nat, i: nat, prev: int, reader: int, writer: int): Table
  {
    var before := if i > 0 then shell[prev := PipeRead(i - 1)] else shell;
    if i + 1 < n then before[reader := PipeRead(i)][writer := PipeWrite(i)] else before
  }

  /** The commands up to the first one parse_argv refuses. */
  function Accepted(parses: seq<bool>): (r: nat)
    ensures r <= |parses| && (forall k :: 0 <= k < r ==> parses[k]) && (r < |parses| ==> !parses[r])
  {
    if parses == [] || !parses[0] then 0 else 1 + Accepted(parses[1..])
  }

  /** run_commands.  The shell is left with the descriptors it had, whether all commands parse or
      not.  Every process forked runs wired to its neighbours and to nothing else, if the shell's
      standard output is open or not needed; if it is closed and needed, the first process runs
      without one, for a pipe or an opened file takes its number and is closed. */
  method RunCommands(shell: Process, parses: seq<bool>, input: bool, output: bool)
    returns (success: bool, children: seq<Process>)
    requires ShellTable(shell.fds)
    modifies shell
    ensures success <==> Accepted(parses) == |parses|
    ensures shell.fds == old(shell.fds)
    ensures |children| == Accepted(parses) && forall k :: 0 <= k < |children| ==> fresh(children[k])
    ensures CanWire(old(shell.fds), |parses|, output) ==>
              forall k :: 0 <= k < |children| ==>
                children[k].fds == Wired(old(shell.fds), |parses|, input, output, k)
    ensures !CanWire(old(shell.fds), |parses|, output) && |children| > 0 ==> STDOUT !in children[0].fds
    ensures forall k, j :: 0 <= k < j < |children| ==> children[k] != children[j]
  {
    ghost var table := shell.fds;
    var n := |parses|;
    var prev := NO_FD;
    children := [];
    for i := 0 to n
      invariant |children| == i && forall k :: 0 <= k < i ==> parses[k]
      invariant forall k :: 0 <= k < i ==> fresh(children[k])
      invariant CanWire(table, n, output) ==>
                  forall k :: 0 <= k < i ==> children[k].fds == Wired(table, n, input, output, k)
      invariant !CanWire(table, n, output) && i > 0 ==> STDOUT !in children[0].fds
      invariant forall k, j :: 0 <= k < j < i ==> children[k] != children[j]
      invariant prev == NO_FD <==> i == 0 || i == n
      invariant if prev == NO_FD then shell.fds == table
                else prev !in table && shell.fds == table[prev := PipeRead(i - 1)]
    {
      if !parses[i] {
        if prev != NO_FD {
          shell.Close(prev);
        }
        return false, children;
      }
      var reader, writer := NO_FD, NO_FD;
      if i + 1 != n {
        reader, writer := shell.Pipe(i);
      }
      var child := new Process.Fork(shell);
      child.Wire(table, n, input, output, i, prev, reader, writer);
      children := children + [child];
      if prev != NO_FD {
        shell.Close(prev);
        prev := NO_FD;
      }
      if i + 1 != n {
        prev := reader;
        shell.Close(writer);
      }
    }
    success := true;
  }
}
