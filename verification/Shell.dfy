/** The profiling shell's executor: file descriptors juggled around redirections and pipes. */
module Shell {

  datatype Redirect = NoFile | ToFile(name: string)

  /** struct command; only simple commands, subshells, conditionals and loops carry redirections. */
  datatype Command =
    | Simple(words: seq<string>, input: Redirect, output: Redirect)
    | Sequence(first: Command, second: Command)
    | Subshell(body: Command, input: Redirect, output: Redirect)
    | Pipe(left: Command, right: Command)
    | If(test: Command, yes: Command, no: Command, input: Redirect, output: Redirect)
    | IfOnly(test: Command, yes: Command, input: Redirect, output: Redirect)
    | While(test: Command, body: Command, input: Redirect, output: Redirect)
    | Until(test: Command, body: Command, input: Redirect, output: Redirect)

  /** What a descriptor refers to. */
  datatype Desc = Inherited(n: nat) | Source(name: string) | Target(name: string) | PipeIn(id: nat) | PipeOut(id: nat)

  /** A program that was started, with its standard input and output, and the status with which it ends. */
  datatype Launch = Launch(words: seq<string>, stdin: Desc, stdout: Desc, status: nat)

  /** The outcome of the next call into the kernel: open, pipe, fork and exec succeed or not, and programs end with a status. */
  datatype Event = Event(ok: bool, status: nat)

  /** Everything outside the processes: outcomes still to come, pipes made so far, programs started so far. */
  datatype World = World(oracle: seq<Event>, pipes: nat, log: seq<Launch>)

  /** A process returns from execute_command, ends, or is still running when the known outcomes are used up. */
  datatype Outcome = Returned(status: nat) | Ended(code: nat) | Unfinished

  // ----- what a command means: redirections and pipes by lexical scope -----

  function Rest(w: World): World
    requires w.oracle != []
  {
    w.(oracle := w.oracle[1..])
  }

  datatype Scope = Scope(stdin: Desc, stdout: Desc) | NoSuchFile | Waiting

  /** The scope inside a command with these redirections. */
  function Inside(input: Redirect, output: Redirect, s: Scope, w: World): (r: (Scope, World))
    requires s.Scope?
    ensures |r.1.oracle| <= |w.oracle| && r.1.pipes == w.pipes && r.1.log == w.log
  {
    var (s1, w1) := if input.NoFile? then (s, w) else if w.oracle == [] then (Waiting, w)
                    else if w.oracle[0].ok then (Scope(Source(input.name), s.stdout), Rest(w)) else (NoSuchFile, Rest(w));
    if !s1.Scope? || output.NoFile? then (s1, w1) else if w1.oracle == [] then (Waiting, w1)
    else if w1.oracle[0].ok then (Scope(s1.stdin, Target(output.name)), Rest(w1)) else (NoSuchFile, Rest(w1))
  }

  /** exec of a program in a process with this scope. */
  function Run(words: seq<string>, s: Scope, w: World): (r: (Outcome, World))
    requires s.Scope?
    ensures |r.1.oracle| <= |w.oracle| && !r.0.Returned?
  {
    if w.oracle == [] then (Unfinished, w)
    else if !w.oracle[0].ok then (Ended(1), Rest(w))
    else (Ended(w.oracle[0].status % 256), Rest(w).(log := w.log + [Launch(words, s.stdin, s.stdout, w.oracle[0].status % 256)]))
  }

  /** The exit status that a parent gets from a child that ran to this outcome. */
  function Waited(o: Outcome): Outcome {
    match o
    case Returned(status) => Returned(status % 256)
    case Ended(code) => Returned(code % 256)
    case Unfinished => Unfinished
  }

  function Eval(c: Command, s: Scope, w: World): (r: (Outcome, World))
    requires s.Scope?
    ensures |r.1.oracle| <= |w.oracle| && (r.0.Returned? ==> |r.1.oracle| < |w.oracle|)
    decreases |w.oracle|, c, 1
  {
    match c
    case Simple(words, input, output) =>
      if words != [] && words[0] == "exec" then
        var (s1, w1) := Inside(input, output, s, w);
        if s1.Waiting? then (Unfinished, w1) else if s1.NoSuchFile? || |words| == 1 then (Ended(1), w1)
        else Run(words[1..], s1, w1)
      else if w.oracle == [] then (Unfinished, w)
      else if !w.oracle[0].ok then (Ended(1), Rest(w))
      else
        var (s1, w1) := Inside(input, output, s, Rest(w));
        if s1.Waiting? then (Unfinished, w1) else if s1.NoSuchFile? then (Returned(1), w1)
        else var (o, w2) := Run(words, s1, w1); (Waited(o), w2)
    case Sequence(first, second) =>
      var (o1, w1) := Eval(first, s, w);
      if o1.Returned? then Eval(second, s, w1) else (o1, w1)
    case Subshell(body, input, output) =>
      if w.oracle == [] then (Unfinished, w)
      else if !w.oracle[0].ok then (Ended(1), Rest(w))
      else
        var (s1, w1) := Inside(input, output, s, Rest(w));
        if s1.Waiting? then (Unfinished, w1) else if s1.NoSuchFile? then (Returned(1), w1)
        else var (o, w2) := Eval(body, s1, w1); (Waited(o), w2)
    case Pipe(left, right) =>
      if w.oracle == [] then (Unfinished, w)
      else if !w.oracle[0].ok then (Ended(1), Rest(w))
      else
        var id, w1 := w.pipes, Rest(w).(pipes := w.pipes + 1);
        if w1.oracle == [] then (Unfinished, w1)
        else if !w1.oracle[0].ok then (Ended(1), Rest(w1))
        else
          var (o1, w2) := Eval(left, Scope(s.stdin, PipeOut(id)), Rest(w1));
          if o1.Unfinished? then (Unfinished, w2) else Eval(right, Scope(PipeIn(id), s.stdout), w2)
    case If(test, yes, no, input, output) =>
      var (s1, w1) := Inside(input, output, s, w);
      if s1.Waiting? then (Unfinished, w1) else if s1.NoSuchFile? then (Ended(1), w1)
      else
        var (o, w2) := Eval(test, s1, w1);
        if !o.Returned? then (o, w2) else if o.status == 0 then Eval(yes, s1, w2) else Eval(no, s1, w2)
    case IfOnly(test, yes, input, output) =>
      var (s1, w1) := Inside(input, output, s, w);
      if s1.Waiting? then (Unfinished, w1) else if s1.NoSuchFile? then (Ended(1), w1)
      else
        var (o, w2) := Eval(test, s1, w1);
        if !o.Returned? then (o, w2) else if o.status == 0 then Eval(yes, s1, w2) else (Returned(0), w2)
    case While(test, body, input, output) =>
      var (s1, w1) := Inside(input, output, s, w);
      if s1.Waiting? then (Unfinished, w1) else if s1.NoSuchFile? then (Ended(1), w1)
      else Loop(c, 0, s1, w1)
    case Until(test, body, input, output) =>
      var (s1, w1) := Inside(input, output, s, w);
      if s1.Waiting? then (Unfinished, w1) else if s1.NoSuchFile? then (Ended(1), w1)
      else Loop(c, 0, s1, w1)
  }

  /** The rounds of a loop; the status is that of the last run of the body. */
  function Loop(c: Command, status: nat, s: Scope, w: World): (r: (Outcome, World))
    requires s.Scope? && (c.While? || c.Until?)
    ensures |r.1.oracle| <= |w.oracle| && (r.0.Returned? ==> |r.1.oracle| < |w.oracle|)
    decreases |w.oracle|, c, 0
  {
    var (o, w1) := Eval(c.test, s, w);
    if !o.Returned? then (o, w1)
    else if (o.status == 0) != c.While? then (Returned(status), w1)
    else
      var (o2, w2) := Eval(c.body, s, w1);
      if !o2.Returned? then (o2, w2) else Loop(c, o2.status, s, w2)
  }

  // ----- the executor -----

  /** The descriptors that set_redirect leaves to reset_redirect */
  datatype Fds = Fds(savedIn: int, savedOut: int, openIn: int, openOut: int)

  const NO_FDS: Fds := Fds(-1, -3, -3, -7)

  type Table = map<nat, Desc>

  function Below(n: nat): (s: set<nat>)
    ensures |s| == n && forall m: nat :: m in s <==> m < n
  {
    if n == 0 then {} else Below(n - 1) + {n - 1}
  }

  lemma SubsetIsSmaller(a: set<nat>, b: set<nat>)
    requires a <= b
    ensures |a| <= |b|
  {
    assert b == a + (b - a);
  }

  /** The table after a descriptor was put back from its saved copy, and both helpers were closed. */
  function PutBack(t: Table, fd: nat, saved: nat, openfd: nat): Table
    requires saved in t && saved != openfd
  {
    (t - {openfd})[fd := t[saved]] - {saved}
  }

  /** What reset_redirect needs to find, and what it then leaves. */
  ghost predicate Resets(t: Table, fds: Fds, t0: Table) {
    && (fds.openIn >= 0 ==> fds.savedIn >= 0 && fds.savedIn in t && fds.savedIn != fds.openIn)
    && var t1 := if fds.openIn >= 0 then PutBack(t, 0, fds.savedIn, fds.openIn) else t;
    && (fds.openOut >= 0 ==> fds.savedOut >= 0 && fds.savedOut in t1 && fds.savedOut != fds.openOut)
    && t0 == if fds.openOut >= 0 then PutBack(t1, 1, fds.savedOut, fds.openOut) else t1
  }

  /** Saving a descriptor and pointing it elsewhere can be put back. */
  lemma RedirectedPutsBack(t0: Table, fd: nat, openfd: nat, saved: nat, d: Desc)
    requires fd in t0 && openfd !in t0 && saved !in t0 && saved != openfd
    ensures PutBack(t0[openfd := d][saved := t0[fd]][fd := d], fd, saved, openfd) == t0
  {
  }

  class Process {
    var table: Table
    var world: World

    constructor (t: Table, w: World)
      ensures table == t && world == w
    {
      table, world := t, w;
    }

    /** The lowest free descriptor now refers to d. */
    method Allocate(d: Desc) returns (fd: nat)
      modifies `table
      ensures fd !in old(table) && (forall m: nat :: m < fd ==> m in old(table)) && table == old(table)[fd := d]
    {
      fd := 0;
      while fd in table
        invariant table == old(table) && forall m: nat :: m < fd ==> m in table
        invariant fd <= |table.Keys|
        decreases |table.Keys| - fd
      {
        SubsetIsSmaller(Below(fd + 1), table.Keys);
        fd := fd + 1;
      }
      table := table[fd := d];
    }

    /** A file is opened, the descriptor is saved and replaced by the file; an open that fails leaves everything as it is. */
    method RedirectOne(fd: nat, d: Desc) returns (s: Scope, saved: int, openfd: int)
      requires fd in table
      modifies this
      ensures world == (if old(world).oracle == [] then old(world) else Rest(old(world)))
      ensures s.Scope? <==> old(world).oracle != [] && old(world).oracle[0].ok
      ensures s.Waiting? <==> old(world).oracle == []
      ensures !s.Scope? ==> table == old(table)
      ensures s.Scope? ==> saved >= 0 && openfd >= 0 && saved != openfd && saved !in old(table) && openfd !in old(table)
      ensures s.Scope? ==> table == old(table)[openfd as nat := d][saved as nat := old(table)[fd]][fd := d]
    {
      saved, openfd := -1, -1;
      if world.oracle == [] {
        return Waiting, saved, openfd;
      }
      var ok := world.oracle[0].ok;
      world := Rest(world);
      if !ok {
        return NoSuchFile, saved, openfd;
      }
      openfd := Allocate(d);
      saved := Allocate(table[fd]);
      table := table[fd := table[openfd]];
      s := Scope(d, d);
    }

    /** set_redirect; a file that cannot be opened ends the process. */
    method SetRedirect(input: Redirect, output: Redirect) returns (s: Scope, fds: Fds)
      requires 0 in table && 1 in table
      modifies this
      ensures (s, world) == Inside(input, output, Scope(old(table)[0], old(table)[1]), old(world))
      ensures s.Scope? ==> 0 in table && 1 in table && table[0] == s.stdin && table[1] == s.stdout && Resets(table, fds, old(table))
      ensures s.Scope? ==> s.stdin == if input.ToFile? then Source(input.name) else old(table)[0]
      ensures s.Scope? ==> s.stdout == if output.ToFile? then Target(output.name) else old(table)[1]
    {
      fds := NO_FDS;
      s := Scope(table[0], table[1]);
      ghost var t0 := table;
      if input.ToFile? {
        var s1, saved, openfd := RedirectOne(0, Source(input.name));
        if !s1.Scope? {
          return s1, fds;
        }
        s := s.(stdin := Source(input.name));
        fds := fds.(savedIn := saved, openIn := openfd);
        RedirectedPutsBack(t0, 0, openfd, saved, Source(input.name));
      }
      ghost var t1 := table;
      if output.ToFile? {
        var s1, saved, openfd := RedirectOne(1, Target(output.name));
        if !s1.Scope? {
          return s1, fds;
        }
        s := s.(stdout := Target(output.name));
        fds := fds.(savedOut := saved, openOut := openfd);
        BothPutBack(t0, t1, table, fds, Target(output.name), s.stdin);
      }
    }

    /** reset_redirect */
    method ResetRedirect(fds: Fds, ghost t0: Table)
      requires Resets(table, fds, t0)
      modifies `table
      ensures table == t0
    {
      if fds.openIn >= 0 {
        table := table - {fds.openIn};
        table := table[0 := table[fds.savedIn]];
        table := table - {fds.savedIn};
      }
      if fds.openOut >= 0 {
        table := table - {fds.openOut};
        table := table[1 := table[fds.savedOut]];
        table := table - {fds.savedOut};
      }
    }

    /** execvp: a program that is found replaces the process, and the process ends when the program does. */
    method Exec(words: seq<string>) returns (o: Outcome)
      requires 0 in table && 1 in table
      modifies `world
      ensures (o, world) == Run(words, Scope(table[0], table[1]), old(world))
    {
      if world.oracle == [] {
        return Unfinished;
      }
      var e := world.oracle[0];
      world := Rest(world);
      if !e.ok {
        return Ended(1);
      }
      world := world.(log := world.log + [Launch(words, table[0], table[1], e.status % 256)]);
      o := Ended(e.status % 256);
    }

    /**
     * execute_command. Descriptors 0 and 1 are open. Every program gets the standard input and output of its place in
     * the command, and a call that returns leaves the descriptor table exactly as it found it.
     */
    method Execute(c: Command) returns (o: Outcome)
      requires 0 in table && 1 in table
      modifies this
      ensures (o, world) == Eval(c, Scope(old(table)[0], old(table)[1]), old(world))
      ensures o.Returned? ==> table == old(table)
      decreases |world.oracle|, c, 1
    {
      ghost var t0 := table;
      match c {
        case Simple(words, input, output) =>
          if words != [] && words[0] == "exec" {
            var s, fds := SetRedirect(input, output);
            if s.Waiting? {
              return Unfinished;
            }
            if s.NoSuchFile? || |words| == 1 {
              return Ended(1);
            }
            o := Exec(words[1..]);
            return;
          }
          if world.oracle == [] {
            return Unfinished;
          }
          var forked := world.oracle[0].ok;
          world := Rest(world);
          if !forked {
            return Ended(1);
          }
          var child := new Process(table, world);
          o := child.RunSimple(words, input, output);
          world := child.world;
          o := Waited(o);
        case Sequence(first, second) =>
          o := Execute(first);
          if o.Returned? {
            o := Execute(second);
          }
        case Subshell(body, input, output) =>
          if world.oracle == [] {
            return Unfinished;
          }
          var forked := world.oracle[0].ok;
          world := Rest(world);
          if !forked {
            return Ended(1);
          }
          var child := new Process(table, world);
          o := child.RunSubshell(body, input, output);
          world := child.world;
          o := Waited(o);
        case Pipe(left, right) =>
          o := ExecutePipe(left, right);
        case If(test, yes, no, input, output) =>
          var s, fds := SetRedirect(input, output);
          if !s.Scope? {
            return if s.Waiting? then Unfinished else Ended(1);
          }
          o := Execute(test);
          if o.Returned? {
            if o.status == 0 {
              o := Execute(yes);
            } else {
              o := Execute(no);
            }
          }
          if o.Returned? {
            ResetRedirect(fds, t0);
          }
        case IfOnly(test, yes, input, output) =>
          var s, fds := SetRedirect(input, output);
          if !s.Scope? {
            return if s.Waiting? then Unfinished else Ended(1);
          }
          o := Execute(test);
          if o.Returned? {
            if o.status == 0 {
              o := Execute(yes);
            } else {
              o := Returned(0);
            }
          }
          if o.Returned? {
            ResetRedirect(fds, t0);
          }
        case While(test, body, input, output) =>
          o := ExecuteLoop(c);
        case Until(test, body, input, output) =>
          o := ExecuteLoop(c);
      }
    }

    /** The child of a simple command. */
    method RunSimple(words: seq<string>, input: Redirect, output: Redirect) returns (o: Outcome)
      requires 0 in table && 1 in table
      modifies this
      ensures var (s1, w1) := Inside(input, output, Scope(old(table)[0], old(table)[1]), old(world));
              (o, world) == if s1.Waiting? then (Unfinished, w1) else if s1.NoSuchFile? then (Ended(1), w1) else Run(words, s1, w1)
    {
      var s, fds := SetRedirect(input, output);
      if s.Waiting? {
        return Unfinished;
      }
      if s.NoSuchFile? {
        return Ended(1);
      }
      o := Exec(words);
    }

    /** The child of a subshell. */
    method RunSubshell(body: Command, input: Redirect, output: Redirect) returns (o: Outcome)
      requires 0 in table && 1 in table
      modifies this
      ensures var (s1, w1) := Inside(input, output, Scope(old(table)[0], old(table)[1]), old(world));
              (o, world) == if s1.Waiting? then (Unfinished, w1) else if s1.NoSuchFile? then (Ended(1), w1) else Eval(body, s1, w1)
      decreases |world.oracle|, body, 2
    {
      ghost var t0 := table;
      var s, fds := SetRedirect(input, output);
      if s.Waiting? {
        return Unfinished;
      }
      if s.NoSuchFile? {
        return Ended(1);
      }
      o := Execute(body);
      if o.Returned? {
        ResetRedirect(fds, t0);
      }
    }

    method ExecutePipe(left: Command, right: Command) returns (o: Outcome)
      requires 0 in table && 1 in table
      modifies this
      ensures (o, world) == Eval(Pipe(left, right), Scope(old(table)[0], old(table)[1]), old(world))
      ensures o.Returned? ==> table == old(table)
      decreases |world.oracle|, Pipe(left, right), 0
    {
      ghost var t0 := table;
      if world.oracle == [] {
        return Unfinished;
      }
      var piped, id := world.oracle[0].ok, world.pipes;
      world := Rest(world);
      if !piped {
        return Ended(1);
      }
      world := world.(pipes := id + 1);
      var readEnd := Allocate(PipeIn(id));
      var writeEnd := Allocate(PipeOut(id));
      if world.oracle == [] {
        return Unfinished;
      }
      var forked := world.oracle[0].ok;
      world := Rest(world);
      if !forked {
        return Ended(1);
      }
      var child := new Process(table, world);
      o := child.RunLeft(left, readEnd, writeEnd);
      world := child.world;
      if o.Unfinished? {
        return;
      }
      o := RunRight(right, readEnd, writeEnd, id, t0);
    }

    /** The child in front of a pipe: it writes to the pipe, and its exit status is not used. */
    method RunLeft(left: Command, readEnd: nat, writeEnd: nat) returns (o: Outcome)
      requires 0 in table && 1 in table && readEnd in table && writeEnd in table && readEnd > 1 && writeEnd > 1
      modifies this
      ensures (o, world) == Eval(left, Scope(old(table)[0], old(table)[writeEnd]), old(world))
      decreases |world.oracle|, left, 2
    {
      table := table[1 := table[writeEnd]];
      table := table - {readEnd};
      o := Execute(left);
    }

    /** The parent behind a pipe: it reads from the pipe, and then gets its own standard input back. */
    method RunRight(right: Command, readEnd: nat, writeEnd: nat, ghost id: nat, ghost t0: Table) returns (o: Outcome)
      requires 0 in t0 && 1 in t0 && readEnd !in t0 && writeEnd !in t0 && readEnd != writeEnd
      requires table == t0[readEnd := PipeIn(id)][writeEnd := PipeOut(id)]
      modifies this
      ensures (o, world) == Eval(right, Scope(PipeIn(id), t0[1]), old(world))
      ensures o.Returned? ==> table == t0
      decreases |world.oracle|, right, 2
    {
      hide Eval;
      var saved := Allocate(table[0]);
      table := table - {writeEnd};
      table := table[0 := table[readEnd]];
      ghost var t1 := table;
      o := Execute(right);
      if o.Returned? {
        table := table[0 := table[saved]];
        table := table - {readEnd};
        table := table - {saved};
        assert table == t0;
      }
    }

    /** while and until */
    method ExecuteLoop(c: Command) returns (o: Outcome)
      requires 0 in table && 1 in table && (c.While? || c.Until?)
      modifies this
      ensures (o, world) == Eval(c, Scope(old(table)[0], old(table)[1]), old(world))
      ensures o.Returned? ==> table == old(table)
      decreases |world.oracle|, c, 0
    {
      ghost var t0 := table;
      var s, fds := SetRedirect(c.input, c.output);
      if !s.Scope? {
        return if s.Waiting? then Unfinished else Ended(1);
      }
      ghost var t1, total := table, Loop(c, 0, s, world);
      var status := 0;
      while true
        invariant table == t1 && Loop(c, status, s, world) == total
        decreases |world.oracle|
      {
        o := Execute(c.test);
        if !o.Returned? {
          return;
        }
        if (o.status == 0) != c.While? {
          break;
        }
        o := Execute(c.body);
        if !o.Returned? {
          return;
        }
        status := o.status;
      }
      o := Returned(status);
      ResetRedirect(fds, t0);
    }
  }

  /** Input is put back first although output was redirected last. */
  lemma BothPutBack(t0: Table, t1: Table, t: Table, fds: Fds, d: Desc, d0: Desc)
    requires 0 in t0 && 1 in t0 && fds.openOut >= 0 && fds.savedOut >= 0 && fds.openOut != fds.savedOut
    requires fds.openOut !in t1 && fds.savedOut !in t1 && 1 in t1
    requires t == t1[fds.openOut as nat := d][fds.savedOut as nat := t1[1]][1 := d]
    requires if fds.openIn < 0 then t1 == t0
             else fds.savedIn >= 0 && fds.savedIn !in t0 && fds.openIn !in t0 && fds.savedIn != fds.openIn
                  && t1 == t0[fds.openIn as nat := d0][fds.savedIn as nat := t0[0]][0 := d0]
    ensures Resets(t, fds, t0)
  {
  }

  // ----- who is connected to whom -----

  /** A program reads from and writes to its scope's ends, files it names, or pipes made while its command ran. */
  ghost predicate WellConnected(l: Launch, s: Scope, from: nat, to: nat)
    requires s.Scope?
  {
    && (l.stdin == s.stdin || l.stdin.Source? || (l.stdin.PipeIn? && from <= l.stdin.id < to))
    && (l.stdout == s.stdout || l.stdout.Target? || (l.stdout.PipeOut? && from <= l.stdout.id < to))
  }

  /** The log only grew, and all programs started since are well connected. */
  ghost predicate Grown(s: Scope, w: World, w': World)
    requires s.Scope?
  {
    && w.log <= w'.log && w.pipes <= w'.pipes
    && forall k :: |w.log| <= k < |w'.log| ==> WellConnected(w'.log[k], s, w.pipes, w'.pipes)
  }

  /** s1 is s with some ends replaced by files, or by pipes made since w. */
  ghost predicate Within(s1: Scope, s: Scope, w: World, w1: World)
    requires s.Scope?
  {
    && s1.Scope? && w.pipes <= w1.pipes
    && (s1.stdin == s.stdin || s1.stdin.Source? || (s1.stdin.PipeIn? && w.pipes <= s1.stdin.id < w1.pipes))
    && (s1.stdout == s.stdout || s1.stdout.Target? || (s1.stdout.PipeOut? && w.pipes <= s1.stdout.id < w1.pipes))
  }

  lemma GrownFurther(s: Scope, w: World, s1: Scope, w1: World, w2: World)
    requires s.Scope? && Grown(s, w, w1) && Within(s1, s, w, w1) && Grown(s1, w1, w2)
    ensures Grown(s, w, w2)
  {
    forall k | |w.log| <= k < |w2.log|
      ensures WellConnected(w2.log[k], s, w.pipes, w2.pipes)
    {
      if k < |w1.log| {
        assert w2.log[k] == w1.log[k];
      }
    }
  }

  lemma InsideIsWithin(input: Redirect, output: Redirect, s: Scope, w: World)
    requires s.Scope?
    ensures var (s1, w1) := Inside(input, output, s, w); s1.Scope? ==> Within(s1, s, w, w1)
    ensures var (s1, w1) := Inside(input, output, s, w); Grown(s, w, w1)
  {
  }

  lemma RunIsGrown(words: seq<string>, s: Scope, w: World)
    requires s.Scope?
    ensures Grown(s, w, Run(words, s, w).1)
  {
  }

  lemma SimpleConnects(words: seq<string>, input: Redirect, output: Redirect, s: Scope, w: World)
    requires s.Scope?
    ensures Grown(s, w, Eval(Simple(words, input, output), s, w).1)
  {
    if words != [] && words[0] == "exec" {
      InsideIsWithin(input, output, s, w);
      var (s1, w1) := Inside(input, output, s, w);
      if s1.Scope? {
        RunIsGrown(words[1..], s1, w1);
        GrownFurther(s, w, s1, w1, Run(words[1..], s1, w1).1);
      }
    } else if w.oracle != [] && w.oracle[0].ok {
      InsideIsWithin(input, output, s, Rest(w));
      var (s2, w2) := Inside(input, output, s, Rest(w));
      if s2.Scope? {
        RunIsGrown(words, s2, w2);
        GrownFurther(s, Rest(w), s2, w2, Run(words, s2, w2).1);
      }
    }
  }

  lemma {:induction false} IfConnects(c: Command, s: Scope, w: World)
    requires s.Scope? && (c.If? || c.IfOnly?)
    ensures Grown(s, w, Eval(c, s, w).1)
    decreases |w.oracle|, c, 0
  {
    hide Grown, Inside, Run;
    InsideIsWithin(c.input, c.output, s, w);
    var (s1, w1) := Inside(c.input, c.output, s, w);
    if s1.Scope? {
      EvalConnects(c.test, s1, w1);
      var (o, w2) := Eval(c.test, s1, w1);
      GrownFurther(s, w, s1, w1, w2);
      if o.Returned? && (o.status == 0 || c.If?) {
        var branch := if o.status == 0 then c.yes else c.no;
        EvalConnects(branch, s1, w2);
        GrownOnwards(s, w, s1, w1, w2, Eval(branch, s1, w2).1);
      }
    }
  }

  lemma GrownOnwards(s: Scope, w: World, s1: Scope, w1: World, w2: World, w3: World)
    requires s.Scope? && Grown(s, w, w1) && Within(s1, s, w, w1) && Grown(s1, w1, w2) && Grown(s1, w2, w3)
    ensures Grown(s, w, w3)
  {
    GrownFurther(s1, w1, s1, w2, w3);
    GrownFurther(s, w, s1, w1, w3);
  }

  /** No program is ever connected to a pipe that was made for another part of the script. */
  lemma {:induction false} EvalConnects(c: Command, s: Scope, w: World)
    requires s.Scope?
    ensures Grown(s, w, Eval(c, s, w).1)
    decreases |w.oracle|, c, 1
  {
    match c
    case Simple(words, input, output) =>
      SimpleConnects(words, input, output, s, w);
    case Sequence(first, second) =>
      EvalConnects(first, s, w);
      var (o1, w1) := Eval(first, s, w);
      if o1.Returned? {
        EvalConnects(second, s, w1);
        GrownFurther(s, w, s, w1, Eval(second, s, w1).1);
      }
    case Subshell(body, input, output) =>
      if w.oracle != [] && w.oracle[0].ok {
        InsideIsWithin(input, output, s, Rest(w));
        var (s1, w1) := Inside(input, output, s, Rest(w));
        if s1.Scope? {
          EvalConnects(body, s1, w1);
          GrownFurther(s, Rest(w), s1, w1, Eval(body, s1, w1).1);
        }
      }
    case Pipe(left, right) =>
      if w.oracle != [] && w.oracle[0].ok {
        var id, w1 := w.pipes, Rest(w).(pipes := w.pipes + 1);
        if w1.oracle != [] && w1.oracle[0].ok {
          var sl, sr := Scope(s.stdin, PipeOut(id)), Scope(PipeIn(id), s.stdout);
          var (o1, w2) := Eval(left, sl, Rest(w1));
          EvalConnects(left, sl, Rest(w1));
          GrownFurther(s, w, sl, Rest(w1), w2);
          if !o1.Unfinished? {
            EvalConnects(right, sr, w2);
            GrownFurther(s, w, sr, w2, Eval(right, sr, w2).1);
          }
        }
      }
    case If(_, _, _, _, _) =>
      IfConnects(c, s, w);
    case IfOnly(_, _, _, _) =>
      IfConnects(c, s, w);
    case While(_, _, input, output) =>
      InsideIsWithin(input, output, s, w);
      var (s1, w1) := Inside(input, output, s, w);
      if s1.Scope? {
        LoopConnects(c, 0, s1, w1);
        GrownFurther(s, w, s1, w1, Loop(c, 0, s1, w1).1);
      }
    case Until(_, _, input, output) =>
      InsideIsWithin(input, output, s, w);
      var (s1, w1) := Inside(input, output, s, w);
      if s1.Scope? {
        LoopConnects(c, 0, s1, w1);
        GrownFurther(s, w, s1, w1, Loop(c, 0, s1, w1).1);
      }
  }

  lemma {:induction false} LoopConnects(c: Command, status: nat, s: Scope, w: World)
    requires s.Scope? && (c.While? || c.Until?)
    ensures Grown(s, w, Loop(c, status, s, w).1)
    decreases |w.oracle|, c, 0
  {
    EvalConnects(c.test, s, w);
    var (o, w1) := Eval(c.test, s, w);
    if o.Returned? && (o.status == 0) == c.While? {
      EvalConnects(c.body, s, w1);
      var (o2, w2) := Eval(c.body, s, w1);
      GrownFurther(s, w, s, w1, w2);
      if o2.Returned? {
        LoopConnects(c, o2.status, s, w2);
        GrownFurther(s, w, s, w2, Loop(c, o2.status, s, w2).1);
      }
    }
  }
}
