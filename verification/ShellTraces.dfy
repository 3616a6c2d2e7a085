/** What a command does, told without descriptors, files and kernel calls: which programs run, and with what result. */
module ShellTraces {
  import opened Shell

  type Trace = seq<Launch>

  /**
   * A command may run exactly these programs, in this order and with these results, and come to this outcome. The outcome
   * Unfinished is that of a command which has got so far.
   */
  ghost predicate Traces(c: Command, tr: Trace, o: Outcome)
    decreases c, 1, 0
  {
    match c
    case Simple(words, _, _) =>
      if words != [] && words[0] == "exec" then
        if tr == [] then !o.Returned? && (o.Ended? ==> o.code == 1)
        else |words| > 1 && |tr| == 1 && tr[0].words == words[1..] && o == Ended(tr[0].status)
      else
        if tr == [] then Fails(o) || o == Returned(1)
        else |tr| == 1 && tr[0].words == words && o == Returned(tr[0].status)
    case Sequence(first, second) =>
      exists i, o1 :: 0 <= i <= |tr| && Traces(first, tr[..i], o1)
                      && if o1.Returned? then Traces(second, tr[i..], o) else i == |tr| && o == o1
    case Subshell(body, _, _) =>
      || (tr == [] && (Fails(o) || o == Returned(1)))
      || exists o1 :: Traces(body, tr, o1) && o == Reported(o1)
    case Pipe(left, right) =>
      || (tr == [] && Fails(o))
      || exists i, o1 :: 0 <= i <= |tr| && Traces(left, tr[..i], o1)
                         && if o1.Unfinished? then i == |tr| && o == o1 else Traces(right, tr[i..], o)
    case If(test, yes, no, _, _) =>
      || (tr == [] && Fails(o))
      || exists i, o1 :: 0 <= i <= |tr| && Traces(test, tr[..i], o1)
                         && (if !o1.Returned? then i == |tr| && o == o1
                             else if o1.status == 0 then Traces(yes, tr[i..], o) else Traces(no, tr[i..], o))
    case IfOnly(test, yes, _, _) =>
      || (tr == [] && Fails(o))
      || exists i, o1 :: 0 <= i <= |tr| && Traces(test, tr[..i], o1)
                         && (if !o1.Returned? then i == |tr| && o == o1
                             else if o1.status == 0 then Traces(yes, tr[i..], o) else i == |tr| && o == Returned(0))
    case While(_, _, _, _) => (tr == [] && Fails(o)) || exists n: nat :: Rounds(c, n, 0, tr, o)
    case Until(_, _, _, _) => (tr == [] && Fails(o)) || exists n: nat :: Rounds(c, n, 0, tr, o)
  }

  /** The status that a shell gets from a child: the lower eight bits, whether the child returned or ended. */
  function Reported(o: Outcome): Outcome {
    if o.Unfinished? then o else Returned((if o.Ended? then o.code else o.status) % 256)
  }

  /** A file that cannot be opened, or a pipe or process that cannot be made, ends the shell. */
  predicate Fails(o: Outcome) { o == Ended(1) || o == Unfinished }

  /** The test succeeds or fails as the loop wants it to, to go on. */
  predicate GoesOn(c: Command, status: nat) { (c.While? && status == 0) || (c.Until? && status != 0) }

  /** At most n rounds more of a loop, the last of which ended with this status. */
  ghost predicate Rounds(c: Command, n: nat, last: nat, tr: Trace, o: Outcome)
    requires c.While? || c.Until?
    decreases c, 0, 2 * n
  {
    exists i, o1 :: 0 <= i <= |tr| && Traces(c.test, tr[..i], o1)
                    && (if !o1.Returned? then i == |tr| && o == o1
                        else if !GoesOn(c, o1.status) then i == |tr| && o == Returned(last)
                        else n > 0 && Round(c, n - 1, tr[i..], o))
  }

  /** The body, and what follows it. */
  ghost predicate Round(c: Command, n: nat, tr: Trace, o: Outcome)
    requires c.While? || c.Until?
    decreases c, 0, 2 * n + 1
  {
    exists j, o2 :: 0 <= j <= |tr| && Traces(c.body, tr[..j], o2)
                    && if o2.Returned? then Rounds(c, n, o2.status, tr[j..], o) else j == |tr| && o == o2
  }

  // ----- the executor's runs are such traces -----

  /** What was launched between two worlds. */
  ghost predicate Ran(w: World, w': World, tr: Trace) { w'.log == w.log + tr }

  lemma RanBoth(w: World, w1: World, w2: World, t1: Trace, t2: Trace)
    requires Ran(w, w1, t1) && Ran(w1, w2, t2)
    ensures Ran(w, w2, t1 + t2) && (t1 + t2)[..|t1|] == t1 && (t1 + t2)[|t1|..] == t2
  {
  }

  lemma RanNothing(w: World, w': World)
    requires w'.log == w.log
    ensures Ran(w, w', [])
  {
  }

  lemma SimpleTraces(c: Command, s: Scope, w: World) returns (tr: Trace)
    requires s.Scope? && c.Simple?
    ensures Ran(w, Eval(c, s, w).1, tr) && Traces(c, tr, Eval(c, s, w).0)
  {
    var w' := Eval(c, s, w).1;
    tr := w'.log[|w.log|..];
  }

  /** Two commands one after the other, or connected by a pipe. */
  lemma BothAreTrace(c: Command, t1: Trace, o1: Outcome, t2: Trace, o: Outcome)
    requires c.Sequence? || c.Pipe?
    requires Traces(if c.Sequence? then c.first else c.left, t1, o1)
    requires if o1.Returned? || (o1.Ended? && c.Pipe?) then Traces(if c.Sequence? then c.second else c.right, t2, o) else t2 == [] && o == o1
    ensures Traces(c, t1 + t2, o)
  {
    var tr := t1 + t2;
    assert tr[..|t1|] == t1 && tr[|t1|..] == t2;
    if c.Pipe? {
      assert Traces(c.left, tr[..|t1|], o1);
      assert !o1.Unfinished? ==> Traces(c.right, tr[|t1|..], o);
    }
  }

  lemma {:induction false} SequenceTraces(c: Command, s: Scope, w: World) returns (tr: Trace)
    requires s.Scope? && c.Sequence?
    ensures Ran(w, Eval(c, s, w).1, tr) && Traces(c, tr, Eval(c, s, w).0)
    decreases |w.oracle|, c, 0
  {
    hide Traces;
    var (o1, w1) := Eval(c.first, s, w);
    var t1 := EvalTraces(c.first, s, w);
    var t2 := [];
    if o1.Returned? {
      t2 := EvalTraces(c.second, s, w1);
    }
    tr := t1 + t2;
    RanBoth(w, w1, Eval(c, s, w).1, t1, t2);
    BothAreTrace(c, t1, o1, t2, Eval(c, s, w).0);
  }

  lemma {:induction false} PipeTraces(c: Command, s: Scope, w: World) returns (tr: Trace)
    requires s.Scope? && c.Pipe?
    ensures Ran(w, Eval(c, s, w).1, tr) && Traces(c, tr, Eval(c, s, w).0)
    decreases |w.oracle|, c, 0
  {
    hide Traces;
    tr := [];
    if w.oracle != [] && w.oracle[0].ok {
      var id, w1 := w.pipes, Rest(w).(pipes := w.pipes + 1);
      if w1.oracle != [] && w1.oracle[0].ok {
        var sl, sr := Scope(s.stdin, PipeOut(id)), Scope(PipeIn(id), s.stdout);
        var (o1, w2) := Eval(c.left, sl, Rest(w1));
        var t1 := EvalTraces(c.left, sl, Rest(w1));
        var t2 := [];
        if !o1.Unfinished? {
          t2 := EvalTraces(c.right, sr, w2);
        }
        tr := t1 + t2;
        RanBoth(Rest(w1), w2, Eval(c, s, w).1, t1, t2);
        BothAreTrace(c, t1, o1, t2, Eval(c, s, w).0);
        return;
      }
    }
    NothingIsTrace(c, Eval(c, s, w).0);
  }

  /** A command that cannot even start */
  lemma NothingIsTrace(c: Command, o: Outcome)
    requires !c.Simple? && !c.Sequence? && Fails(o)
    ensures Traces(c, [], o)
  {
  }

  /** A test, and one branch or none. */
  lemma IfIsTrace(c: Command, t1: Trace, o1: Outcome, t2: Trace, o: Outcome)
    requires (c.If? || c.IfOnly?) && Traces(c.test, t1, o1)
    requires if o1.Returned? && o1.status == 0 then Traces(c.yes, t2, o)
             else if o1.Returned? && c.If? then Traces(c.no, t2, o)
             else t2 == [] && o == if o1.Returned? then Returned(0) else o1
    ensures Traces(c, t1 + t2, o)
  {
    assert (t1 + t2)[..|t1|] == t1 && (t1 + t2)[|t1|..] == t2;
  }

  lemma {:induction false} IfTraces(c: Command, s: Scope, w: World) returns (tr: Trace)
    requires s.Scope? && (c.If? || c.IfOnly?)
    ensures Ran(w, Eval(c, s, w).1, tr) && Traces(c, tr, Eval(c, s, w).0)
    decreases |w.oracle|, c, 0, 1
  {
    hide Traces;
    var (s1, w1) := Inside(c.input, c.output, s, w);
    if s1.Scope? {
      tr := BranchTraces(c, s1, w1);
    } else {
      tr := [];
      NothingIsTrace(c, Eval(c, s, w).0);
    }
  }

  /** The part of a conditional behind its redirections. */
  function Branch(c: Command, s: Scope, w: World): (Outcome, World)
    requires s.Scope? && (c.If? || c.IfOnly?)
  {
    var (o, w2) := Eval(c.test, s, w);
    if !o.Returned? then (o, w2) else if o.status == 0 then Eval(c.yes, s, w2) else if c.If? then Eval(c.no, s, w2) else (Returned(0), w2)
  }

  lemma {:induction false} BranchTraces(c: Command, s: Scope, w: World) returns (tr: Trace)
    requires s.Scope? && (c.If? || c.IfOnly?)
    ensures Ran(w, Branch(c, s, w).1, tr) && Traces(c, tr, Branch(c, s, w).0)
    decreases |w.oracle|, c, 0, 0
  {
    hide Eval, Traces;
    var (o1, w2) := Eval(c.test, s, w);
    var t1 := EvalTraces(c.test, s, w);
    var t2 := [];
    if o1.Returned? && (c.If? || o1.status == 0) {
      t2 := EvalTraces(if o1.status == 0 then c.yes else c.no, s, w2);
    }
    var (o, w3) := Branch(c, s, w);
    RanBoth(w, w2, w3, t1, t2);
    tr := t1 + t2;
    IfIsTrace(c, t1, o1, t2, o);
  }

  /** A test that ends the loop, or ends everything; or one round more. */
  lemma LastIsRounds(c: Command, last: nat, t1: Trace, o1: Outcome)
    requires (c.While? || c.Until?) && Traces(c.test, t1, o1) && !(o1.Returned? && GoesOn(c, o1.status))
    ensures Rounds(c, 0, last, t1, if o1.Returned? then Returned(last) else o1)
  {
    hide Traces, Round;
    var i := |t1|;
    assert t1[..i] == t1;
    assert Traces(c.test, t1[..i], o1);
  }

  lemma OneMoreIsRounds(c: Command, n: nat, last: nat, t1: Trace, o1: Outcome, t2: Trace, o2: Outcome, t3: Trace, o: Outcome)
    requires (c.While? || c.Until?) && Traces(c.test, t1, o1) && o1.Returned? && GoesOn(c, o1.status) && Traces(c.body, t2, o2)
    requires if o2.Returned? then Rounds(c, n, o2.status, t3, o) else t3 == [] && o == o2
    ensures Rounds(c, n + 1, last, t1 + (t2 + t3), o)
  {
    hide Traces;
    var t := t2 + t3;
    assert t[..|t2|] == t2 && t[|t2|..] == t3;
    assert Round(c, n, t, o);
    assert (t1 + t)[..|t1|] == t1 && (t1 + t)[|t1|..] == t;
  }

  lemma {:induction false} LoopTraces(c: Command, last: nat, s: Scope, w: World) returns (n: nat, tr: Trace)
    requires s.Scope? && (c.While? || c.Until?)
    ensures Ran(w, Loop(c, last, s, w).1, tr) && Rounds(c, n, last, tr, Loop(c, last, s, w).0)
    decreases |w.oracle|, c, 0, 0
  {
    hide Eval, Traces, Rounds;
    var (o1, w1) := Eval(c.test, s, w);
    var (o, w3) := Loop(c, last, s, w);
    var t1 := EvalTraces(c.test, s, w);
    n, tr := 0, t1;
    if o1.Returned? && GoesOn(c, o1.status) {
      var (o2, w2) := Eval(c.body, s, w1);
      var t2 := EvalTraces(c.body, s, w1);
      var t3 := [];
      if o2.Returned? {
        n, t3 := LoopTraces(c, o2.status, s, w2);
      }
      RanBoth(w1, w2, w3, t2, t3);
      RanBoth(w, w1, w3, t1, t2 + t3);
      tr := t1 + (t2 + t3);
      OneMoreIsRounds(c, n, last, t1, o1, t2, o2, t3, o);
      n := n + 1;
    } else {
      LastIsRounds(c, last, t1, o1);
    }
  }

  lemma SubshellIsTrace(c: Command, tr: Trace, o1: Outcome)
    requires c.Subshell? && Traces(c.body, tr, o1)
    ensures Traces(c, tr, Waited(o1))
  {
  }

  /**
   * Whatever execute_command runs, it runs in the order and under the conditions that the command states, and it reports
   * the status that the command states.
   */
  lemma {:induction false} EvalTraces(c: Command, s: Scope, w: World) returns (tr: Trace)
    requires s.Scope?
    ensures Ran(w, Eval(c, s, w).1, tr) && Traces(c, tr, Eval(c, s, w).0)
    decreases |w.oracle|, c, 1
  {
    match c
    case Simple(_, _, _) => tr := SimpleTraces(c, s, w);
    case Sequence(_, _) => tr := SequenceTraces(c, s, w);
    case Pipe(_, _) => tr := PipeTraces(c, s, w);
    case If(_, _, _, _, _) => tr := IfTraces(c, s, w);
    case IfOnly(_, _, _, _) => tr := IfTraces(c, s, w);
    case Subshell(body, input, output) =>
      tr := [];
      if w.oracle != [] && w.oracle[0].ok {
        var (s1, w1) := Inside(input, output, s, Rest(w));
        if s1.Scope? {
          tr := EvalTraces(body, s1, w1);
          SubshellIsTrace(c, tr, Eval(body, s1, w1).0);
        }
      }
    case While(_, _, _, _) => tr := WholeLoopTraces(c, s, w);
    case Until(_, _, _, _) => tr := WholeLoopTraces(c, s, w);
  }

  lemma {:induction false} WholeLoopTraces(c: Command, s: Scope, w: World) returns (tr: Trace)
    requires s.Scope? && (c.While? || c.Until?)
    ensures Ran(w, Eval(c, s, w).1, tr) && Traces(c, tr, Eval(c, s, w).0)
    decreases |w.oracle|, c, 0, 1
  {
    hide Rounds;
    var (s1, w1) := Inside(c.input, c.output, s, w);
    tr := [];
    if s1.Scope? {
      var n;
      n, tr := LoopTraces(c, 0, s1, w1);
    }
  }

  // ----- laws -----

  /** The programs that a command names. */
  function Programs(c: Command): set<seq<string>> {
    match c
    case Simple(words, _, _) => if words != [] && words[0] == "exec" then (if |words| > 1 then {words[1..]} else {}) else {words}
    case Sequence(first, second) => Programs(first) + Programs(second)
    case Subshell(body, _, _) => Programs(body)
    case Pipe(left, right) => Programs(left) + Programs(right)
    case If(test, yes, no, _, _) => Programs(test) + Programs(yes) + Programs(no)
    case IfOnly(test, yes, _, _) => Programs(test) + Programs(yes)
    case While(test, body, _, _) => Programs(test) + Programs(body)
    case Until(test, body, _, _) => Programs(test) + Programs(body)
  }

  ghost predicate AllIn(tr: Trace, ps: set<seq<string>>) { forall k :: 0 <= k < |tr| ==> tr[k].words in ps }

  lemma InParts(tr: Trace, i: nat, ps: set<seq<string>>)
    requires i <= |tr| && AllIn(tr[..i], ps) && AllIn(tr[i..], ps)
    ensures AllIn(tr, ps)
  {
    assert tr == tr[..i] + tr[i..];
  }

  /** A command runs only programs that it names. */
  lemma {:induction false} TracesInside(c: Command, tr: Trace, o: Outcome)
    requires Traces(c, tr, o)
    ensures AllIn(tr, Programs(c))
    decreases c, 1, 0
  {
    match c
    case Simple(_, _, _) =>
    case Sequence(first, second) =>
      var i, o1 :| 0 <= i <= |tr| && Traces(first, tr[..i], o1) && if o1.Returned? then Traces(second, tr[i..], o) else i == |tr| && o == o1;
      TracesInside(first, tr[..i], o1);
      if o1.Returned? { TracesInside(second, tr[i..], o); }
      InParts(tr, i, Programs(c));
    case Subshell(body, _, _) =>
      if tr != [] {
        var o1 :| Traces(body, tr, o1) && o == Reported(o1);
        TracesInside(body, tr, o1);
      }
    case Pipe(left, right) =>
      if tr != [] {
        var i, o1 :| 0 <= i <= |tr| && Traces(left, tr[..i], o1) && if o1.Unfinished? then i == |tr| && o == o1 else Traces(right, tr[i..], o);
        TracesInside(left, tr[..i], o1);
        if !o1.Unfinished? { TracesInside(right, tr[i..], o); }
        InParts(tr, i, Programs(c));
      }
    case If(test, yes, no, _, _) =>
      if tr != [] {
        var i, o1 :| 0 <= i <= |tr| && Traces(test, tr[..i], o1)
                     && (if !o1.Returned? then i == |tr| && o == o1
                         else if o1.status == 0 then Traces(yes, tr[i..], o) else Traces(no, tr[i..], o));
        TracesInside(test, tr[..i], o1);
        if o1.Returned? { TracesInside(if o1.status == 0 then yes else no, tr[i..], o); }
        InParts(tr, i, Programs(c));
      }
    case IfOnly(test, yes, _, _) =>
      if tr != [] {
        var i, o1 :| 0 <= i <= |tr| && Traces(test, tr[..i], o1)
                     && (if !o1.Returned? then i == |tr| && o == o1
                         else if o1.status == 0 then Traces(yes, tr[i..], o) else i == |tr| && o == Returned(0));
        TracesInside(test, tr[..i], o1);
        if o1.Returned? && o1.status == 0 { TracesInside(yes, tr[i..], o); }
        InParts(tr, i, Programs(c));
      }
    case While(_, _, _, _) =>
      if tr != [] {
        var n: nat :| Rounds(c, n, 0, tr, o);
        RoundsInside(c, n, 0, tr, o);
      }
    case Until(_, _, _, _) =>
      if tr != [] {
        var n: nat :| Rounds(c, n, 0, tr, o);
        RoundsInside(c, n, 0, tr, o);
      }
  }

  lemma {:induction false} RoundsInside(c: Command, n: nat, last: nat, tr: Trace, o: Outcome)
    requires (c.While? || c.Until?) && Rounds(c, n, last, tr, o)
    ensures AllIn(tr, Programs(c))
    decreases c, 0, n
  {
    hide Traces;
    var i, o1 :| 0 <= i <= |tr| && Traces(c.test, tr[..i], o1)
                 && (if !o1.Returned? then i == |tr| && o == o1
                     else if !GoesOn(c, o1.status) then i == |tr| && o == Returned(last) else n > 0 && Round(c, n - 1, tr[i..], o));
    TracesInside(c.test, tr[..i], o1);
    if o1.Returned? && GoesOn(c, o1.status) {
      var t := tr[i..];
      var j, o2 :| 0 <= j <= |t| && Traces(c.body, t[..j], o2) && if o2.Returned? then Rounds(c, n - 1, o2.status, t[j..], o) else j == |t| && o == o2;
      TracesInside(c.body, t[..j], o2);
      if o2.Returned? { RoundsInside(c, n - 1, o2.status, t[j..], o); }
      InParts(t, j, Programs(c));
    }
    InParts(tr, i, Programs(c));
  }

  /** Once the test of a conditional has returned, only programs of the branch run that its status selects. */
  lemma IfRunsOneBranch(c: Command, s: Scope, w: World) returns (t1: Trace, t2: Trace)
    requires s.Scope? && c.If? && Inside(c.input, c.output, s, w).0.Scope?
    requires var (s1, w1) := Inside(c.input, c.output, s, w); Eval(c.test, s1, w1).0.Returned?
    ensures var (s1, w1) := Inside(c.input, c.output, s, w); var (o1, w2) := Eval(c.test, s1, w1); var w3 := Eval(c, s, w).1;
            && Ran(w, w2, t1) && AllIn(t1, Programs(c.test))
            && Ran(w2, w3, t2) && AllIn(t2, if o1.status == 0 then Programs(c.yes) else Programs(c.no))
  {
    hide Traces, Programs;
    var (s1, w1) := Inside(c.input, c.output, s, w);
    var (o1, w2) := Eval(c.test, s1, w1);
    t1 := EvalTraces(c.test, s1, w1);
    TracesInside(c.test, t1, o1);
    var branch := if o1.status == 0 then c.yes else c.no;
    t2 := EvalTraces(branch, s1, w2);
    TracesInside(branch, t2, Eval(branch, s1, w2).0);
  }

  function Second(c: Command): Command
    requires c.Sequence? || c.Pipe?
  {
    if c.Sequence? then c.second else c.right
  }

  /** A sequence or a pipe that returns, returns what its second part has just returned. */
  lemma SecondDecides(c: Command, s: Scope, w: World)
    requires s.Scope? && (c.Sequence? || c.Pipe?) && Eval(c, s, w).0.Returned?
    ensures exists s2: Scope, w2: World :: s2.Scope? && Eval(Second(c), s2, w2) == Eval(c, s, w)
  {
    if c.Sequence? {
      var (o1, w1) := Eval(c.first, s, w);
      assert Eval(Second(c), s, w1) == Eval(c, s, w);
    } else {
      var id, w1 := w.pipes, Rest(w).(pipes := w.pipes + 1);
      var (o1, w2) := Eval(c.left, Scope(s.stdin, PipeOut(id)), Rest(w1));
      assert Eval(Second(c), Scope(PipeIn(id), s.stdout), w2) == Eval(c, s, w);
    }
  }

  /**
   * A while loop that returns does so right after a test that failed, an until loop right after one that succeeded; what
   * it returns is what the last run of its body returned, and 0 if there was none.
   */
  ghost predicate EndsWithTest(c: Command, last: nat, s: Scope, w: World, st: nat, w': World)
    requires s.Scope? && (c.While? || c.Until?)
  {
    exists wt: World, st1: nat ::
      && Eval(c.test, s, wt) == (Returned(st1), w') && (c.While? ==> st1 != 0) && (c.Until? ==> st1 == 0)
      && ((wt == w && st == last) || exists wb: World :: Eval(c.body, s, wb) == (Returned(st), wt))
  }

  lemma {:induction false} LoopReturns(c: Command, last: nat, s: Scope, w: World)
    requires s.Scope? && (c.While? || c.Until?) && Loop(c, last, s, w).0.Returned?
    ensures EndsWithTest(c, last, s, w, Loop(c, last, s, w).0.status, Loop(c, last, s, w).1)
    decreases |w.oracle|
  {
    hide Eval;
    var (o1, w1) := Eval(c.test, s, w);
    if GoesOn(c, o1.status) {
      var (o2, w2) := Eval(c.body, s, w1);
      LoopReturns(c, o2.status, s, w2);
      assert Eval(c.body, s, w1) == (Returned(o2.status), w2);
    }
  }

  lemma LoopEndsWithTest(c: Command, s: Scope, w: World)
    requires s.Scope? && (c.While? || c.Until?) && Eval(c, s, w).0.Returned?
    ensures var (s1, w1) := Inside(c.input, c.output, s, w);
            s1.Scope? && EndsWithTest(c, 0, s1, w1, Eval(c, s, w).0.status, Eval(c, s, w).1)
  {
    var (s1, w1) := Inside(c.input, c.output, s, w);
    LoopReturns(c, 0, s1, w1);
  }

  /** A program without redirections, when nothing fails */
  lemma SimpleRuns(words: seq<string>, status: nat, s: Scope, rest: seq<Event>, pipes: nat, log: Trace)
    requires s.Scope? && words != [] && words[0] != "exec" && status < 256
    ensures Eval(Simple(words, NoFile, NoFile), s, World([Event(true, 0), Event(true, status)] + rest, pipes, log))
            == (Returned(status), World(rest, pipes, log + [Launch(words, s.stdin, s.stdout, status)]))
  {
    var o := [Event(true, 0), Event(true, status)] + rest;
    assert o[1..] == [Event(true, status)] + rest && o[1..][1..] == rest;
  }

  /** Without redirections */
  lemma Plain(c: Command, s: Scope, w: World)
    requires s.Scope? && (c.If? || c.While?) && c.input.NoFile? && c.output.NoFile?
    ensures Eval(c, s, w) == if c.If? then Branch(c, s, w) else Loop(c, 0, s, w)
  {
  }

  const TRUE: Command := Simple(["true"], NoFile, NoFile)
  const A: Command := Simple(["a"], NoFile, NoFile)
  const B: Command := Simple(["b"], NoFile, NoFile)
  const OK: Event := Event(true, 0)

  /** if true; then a; else b; fi, when nothing fails and a ends with 2 */
  lemma IfExample(s: Scope)
    requires s.Scope?
    ensures Eval(If(TRUE, A, B, NoFile, NoFile), s, World([OK, OK, OK, Event(true, 2)], 0, []))
            == (Returned(2), World([], 0, [Launch(["true"], s.stdin, s.stdout, 0), Launch(["a"], s.stdin, s.stdout, 2)]))
  {
    hide Eval;
    var ran, ranA := Launch(["true"], s.stdin, s.stdout, 0), Launch(["a"], s.stdin, s.stdout, 2);
    var last := [OK, Event(true, 2)];
    var w, w1 := World([OK, OK, OK, Event(true, 2)], 0, []), World(last, 0, [ran]);
    SimpleRuns(["true"], 0, s, last, 0, []);
    SimpleRuns(["a"], 2, s, [], 0, [ran]);
    assert [OK, OK] + last == w.oracle && last + [] == last && [] + [ran] == [ran] && [ran] + [ranA] == [ran, ranA];
    assert Eval(TRUE, s, w) == (Returned(0), w1);
    assert Eval(A, s, w1) == (Returned(2), World([], 0, [ran, ranA]));
    Plain(If(TRUE, A, B, NoFile, NoFile), s, w);
  }

  /** true < in | a > out, when nothing fails: a new pipe between the two, and the files at the ends */
  lemma PipeExample(s: Scope, pipes: nat)
    requires s.Scope?
    ensures Eval(Pipe(Simple(["true"], ToFile("in"), NoFile), Simple(["a"], NoFile, ToFile("out"))), s,
                 World([OK, OK, OK, OK, OK, OK, OK, Event(true, 3)], pipes, []))
            == (Returned(3), World([], pipes + 1, [Launch(["true"], Source("in"), PipeOut(pipes), 0), Launch(["a"], PipeIn(pipes), Target("out"), 3)]))
  {
    hide Eval;
    var ran, ranA := Launch(["true"], Source("in"), PipeOut(pipes), 0), Launch(["a"], PipeIn(pipes), Target("out"), 3);
    var three := [OK, OK, Event(true, 3)];
    var left, right := Simple(["true"], ToFile("in"), NoFile), Simple(["a"], NoFile, ToFile("out"));
    var w := World([OK, OK, OK, OK, OK, OK, OK, Event(true, 3)], pipes, []);
    var w1, w2 := World([OK, OK, OK] + three, pipes + 1, []), World(three, pipes + 1, [ran]);
    assert [] + [ran] == [ran] && [ran] + [ranA] == [ran, ranA] && three + [] == three;
    RedirectedRuns(["true"], "in", true, 0, Scope(s.stdin, PipeOut(pipes)), three, pipes + 1, []);
    RedirectedRuns(["a"], "out", false, 3, Scope(PipeIn(pipes), s.stdout), [], pipes + 1, [ran]);
    assert Eval(left, Scope(s.stdin, PipeOut(pipes)), w1) == (Returned(0), w2);
    assert Eval(right, Scope(PipeIn(pipes), s.stdout), w2) == (Returned(3), World([], pipes + 1, [ran, ranA]));
    assert w.oracle[2..] == [OK, OK, OK] + three;
    PipeRuns(left, right, s, w, w1);
  }

  /** A program with one redirection, when nothing fails */
  lemma RedirectedRuns(words: seq<string>, name: string, input: bool, status: nat, s: Scope, rest: seq<Event>, pipes: nat, log: Trace)
    requires s.Scope? && words != [] && words[0] != "exec" && status < 256
    ensures Eval(Simple(words, if input then ToFile(name) else NoFile, if input then NoFile else ToFile(name)), s,
                 World([OK, OK, Event(true, status)] + rest, pipes, log))
            == (Returned(status), World(rest, pipes, log + [if input then Launch(words, Source(name), s.stdout, status)
                                                            else Launch(words, s.stdin, Target(name), status)]))
  {
    var o := [OK, OK, Event(true, status)] + rest;
    assert o[1..] == [OK, Event(true, status)] + rest && o[1..][1..] == [Event(true, status)] + rest && o[1..][1..][1..] == rest;
  }

  lemma PipeRuns(left: Command, right: Command, s: Scope, w: World, w1: World)
    requires s.Scope? && |w.oracle| >= 2 && w.oracle[0].ok && w.oracle[1].ok && w1 == World(w.oracle[2..], w.pipes + 1, w.log)
    requires var (o1, w2) := Eval(left, Scope(s.stdin, PipeOut(w.pipes)), w1); !o1.Unfinished?
    ensures var (o1, w2) := Eval(left, Scope(s.stdin, PipeOut(w.pipes)), w1);
            Eval(Pipe(left, right), s, w) == Eval(right, Scope(PipeIn(w.pipes), s.stdout), w2)
  {
    assert w.oracle[1..][1..] == w.oracle[2..];
  }

  /** while true; do a; done, when nothing fails, a ends with 2, and the second test with 1 */
  lemma WhileExample(s: Scope)
    requires s.Scope?
    ensures Eval(While(TRUE, A, NoFile, NoFile), s, World([OK, OK, OK, Event(true, 2), OK, Event(true, 1)], 0, []))
            == (Returned(2), World([], 0, [Launch(["true"], s.stdin, s.stdout, 0), Launch(["a"], s.stdin, s.stdout, 2),
                                           Launch(["true"], s.stdin, s.stdout, 1)]))
  {
    hide Eval;
    var ran, ranA, ranB := Launch(["true"], s.stdin, s.stdout, 0), Launch(["a"], s.stdin, s.stdout, 2), Launch(["true"], s.stdin, s.stdout, 1);
    var middle, last := [OK, Event(true, 2)], [OK, Event(true, 1)];
    var w0, w1 := World([OK, OK, OK, Event(true, 2), OK, Event(true, 1)], 0, []), World(middle + last, 0, [ran]);
    var w2, w3 := World(last, 0, [ran, ranA]), World([], 0, [ran, ranA, ranB]);
    SimpleRuns(["true"], 0, s, middle + last, 0, []);
    SimpleRuns(["a"], 2, s, last, 0, [ran]);
    SimpleRuns(["true"], 1, s, [], 0, [ran, ranA]);
    assert [OK, OK] + (middle + last) == w0.oracle && last + [] == last;
    assert [] + [ran] == [ran] && [ran] + [ranA] == [ran, ranA] && [ran, ranA] + [ranB] == w3.log;
    assert Eval(TRUE, s, w0) == (Returned(0), w1);
    assert Eval(A, s, w1) == (Returned(2), w2);
    assert Eval(TRUE, s, w2) == (Returned(1), w3);
    var c := While(TRUE, A, NoFile, NoFile);
    Plain(c, s, w0);
    assert Loop(c, 2, s, w2) == (Returned(2), w3);
  }
}
