/** The evaluation loop of src/main.rs: the statement buffer `lines`, the pending continuation
    `unfinished_line`, and the action run on every submitted line, with `interpret_code`
    (compile the program, then run it) as an oracle `interpret: string -> bool` that says
    whether the toolchain accepted a program text. */
module Repl {
  import opened Wrappers
  import Text
  import ProgramText

  /** The continuation marker: a trimmed line ending in a backslash continues on the next line. */
  const Marker: char := '\\'

  /** What `match app.line()` makes of a submitted line: the control words are compared with
      the line exactly as submitted, before any trimming. */
  datatype Command = Clear | Exit | Source

  function Classify(line: string): Command {
    if line == "clear" || line == "c" then Clear
    else if line == "exit" || line == "e" then Exit
    else Source
  }

  /** The text a line is appended to: the pending continuation, or a fresh `;` terminator. */
  function Start(pending: Option<string>): string {
    match pending
    case Some(p) => p
    case None => ";"
  }

  /** What the accumulator makes of a code line: a new pending continuation, or a finished
      statement for the buffer. */
  datatype Fed = Parked(pending: string) | Finished(statement: string)

  /** Trim the line, append it to the start text, and either drop the marker and park the
      result or finish it as a statement. */
  function Accumulate(pending: Option<string>, line: string): Fed {
    var t := Text.Trim(line);
    var joined := Start(pending) + t;
    if Text.EndsWith(t, Marker) then Parked(joined[..|joined| - 1]) else Finished(joined)
  }

  /** The state the action closure captures, plus whether `app.exit()` has been called. */
  datatype SessionState = SessionState(lines: seq<string>, pending: Option<string>, exited: bool)

  /** `let mut lines = Vec::new(); let mut unfinished_line = None;` */
  const Initial: SessionState := SessionState([], None, false)

  /** One run of the action closure on a submitted line. */
  function Transition(st: SessionState, line: string, interpret: string -> bool): SessionState {
    match Classify(line)
    case Clear => st.(lines := [])
    case Exit => st.(exited := true)
    case Source =>
      match Accumulate(st.pending, line)
      case Parked(p) => st.(pending := Some(p))
      case Finished(s) =>
        var tentative := st.lines + [s];
        st.(pending := None, lines := if interpret(ProgramText.Code(tentative)) then tentative else st.lines)
  }

  /** The program text the action hands to `interpret_code` for this line, if it hands one. */
  function Submitted(st: SessionState, line: string): Option<string> {
    match Classify(line)
    case Source =>
      (match Accumulate(st.pending, line)
       case Finished(s) => Some(ProgramText.Code(st.lines + [s]))
       case Parked(_) => None)
    case _ => None
  }

  /** The programs the oracle accepted during this step: none, or the one submitted. */
  function Admitted(st: SessionState, line: string, interpret: string -> bool): set<string> {
    match Submitted(st, line)
    case Some(p) => if interpret(p) then {p} else {}
    case None => {}
  }

  /** `app.run()`: the action on each line in turn until the exit word has been seen, with one
      toolchain behaviour for the whole session. */
  function Run(st: SessionState, inputs: seq<string>, interpret: string -> bool): SessionState
    decreases |inputs|
  {
    if inputs == [] || st.exited then st else Run(Transition(st, inputs[0], interpret), inputs[1..], interpret)
  }

  // Invariants of the session state.

  predicate Terminated(s: string) {
    |s| > 0 && s[0] == ';'
  }

  /** Every buffered statement and the pending text begin with the `;` a fresh line gets. */
  predicate WellFormed(st: SessionState) {
    (forall j :: 0 <= j < |st.lines| ==> Terminated(st.lines[j]))
    && (st.pending.Some? ==> Terminated(st.pending.value))
  }

  /** Buffer soundness: every non-empty prefix of the buffer is a program the toolchain
      accepted, namely the one submitted when that prefix's last statement was pushed. */
  ghost predicate SoundUnder(lines: seq<string>, accepts: string -> bool) {
    forall k :: 0 < k <= |lines| ==> accepts(ProgramText.Code(lines[..k]))
  }

  // Properties of one step.

  /** The four control words, and only they, are commands; everything else is code. */
  lemma ControlWords(st: SessionState, line: string, interpret: string -> bool)
    ensures Classify(line) == Clear <==> line == "clear" || line == "c"
    ensures Classify(line) == Exit <==> line == "exit" || line == "e"
    ensures Classify(line) == Clear ==> Transition(st, line, interpret) == st.(lines := [])
    ensures Classify(line) == Exit ==> Transition(st, line, interpret) == st.(exited := true)
    ensures !Classify(line).Source? ==> Submitted(st, line) == None
  {
  }

  /** A control word is never pushed as code: after it the buffer is empty or as before. */
  lemma ControlNeverBuffered(st: SessionState, line: string, interpret: string -> bool)
    requires line in ["clear", "c", "exit", "e"]
    ensures var next := Transition(st, line, interpret);
            next.pending == st.pending && (next.lines == [] || next.lines == st.lines)
            && Submitted(st, line) == None
  {
  }

  /** Without pending text, a finished line becomes `;` followed by the trimmed line. */
  lemma FreshStatement(st: SessionState, line: string, interpret: string -> bool)
    requires st.pending == None && Classify(line).Source?
    requires !Text.EndsWith(Text.Trim(line), Marker)
    ensures Accumulate(st.pending, line) == Finished(";" + Text.Trim(line))
    ensures Transition(st, line, interpret).pending == None
    ensures Submitted(st, line) == Some(ProgramText.Code(st.lines + [";" + Text.Trim(line)]))
  {
  }

  /** With pending text `p`, a finished line is appended to `p` with nothing in between. */
  lemma ContinuationJoins(st: SessionState, line: string, interpret: string -> bool)
    requires st.pending.Some? && Classify(line).Source?
    requires !Text.EndsWith(Text.Trim(line), Marker)
    ensures Accumulate(st.pending, line) == Finished(st.pending.value + Text.Trim(line))
    ensures Transition(st, line, interpret).pending == None
  {
  }

  /** A continued line's contribution to the pending text: its trimmed form without the
      final marker. */
  function Unmark(line: string): string {
    var t := Text.Trim(line);
    if t == [] then t else t[..|t| - 1]
  }

  /** A line whose trimmed form ends in the marker is parked without the marker: the buffer
      and the exit flag are untouched and the oracle is not consulted. */
  lemma ContinuationParks(st: SessionState, line: string, interpret: string -> bool, other: string -> bool)
    requires Classify(line).Source? && Text.EndsWith(Text.Trim(line), Marker)
    ensures Transition(st, line, interpret) == st.(pending := Some(Start(st.pending) + Unmark(line)))
    ensures Unmark(line) + [Marker] == Text.Trim(line)
    ensures Transition(st, line, interpret) == Transition(st, line, other)
    ensures Submitted(st, line) == None
  {
    var t := Text.Trim(line);
    var joined := Start(st.pending) + t;
    assert joined[..|joined| - 1] == Start(st.pending) + t[..|t| - 1];
    assert t == t[..|t| - 1] + [Marker];
  }

  /** A finished statement `s` is pushed for good when the oracle accepts the program with
      `s` appended, and rolled back otherwise, leaving the buffer exactly as it was. */
  lemma CommitOrRollback(st: SessionState, line: string, interpret: string -> bool, s: string)
    requires Classify(line).Source? && Accumulate(st.pending, line) == Finished(s)
    ensures Submitted(st, line) == Some(ProgramText.Code(st.lines + [s]))
    ensures var next := Transition(st, line, interpret);
            next.pending == None && next.exited == st.exited
            && (interpret(ProgramText.Code(st.lines + [s])) ==> next.lines == st.lines + [s])
            && (!interpret(ProgramText.Code(st.lines + [s])) ==> next.lines == st.lines)
  {
  }

  /** The buffer changes by at most one statement per step, or is emptied by `clear`. */
  lemma BufferChange(st: SessionState, line: string, interpret: string -> bool)
    ensures var next := Transition(st, line, interpret);
            next.lines == [] || next.lines == st.lines
            || (|next.lines| == |st.lines| + 1 && next.lines[..|st.lines|] == st.lines
                && Submitted(st, line) == Some(ProgramText.Code(next.lines)) && interpret(ProgramText.Code(next.lines)))
  {
  }

  /** The two-line example: `let x = 1 \` then `+ 2` finishes as `;let x = 1 + 2`. */
  lemma ContinuationExample()
    ensures Accumulate(None, "let x = 1 \\") == Parked(";let x = 1 ")
    ensures Accumulate(Some(";let x = 1 "), "+ 2") == Finished(";let x = 1 + 2")
  {
  }

  /** A step keeps every statement and the pending text terminated. */
  lemma TransitionWellFormed(st: SessionState, line: string, interpret: string -> bool)
    requires WellFormed(st)
    ensures WellFormed(Transition(st, line, interpret))
  {
  }

  /** A step keeps the buffer sound, given that the oracle's verdict on the program it was
      handed is accepted. */
  lemma TransitionSound(st: SessionState, line: string, interpret: string -> bool, accepts: string -> bool)
    requires SoundUnder(st.lines, accepts)
    requires Submitted(st, line).Some? && interpret(Submitted(st, line).value) ==> accepts(Submitted(st, line).value)
    ensures SoundUnder(Transition(st, line, interpret).lines, accepts)
  {
    var next := Transition(st, line, interpret);
    if Classify(line).Source? && Accumulate(st.pending, line).Finished? && next.lines != st.lines {
      SoundPush(st.lines, Accumulate(st.pending, line).statement, accepts);
    }
  }

  /** Pushing a statement whose program was accepted keeps the buffer sound. */
  lemma SoundPush(lines: seq<string>, s: string, accepts: string -> bool)
    requires SoundUnder(lines, accepts) && accepts(ProgramText.Code(lines + [s]))
    ensures SoundUnder(lines + [s], accepts)
  {
    var next := lines + [s];
    forall k | 0 < k <= |next|
      ensures accepts(ProgramText.Code(next[..k]))
    {
      if k <= |lines| {
        assert next[..k] == lines[..k];
      } else {
        assert next[..k] == next;
      }
    }
  }

  /** Soundness with respect to a set of accepted programs survives adding programs to it. */
  lemma SoundGrow(lines: seq<string>, a: set<string>, b: set<string>)
    requires a <= b && SoundUnder(lines, p => p in a)
    ensures SoundUnder(lines, p => p in b)
  {
  }

  // Properties of a whole session.

  /** The exit word ends the loop: no later line is looked at. */
  lemma ExitStops(st: SessionState, inputs: seq<string>, interpret: string -> bool)
    requires !st.exited && inputs != [] && Classify(inputs[0]) == Exit
    ensures Run(st, inputs, interpret) == st.(exited := true)
  {
  }

  lemma {:induction false} RunConcat(st: SessionState, a: seq<string>, b: seq<string>, interpret: string -> bool)
    ensures Run(st, a + b, interpret) == Run(Run(st, a, interpret), b, interpret)
    decreases |a|
  {
    if a == [] {
      assert a + b == b;
    } else if !st.exited {
      assert (a + b)[0] == a[0] && (a + b)[1..] == a[1..] + b;
      RunConcat(Transition(st, a[0], interpret), a[1..], b, interpret);
    } else {
      assert Run(st, a + b, interpret) == st;
    }
  }

  /** The trimmed lines without their final marker, joined with nothing in between. */
  function Unmarked(inputs: seq<string>): string {
    if inputs == [] then "" else Unmark(inputs[0]) + Unmarked(inputs[1..])
  }

  predicate AllContinued(inputs: seq<string>) {
    forall j :: 0 <= j < |inputs| ==> Classify(inputs[j]).Source? && Text.EndsWith(Text.Trim(inputs[j]), Marker)
  }

  /** A run of continued lines only grows the pending text, by each trimmed line minus its
      marker; the buffer is untouched. */
  lemma {:induction false} ContinuedLines(st: SessionState, inputs: seq<string>, interpret: string -> bool)
    requires !st.exited && inputs != [] && AllContinued(inputs)
    ensures Run(st, inputs, interpret) == st.(pending := Some(Start(st.pending) + Unmarked(inputs)))
    decreases |inputs|
  {
    var p := Start(st.pending) + Unmark(inputs[0]);
    var next := st.(pending := Some(p));
    ContinuationParks(st, inputs[0], interpret, interpret);
    assert Run(st, inputs, interpret) == Run(next, inputs[1..], interpret);
    if |inputs| == 1 {
      assert Unmarked(inputs) == Unmark(inputs[0]) by {
        assert Unmarked(inputs[1..]) == [];
      }
    } else {
      AllContinuedTail(inputs);
      ContinuedLines(next, inputs[1..], interpret);
      assert p + Unmarked(inputs[1..]) == Start(st.pending) + Unmarked(inputs);
    }
  }

  lemma AllContinuedTail(inputs: seq<string>)
    requires inputs != [] && AllContinued(inputs)
    ensures AllContinued(inputs[1..])
  {
  }

  /** A statement spread over continued lines `cs` and a last line `l`, begun with no pending
      text, is submitted as `;`, the continued lines without markers, then the trimmed `l`. */
  lemma MultiLineStatement(st: SessionState, cs: seq<string>, l: string, interpret: string -> bool)
    requires !st.exited && st.pending == None && AllContinued(cs)
    requires Classify(l).Source? && !Text.EndsWith(Text.Trim(l), Marker)
    ensures var s := ";" + Unmarked(cs) + Text.Trim(l);
            var tentative := st.lines + [s];
            Run(st, cs + [l], interpret)
              == st.(lines := if interpret(ProgramText.Code(tentative)) then tentative else st.lines)
  {
    var s := ";" + Unmarked(cs) + Text.Trim(l);
    var mid := Run(st, cs, interpret);
    ContinuedPrefix(st, cs, interpret);
    RunConcat(st, cs, [l], interpret);
    assert Run(mid, [l], interpret) == Transition(mid, l, interpret) by {
      assert [l][1..] == [];
    }
    assert Accumulate(mid.pending, l) == Finished(s);
    CommitOrRollback(mid, l, interpret, s);
  }

  /** The continued lines before a statement's last line leave the buffer and the exit flag
      alone and make `;` and their unmarked text the start of the statement. */
  lemma ContinuedPrefix(st: SessionState, cs: seq<string>, interpret: string -> bool)
    requires !st.exited && st.pending == None && AllContinued(cs)
    ensures var mid := Run(st, cs, interpret);
            mid.lines == st.lines && !mid.exited && Start(mid.pending) == ";" + Unmarked(cs)
  {
    if cs == [] {
      assert Unmarked(cs) == "";
    } else {
      ContinuedLines(st, cs, interpret);
    }
  }

  /** With one toolchain behaviour throughout, a whole session keeps the buffer sound. */
  lemma {:induction false} RunSound(st: SessionState, inputs: seq<string>, interpret: string -> bool)
    requires SoundUnder(st.lines, interpret)
    ensures SoundUnder(Run(st, inputs, interpret).lines, interpret)
    decreases |inputs|
  {
    if inputs != [] && !st.exited {
      TransitionSound(st, inputs[0], interpret, interpret);
      RunSound(Transition(st, inputs[0], interpret), inputs[1..], interpret);
    }
  }

  /** A whole session keeps every statement terminated. */
  lemma {:induction false} RunWellFormed(st: SessionState, inputs: seq<string>, interpret: string -> bool)
    requires WellFormed(st)
    ensures WellFormed(Run(st, inputs, interpret))
    decreases |inputs|
  {
    if inputs != [] && !st.exited {
      TransitionWellFormed(st, inputs[0], interpret);
      RunWellFormed(Transition(st, inputs[0], interpret), inputs[1..], interpret);
    }
  }

  /** No buffered statement and no pending text contains a newline. */
  predicate SingleLines(st: SessionState) {
    ProgramText.NoNewlines(st.lines) && (st.pending.Some? ==> '\n' !in st.pending.value)
  }

  /** A step on a line without a newline adds no newline to the buffer or the pending text. */
  lemma TransitionSingleLines(st: SessionState, line: string, interpret: string -> bool)
    requires SingleLines(st) && '\n' !in line
    ensures SingleLines(Transition(st, line, interpret))
  {
    if Classify(line).Source? {
      var t := Text.Trim(line);
      Text.TrimSlice(line);
      var i := |line| - |Text.TrimStart(line)|;
      assert forall k :: 0 <= k < |t| ==> t[k] == line[i + k];
      var joined := Start(st.pending) + t;
      assert '\n' !in joined;
    }
  }

  /** Lines typed one at a time never put a newline into the buffer, so every reachable buffer
      is recovered from its program text. */
  lemma {:induction false} RunSingleLines(st: SessionState, inputs: seq<string>, interpret: string -> bool)
    requires SingleLines(st) && ProgramText.NoNewlines(inputs)
    ensures SingleLines(Run(st, inputs, interpret))
    ensures var lines := Run(st, inputs, interpret).lines;
            ProgramText.ParseProgram(ProgramText.Code(lines)) == Some(lines)
    decreases |inputs|
  {
    if inputs != [] && !st.exited {
      TransitionSingleLines(st, inputs[0], interpret);
      RunSingleLines(Transition(st, inputs[0], interpret), inputs[1..], interpret);
    } else {
      ProgramText.ParseCode(st.lines);
    }
  }

  /** A fresh line with no whitespace at its ends and no marker is submitted as `;` and the
      line, and kept exactly when its program is accepted. */
  lemma FreshLineStep(st: SessionState, line: string, interpret: string -> bool)
    requires st.pending == None && Classify(line).Source? && Text.Trim(line) == line
    requires !Text.EndsWith(line, Marker)
    ensures var tentative := st.lines + [";" + line];
            Transition(st, line, interpret)
              == st.(lines := if interpret(ProgramText.Code(tentative)) then tentative else st.lines)
  {
  }

  lemma DefineX(interpret: string -> bool)
    requires interpret(ProgramText.Code([";let x = 5;"]))
    ensures Transition(Initial, "let x = 5;", interpret) == SessionState([";let x = 5;"], None, false)
  {
    Text.TrimNoOp("let x = 5;");
    FreshLineStep(Initial, "let x = 5;", interpret);
    assert ";" + "let x = 5;" == ";let x = 5;";
    assert [] + [";let x = 5;"] == [";let x = 5;"];
  }

  lemma UseX(interpret: string -> bool)
    requires interpret(ProgramText.Code([";let x = 5;", ";x + 1"]))
    ensures Transition(SessionState([";let x = 5;"], None, false), "x + 1", interpret)
              == SessionState([";let x = 5;", ";x + 1"], None, false)
  {
    Text.TrimNoOp("x + 1");
    FreshLineStep(SessionState([";let x = 5;"], None, false), "x + 1", interpret);
    assert ";" + "x + 1" == ";x + 1";
    assert [";let x = 5;"] + [";x + 1"] == [";let x = 5;", ";x + 1"];
  }

  lemma RejectBogus(interpret: string -> bool)
    requires !interpret(ProgramText.Code([";let x = 5;", ";x + 1", ";x.bogus()"]))
    ensures Transition(SessionState([";let x = 5;", ";x + 1"], None, false), "x.bogus()", interpret)
              == SessionState([";let x = 5;", ";x + 1"], None, false)
  {
    Text.TrimNoOp("x.bogus()");
    FreshLineStep(SessionState([";let x = 5;", ";x + 1"], None, false), "x.bogus()", interpret);
    assert ";" + "x.bogus()" == ";x.bogus()";
    assert [";let x = 5;", ";x + 1"] + [";x.bogus()"] == [";let x = 5;", ";x + 1", ";x.bogus()"];
  }

  /** The first three lines of the session below: two are kept, the third is rolled back. */
  lemma EndToEndStatements(interpret: string -> bool)
    requires interpret(ProgramText.Code([";let x = 5;"]))
    requires interpret(ProgramText.Code([";let x = 5;", ";x + 1"]))
    requires !interpret(ProgramText.Code([";let x = 5;", ";x + 1", ";x.bogus()"]))
    ensures Run(Initial, ["let x = 5;", "x + 1", "x.bogus()"], interpret)
              == SessionState([";let x = 5;", ";x + 1"], None, false)
  {
    var a, b, c := "let x = 5;", "x + 1", "x.bogus()";
    DefineX(interpret);
    UseX(interpret);
    RejectBogus(interpret);
    var s2 := SessionState([";let x = 5;", ";x + 1"], None, false);
    assert Run(s2, [], interpret) == s2;
    assert [a, b, c][1..] == [b, c] && [b, c][1..] == [c] && [c][1..] == [];
  }

  /** The session that defines `x`, uses it, fails to compile `x.bogus()`, clears and exits:
      the buffer holds the two good statements after the third line and is empty at the end. */
  lemma EndToEnd(interpret: string -> bool)
    requires interpret(ProgramText.Code([";let x = 5;"]))
    requires interpret(ProgramText.Code([";let x = 5;", ";x + 1"]))
    requires !interpret(ProgramText.Code([";let x = 5;", ";x + 1", ";x.bogus()"]))
    ensures Run(Initial, ["let x = 5;", "x + 1", "x.bogus()"], interpret).lines == [";let x = 5;", ";x + 1"]
    ensures Run(Initial, ["let x = 5;", "x + 1", "x.bogus()", "clear", "exit"], interpret)
              == SessionState([], None, true)
  {
    var first := ["let x = 5;", "x + 1", "x.bogus()"];
    EndToEndStatements(interpret);
    var s3 := SessionState([";let x = 5;", ";x + 1"], None, false);
    var s4 := Transition(s3, "clear", interpret);
    assert s4 == SessionState([], None, false);
    ExitStops(s4, ["exit"], interpret);
    RunConcat(Initial, first, ["clear", "exit"], interpret);
    assert first + ["clear", "exit"] == ["let x = 5;", "x + 1", "x.bogus()", "clear", "exit"];
    assert ["clear", "exit"][1..] == ["exit"];
  }

  /** The session state of src/main.rs, updated in place by the action closure. */
  class Session {
    var lines: seq<string>
    var pending: Option<string>
    /** Stands for `app.exit()` having been called. */
    var exitRequested: bool
    /** The program texts `interpret_code` has accepted in this session. */
    ghost var accepted: set<string>

    function Snapshot(): SessionState
      reads this
    {
      SessionState(lines, pending, exitRequested)
    }

    ghost predicate Valid()
      reads this
    {
      var a := accepted;
      WellFormed(Snapshot()) && SoundUnder(lines, p => p in a)
    }

    constructor ()
      ensures Valid() && Snapshot() == Initial && accepted == {}
    {
      lines := [];
      pending := None;
      exitRequested := false;
      accepted := {};
    }

    /** `clean`: empties the buffer; the pending text is left as it is. */
    method Clean()
      requires Valid()
      modifies this
      ensures Valid()
      ensures lines == [] && pending == old(pending) && exitRequested == old(exitRequested)
      ensures accepted == old(accepted)
    {
      lines := [];
    }

    /** The action closure on one submitted line. */
    method Step(line: string, interpret: string -> bool)
      requires Valid()
      modifies this
      ensures Valid()
      ensures Snapshot() == Transition(old(Snapshot()), line, interpret)
      ensures accepted == old(accepted) + Admitted(old(Snapshot()), line, interpret)
    {
      ghost var before := Snapshot();
      if line == "clear" || line == "c" {
        Clean();
      } else if line == "exit" || line == "e" {
        exitRequested := true;
      } else {
        var trimmed := Text.Trim(line);
        var newline: string;
        var unfinished := pending;
        pending := None;
        match unfinished {
          case Some(p) => newline := p;
          case None => newline := ";";
        }
        newline := newline + trimmed;
        if Text.EndsWith(trimmed, Marker) {
          newline := newline[..|newline| - 1];
          pending := Some(newline);
          assert Accumulate(before.pending, line) == Parked(newline);
          TransitionWellFormed(before, line, interpret);
          return;
        }
        assert Accumulate(before.pending, line) == Finished(newline);
        TransitionWellFormed(before, line, interpret);
        Submit(newline, interpret);
      }
    }

    /** Push the finished statement, hand the program to `interpret_code`, and pop the
        statement again if the program was refused. */
    method Submit(statement: string, interpret: string -> bool)
      requires Valid() && Terminated(statement)
      modifies this
      ensures Valid()
      ensures var tentative := old(lines) + [statement];
              lines == (if interpret(ProgramText.Code(tentative)) then tentative else old(lines))
              && accepted == old(accepted) + (if interpret(ProgramText.Code(tentative)) then {ProgramText.Code(tentative)} else {})
      ensures pending == old(pending) && exitRequested == old(exitRequested)
    {
      ghost var before := lines;
      lines := lines + [statement];
      var program := ProgramText.GenerateCode(lines);
      if interpret(program) {
        ghost var a := accepted + {program};
        SoundGrow(before, accepted, a);
        SoundPush(before, statement, p => p in a);
        accepted := a;
      } else {
        lines := lines[..|lines| - 1];
        assert lines == before;
      }
    }
  }
}
