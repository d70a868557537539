/** except.h and except.c: the exception macros, as the C they expand to, against a structured
    semantics.

    Stmt is what a programmer writes.  Expand gives the statements the macros turn it into, and
    Step runs those, with setjmp as saving what is left to do and longjmp as going back to it.  An
    Activation is the two locals a TRY declares, Except_flag and Except_frame; the address of a
    frame is the index of its activation, as on a call stack.  Eval is what the statement means. */
module Exceptions {
  import opened Wrappers

  type Exc = nat

  /** An exception on its way, with what RAISE recorded. */
  datatype Raised = Raised(e: Exc, file: string, line: int)

  datatype Stmt = Skip | Emit(n: int) | Then(first: Stmt, second: Stmt)
                | Raise(x: Raised) | Reraise
                | Try(guarded: Guarded)
                | TryFinally(guarded: Guarded, final: Stmt)

  /** A TRY without its FINALLY section. */
  datatype Guarded = Guarded(body: Stmt, handlers: Handlers)

  /** The EXCEPT sections of a TRY in order, and its ELSE section if it has one. */
  datatype Handlers = NoMore | Else(any: Stmt) | Except(e: Exc, handler: Stmt, rest: Handlers)

  /** RERAISE stands in an EXCEPT or ELSE section, outside any TRY nested in that section. */
  predicate WellPlaced(s: Stmt, inHandler: bool)
  {
    match s
    case Then(a, b) => WellPlaced(a, inHandler) && WellPlaced(b, inHandler)
    case Reraise => inHandler
    case Try(g) => WellPlaced(g.body, false) && AllPlaced(g.handlers)
    case TryFinally(g, final) => WellPlaced(g.body, false) && AllPlaced(g.handlers) && WellPlaced(final, false)
    case _ => true
  }

  predicate AllPlaced(h: Handlers)
  {
    match h
    case NoMore => true
    case Else(s) => WellPlaced(s, true)
    case Except(_, s, rest) => WellPlaced(s, true) && AllPlaced(rest)
  }

  // ---------------------------------------------------------------- what statements mean

  datatype Outcome = Normal | Thrown(x: Raised)

  /** What is emitted, and how the statement ends. */
  datatype Result = Result(trace: seq<int>, out: Outcome)

  function After(t: seq<int>, r: Result): Result { Result(t + r.trace, r.out) }

  /** `caught` is the exception the enclosing handler was entered with. */
  function Eval(s: Stmt, caught: Option<Raised>): Result
  {
    match s
    case Skip => Result([], Normal)
    case Emit(n) => Result([n], Normal)
    case Then(a, b) =>
      var r := Eval(a, caught);
      if r.out == Normal then After(r.trace, Eval(b, caught)) else r
    case Raise(x) => Result([], Thrown(x))
    case Reraise => Result([], if caught.Some? then Thrown(caught.value) else Normal)
    case Try(g) =>
      var (t, how) := Protect(g);
      Result(t, if how == Completed then Normal else Thrown(how.x))
    case TryFinally(g, final) =>
      var (t, how) := Protect(g);
      var f := Eval(final, None);
      match how
      case Completed => After(t, f)
      case Unmatched(x) => After(t, if f.out == Normal then Result(f.trace, Thrown(x)) else f)
      case Escaped(x) => Result(t, Thrown(x))
  }

  /** How the part before FINALLY ends: normally, perhaps after a handler; with an exception no
      section matches; or with an exception raised by a handler. */
  datatype How = Completed | Unmatched(x: Raised) | Escaped(x: Raised)

  function Protect(g: Guarded): (seq<int>, How)
  {
    var r := Eval(g.body, None);
    if r.out == Normal then (r.trace, Completed)
    else
      match Handle(g.handlers, r.out.x)
      case None => (r.trace, Unmatched(r.out.x))
      case Some(h) => (r.trace + h.trace, if h.out == Normal then Completed else Escaped(h.out.x))
  }

  /** The first section that matches, if any, is run once. */
  function Handle(h: Handlers, x: Raised): Option<Result>
  {
    match h
    case NoMore => None
    case Else(s) => Some(Eval(s, Some(x)))
    case Except(e, s, rest) => if e == x.e then Some(Eval(s, Some(x))) else Handle(rest, x)
  }

  // ---------------------------------------------------------------- what the macros expand to

  datatype Flag = Entered | RaisedFlag | Handled | Finalized

  datatype Test = FlagIs(f: Flag) | ExceptionIs(e: Exc)

  /** Enter declares the locals and pushes the frame, Leave is the end of the block. */
  datatype Code = Out(n: int) | Throw(x: Raised) | Rethrow | Enter | SetJmp | SetFlag(f: Flag) | Pop
                | If(test: Test, yes: seq<Code>, no: seq<Code>) | Leave

  /** if (Except_flag == Except_entered) Except_stack = Except_stack->prev. */
  const POP_IF_ENTERED: Code := If(FlagIs(Entered), [Pop], [])

  const END_TRY: seq<Code> := [If(FlagIs(RaisedFlag), [Rethrow], []), Leave]

  function Expand(s: Stmt): seq<Code>
  {
    match s
    case Skip => []
    case Emit(n) => [Out(n)]
    case Then(a, b) => Expand(a) + Expand(b)
    case Raise(x) => [Throw(x)]
    case Reraise => [Rethrow]
    case Try(g) => [Enter, SetJmp] + Branches(g) + END_TRY
    case TryFinally(g, final) => [Enter, SetJmp] + Branches(g) + Finally(Expand(final)) + END_TRY
  }

  function Branches(g: Guarded): seq<Code>
  {
    [If(FlagIs(Entered), Expand(g.body) + [POP_IF_ENTERED], Sections(g.handlers))]
  }

  function Finally(final: seq<Code>): seq<Code>
  {
    [If(FlagIs(Entered), [SetFlag(Finalized)], [])] + final + [POP_IF_ENTERED]
  }

  function Sections(h: Handlers): seq<Code>
  {
    match h
    case NoMore => []
    case Else(s) => [SetFlag(Handled)] + Expand(s) + [POP_IF_ENTERED]
    case Except(e, s, rest) => [If(ExceptionIs(e), [SetFlag(Handled)] + Expand(s) + [POP_IF_ENTERED], Sections(rest))]
  }

  // ---------------------------------------------------------------- running it

  /** The locals of one TRY: `env` is what setjmp saved. */
  datatype Activation = Activation(flag: Flag, prev: Option<nat>, env: seq<Code>, exception: Option<Raised>)

  datatype Status = Running | Aborted(x: Raised) | Crashed

  /** `todo` is what is left to run, `stack` is Except_stack. */
  datatype Config = Config(todo: seq<Code>, acts: seq<Activation>, stack: Option<nat>, trace: seq<int>, status: Status)

  /** Except_raise. */
  function ExceptRaise(c: Config, x: Raised): Config
  {
    match c.stack
    case None => c.(todo := [], acts := [], status := Aborted(x))
    case Some(p) =>
      if p >= |c.acts| then c.(todo := [], status := Crashed)
      else c.(todo := c.acts[p].env, acts := c.acts[..p] + [c.acts[p].(exception := Some(x), flag := RaisedFlag)],
          stack := c.acts[p].prev)
  }

  /** The locals of the innermost TRY block. */
  function Top(c: Config): Activation
    requires c.acts != []
  {
    c.acts[|c.acts| - 1]
  }

  function SetTop(c: Config, a: Activation): Config
    requires c.acts != []
  {
    c.(acts := c.acts[..|c.acts| - 1] + [a])
  }

  function Holds(c: Config, t: Test): bool
    requires c.acts != []
  {
    match t
    case FlagIs(f) => Top(c).flag == f
    case ExceptionIs(e) => Top(c).exception.Some? && Top(c).exception.value.e == e
  }

  /** Crashed: a frame or local that is not there would be used. */
  function Step(c: Config): Config
  {
    if c.status != Running || c.todo == [] then c
    else
      var d := c.(todo := c.todo[1..]);
      match c.todo[0]
      case Out(n) => d.(trace := c.trace + [n])
      case Throw(x) => ExceptRaise(d, x)
      case Enter => d.(acts := c.acts + [Activation(Entered, c.stack, [], None)], stack := Some(|c.acts|))
      case Pop => if c.stack.None? || c.stack.value >= |c.acts| then c.(status := Crashed)
          else d.(stack := c.acts[c.stack.value].prev)
      case _ => if c.acts == [] then c.(status := Crashed) else Local(d, c.todo[0])
  }

  /** The statements that use the locals. */
  function Local(c: Config, i: Code): Config
    requires c.acts != []
  {
    match i
    case Rethrow => if Top(c).exception.None? then c.(status := Crashed) else ExceptRaise(c, Top(c).exception.value)
    case SetJmp => SetTop(c, Top(c).(env := c.todo, flag := Entered))
    case SetFlag(f) => SetTop(c, Top(c).(flag := f))
    case If(t, yes, no) => c.(todo := (if Holds(c, t) then yes else no) + c.todo)
    case _ => c.(acts := c.acts[..|c.acts| - 1])
  }

  // ---------------------------------------------------------------- runs that never use a dead frame

  /** Except_stack and the prev fields lead, innermost first, through frames whose block has not
      been left. */
  predicate Safe(c: Config)
  {
    && c.status != Crashed
    && (c.stack.Some? ==> c.stack.value < |c.acts|)
    && forall i :: 0 <= i < |c.acts| && c.acts[i].prev.Some? ==> c.acts[i].prev.value < i
  }

  /** n steps lead from c to d, through safe configurations. */
  predicate Reaches(c: Config, n: nat, d: Config)
    decreases n
  {
    Safe(c) && if n == 0 then c == d else Reaches(Step(c), n - 1, d)
  }

  lemma {:induction false} ReachesTrans(c: Config, n: nat, d: Config, m: nat, e: Config)
    requires Reaches(c, n, d) && Reaches(d, m, e)
    ensures Reaches(c, n + m, e)
    decreases n
  {
    if n > 0 { ReachesTrans(Step(c), n - 1, d, m, e); }
  }

  lemma One(c: Config)
    requires Safe(c) && Safe(Step(c))
    ensures Reaches(c, 1, Step(c))
  {
    assert Reaches(Step(c), 0, Step(c));
  }

  // ---------------------------------------------------------------- the machine computes the meaning

  /** Where the code of a statement leads when the statement ends like r: past that code with
      everything but the trace as it was, or into Except_raise. */
  function Ends(c: Config, r: Result, rest: seq<Code>): Config
  {
    match r.out
    case Normal => c.(trace := c.trace + r.trace, todo := rest)
    case Thrown(x) => ExceptRaise(c.(trace := c.trace + r.trace, todo := rest), x)
  }

  /** The innermost TRY block is running the handler of `caught`. */
  predicate Catching(c: Config, caught: Option<Raised>)
  {
    caught.Some? ==> c.acts != [] && Top(c).exception == caught
  }

  lemma RaiseSafe(c: Config, x: Raised)
    requires Safe(c) && c.status == Running
    ensures Safe(ExceptRaise(c, x))
  {
  }

  /** Activations above the frame Except_stack points at make no difference to a raise. */
  lemma RaiseSame(c: Config, d: Config, x: Raised)
    requires Safe(c) && d.stack == c.stack && d.trace == c.trace && d.status == c.status
    requires |d.acts| >= |c.acts| && d.acts[..|c.acts|] == c.acts
    ensures ExceptRaise(d, x) == ExceptRaise(c, x)
  {
    if c.stack.Some? {
      var p := c.stack.value;
      assert d.acts[..p] == d.acts[..|c.acts|][..p];
      assert d.acts[p] == d.acts[..|c.acts|][p];
    }
  }

  lemma AtomEnds(s: Stmt, caught: Option<Raised>, c: Config, rest: seq<Code>)
    requires s.Emit? || s.Raise? || s.Reraise?
    requires WellPlaced(s, caught.Some?) && Safe(c) && c.status == Running && Catching(c, caught)
        && c.todo == Expand(s) + rest
    ensures Reaches(c, 1, Ends(c, Eval(s, caught), rest))
  {
    assert c.todo[1..] == rest && c.trace + [] == c.trace;
    if s.Emit? {
      assert Step(c) == Ends(c, Eval(s, caught), rest);
    } else {
      var x := if s.Raise? then s.x else caught.value;
      RaiseSafe(c.(todo := rest), x);
      assert c.(trace := c.trace + []) == c;
      assert Step(c) == ExceptRaise(c.(todo := rest), x);
    }
    One(c);
  }

  /** A statement after another. */
  lemma ThenEnds(c: Config, r: Result, q: Result, mid: seq<Code>, rest: seq<Code>)
    requires r.out == Normal
    ensures Ends(Ends(c, r, mid), q, rest) == Ends(c, After(r.trace, q), rest)
  {
    assert c.trace + r.trace + q.trace == c.trace + (r.trace + q.trace);
  }

  lemma NormalEnds(c: Config, r: Result, rest: seq<Code>)
    requires Safe(c) && c.status == Running && r.out == Normal
    ensures var d := Ends(c, r, rest);
            Safe(d) && d.status == Running && d.todo == rest && d.acts == c.acts && d.stack == c.stack
                && d.trace == c.trace + r.trace
  {
  }

  lemma SkipEnds(c: Config)
    requires Safe(c)
    ensures Reaches(c, 0, Ends(c, Result([], Normal), c.todo))
  {
    assert c.trace + [] == c.trace;
  }

  /** What is left to do does not matter to a raise. */
  lemma ThrownEnds(c: Config, r: Result, mid: seq<Code>, rest: seq<Code>)
    requires r.out.Thrown?
    ensures Ends(c, r, mid) == Ends(c, r, rest)
  {
  }

  /** c inside a TRY that has left its body: the block's locals are a, its frame is popped. */
  function Within(c: Config, a: Activation, t: seq<int>, todo: seq<Code>): Config
  {
    c.(acts := c.acts + [a], trace := c.trace + t, todo := todo)
  }

  /** The locals of the block that c is about to enter, as setjmp leaves them. */
  function Fresh(c: Config, g: Guarded, tail: seq<Code>): Activation
  {
    Activation(Entered, c.stack, Branches(g) + tail, None)
  }

  /** Into the body of a TRY. */
  lemma EnterTry(c: Config, g: Guarded, tail: seq<Code>)
    requires Safe(c) && c.status == Running && c.todo == [Enter, SetJmp] + Branches(g) + tail
    ensures var d := Within(c, Fresh(c, g, tail), [],
        Expand(g.body) + ([POP_IF_ENTERED] + tail)).(stack := Some(|c.acts|));
            Reaches(c, 3, d) && Safe(d)
  {
    hide Reaches, Safe;
    var k := Branches(g) + tail;
    var d := Within(c, Fresh(c, g, tail), [], Expand(g.body) + ([POP_IF_ENTERED] + tail)).(stack := Some(|c.acts|));
    assert c.todo == [Enter] + ([SetJmp] + k);
    var c2 := EnterTwice(c, k);
    assert c.trace + [] == c.trace;
    assert k == [If(FlagIs(Entered), Expand(g.body) + [POP_IF_ENTERED], Sections(g.handlers))] + tail;
    Branch(c2, FlagIs(Entered), Expand(g.body) + [POP_IF_ENTERED], Sections(g.handlers), tail);
    assert (Expand(g.body) + [POP_IF_ENTERED]) + tail == d.todo;
    ReachesTrans(c, 2, c2, 1, d);
  }

  lemma EnterTwice(c: Config, k: seq<Code>) returns (c2: Config)
    requires Safe(c) && c.status == Running && c.todo == [Enter] + ([SetJmp] + k)
    ensures c2 == c.(todo := k, acts := c.acts + [Activation(Entered, c.stack, k, None)], stack := Some(|c.acts|))
    ensures Reaches(c, 2, c2) && Safe(c2)
  {
    var c1 := c.(todo := [SetJmp] + k, acts := c.acts + [Activation(Entered, c.stack, [], None)],
        stack := Some(|c.acts|));
    c2 := c.(todo := k, acts := c.acts + [Activation(Entered, c.stack, k, None)], stack := Some(|c.acts|));
    assert c.todo[1..] == [SetJmp] + k;
    assert Step(c) == c1;
    assert c1.todo[1..] == k;
    assert c1.acts[..|c1.acts| - 1] == c.acts;
    assert Step(c1) == c2;
    One(c1);
    assert Reaches(c, 2, c2);
  }

  /** The body ends normally: its frame is popped. */
  lemma BodyDone(c: Config, a: Activation, t: seq<int>, tail: seq<Code>)
    requires Safe(c) && c.status == Running && a.flag == Entered && a.prev == c.stack
    ensures Reaches(Within(c, a, t, [POP_IF_ENTERED] + tail).(stack := Some(|c.acts|)), 2, Within(c, a, t, tail))
  {
    var d := Within(c, a, t, [POP_IF_ENTERED] + tail).(stack := Some(|c.acts|));
    var e := Within(c, a, t, [Pop] + tail).(stack := Some(|c.acts|));
    assert d.todo[1..] == tail && e.todo[1..] == tail;
    assert Step(d) == e && Step(e) == Within(c, a, t, tail);
    One(e);
  }

  /** The body ends with an exception: longjmp goes back to the branches. */
  lemma BodyThrown(c: Config, g: Guarded, t: seq<int>, x: Raised, tail: seq<Code>, c1: Config)
    requires Safe(c) && c.status == Running
    requires c1 == Within(c, Fresh(c, g, tail), t, c1.todo).(stack := Some(|c.acts|))
    ensures var a := Fresh(c, g, tail).(flag := RaisedFlag, exception := Some(x));
            Reaches(ExceptRaise(c1, x), 1, Within(c, a, t, Sections(g.handlers) + tail))
  {
    var a := Fresh(c, g, tail).(flag := RaisedFlag, exception := Some(x));
    var d := Within(c, a, t, Branches(g) + tail);
    assert c1.acts[..|c.acts|] == c.acts;
    assert ExceptRaise(c1, x) == d;
    assert d.todo[1..] == tail;
    assert Step(d) == Within(c, a, t, Sections(g.handlers) + tail);
    One(d);
  }

  /** POP_IF_ENTERED does nothing once the flag has changed. */
  lemma NoPop(c: Config, rest: seq<Code>)
    requires Safe(c) && c.status == Running && c.acts != [] && Top(c).flag != Entered
        && c.todo == [POP_IF_ENTERED] + rest
    ensures Reaches(c, 1, c.(todo := rest))
  {
    assert c.todo[1..] == rest && [] + rest == rest;
    One(c);
  }

  lemma SetHandled(c: Config, f: Flag, rest: seq<Code>)
    requires Safe(c) && c.status == Running && c.acts != [] && c.todo == [SetFlag(f)] + rest
    ensures var d := SetTop(c, Top(c).(flag := f)).(todo := rest);
            Reaches(c, 1, d) && Safe(d) && Top(d) == Top(c).(flag := f)
  {
    assert c.todo[1..] == rest;
    One(c);
  }

  lemma Branch(c: Config, t: Test, yes: seq<Code>, no: seq<Code>, rest: seq<Code>)
    requires Safe(c) && c.status == Running && c.acts != [] && c.todo == [If(t, yes, no)] + rest
    ensures var d := c.(todo := (if Holds(c, t) then yes else no) + rest);
            Reaches(c, 1, d) && Safe(d)
  {
    assert c.todo[1..] == rest;
    One(c);
  }

  /** END_TRY: the exception goes on if it was not handled, and the block is left. */
  lemma TryEnds(c: Config, a: Activation, t: seq<int>, rest: seq<Code>)
    requires Safe(c) && c.status == Running && a.prev == c.stack && (a.flag == RaisedFlag ==> a.exception.Some?)
    ensures Reaches(Within(c, a, t, END_TRY + rest), 2,
        Ends(c, Result(t, if a.flag == RaisedFlag then Thrown(a.exception.value) else Normal), rest))
  {
    var d := Within(c, a, t, END_TRY + rest);
    assert d.todo == [If(FlagIs(RaisedFlag), [Rethrow], [])] + ([Leave] + rest);
    WithinSafe(c, a, t, END_TRY + rest);
    Branch(d, FlagIs(RaisedFlag), [Rethrow], [], [Leave] + rest);
    assert [] + ([Leave] + rest) == [Leave] + rest;
    hide Reaches, Safe, Ends;
    if a.flag == RaisedFlag {
      TryRethrows(c, a, t, rest);
      ReachesTrans(d, 1, Within(c, a, t, [Rethrow] + ([Leave] + rest)), 1,
          Ends(c, Result(t, Thrown(a.exception.value)), rest));
    } else {
      TryLeaves(c, a, t, rest);
      ReachesTrans(d, 1, Within(c, a, t, [Leave] + rest), 1, Ends(c, Result(t, Normal), rest));
    }
  }

  lemma TryRethrows(c: Config, a: Activation, t: seq<int>, rest: seq<Code>)
    requires Safe(c) && c.status == Running && a.prev == c.stack && a.exception.Some?
    ensures Reaches(Within(c, a, t, [Rethrow] + ([Leave] + rest)), 1,
        Ends(c, Result(t, Thrown(a.exception.value)), rest))
  {
    var e, x := Within(c, a, t, [Rethrow] + ([Leave] + rest)), a.exception.value;
    WithinSafe(c, a, t, e.todo);
    assert e.acts[..|c.acts|] == c.acts;
    RaiseSame(c.(trace := c.trace + t, todo := rest), e.(todo := e.todo[1..]), x);
    RaiseSafe(c.(trace := c.trace + t, todo := rest), x);
    assert Step(e) == ExceptRaise(e.(todo := e.todo[1..]), x);
    hide ExceptRaise, Step;
    One(e);
  }

  lemma TryLeaves(c: Config, a: Activation, t: seq<int>, rest: seq<Code>)
    requires Safe(c) && c.status == Running && a.prev == c.stack
    ensures Reaches(Within(c, a, t, [Leave] + rest), 1, Ends(c, Result(t, Normal), rest))
  {
    var e := Within(c, a, t, [Leave] + rest);
    WithinSafe(c, a, t, e.todo);
    assert e.todo[1..] == rest && e.acts[..|e.acts| - 1] == c.acts;
    assert Step(e) == Ends(c, Result(t, Normal), rest);
    One(e);
  }

  /** Running the code of a statement leads where its meaning says, and through safe
      configurations only. */
  lemma {:induction false} Simulates(s: Stmt, caught: Option<Raised>, c: Config, rest: seq<Code>) returns (n: nat)
    requires WellPlaced(s, caught.Some?) && Safe(c) && c.status == Running && Catching(c, caught)
        && c.todo == Expand(s) + rest
    ensures Reaches(c, n, Ends(c, Eval(s, caught), rest))
    decreases s, 0
  {
    hide Reaches, Safe, Ends;
    match s
    case Skip => n := 0; SkipEnds(c); assert c.todo == rest;
    case Emit(_) => n := 1; AtomEnds(s, caught, c, rest);
    case Raise(_) => n := 1; AtomEnds(s, caught, c, rest);
    case Reraise => n := 1; AtomEnds(s, caught, c, rest);
    case Then(a, b) =>
      assert c.todo == Expand(a) + (Expand(b) + rest);
      n := Simulates(a, caught, c, Expand(b) + rest);
      var r := Eval(a, caught);
      var d := Ends(c, r, Expand(b) + rest);
      if r.out == Normal {
        NormalEnds(c, r, Expand(b) + rest);
        var m := Simulates(b, caught, d, rest);
        ThenEnds(c, r, Eval(b, caught), Expand(b) + rest, rest);
        ReachesTrans(c, n, d, m, Ends(d, Eval(b, caught), rest));
        n := n + m;
      } else {
        ThrownEnds(c, r, Expand(b) + rest, rest);
      }
    case Try(g) =>
      assert c.todo == [Enter, SetJmp] + Branches(g) + (END_TRY + rest);
      var k, a := Guards(g, c, END_TRY + rest);
      var (t, how) := Protect(g);
      n := k;
      if how.Escaped? {
        ThrownEnds(c, Result(t, Thrown(how.x)), END_TRY + rest, rest);
      } else {
        TryEnds(c, a, t, rest);
        ReachesTrans(c, k, Within(c, a, t, END_TRY + rest), 2, Ends(c, Eval(s, caught), rest));
        n := k + 2;
      }
    case TryFinally(g, final) =>
      var tail := Finally(Expand(final)) + END_TRY + rest;
      assert c.todo == [Enter, SetJmp] + Branches(g) + tail;
      var k, a := Guards(g, c, tail);
      n := k;
      if Protect(g).1.Escaped? {
        ThrownEnds(c, Result(Protect(g).0, Thrown(Protect(g).1.x)), tail, rest);
      } else {
        var m := Finishes(g, final, c, a, rest);
        assert tail == Finally(Expand(final)) + (END_TRY + rest);
        ReachesTrans(c, k, Within(c, a, Protect(g).0, tail), m, Ends(c, Eval(s, caught), rest));
        n := k + m;
      }
  }

  /** The part of a TRY before FINALLY: either it ends in the block with the frame popped and the
      flag telling how, or the exception of a handler is on its way to an outer TRY. */
  lemma {:induction false} Guards(g: Guarded, c: Config, tail: seq<Code>) returns (n: nat, a: Activation)
    requires WellPlaced(g.body, false) && AllPlaced(g.handlers) && Safe(c) && c.status == Running
    requires c.todo == [Enter, SetJmp] + Branches(g) + tail
    ensures var (t, how) := Protect(g);
            match how
            case Completed => Reaches(c, n, Within(c, a, t, tail)) && a.prev == c.stack
                && (a.flag == Entered || a.flag == Handled)
            case Unmatched(x) => Reaches(c, n, Within(c, a, t, tail)) && a.prev == c.stack && a.flag == RaisedFlag
                && a.exception == Some(x)
            case Escaped(x) => Reaches(c, n, Ends(c, Result(t, Thrown(x)), tail))
    decreases g, 0
  {
    hide Reaches, Safe, Ends;
    a := Fresh(c, g, tail);
    var d := Within(c, a, [], Expand(g.body) + ([POP_IF_ENTERED] + tail)).(stack := Some(|c.acts|));
    EnterTry(c, g, tail);
    var m := Simulates(g.body, None, d, [POP_IF_ENTERED] + tail);
    var r := Eval(g.body, None);
    var e := Ends(d, r, [POP_IF_ENTERED] + tail);
    ReachesTrans(c, 3, d, m, e);
    n := 3 + m;
    BodyEnds(c, g, r, tail);
    if r.out == Normal {
      ReachesTrans(c, n, e, 2, Within(c, a, r.trace, tail));
      n := n + 2;
    } else {
      var x := r.out.x;
      a := a.(flag := RaisedFlag, exception := Some(x));
      var q := Within(c, a, r.trace, Sections(g.handlers) + tail);
      ReachesTrans(c, n, e, 1, q);
      WithinSafe(c, a, r.trace, Sections(g.handlers) + tail);
      var k := Selects(g.handlers, x, q, tail);
      var h := Handle(g.handlers, x);
      if h != None { SelectEnds(c, a, g, r, tail); }
      ReachesTrans(c, n + 1, q, k, if h == None then q.(todo := tail)
          else Ends(SetTop(q, Top(q).(flag := Handled)), h.value, tail));
      n := n + 1 + k;
      if h != None { a := a.(flag := Handled); }
    }
  }

  lemma WithinSafe(c: Config, a: Activation, t: seq<int>, todo: seq<Code>)
    requires Safe(c) && a.prev == c.stack
    ensures Safe(Within(c, a, t, todo)) && Top(Within(c, a, t, todo)) == a
  {
  }

  /** Where the body's end leads. */
  lemma BodyEnds(c: Config, g: Guarded, r: Result, tail: seq<Code>)
    requires Safe(c) && c.status == Running
    ensures var a := Fresh(c, g, tail);
            var e := Ends(Within(c, a, [], Expand(g.body) + ([POP_IF_ENTERED] + tail)).(stack := Some(|c.acts|)), r,
                [POP_IF_ENTERED] + tail);
            match r.out
            case Normal => Reaches(e, 2, Within(c, a, r.trace, tail))
            case Thrown(x) => Reaches(e, 1, Within(c, a.(flag := RaisedFlag, exception := Some(x)), r.trace,
                Sections(g.handlers) + tail))
  {
    hide Reaches, Safe;
    var a := Fresh(c, g, tail);
    var d := Within(c, a, [], Expand(g.body) + ([POP_IF_ENTERED] + tail)).(stack := Some(|c.acts|));
    assert c.trace + [] == c.trace;
    if r.out == Normal {
      BodyDone(c, a, r.trace, tail);
    } else {
      BodyThrown(c, g, r.trace, r.out.x, tail, d.(trace := d.trace + r.trace, todo := [POP_IF_ENTERED] + tail));
    }
  }

  /** Where the sections lead, seen from outside the block. */
  lemma SelectEnds(c: Config, a: Activation, g: Guarded, r: Result, tail: seq<Code>)
    requires Safe(c) && c.status == Running && r.out.Thrown? && Handle(g.handlers, r.out.x).Some?
    ensures var q := Within(c, a, r.trace, Sections(g.handlers) + tail);
            var h := Handle(g.handlers, r.out.x).value;
            Ends(SetTop(q, Top(q).(flag := Handled)), h, tail) ==
            match h.out
            case Normal => Within(c, a.(flag := Handled), r.trace + h.trace, tail)
            case Thrown(x) => Ends(c, Result(r.trace + h.trace, Thrown(x)), tail)
  {
    var q := Within(c, a, r.trace, Sections(g.handlers) + tail);
    var h := Handle(g.handlers, r.out.x).value;
    var s := SetTop(q, Top(q).(flag := Handled)).(trace := q.trace + h.trace, todo := tail);
    assert q.acts[..|q.acts| - 1] == c.acts;
    assert c.trace + r.trace + h.trace == c.trace + (r.trace + h.trace);
    if h.out.Thrown? {
      assert s.acts[..|c.acts|] == c.acts;
      RaiseSame(c.(trace := s.trace, todo := tail), s, h.out.x);
    }
  }

  /** The sections of a TRY: the first that matches is run, with the flag set to handled. */
  lemma {:induction false} Selects(h: Handlers, x: Raised, c: Config, rest: seq<Code>) returns (n: nat)
    requires AllPlaced(h) && Safe(c) && c.status == Running && c.todo == Sections(h) + rest && c.acts != []
        && Top(c).exception == Some(x)
    ensures match Handle(h, x)
            case None => Reaches(c, n, c.(todo := rest))
            case Some(r) => Reaches(c, n, Ends(SetTop(c, Top(c).(flag := Handled)), r, rest))
    decreases h, 0
  {
    hide Reaches, Safe, Ends;
    match h
    case NoMore =>
      n := 0;
      assert c.todo == rest;
      Here(c);
    case Else(s) =>
      n := Section(s, x, c, rest);
    case Except(e, s, more) =>
      var yes := [SetFlag(Handled)] + Expand(s) + [POP_IF_ENTERED];
      Branch(c, ExceptionIs(e), yes, Sections(more), rest);
      var d := c.(todo := (if e == x.e then yes else Sections(more)) + rest);
      var m;
      if e == x.e { m := Section(s, x, d, rest); } else { m := Selects(more, x, d, rest); }
      var f := if Handle(h, x) == None then c.(todo := rest)
          else Ends(SetTop(c, Top(c).(flag := Handled)), Handle(h, x).value, rest);
      SameEnds(c, d, rest, h, x);
      ReachesTrans(c, 1, d, m, f);
      n := 1 + m;
  }

  lemma Here(c: Config)
    requires Safe(c)
    ensures Reaches(c, 0, c)
  {
  }

  lemma SameEnds(c: Config, d: Config, rest: seq<Code>, h: Handlers, x: Raised)
    requires d == c.(todo := d.todo) && c.acts != []
    ensures Handle(h, x) != None ==>
        Ends(SetTop(c, Top(c).(flag := Handled)), Handle(h, x).value,
        rest) == Ends(SetTop(d, Top(d).(flag := Handled)), Handle(h, x).value, rest)
  {
  }

  /** One section. */
  lemma {:induction false} Section(s: Stmt, x: Raised, c: Config, rest: seq<Code>) returns (n: nat)
    requires WellPlaced(s, true) && Safe(c) && c.status == Running && c.acts != [] && Top(c).exception == Some(x)
    requires c.todo == [SetFlag(Handled)] + Expand(s) + [POP_IF_ENTERED] + rest
    ensures Reaches(c, n, Ends(SetTop(c, Top(c).(flag := Handled)), Eval(s, Some(x)), rest))
    decreases s, 1
  {
    hide Reaches, Safe, Ends;
    var code := Expand(s) + ([POP_IF_ENTERED] + rest);
    assert c.todo == [SetFlag(Handled)] + code;
    SetHandled(c, Handled, code);
    var d := SetTop(c, Top(c).(flag := Handled)).(todo := code);
    var m := Simulates(s, Some(x), d, [POP_IF_ENTERED] + rest);
    var r := Eval(s, Some(x));
    var e := Ends(d, r, [POP_IF_ENTERED] + rest);
    ReachesTrans(c, 1, d, m, e);
    n := 1 + m;
    if r.out == Normal {
      NormalEnds(d, r, [POP_IF_ENTERED] + rest);
      NoPop(e, rest);
      NormalSame(d, SetTop(c, Top(c).(flag := Handled)), r, [POP_IF_ENTERED] + rest, rest);
      ReachesTrans(c, n, e, 1, e.(todo := rest));
      n := n + 1;
    } else {
      ThrownSame(d, SetTop(c, Top(c).(flag := Handled)), r, [POP_IF_ENTERED] + rest, rest);
    }
  }

  lemma NormalSame(d: Config, c: Config, r: Result, mid: seq<Code>, rest: seq<Code>)
    requires r.out == Normal && d == c.(todo := d.todo)
    ensures Ends(d, r, mid).(todo := rest) == Ends(c, r, rest)
  {
  }

  lemma ThrownSame(d: Config, c: Config, r: Result, mid: seq<Code>, rest: seq<Code>)
    requires r.out.Thrown? && d == c.(todo := d.todo)
    ensures Ends(d, r, mid) == Ends(c, r, rest)
  {
  }

  /** Into the FINALLY section: the flag says finalized if nothing was raised. */
  lemma StartFinally(c: Config, a: Activation, t: seq<int>, code: seq<Code>) returns (n: nat)
    requires Safe(c) && c.status == Running && a.prev == c.stack
    ensures var b := if a.flag == Entered then a.(flag := Finalized) else a;
            Reaches(Within(c, a, t, [If(FlagIs(Entered), [SetFlag(Finalized)], [])] + code), n, Within(c, b, t, code))
  {
    hide Reaches, Safe;
    var d := Within(c, a, t, [If(FlagIs(Entered), [SetFlag(Finalized)], [])] + code);
    WithinSafe(c, a, t, d.todo);
    Branch(d, FlagIs(Entered), [SetFlag(Finalized)], [], code);
    n := 1;
    if a.flag == Entered {
      var e := Within(c, a, t, [SetFlag(Finalized)] + code);
      SetHandled(e, Finalized, code);
      assert e.acts[..|e.acts| - 1] == c.acts;
      ReachesTrans(d, 1, e, 1, Within(c, a.(flag := Finalized), t, code));
      n := 2;
    } else {
      assert [] + code == code;
    }
  }

  /** The FINALLY section and END_TRY. */
  lemma {:induction false} Finishes(g: Guarded, final: Stmt, c: Config, a: Activation, rest: seq<Code>) returns (n: nat)
    requires WellPlaced(final, false) && Safe(c) && c.status == Running && a.prev == c.stack && !Protect(g).1.Escaped?
    requires match Protect(g).1
             case Unmatched(x) => a.flag == RaisedFlag && a.exception == Some(x)
             case _ => a.flag == Entered || a.flag == Handled
    ensures Reaches(Within(c, a, Protect(g).0, Finally(Expand(final)) + (END_TRY + rest)), n,
        Ends(c, Eval(TryFinally(g, final), None), rest))
    decreases final, 1
  {
    hide Reaches, Safe, Ends;
    var (t, how) := Protect(g);
    var mid := [POP_IF_ENTERED] + (END_TRY + rest);
    var start := Within(c, a, t, Finally(Expand(final)) + (END_TRY + rest));
    assert start.todo == [If(FlagIs(Entered), [SetFlag(Finalized)], [])] + (Expand(final) + mid);
    n := StartFinally(c, a, t, Expand(final) + mid);
    var b := if a.flag == Entered then a.(flag := Finalized) else a;
    var d := Within(c, b, t, Expand(final) + mid);
    WithinSafe(c, b, t, Expand(final) + mid);
    var m := Simulates(final, None, d, mid);
    var f := Eval(final, None);
    var e := Ends(d, f, mid);
    ReachesTrans(start, n, d, m, e);
    n := n + m;
    FinalEnds(c, b, t, f, Expand(final) + mid, mid, rest);
    if f.out == Normal {
      WithinSafe(c, b, t + f.trace, mid);
      NoPop(e, END_TRY + rest);
      TryEnds(c, b, t + f.trace, rest);
      var last := Ends(c, Eval(TryFinally(g, final), None), rest);
      ReachesTrans(start, n, e, 1, Within(c, b, t + f.trace, END_TRY + rest));
      ReachesTrans(start, n + 1, Within(c, b, t + f.trace, END_TRY + rest), 2, last);
      n := n + 3;
    }
  }

  lemma FinalEnds(c: Config, b: Activation, t: seq<int>, f: Result, code: seq<Code>, mid: seq<Code>, rest: seq<Code>)
    requires Safe(c) && c.status == Running
    ensures Ends(Within(c, b, t, code), f, mid) ==
            if f.out == Normal then Within(c, b, t + f.trace, mid) else Ends(c, After(t, f), rest)
  {
    var d := Within(c, b, t, code);
    assert c.trace + t + f.trace == c.trace + (t + f.trace);
    if f.out.Thrown? {
      assert d.acts[..|c.acts|] == c.acts;
      RaiseSame(c.(trace := c.trace + (t + f.trace), todo := rest), d.(trace := d.trace + f.trace, todo := mid),
          f.out.x);
    }
  }

  // ---------------------------------------------------------------- what follows

  /** A program begins with Except_stack null. */
  function Boot(s: Stmt): Config { Config(Expand(s), [], None, [], Running) }

  /** How a program that means r ends. */
  function Final(r: Result): Config
  {
    Config([], [], None, r.trace, if r.out == Normal then Running else Aborted(r.out.x))
  }

  /** A whole program emits what its meaning says, and is aborted, by the uncaught exception its
      meaning ends with, or comes to its end with Except_stack null again.  On the way Except_stack
      never leads to a frame whose block has been left. */
  lemma ProgramsRun(s: Stmt)
    requires WellPlaced(s, false)
    ensures var d := Final(Eval(s, None)); exists n :: Reaches(Boot(s), n, d)
  {
    var r := Eval(s, None);
    assert Expand(s) + [] == Expand(s);
    var n := Simulates(s, None, Boot(s), []);
    assert [] + r.trace == r.trace;
    assert Reaches(Boot(s), n, Final(r));
  }

  /** d is where control is after leaving, in c, a statement that ends like r and is followed by
      rest.  After a normal end Except_stack and the locals of all enclosing TRYs are as on entry;
      after an exception that an enclosing TRY receives, Except_stack is what it was when that TRY
      was entered, and execution goes on behind its setjmp. */
  predicate Left(c: Config, r: Result, rest: seq<Code>, d: Config)
  {
    && d.trace == c.trace + r.trace
    && match r.out
       case Normal => d.todo == rest && d.stack == c.stack && d.acts == c.acts && d.status == Running
       case Thrown(x) =>
         if c.stack == None then d.status == Aborted(x)
         else
           var p := c.stack.value;
           && p < |c.acts| && d.status == Running && d.stack == c.acts[p].prev && d.todo == c.acts[p].env
           && |d.acts| == p + 1
           && d.acts[..p] == c.acts[..p] && d.acts[p].exception == Some(x) && d.acts[p].flag == RaisedFlag
  }

  lemma StackIsRestored(s: Stmt, caught: Option<Raised>, c: Config, rest: seq<Code>)
    requires WellPlaced(s, caught.Some?) && Safe(c) && c.status == Running && Catching(c, caught)
        && c.todo == Expand(s) + rest
    ensures exists n, d :: Reaches(c, n, d) && Left(c, Eval(s, caught), rest, d)
  {
    var n := Simulates(s, caught, c, rest);
    var d := Ends(c, Eval(s, caught), rest);
    assert Reaches(c, n, d);
    assert Left(c, Eval(s, caught), rest, d);
  }

  /** The sections of a TRY in order; None stands for ELSE. */
  function Listed(h: Handlers): seq<(Option<Exc>, Stmt)>
  {
    match h
    case NoMore => []
    case Else(s) => [(None, s)]
    case Except(e, s, rest) => [(Some(e), s)] + Listed(rest)
  }

  predicate Fits(section: (Option<Exc>, Stmt), e: Exc) { section.0 == None || section.0 == Some(e) }

  /** It is the first section that fits the exception that runs. */
  lemma {:induction false} FirstFitRuns(h: Handlers, x: Raised, i: nat)
    requires i < |Listed(h)| && Fits(Listed(h)[i], x.e) && forall j :: 0 <= j < i ==> !Fits(Listed(h)[j], x.e)
    ensures Handle(h, x) == Some(Eval(Listed(h)[i].1, Some(x)))
  {
    match h
    case NoMore =>
    case Else(s) =>
    case Except(e, s, rest) =>
      assert Listed(h)[0] == (Some(e), s);
      if i > 0 {
        assert !Fits(Listed(h)[0], x.e);
        assert forall j :: 0 <= j < |Listed(rest)| ==> Listed(h)[j + 1] == Listed(rest)[j];
        forall j | 0 <= j < i - 1 ensures !Fits(Listed(rest)[j], x.e) { assert !Fits(Listed(h)[j + 1], x.e); }
        FirstFitRuns(rest, x, i - 1);
      }
  }

  /** When no section fits none runs. */
  lemma {:induction false} NoneFits(h: Handlers, x: Raised)
    requires forall j :: 0 <= j < |Listed(h)| ==> !Fits(Listed(h)[j], x.e)
    ensures Handle(h, x) == None
  {
    match h
    case NoMore =>
    case Else(s) => assert Fits(Listed(h)[0], x.e);
    case Except(e, s, rest) =>
      assert Listed(h)[0] == (Some(e), s) && !Fits(Listed(h)[0], x.e);
      forall j | 0 <= j < |Listed(rest)| ensures !Fits(Listed(rest)[j], x.e) {
        assert Listed(h)[j + 1] == Listed(rest)[j];
        assert !Fits(Listed(h)[j + 1], x.e);
      }
      NoneFits(rest, x);
  }

  /** m is emitted nowhere in a statement. */
  predicate Silent(s: Stmt, m: int)
  {
    match s
    case Emit(n) => n != m
    case Then(a, b) => Silent(a, m) && Silent(b, m)
    case Try(g) => Silent(g.body, m) && AllSilent(g.handlers, m)
    case TryFinally(g, final) => Silent(g.body, m) && AllSilent(g.handlers, m) && Silent(final, m)
    case _ => true
  }

  predicate AllSilent(h: Handlers, m: int)
  {
    match h
    case NoMore => true
    case Else(s) => Silent(s, m)
    case Except(_, s, rest) => Silent(s, m) && AllSilent(rest, m)
  }

  lemma {:induction false} SilentTrace(s: Stmt, caught: Option<Raised>, m: int)
    requires Silent(s, m)
    ensures m !in Eval(s, caught).trace
    decreases s, 0
  {
    match s
    case Then(a, b) => SilentTrace(a, caught, m); SilentTrace(b, caught, m);
    case Try(g) => SilentGuard(g, m);
    case TryFinally(g, final) => SilentGuard(g, m); SilentTrace(final, None, m);
    case _ =>
  }

  lemma {:induction false} SilentGuard(g: Guarded, m: int)
    requires Silent(g.body, m) && AllSilent(g.handlers, m)
    ensures m !in Protect(g).0
    decreases g, 0
  {
    SilentTrace(g.body, None, m);
    var r := Eval(g.body, None);
    if r.out.Thrown? { SilentHandle(g.handlers, r.out.x, m); }
  }

  lemma {:induction false} SilentHandle(h: Handlers, x: Raised, m: int)
    requires AllSilent(h, m)
    ensures Handle(h, x) != None ==> m !in Handle(h, x).value.trace
    decreases h, 0
  {
    match h
    case NoMore =>
    case Else(s) => SilentTrace(s, Some(x), m);
    case Except(e, s, rest) => SilentTrace(s, Some(x), m); SilentHandle(rest, x, m);
  }

  /** FINALLY against the same TRY without it, for any FINALLY section: it comes last, an exception
      that no section matches goes on after it with the place it was raised at, and an exception of
      its own takes that one's place; but it is not run at all when a handler raises. */
  lemma FinallyComesLast(g: Guarded, final: Stmt)
    ensures var r, without, f := Eval(TryFinally(g, final), None), Eval(Try(g), None), Eval(final, None);
            var b := Eval(g.body, None);
            var h := if b.out == Normal then None else Handle(g.handlers, b.out.x);
            if h.Some? && h.value.out.Thrown? then r == without && r.out == h.value.out
            else
              && r.trace == without.trace + f.trace
              && r.out == (if f.out != Normal then f.out else without.out)
              && without.out == (if h == None then b.out else Normal)
  {
  }

  /** So a FINALLY section that emits m, which nothing else does, emits it once and last, unless a
      handler raises. */
  lemma FinallyRunsOnce(g: Guarded, m: int)
    requires Silent(g.body, m) && AllSilent(g.handlers, m)
    ensures var r := Eval(TryFinally(g, Emit(m)), None);
            var b := Eval(g.body, None);
            var h := if b.out == Normal then None else Handle(g.handlers, b.out.x);
            if h.Some? && h.value.out.Thrown? then m !in r.trace
            else r.trace != [] && r.trace[|r.trace| - 1] == m && m !in r.trace[..|r.trace| - 1]
  {
    SilentGuard(g, m);
    FinallyComesLast(g, Emit(m));
    var r, without := Eval(TryFinally(g, Emit(m)), None), Eval(Try(g), None);
    assert without.trace == Protect(g).0;
    assert Eval(Emit(m), None) == Result([m], Normal);
    assert r.trace == without.trace + [m] ==> r.trace[..|r.trace| - 1] == without.trace;
  }

  // ---------------------------------------------------------------- raising and raising again

  /** Section i of the TRY is the one for x: the first that fits. */
  predicate Chosen(h: Handlers, i: nat, x: Raised)
  {
    i < |Listed(h)| && Fits(Listed(h)[i], x.e) && forall j :: 0 <= j < i ==> !Fits(Listed(h)[j], x.e)
  }

  /** A TRY without FINALLY is its body, unless that raises an exception with a section for it: then
      that section comes after the body, and how it ends is how the TRY ends. */
  lemma TryMeans(g: Guarded)
    ensures var b, r := Eval(g.body, None), Eval(Try(g), None);
            && (b.out == Normal ==> r == b)
            && (b.out.Thrown? && (forall j :: 0 <= j < |Listed(g.handlers)| ==> !Fits(Listed(g.handlers)[j], b.out.x.e))
                ==> r == b)
            && (b.out.Thrown? ==> forall i: nat :: Chosen(g.handlers, i, b.out.x) ==>
                  var h := Eval(Listed(g.handlers)[i].1, Some(b.out.x));
                  r == Result(b.trace + h.trace, h.out))
  {
    var b := Eval(g.body, None);
    if b.out.Thrown? {
      var x := b.out.x;
      if forall j :: 0 <= j < |Listed(g.handlers)| ==> !Fits(Listed(g.handlers)[j], x.e) {
        NoneFits(g.handlers, x);
      }
      forall i: nat | Chosen(g.handlers, i, x)
        ensures Handle(g.handlers, x) == Some(Eval(Listed(g.handlers)[i].1, Some(x)))
      {
        FirstFitRuns(g.handlers, x, i);
      }
    }
  }

  /** A statement that runs a and then raises the caught exception again; nothing behind RERAISE
      matters. */
  predicate EndsInReraise(s: Stmt, a: Stmt)
  {
    s.Then? && s.first == a && (s.second == Reraise || (s.second.Then? && s.second.first == Reraise))
  }

  /** A handler that ends with RERAISE passes on what the body raised, place and all: the TRY ends
      as its body does, with the emissions of the handler behind those of the body. */
  lemma ReraisePassesOn(g: Guarded, i: nat, a: Stmt)
    requires Eval(g.body, None).out.Thrown? && Chosen(g.handlers, i, Eval(g.body, None).out.x)
    requires EndsInReraise(Listed(g.handlers)[i].1, a) && Eval(a, Some(Eval(g.body, None).out.x)).out == Normal
    ensures Eval(Try(g), None).out == Eval(g.body, None).out
    ensures Eval(Try(g), None).trace == Eval(g.body, None).trace + Eval(a, Some(Eval(g.body, None).out.x)).trace
  {
    TryMeans(g);
    AgainEnds(Listed(g.handlers)[i].1, a, Eval(g.body, None).out.x);
  }

  lemma AgainEnds(s: Stmt, a: Stmt, x: Raised)
    requires EndsInReraise(s, a) && Eval(a, Some(x)).out == Normal
    ensures Eval(s, Some(x)) == Result(Eval(a, Some(x)).trace, Thrown(x))
  {
    var t := Eval(a, Some(x)).trace;
    assert Eval(s.second, Some(x)) == Result([], Thrown(x)) by {
      assert Eval(Reraise, Some(x)) == Result([], Thrown(x));
    }
    assert t + [] == t;
  }

  /** Control is where Except_raise(x) leads from c: the program is aborted by x, or the frame that
      was on top when c was entered has received x, and execution goes on behind its setjmp. */
  predicate Received(c: Config, x: Raised, d: Config)
  {
    if c.stack == None then d.status == Aborted(x)
    else
      && c.stack.value < |c.acts| && d.status == Running && |d.acts| == c.stack.value + 1
      && d.todo == c.acts[c.stack.value].env && d.stack == c.acts[c.stack.value].prev
      && Top(d).exception == Some(x) && Top(d).flag == RaisedFlag
  }

  /** The same of the code the macros expand to: wherever such a TRY is run, the enclosing frame
      receives the exception that the body raised. */
  lemma ReraiseRuns(g: Guarded, i: nat, a: Stmt, c: Config, rest: seq<Code>)
    requires WellPlaced(Try(g), false) && Safe(c) && c.status == Running && c.todo == Expand(Try(g)) + rest
    requires Eval(g.body, None).out.Thrown? && Chosen(g.handlers, i, Eval(g.body, None).out.x)
    requires EndsInReraise(Listed(g.handlers)[i].1, a) && Eval(a, Some(Eval(g.body, None).out.x)).out == Normal
    ensures exists n, d ::
        && Reaches(c, n, d) && Received(c, Eval(g.body, None).out.x, d)
        && d.trace == c.trace + Eval(g.body, None).trace + Eval(a, Some(Eval(g.body, None).out.x)).trace
  {
    ReraisePassesOn(g, i, a);
    StackIsRestored(Try(g), None, c, rest);
    var r := Eval(Try(g), None);
    var n, d :| Reaches(c, n, d) && Left(c, r, rest, d);
    hide Reaches, Eval;
    assert Received(c, r.out.x, d);
    assert c.trace + r.trace
        == c.trace + Eval(g.body, None).trace + Eval(a, Some(Eval(g.body, None).out.x)).trace;
  }

  /** Emissions one after another. */
  function Emits(ns: seq<int>): Stmt
  {
    if ns == [] then Skip else Then(Emit(ns[0]), Emits(ns[1..]))
  }

  lemma {:induction false} EmitsInOrder(ns: seq<int>, caught: Option<Raised>)
    ensures Eval(Emits(ns), caught) == Result(ns, Normal) && WellPlaced(Emits(ns), false)
  {
    if ns != [] {
      EmitsInOrder(ns[1..], caught);
      assert ns == [ns[0]] + ns[1..];
    }
  }

  /** RAISE: nothing behind it is run. */
  function RaiseAfter(ns: seq<int>, x: Raised, more: Stmt): Stmt { Then(Emits(ns), Then(Raise(x), more)) }

  lemma RaiseAfterEnds(ns: seq<int>, x: Raised, more: Stmt)
    ensures Eval(RaiseAfter(ns, x, more), None) == Result(ns, Thrown(x))
    ensures WellPlaced(more, false) ==> WellPlaced(RaiseAfter(ns, x, more), false)
  {
    EmitsInOrder(ns, None);
    assert Eval(Raise(x), None) == Result([], Thrown(x));
    assert Eval(Then(Raise(x), more), None) == Result([], Thrown(x));
    assert ns + [] == ns;
  }

  /** A program that emits, raises and has no TRY around that is aborted by that exception, having
      emitted just that, in order. */
  lemma UncaughtAborts(ns: seq<int>, x: Raised, more: Stmt)
    requires WellPlaced(more, false)
    ensures var d := Config([], [], None, ns, Aborted(x));
            exists n :: Reaches(Boot(RaiseAfter(ns, x, more)), n, d)
  {
    RaiseAfterEnds(ns, x, more);
    ProgramsRun(RaiseAfter(ns, x, more));
  }

  /** One that does so in a TRY comes to its end after the emissions of the first section that fits;
      with RERAISE behind those it is aborted after them, by the exception first raised. */
  lemma CaughtGoesOn(ns: seq<int>, x: Raised, more: Stmt, h: Handlers, i: nat, ms: seq<int>, again: bool)
    requires WellPlaced(more, false) && AllPlaced(h) && Chosen(h, i, x)
    requires Listed(h)[i].1 == if again then Then(Emits(ms), Reraise) else Emits(ms)
    ensures var d := Config([], [], None, ns + ms, if again then Aborted(x) else Running);
            exists n :: Reaches(Boot(Try(Guarded(RaiseAfter(ns, x, more), h))), n, d)
  {
    var g := Guarded(RaiseAfter(ns, x, more), h);
    assert WellPlaced(g.body, false) by { RaiseAfterEnds(ns, x, more); }
    CaughtMeans(ns, x, more, h, i, ms, again);
    assert WellPlaced(Try(g), false);
    hide Eval, AllPlaced, WellPlaced, RaiseAfter, Emits, Chosen, Listed, Expand;
    ProgramsRun(Try(g));
  }

  lemma CaughtMeans(ns: seq<int>, x: Raised, more: Stmt, h: Handlers, i: nat, ms: seq<int>, again: bool)
    requires Chosen(h, i, x) && Listed(h)[i].1 == if again then Then(Emits(ms), Reraise) else Emits(ms)
    ensures Eval(Try(Guarded(RaiseAfter(ns, x, more), h)), None)
            == Result(ns + ms, if again then Thrown(x) else Normal)
  {
    var g := Guarded(RaiseAfter(ns, x, more), h);
    RaiseAfterEnds(ns, x, more);
    EmitsInOrder(ms, Some(x));
    hide Eval, RaiseAfter, Emits, Chosen;
    if again { ReraisePassesOn(g, i, Emits(ms)); } else { TryMeans(g); }
  }
}
