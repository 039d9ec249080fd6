/**
 * The error manager: semantic errors are appended to a chain of nodes and
 * printed once, numbered from 1, by the renderer each node carries.
 *
 * The chain is modelled at the level of its pointers: `nodes` holds every node
 * ever allocated, in allocation order, and `first`, `last` and each node's
 * `next` are indices into it (`None` is `NULL`). This lets the model state what
 * the appending code really links, not what it was meant to link.
 */
module ErrorManager {
  import opened Wrappers

  /** `ErrorType`, in declaration order (`UNDIFINED_VAR = 0`, ...). */
  datatype ErrorType =
    | UndefinedVar | AlreadyDefinedVar | UndefinedFunc | AlreadyDefinedFunc
    | OutOfIndex | TooManyArgs | TooFewArgs | InvalidOrderedListItem

  /** The four `printError*` renderers a node can point to. */
  datatype Renderer = UndefinedVariable | ExistsVariable | UndefinedFunction | ExistsFunction

  datatype ErrorNode = ErrorNode(kind: ErrorType, msg: string, render: Renderer, next: Option<nat>)

  datatype Manager = Manager(
    errorCount: nat,
    errorsShown: bool,
    first: Option<nat>,
    last: Option<nat>,
    nodes: seq<ErrorNode>)

  /** `CompilationStatus`. */
  const SUCCEED: int := 0
  const FAILED: int := 1

  /**
   * The part of `CompilerState` the recorders touch. `succeed` is a C
   * `boolean`: any non-zero value reads as true.
   */
  datatype CompilerState = CompilerState(succeed: int)

  predicate Succeeded(cs: CompilerState) {
    cs.succeed != 0
  }

  /** Pointers stay inside the allocated nodes and every `next` points forward. */
  ghost predicate Valid(m: Manager) {
    && (m.first.Some? ==> m.first.value < |m.nodes|)
    && (m.last.Some? ==> m.last.value < |m.nodes|)
    && (m.first.None? <==> |m.nodes| == 0)
    && (m.first.None? <==> m.last.None?)
    && forall i :: 0 <= i < |m.nodes| && m.nodes[i].next.Some? ==>
         i < m.nodes[i].next.value < |m.nodes|
  }

  /** The nodes reachable from `i` by following `next`. */
  function From(m: Manager, i: nat): (r: seq<ErrorNode>)
    requires Valid(m) && i < |m.nodes|
    ensures 0 < |r| <= |m.nodes| - i
    ensures r[0] == m.nodes[i]
    decreases |m.nodes| - i
  {
    match m.nodes[i].next
    case None => [m.nodes[i]]
    case Some(j) => [m.nodes[i]] + From(m, j)
  }

  /** What `showErrors` walks: the nodes reachable from `first`. */
  function Chain(m: Manager): (r: seq<ErrorNode>)
    requires Valid(m)
    ensures |r| <= |m.nodes|
    ensures |r| == 0 <==> m.first.None?
  {
    match m.first
    case None => []
    case Some(i) => From(m, i)
  }

  /** `newErrorManager`: a zeroed manager. */
  function NewManager(): (m: Manager)
    ensures Valid(m)
    ensures m.errorCount == 0 && !m.errorsShown
    ensures m.first.None? && m.last.None?
    ensures Chain(m) == []
  {
    Manager(0, false, None, None, [])
  }

  /**
   * `newErrorNode` as written: the first append sets `first` and `last`; every
   * later one links the new node after `last` but never moves `last`.
   */
  function NewErrorNode(m: Manager, kind: ErrorType, msg: string, render: Renderer): (m': Manager)
    requires Valid(m)
    ensures Valid(m')
    ensures m'.errorCount == m.errorCount + 1
    ensures m'.errorsShown == m.errorsShown
    ensures |m'.nodes| == |m.nodes| + 1
    ensures forall i :: 0 <= i < |m.nodes| && Some(i) != m.last ==> m'.nodes[i] == m.nodes[i]
    ensures m.last.Some? ==> m'.nodes[m.last.value] == m.nodes[m.last.value].(next := Some(|m.nodes|))
    ensures m'.nodes[|m.nodes|] == ErrorNode(kind, msg, render, None)
    ensures m.first.None? ==> m'.first == m'.last == Some(|m.nodes|)
    ensures m.first.Some? ==> m'.first == m.first && m'.last == m.last
  {
    var k := |m.nodes|;
    var nodes := m.nodes + [ErrorNode(kind, msg, render, None)];
    if m.first.None? then
      m.(first := Some(k), last := Some(k), nodes := nodes, errorCount := m.errorCount + 1)
    else
      var l := m.last.value;
      m.(nodes := nodes[l := nodes[l].(next := Some(k))], errorCount := m.errorCount + 1)
  }

  /**
   * The shape `NewErrorNode` keeps from a fresh manager: `first` and `last`
   * both stay on node 0, and node 0 points at the most recent node.
   */
  ghost predicate AsWrittenShape(m: Manager) {
    && Valid(m)
    && m.errorCount == |m.nodes|
    && (|m.nodes| > 0 ==> m.first == Some(0) && m.last == Some(0))
    && (|m.nodes| > 1 ==> m.nodes[0].next == Some(|m.nodes| - 1))
    && (|m.nodes| <= 1 ==> forall i :: 0 <= i < |m.nodes| ==> m.nodes[i].next.None?)
    && forall i :: 0 < i < |m.nodes| ==> m.nodes[i].next.None?
  }

  /**
   * As written, the chain holds the first error and the latest one only: the
   * errors recorded in between stay allocated and counted but are unreachable.
   */
  lemma AsWrittenChain(m: Manager, kind: ErrorType, msg: string, render: Renderer)
    requires AsWrittenShape(m)
    ensures AsWrittenShape(NewErrorNode(m, kind, msg, render))
    ensures var m' := NewErrorNode(m, kind, msg, render);
            Chain(m') == (if |m.nodes| == 0 then [] else [m'.nodes[0]]) + [m'.nodes[|m.nodes|]]
  {
  }

  /** Three errors recorded on a fresh manager are counted but only two are shown. */
  lemma ThirdErrorDropsSecond()
    ensures var m := NewErrorNode(NewErrorNode(NewErrorNode(NewManager(),
                       UndefinedVar, "a", UndefinedVariable),
                       UndefinedVar, "b", UndefinedVariable),
                       UndefinedVar, "c", UndefinedVariable);
            m.errorCount == 3 && |Chain(m)| == 2
            && Chain(m)[0].msg == "a" && Chain(m)[1].msg == "c"
  {
  }

  /** The evidently intended append: link after `last`, then advance `last`. */
  function NewErrorNodeLinked(m: Manager, kind: ErrorType, msg: string, render: Renderer): (m': Manager)
    requires Valid(m)
    ensures Valid(m')
    ensures m'.errorCount == m.errorCount + 1
    ensures m'.errorsShown == m.errorsShown
    ensures |m'.nodes| == |m.nodes| + 1
    ensures m'.last == Some(|m.nodes|)
    ensures m'.nodes[|m.nodes|] == ErrorNode(kind, msg, render, None)
  {
    var k := |m.nodes|;
    var nodes := m.nodes + [ErrorNode(kind, msg, render, None)];
    if m.first.None? then
      m.(first := Some(k), last := Some(k), nodes := nodes, errorCount := m.errorCount + 1)
    else
      var l := m.last.value;
      m.(nodes := nodes[l := nodes[l].(next := Some(k))], last := Some(k), errorCount := m.errorCount + 1)
  }

  /** The chain shape the linked append keeps: node i points at node i + 1. */
  ghost predicate LinkedShape(m: Manager) {
    && Valid(m)
    && m.errorCount == |m.nodes|
    && (|m.nodes| > 0 ==> m.first == Some(0) && m.last == Some(|m.nodes| - 1))
    && (forall i :: 0 <= i < |m.nodes| - 1 ==> m.nodes[i].next == Some(i + 1))
    && (|m.nodes| > 0 ==> m.nodes[|m.nodes| - 1].next.None?)
  }

  /** Under the linked shape the chain is every node in order, message by message. */
  lemma {:induction false} LinkedFromIsSuffix(m: Manager, i: nat)
    requires LinkedShape(m) && i < |m.nodes|
    ensures |From(m, i)| == |m.nodes| - i
    ensures forall j :: i <= j < |m.nodes| ==>
              From(m, i)[j - i].kind == m.nodes[j].kind && From(m, i)[j - i].msg == m.nodes[j].msg
              && From(m, i)[j - i].render == m.nodes[j].render
    decreases |m.nodes| - i
  {
    if i < |m.nodes| - 1 {
      LinkedFromIsSuffix(m, i + 1);
    }
  }

  lemma LinkedAppendShape(m: Manager, kind: ErrorType, msg: string, render: Renderer)
    requires LinkedShape(m)
    ensures LinkedShape(NewErrorNodeLinked(m, kind, msg, render))
  {
  }

  /**
   * With the linked append the chain grows by exactly the recorded error, so
   * every recorded error is shown, in recording order.
   */
  lemma {:induction false} LinkedAppendKeepsAll(m: Manager, kind: ErrorType, msg: string, render: Renderer)
    requires LinkedShape(m)
    ensures LinkedShape(NewErrorNodeLinked(m, kind, msg, render))
    ensures var m' := NewErrorNodeLinked(m, kind, msg, render);
            |Chain(m')| == m'.errorCount == |m.nodes| + 1
    ensures var m' := NewErrorNodeLinked(m, kind, msg, render);
            forall j :: 0 <= j < |m'.nodes| ==>
              (Chain(m')[j].msg == m'.nodes[j].msg && Chain(m')[j].kind == m'.nodes[j].kind)
    ensures var m' := NewErrorNodeLinked(m, kind, msg, render);
            Chain(m')[|m.nodes|].msg == msg && Chain(m')[|m.nodes|].kind == kind
  {
    LinkedAppendShape(m, kind, msg, render);
    var m' := NewErrorNodeLinked(m, kind, msg, render);
    LinkedFromIsSuffix(m', 0);
  }

  /** Decimal text of a number, as `%i` prints a positive `int`. */
  function NatToString(n: nat): (s: string)
    ensures |s| > 0
    ensures forall i :: 0 <= i < |s| ==> '0' <= s[i] <= '9'
    ensures DecimalValue(s) == n
    ensures s[0] == '0' <==> n == 0
    ensures |s| > 1 ==> s[0] != '0'
  {
    var d := ['0' + (n % 10) as char];
    if n < 10 then d else NatToString(n / 10) + d
  }

  /** The number a string of decimal digits denotes. */
  function DecimalValue(s: string): nat
    requires forall i :: 0 <= i < |s| ==> '0' <= s[i] <= '9'
  {
    if |s| == 0 then 0
    else 10 * DecimalValue(s[..|s| - 1]) + (s[|s| - 1] - '0') as nat
  }

  /** The `printError*` renderers: the text each prints for error number `i`. */
  function Render(r: Renderer, i: nat, msg: string): string {
    var p := "[Error " + NatToString(i) + "]: ";
    match r
    case UndefinedVariable => p + "Undefined reference to variable \"" + msg + "\".\n"
    case ExistsVariable => p + "Variable \"" + msg + "\" already defined.\n"
    case UndefinedFunction => p + "Undefined reference to function \"" + msg + "\".\n"
    case ExistsFunction => p + "Function \"" + msg + "\" already defined.\n"
  }

  /** The words each renderer prints before the quoted name. */
  function Lead(r: Renderer): string {
    match r
    case UndefinedVariable => "Undefined reference to variable \""
    case ExistsVariable => "Variable \""
    case UndefinedFunction => "Undefined reference to function \""
    case ExistsFunction => "Function \""
  }

  /**
   * Every rendered line starts with the bracketed error number (which reads
   * back as `i`), carries the offending name right after the renderer's
   * lead-in words, and ends with a newline.
   */
  lemma RenderShape(r: Renderer, i: nat, msg: string)
    ensures var s := Render(r, i, msg);
            var p := "[Error " + NatToString(i) + "]: ";
            && DecimalValue(NatToString(i)) == i
            && |p| + |Lead(r)| + |msg| < |s|
            && s[..|p|] == p
            && s[|p|..|p| + |Lead(r)|] == Lead(r)
            && s[|p| + |Lead(r)|..|p| + |Lead(r)| + |msg|] == msg
            && s[|s| - 1] == '\n'
  {
    var p := "[Error " + NatToString(i) + "]: ";
    var tail := match r
      case UndefinedVariable => "\".\n"
      case ExistsVariable => "\" already defined.\n"
      case UndefinedFunction => "\".\n"
      case ExistsFunction => "\" already defined.\n";
    assert Render(r, i, msg) == p + Lead(r) + msg + tail;
    Pieces(p, Lead(r), msg, tail);
  }

  /** Where each of four concatenated pieces sits in the whole. */
  lemma Pieces(a: string, b: string, c: string, d: string)
    ensures var s := a + b + c + d;
            && s[..|a|] == a
            && s[|a|..|a| + |b|] == b
            && s[|a| + |b|..|a| + |b| + |c|] == c
            && (|d| > 0 ==> s[|s| - 1] == d[|d| - 1])
  {
  }

  /** Renders `chain`, numbering its nodes consecutively from `start`. */
  function RenderFrom(chain: seq<ErrorNode>, start: nat): (out: seq<string>)
    ensures |out| == |chain|
    ensures forall j :: 0 <= j < |chain| ==>
              out[j] == Render(chain[j].render, start + j, chain[j].msg)
  {
    seq(|chain|, j requires 0 <= j < |chain| => Render(chain[j].render, start + j, chain[j].msg))
  }

  /**
   * `showErrors`: the first call marks the manager as shown and prints the
   * chain numbered from 1; every later call prints nothing.
   */
  function ShowErrors(m: Manager): (r: (Manager, seq<string>))
    requires Valid(m)
    ensures Valid(r.0) && r.0.errorsShown
    ensures r.0 == m.(errorsShown := true)
    ensures m.errorsShown ==> r.1 == []
    ensures !m.errorsShown ==> |r.1| == |Chain(m)|
    ensures !m.errorsShown ==> forall j :: 0 <= j < |Chain(m)| ==>
              r.1[j] == Render(Chain(m)[j].render, j + 1, Chain(m)[j].msg)
  {
    if m.errorsShown then (m, [])
    else (m.(errorsShown := true), RenderFrom(Chain(m), 1))
  }

  /** A second `showErrors` prints nothing, whatever the first printed. */
  lemma ShowErrorsOnce(m: Manager)
    requires Valid(m)
    ensures ShowErrors(ShowErrors(m).0).1 == []
    ensures ShowErrors(ShowErrors(m).0).0 == ShowErrors(m).0
  {
  }

  /**
   * The common body of the four recorders, as written: store a copy of the
   * name, mark the compilation with `FAILED`, append by `NewErrorNode`.
   */
  function Record(m: Manager, cs: CompilerState, kind: ErrorType, name: string, render: Renderer)
    : (r: (Manager, CompilerState))
    requires Valid(m)
    ensures Valid(r.0)
    ensures r.1.succeed == FAILED
    ensures r.0.errorCount == m.errorCount + 1
    ensures |r.0.nodes| == |m.nodes| + 1
    ensures r.0.nodes[|m.nodes|] == ErrorNode(kind, name, render, None)
  {
    (NewErrorNode(m, kind, name, render), cs.(succeed := FAILED))
  }

  /** `useUndefinedVariable`. */
  function UseUndefinedVariable(m: Manager, cs: CompilerState, name: string): (r: (Manager, CompilerState))
    requires Valid(m)
    ensures Valid(r.0) && r.1.succeed == FAILED && r.0.errorCount == m.errorCount + 1
    ensures |r.0.nodes| == |m.nodes| + 1
    ensures r.0.nodes[|m.nodes|] == ErrorNode(UndefinedVar, name, UndefinedVariable, None)
  {
    Record(m, cs, UndefinedVar, name, UndefinedVariable)
  }

  /** `addAlreadyDefinedVariable`: tagged `UNDIFINED_VAR` like the undefined case. */
  function AddAlreadyDefinedVariable(m: Manager, cs: CompilerState, name: string): (r: (Manager, CompilerState))
    requires Valid(m)
    ensures Valid(r.0) && r.1.succeed == FAILED && r.0.errorCount == m.errorCount + 1
    ensures |r.0.nodes| == |m.nodes| + 1
    ensures r.0.nodes[|m.nodes|] == ErrorNode(UndefinedVar, name, ExistsVariable, None)
  {
    Record(m, cs, UndefinedVar, name, ExistsVariable)
  }

  /** `useUndefinedFunction`. */
  function UseUndefinedFunction(m: Manager, cs: CompilerState, name: string): (r: (Manager, CompilerState))
    requires Valid(m)
    ensures Valid(r.0) && r.1.succeed == FAILED && r.0.errorCount == m.errorCount + 1
    ensures |r.0.nodes| == |m.nodes| + 1
    ensures r.0.nodes[|m.nodes|] == ErrorNode(UndefinedFunc, name, UndefinedFunction, None)
  {
    Record(m, cs, UndefinedFunc, name, UndefinedFunction)
  }

  /** `addAlreadyDefinedFunction`. */
  function AddAlreadyDefinedFunction(m: Manager, cs: CompilerState, name: string): (r: (Manager, CompilerState))
    requires Valid(m)
    ensures Valid(r.0) && r.1.succeed == FAILED && r.0.errorCount == m.errorCount + 1
    ensures |r.0.nodes| == |m.nodes| + 1
    ensures r.0.nodes[|m.nodes|] == ErrorNode(AlreadyDefinedFunc, name, ExistsFunction, None)
  {
    Record(m, cs, AlreadyDefinedFunc, name, ExistsFunction)
  }

  /**
   * `FAILED` is 1, and 1 stored in the `boolean` flag reads as true: a
   * compilation that recorded an error still looks successful to its caller.
   */
  lemma RecordedFailureReadsAsSuccess(m: Manager, cs: CompilerState, kind: ErrorType, name: string, render: Renderer)
    requires Valid(m)
    ensures Succeeded(Record(m, cs, kind, name, render).1)
  {
  }

  /**
   * The evidently intended recorder: clear the success flag (store false) and
   * link the node so that it is shown.
   */
  function RecordCorrected(m: Manager, cs: CompilerState, kind: ErrorType, name: string, render: Renderer)
    : (r: (Manager, CompilerState))
    requires Valid(m)
    ensures Valid(r.0)
    ensures !Succeeded(r.1)
    ensures r.0.errorCount == m.errorCount + 1
    ensures LinkedShape(m) ==> LinkedShape(r.0) && |Chain(r.0)| == r.0.errorCount
                               && Chain(r.0)[m.errorCount].msg == name
  {
    var m' := NewErrorNodeLinked(m, kind, name, render);
    assert LinkedShape(m) ==> LinkedShape(m') && |Chain(m')| == m'.errorCount
                              && Chain(m')[m.errorCount].msg == name by {
      if LinkedShape(m) {
        LinkedAppendKeepsAll(m, kind, name, render);
      }
    }
    (m', cs.(succeed := 0))
  }
}
