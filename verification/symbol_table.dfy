/**
 * The compiler's symbol table: a singly linked list of symbols read from its
 * head, where new symbols are pushed at the head. A name is defined at most once
 * (the first definition wins), a value can only be set and read on a variable,
 * and every value handed out is a copy, which the value semantics of Dafny
 * strings gives for free.
 */
module SymbolTable {
  import opened Wrappers

  datatype SymbolType = SymVar | SymFun

  /** One entry; `value == None` is the C `NULL` value pointer. */
  datatype Symbol = Symbol(name: string, kind: SymbolType, value: Option<string>)

  /** The table, `entries[0]` being the symbol at `head`. */
  datatype Table = Table(entries: seq<Symbol>)

  /** The invariant every operation keeps: no name occurs twice. */
  ghost predicate UniqueNames(t: Table) {
    forall i, j :: 0 <= i < j < |t.entries| ==> t.entries[i].name != t.entries[j].name
  }

  ghost predicate Defines(t: Table, name: string) {
    exists i :: 0 <= i < |t.entries| && t.entries[i].name == name
  }

  /** `createSymbolTable`: a table with no entries. */
  function Create(): (t: Table)
    ensures UniqueNames(t)
    ensures forall name :: !Defines(t, name)
  {
    Table([])
  }

  /** Position of the first symbol called `name`, scanning from the head. */
  function Find(entries: seq<Symbol>, name: string): (r: Option<nat>)
    ensures r.Some? ==> r.value < |entries| && entries[r.value].name == name
    ensures r.Some? ==> forall j :: 0 <= j < r.value ==> entries[j].name != name
    ensures r.None? ==> forall j :: 0 <= j < |entries| ==> entries[j].name != name
  {
    if |entries| == 0 then None
    else if entries[0].name == name then Some(0)
    else
      match Find(entries[1..], name)
      case None => None
      case Some(i) => Some(i + 1)
  }

  /** `symbolTableLookup`: the entry named `name`, or `None` when there is none. */
  function Lookup(t: Table, name: string): (r: Option<Symbol>)
    ensures r.Some? <==> Defines(t, name)
    ensures r.Some? ==> r.value.name == name && r.value in t.entries
    ensures UniqueNames(t) ==> forall i :: 0 <= i < |t.entries| && t.entries[i].name == name ==> r == Some(t.entries[i])
  {
    match Find(t.entries, name)
    case None => None
    case Some(i) => Some(t.entries[i])
  }

  /**
   * `symbolTableInsert`: returns the updated table and the entry now standing
   * for `name`. An existing name wins; otherwise a new entry is pushed at the head.
   */
  function Insert(t: Table, name: string, kind: SymbolType, initial: Option<string>): (r: (Table, Symbol))
    ensures Defines(t, name) ==> r.0 == t && Lookup(t, name) == Some(r.1)
    ensures !Defines(t, name) ==> r.1 == Symbol(name, kind, initial)
    ensures !Defines(t, name) ==> r.0.entries == [r.1] + t.entries
    ensures Lookup(r.0, name) == Some(r.1)
    ensures UniqueNames(t) ==> UniqueNames(r.0)
  {
    match Lookup(t, name)
    case Some(existing) => (t, existing)
    case None =>
      var sym := Symbol(name, kind, initial);
      (Table([sym] + t.entries), sym)
  }

  /**
   * `symbolTableSetValue`: fails without change unless `name` is a variable;
   * otherwise only that entry's value is replaced by a copy of `value`.
   */
  function SetValue(t: Table, name: string, value: string): (r: (bool, Table))
    ensures r.0 <==> Lookup(t, name).Some? && Lookup(t, name).value.kind == SymVar
    ensures !r.0 ==> r.1 == t
    ensures |r.1.entries| == |t.entries|
    ensures forall i :: 0 <= i < |t.entries| ==>
              r.1.entries[i].name == t.entries[i].name && r.1.entries[i].kind == t.entries[i].kind
    ensures forall i :: 0 <= i < |t.entries| && t.entries[i].name != name ==> r.1.entries[i] == t.entries[i]
    ensures r.0 ==> Lookup(r.1, name) == Some(Symbol(name, SymVar, Some(value)))
    ensures UniqueNames(t) ==> UniqueNames(r.1)
  {
    match Find(t.entries, name)
    case None => (false, t)
    case Some(i) =>
      if t.entries[i].kind != SymVar then (false, t)
      else
        var entries := t.entries[i := t.entries[i].(value := Some(value))];
        assert Find(entries, name) == Some(i) by {
          FindPosition(entries, name, i);
        }
        (true, Table(entries))
  }

  /**
   * `symbolTableGetValue`: the value of variable `name`; fails when the name is
   * absent, is not a variable, or holds no value.
   */
  function GetValue(t: Table, name: string): (r: Option<string>)
    ensures r.Some? <==> Lookup(t, name).Some? && Lookup(t, name).value.kind == SymVar
                         && Lookup(t, name).value.value.Some?
    ensures UniqueNames(t) ==>
              forall v :: r == Some(v) <==> Symbol(name, SymVar, Some(v)) in t.entries
  {
    match Lookup(t, name)
    case Some(Symbol(_, SymVar, Some(v))) => Some(v)
    case _ => None
  }

  /** `Find` stops at the first entry with the name, wherever it is. */
  lemma FindPosition(entries: seq<Symbol>, name: string, i: nat)
    requires i < |entries| && entries[i].name == name
    requires forall j :: 0 <= j < i ==> entries[j].name != name
    ensures Find(entries, name) == Some(i)
  {
  }

  /** A successful `SetValue(name, v)` is observed by the next `GetValue(name)`. */
  lemma SetThenGet(t: Table, name: string, v: string)
    requires SetValue(t, name, v).0
    ensures GetValue(SetValue(t, name, v).1, name) == Some(v)
  {
  }

  /** `SetValue` on one name leaves what every other name reads unchanged. */
  lemma SetValueFrame(t: Table, name: string, v: string, other: string)
    requires other != name
    ensures GetValue(SetValue(t, name, v).1, other) == GetValue(t, other)
  {
    var t' := SetValue(t, name, v).1;
    FindFrame(t.entries, t'.entries, name, other);
  }

  lemma {:induction false} FindFrame(a: seq<Symbol>, b: seq<Symbol>, name: string, other: string)
    requires other != name && |a| == |b|
    requires forall i :: 0 <= i < |a| ==> a[i].name == b[i].name
    requires forall i :: 0 <= i < |a| && a[i].name != name ==> a[i] == b[i]
    ensures Find(a, other) == Find(b, other)
    ensures Find(a, other).Some? ==> a[Find(a, other).value] == b[Find(b, other).value]
  {
    if |a| > 0 && a[0].name != other {
      FindFrame(a[1..], b[1..], name, other);
    }
  }

  /** Inserting a name twice keeps the first definition and its value. */
  lemma FirstDefinitionWins(t: Table, name: string, k1: SymbolType, v1: Option<string>,
                            k2: SymbolType, v2: Option<string>)
    ensures var (t1, s1) := Insert(t, name, k1, v1);
            Insert(t1, name, k2, v2) == (t1, s1)
  {
  }
}
