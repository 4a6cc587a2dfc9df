/** Transition tables (macros/src/parser/mod.rs, `event_key`, `add_transition`
    and the expansion of wildcard rows in `ParsedStateMachine::new`;
    macros/src/validation.rs, `validate_unreachable_transitions`), and the flat
    dispatch of what they let through (macros/src/codegen.rs). */
module Tables {
  import opened Prelude

  type Name = string

  // ---- Triggers and their keys -------------------------------------------------------

  datatype Kind = Normal | Unexpected | Completion | Entry | Exit | Exception

  datatype Event = Event(kind: Kind, wildcard: bool, ident: Name)

  /** `event_key`. */
  function EventKey(event: Event): string {
    match event.kind
    case Normal => event.ident
    case Unexpected => if event.wildcard then "unexpected::*" else "unexpected::" + event.ident
    case Completion => if event.wildcard then "completion::*" else "completion::" + event.ident
    case Entry => "lifecycle::entry"
    case Exit => "lifecycle::exit"
    case Exception => if event.wildcard then "exception::*" else "exception::" + event.ident
  }

  /** Rust identifiers hold neither `:` nor `*`. */
  predicate IsIdentifier(name: Name) {
    ':' !in name && '*' !in name
  }

  /** Two rows share a group exactly if they have the same kind of trigger and,
      unless the trigger is a wildcard or a lifecycle hook, the same event. */
  predicate SameTrigger(a: Event, b: Event) {
    a.kind == b.kind &&
    match a.kind
    case Normal => a.ident == b.ident
    case Entry => true
    case Exit => true
    case _ => a.wildcard == b.wildcard && (a.wildcard || a.ident == b.ident)
  }

  lemma Tail(prefix: string, a: string, b: string)
    requires prefix + a == prefix + b
    ensures a == b
  {
    assert a == (prefix + a)[|prefix|..] && b == (prefix + b)[|prefix|..];
  }

  /** The first letter of a key, or `:` in it, tells the kinds apart. */
  lemma KeyShape(event: Event)
    requires IsIdentifier(event.ident)
    ensures var key := EventKey(event);
            match event.kind
            case Normal => ':' !in key
            case Unexpected => |key| > 1 && key[0] == 'u' && ':' in key
            case Completion => |key| > 1 && key[0] == 'c' && ':' in key
            case Entry => |key| == 16 && key[0] == 'l' && ':' in key
            case Exit => |key| == 15 && key[0] == 'l' && ':' in key
            case Exception => |key| > 1 && key[0] == 'e' && ':' in key
  {
    var key := EventKey(event);
    if !event.kind.Normal? {
      assert key[if event.kind.Unexpected? || event.kind.Completion? then 10 else 9] == ':';
    }
  }

  lemma EventKeyTellsTriggers(a: Event, b: Event)
    requires IsIdentifier(a.ident) && IsIdentifier(b.ident)
    ensures EventKey(a) == EventKey(b) <==> SameTrigger(a, b)
  {
    KeyShape(a);
    KeyShape(b);
    if EventKey(a) == EventKey(b) && !a.kind.Normal? && !a.kind.Entry? && !a.kind.Exit? {
      var prefix :=
        match a.kind case Unexpected => "unexpected::" case Completion => "completion::" case _ => "exception::";
      Tail(prefix, if a.wildcard then "*" else a.ident, if b.wildcard then "*" else b.ident);
      assert "*"[0] == '*';
    }
  }

  // ---- Rows and the groups they form ---------------------------------------------------

  /** A row; `source` and `target` are unused where it is a wildcard or internal. */
  datatype Row = Row(source: Name, wildcard: bool, key: string, guarded: bool, internal: bool, target: Name,
                     hasAction: bool, composite: bool)

  /** What a state's group keeps of a row; `row` is the row's place in the table. */
  datatype Candidate = Candidate(row: nat, guarded: bool, target: Name)

  type Table = map<Name, map<string, seq<Candidate>>>

  function Target(row: Row, s: Name): Name {
    if row.internal then s else row.target
  }

  function CandidateOf(i: nat, row: Row, s: Name): Candidate {
    Candidate(i, row.guarded, Target(row, s))
  }

  /** Every state that a row names. */
  function StatesOf(rows: seq<Row>): set<Name> {
    if rows == [] then {}
    else
      var row := rows[|rows| - 1];
      StatesOf(rows[..|rows| - 1]) + (if row.wildcard then {} else {row.source}) +
          (if row.internal then {} else {row.target})
  }

  /** Wildcards name no source and internal rows no target; all other states are in the table. */
  lemma {:induction false} StatesAreNamed(rows: seq<Row>, s: Name)
    ensures s in StatesOf(rows) <==>
              exists i :: 0 <= i < |rows| &&
                  ((!rows[i].wildcard && rows[i].source == s) || (!rows[i].internal && rows[i].target == s))
    decreases |rows|
  {
    if rows != [] {
      var n := |rows| - 1;
      StatesAreNamed(rows[..n], s);
      assert forall i :: 0 <= i < n ==> rows[..n][i] == rows[i];
      if (!rows[n].wildcard && rows[n].source == s) || (!rows[n].internal && rows[n].target == s) {
        assert rows[n] == rows[n];
      }
    }
  }

  /** Row `i` is for state `s` and trigger `key`, by name or by wildcard. */
  predicate Concerns(row: Row, s: Name, key: string) {
    row.key == key && (row.wildcard || row.source == s)
  }

  predicate Earlier(rows: seq<Row>, i: nat, s: Name, key: string)
    requires i <= |rows|
  {
    exists j :: 0 <= j < i && Concerns(rows[j], s, key)
  }

  /** Row `i` ends up in the group of `s` and `key`: a row for `s` always, a
      wildcard only where no earlier row is for them. */
  predicate Chosen(rows: seq<Row>, i: nat, s: Name, key: string)
    requires i < |rows|
  {
    Concerns(rows[i], s, key) && (rows[i].wildcard ==> !Earlier(rows, i, s, key))
  }

  /** The group of a state and a trigger, row by row. */
  function Group(rows: seq<Row>, s: Name, key: string): seq<Candidate> {
    if rows == [] then []
    else
      var n := |rows| - 1;
      var group := Group(rows[..n], s, key);
      if rows[n].key == key && (if rows[n].wildcard then group == [] else rows[n].source == s)
      then group + [CandidateOf(n, rows[n], s)] else group
  }

  lemma Prefix(rows: seq<Row>, n: nat, i: nat, s: Name, key: string)
    requires i <= n <= |rows|
    ensures Earlier(rows[..n], i, s, key) <==> Earlier(rows, i, s, key)
    ensures i < n ==> (Chosen(rows[..n], i, s, key) <==> Chosen(rows, i, s, key))
  {
    assert forall j :: 0 <= j < i ==> rows[..n][j] == rows[j];
  }

  lemma {:induction false} GroupIsEmpty(rows: seq<Row>, s: Name, key: string)
    ensures Group(rows, s, key) == [] <==> !Earlier(rows, |rows|, s, key)
    decreases |rows|
  {
    if rows != [] {
      var n := |rows| - 1;
      GroupIsEmpty(rows[..n], s, key);
      Prefix(rows, n, n, s, key);
      assert Earlier(rows, n + 1, s, key) <==> Earlier(rows, n, s, key) || Concerns(rows[n], s, key);
    }
  }

  /** The last row joins the group exactly if it is chosen. */
  lemma GroupGrows(rows: seq<Row>, s: Name, key: string)
    requires rows != []
    ensures var n := |rows| - 1; var group := Group(rows[..n], s, key);
            Group(rows, s, key) == if Chosen(rows, n, s, key) then group + [CandidateOf(n, rows[n], s)] else group
  {
    var n := |rows| - 1;
    GroupIsEmpty(rows[..n], s, key);
    Prefix(rows, n, n, s, key);
  }

  /** A group is exactly the chosen rows, in table order. */
  lemma {:induction false} GroupIsChosenRows(rows: seq<Row>, s: Name, key: string)
    ensures var group := Group(rows, s, key);
            && (forall a, b :: 0 <= a < b < |group| ==> group[a].row < group[b].row)
            && (forall c :: c in group ==>
               && c.row < |rows| && Chosen(rows, c.row, s, key) && c == CandidateOf(c.row, rows[c.row], s)
               && c.guarded == rows[c.row].guarded
               && c.target == if rows[c.row].internal then s else rows[c.row].target)
            && (forall i :: 0 <= i < |rows| && Chosen(rows, i, s, key) ==> CandidateOf(i, rows[i], s) in group)
    decreases |rows|
  {
    if rows != [] {
      var n := |rows| - 1;
      GroupIsChosenRows(rows[..n], s, key);
      GroupGrows(rows, s, key);
      var before, group := Group(rows[..n], s, key), Group(rows, s, key);
      assert forall a :: 0 <= a < |before| ==> before[a] in before;
      forall i | 0 <= i < n
        ensures Chosen(rows[..n], i, s, key) <==> Chosen(rows, i, s, key)
      {
        Prefix(rows, n, i, s, key);
      }
      forall c | c in group
        ensures c in before || (Chosen(rows, n, s, key) && c == CandidateOf(n, rows[n], s))
      {
      }
    }
  }

  /** What the parser builds: a group wherever some row concerns it, for every state. */
  ghost predicate Holds(table: Table, rows: seq<Row>, states: set<Name>) {
    && table.Keys == states
    && (forall s, key :: s in table ==> (key in table[s] <==> Group(rows, s, key) != []))
    && (forall s, key :: s in table && key in table[s] ==> table[s][key] == Group(rows, s, key))
  }

  /** Only one table holds what the rows say, so no order in which the states of
      a hash map are visited can change it. */
  lemma OneTable(a: Table, b: Table, rows: seq<Row>, states: set<Name>)
    requires Holds(a, rows, states) && Holds(b, rows, states)
    ensures a == b
  {
    forall s | s in states
      ensures a[s] == b[s]
    {
      assert a[s].Keys == b[s].Keys;
    }
  }

  /** A wildcard row reaches exactly the states with no earlier row for its
      trigger, and after it that trigger has a group in every state. */
  lemma WildcardReaches(rows: seq<Row>, i: nat, s: Name)
    requires i < |rows| && rows[i].wildcard
    ensures (exists c :: c in Group(rows, s, rows[i].key) && c.row == i) <==> !Earlier(rows, i, s, rows[i].key)
    ensures Group(rows, s, rows[i].key) != []
  {
    GroupIsChosenRows(rows, s, rows[i].key);
    GroupIsEmpty(rows, s, rows[i].key);
    assert Concerns(rows[i], s, rows[i].key);
    if !Earlier(rows, i, s, rows[i].key) {
      assert CandidateOf(i, rows[i], s) in Group(rows, s, rows[i].key);
    }
  }

  // ---- Building ---------------------------------------------------------------------------

  datatype Error = WildcardHasNoEffect(row: nat) | DataWithoutAction(row: nat)

  /** A transition into a state with data needs an action to make the data. */
  predicate LacksData(row: Row, s: Name, dataStates: set<Name>) {
    (if row.internal then s else row.target) in dataStates && !row.hasAction && !row.composite
  }

  /** Row `i` is added to state `s`. */
  predicate Reaches(rows: seq<Row>, i: nat, s: Name)
    requires i < |rows|
  {
    Chosen(rows, i, s, rows[i].key)
  }

  ghost predicate RowIsFine(rows: seq<Row>, i: nat, states: set<Name>, dataStates: set<Name>)
    requires i < |rows|
  {
    && (rows[i].wildcard ==> exists s :: s in states && Reaches(rows, i, s))
    && (forall s :: s in states && Reaches(rows, i, s) ==> !LacksData(rows[i], s, dataStates))
  }

  method AddTransition(table: Table, i: nat, row: Row, s: Name, dataStates: set<Name>) returns (table': Table,
                       ok: bool)
    requires s in table
    ensures ok <==> !LacksData(row, s, dataStates)
    ensures table' == table[s := table[s][row.key :=
                        (if row.key in table[s] then table[s][row.key] else []) + [CandidateOf(i, row, s)]]]
  {
    var groups := table[s];
    assert [] + [CandidateOf(i, row, s)] == [CandidateOf(i, row, s)];
    if row.key !in groups {
      groups := groups[row.key := [CandidateOf(i, row, s)]];
    } else {
      groups := groups[row.key := groups[row.key] + [CandidateOf(i, row, s)]];
    }
    table' := table[s := groups];
    ok := !(Target(row, s) in dataStates && !row.hasAction && !row.composite);
  }

  /** While a row is expanded: the states in `todo` are as before it, the others as after it. */
  ghost predicate Halfway(table: Table, rows: seq<Row>, i: nat, states: set<Name>, todo: set<Name>)
    requires i < |rows|
  {
    && table.Keys == states
    && (forall s, key :: s in table ==>
          var group := Group(if s in todo then rows[..i] else rows[..i + 1], s, key);
          && (key in table[s] <==> group != [])
          && (key in table[s] ==> table[s][key] == group))
  }

  /** The step from the groups before a row to those after it. */
  lemma GroupStep(rows: seq<Row>, i: nat, s: Name, key: string)
    requires i < |rows|
    ensures var before := Group(rows[..i], s, key);
            Group(rows[..i + 1], s, key) ==
              if Reaches(rows, i, s) && key == rows[i].key then before + [CandidateOf(i, rows[i], s)] else before
    ensures key == rows[i].key && rows[i].wildcard ==> (Reaches(rows, i, s) <==> Group(rows[..i], s, key) == [])
  {
    assert rows[..i + 1][..i] == rows[..i];
    GroupGrows(rows[..i + 1], s, key);
    GroupIsEmpty(rows[..i], s, key);
    Prefix(rows, i, i, s, key);
    Prefix(rows, i + 1, i, s, key);
  }

  /** State `s` is done: its group has row `i` exactly if it had none before. */
  lemma OneStateFurther(before: Table, after: Table, rows: seq<Row>, i: nat, states: set<Name>, todo: set<Name>,
                        s: Name)
    requires i < |rows| && rows[i].wildcard && s in todo && todo <= states && Halfway(before, rows, i, states, todo)
    requires var key := rows[i].key;
             after == if key in before[s] then before else before[s := before[s][key := [CandidateOf(i, rows[i], s)]]]
    ensures Halfway(after, rows, i, states, todo - {s})
  {
    GroupStep(rows, i, s, rows[i].key);
    forall key
      ensures var group := Group(rows[..i + 1], s, key);
              (key in after[s] <==> group != []) && (key in after[s] ==> after[s][key] == group)
    {
      GroupStep(rows, i, s, key);
      assert [] + [CandidateOf(i, rows[i], s)] == [CandidateOf(i, rows[i], s)];
    }
  }

  /** The expansion of a wildcard row; `s :| s in todo` is the hash map's order. */
  method ExpandWildcard(table: Table, rows: seq<Row>, i: nat, ghost states: set<Name>, dataStates: set<Name>)
    returns (r: Result<Table, Error>)
    requires i < |rows| && rows[i].wildcard && Holds(table, rows[..i], states)
    ensures r.Ok? <==> RowIsFine(rows, i, states, dataStates)
    ensures r.Ok? ==> Holds(r.value, rows[..i + 1], states)
  {
    var row := rows[i];
    var result := table;
    var todo := table.Keys;
    var added := false;
    while todo != {}
      invariant todo <= states && Halfway(result, rows, i, states, todo)
      invariant added <==> exists s :: s in states && s !in todo && Reaches(rows, i, s)
      invariant forall s :: s in states && s !in todo && Reaches(rows, i, s) ==> !LacksData(row, s, dataStates)
      decreases todo
    {
      var s :| s in todo;
      GroupStep(rows, i, s, row.key);
      ghost var before, waiting := result, todo;
      todo := todo - {s};
      if row.key !in result[s] {
        var ok;
        result, ok := AddTransition(result, i, row, s, dataStates);
        if !ok {
          return Err(DataWithoutAction(i));
        }
        added := true;
        assert [] + [CandidateOf(i, row, s)] == [CandidateOf(i, row, s)];
      }
      OneStateFurther(before, result, rows, i, states, waiting, s);
    }
    return if added then Ok(result) else Err(WildcardHasNoEffect(i));
  }

  /** A row for one state. */
  method AddRow(table: Table, rows: seq<Row>, i: nat, ghost states: set<Name>, dataStates: set<Name>)
    returns (r: Result<Table, Error>)
    requires i < |rows| && !rows[i].wildcard && rows[i].source in states && Holds(table, rows[..i], states)
    ensures r.Ok? <==> RowIsFine(rows, i, states, dataStates)
    ensures r.Ok? ==> Holds(r.value, rows[..i + 1], states)
  {
    var row := rows[i];
    var result, ok := AddTransition(table, i, row, row.source, dataStates);
    NamedRowIsFine(rows, i, states, dataStates);
    if !ok {
      return Err(DataWithoutAction(i));
    }
    forall s, key | s in table
      ensures var group := Group(rows[..i + 1], s, key);
              (key in result[s] <==> group != []) && (key in result[s] ==> result[s][key] == group)
    {
      NamedRowAdded(table, result, rows, i, states, s, key);
    }
    return Ok(result);
  }

  /** A row for one state reaches that state alone. */
  lemma NamedRowIsFine(rows: seq<Row>, i: nat, states: set<Name>, dataStates: set<Name>)
    requires i < |rows| && !rows[i].wildcard && rows[i].source in states
    ensures RowIsFine(rows, i, states, dataStates) <==> !LacksData(rows[i], rows[i].source, dataStates)
  {
    assert Reaches(rows, i, rows[i].source);
  }

  lemma NamedRowAdded(before: Table, after: Table, rows: seq<Row>, i: nat, states: set<Name>, s: Name, key: string)
    requires i < |rows| && !rows[i].wildcard && rows[i].source in before && Holds(before, rows[..i], states) &&
             s in before
    requires var row := rows[i];
             after == before[row.source := before[row.source][row.key :=
                        (if row.key in before[row.source] then before[row.source][row.key] else [])
                        + [CandidateOf(i, row, row.source)]]]
    ensures var group := Group(rows[..i + 1], s, key);
            (key in after[s] <==> group != []) && (key in after[s] ==> after[s][key] == group)
  {
    GroupStep(rows, i, s, key);
  }

  method CollectStates(rows: seq<Row>) returns (table: Table)
    ensures table.Keys == StatesOf(rows) && forall s :: s in table ==> table[s] == map[]
  {
    table := map[];
    var i := 0;
    while i < |rows|
      invariant i <= |rows| && table.Keys == StatesOf(rows[..i]) && forall s :: s in table ==> table[s] == map[]
    {
      assert rows[..i + 1][..i] == rows[..i];
      if !rows[i].wildcard {
        table := table[rows[i].source := map[]];
      }
      if !rows[i].internal {
        table := table[rows[i].target := map[]];
      }
      i := i + 1;
    }
    assert rows[..|rows|] == rows;
  }

  lemma {:induction false} SourceIsState(rows: seq<Row>, i: nat)
    requires i < |rows| && !rows[i].wildcard
    ensures rows[i].source in StatesOf(rows)
    decreases |rows|
  {
    if i < |rows| - 1 {
      SourceIsState(rows[..|rows| - 1], i);
    }
  }

  /** The transition map of a table. It is built exactly if every wildcard row
      reaches some state and no row enters a state with data without an action. */
  method Build(rows: seq<Row>, dataStates: set<Name>) returns (r: Result<Table, Error>)
    ensures r.Ok? <==> forall i :: 0 <= i < |rows| ==> RowIsFine(rows, i, StatesOf(rows), dataStates)
    ensures r.Ok? ==> Holds(r.value, rows, StatesOf(rows))
  {
    var table := CollectStates(rows);
    var i := 0;
    while i < |rows|
      invariant i <= |rows| && Holds(table, rows[..i], StatesOf(rows))
      invariant forall j :: 0 <= j < i ==> RowIsFine(rows, j, StatesOf(rows), dataStates)
    {
      var next := AddAnyRow(table, rows, i, dataStates);
      if next.Err? {
        return next;
      }
      table := next.value;
      i := i + 1;
    }
    assert rows[..|rows|] == rows;
    return Ok(table);
  }

  method AddAnyRow(table: Table, rows: seq<Row>, i: nat, dataStates: set<Name>) returns (r: Result<Table, Error>)
    requires i < |rows| && Holds(table, rows[..i], StatesOf(rows))
    ensures r.Ok? <==> RowIsFine(rows, i, StatesOf(rows), dataStates)
    ensures r.Ok? ==> Holds(r.value, rows[..i + 1], StatesOf(rows))
  {
    if rows[i].wildcard {
      r := ExpandWildcard(table, rows, i, StatesOf(rows), dataStates);
    } else {
      SourceIsState(rows, i);
      r := AddRow(table, rows, i, StatesOf(rows), dataStates);
    }
  }

  // ---- Validation ----------------------------------------------------------------------------

  /** Only the last candidate of a group is unguarded. */
  predicate OnlyLastUnguarded(group: seq<Candidate>) {
    forall i :: 0 <= i < |group| - 1 ==> group[i].guarded
  }

  /** The inner loop: at most one unguarded candidate, and none after it. */
  method ValidateGroup(group: seq<Candidate>) returns (ok: bool)
    ensures ok <==> OnlyLastUnguarded(group)
  {
    if |group| > 1 {
      var unguardedCount := 0;
      var i := 0;
      while i < |group|
        invariant i <= |group|
        invariant unguardedCount == 0 <==> forall j :: 0 <= j < i ==> group[j].guarded
        invariant unguardedCount <= 1 && (unguardedCount == 1 ==> i > 0 && !group[i - 1].guarded)
        invariant forall j :: 0 <= j < i - 1 ==> group[j].guarded
      {
        if group[i].guarded {
          if unguardedCount > 0 {
            return false;
          }
        } else {
          unguardedCount := unguardedCount + 1;
          if unguardedCount > 1 {
            return false;
          }
        }
        i := i + 1;
      }
    }
    return true;
  }

  ghost predicate Accepted(table: Table) {
    forall s, key :: s in table && key in table[s] ==> OnlyLastUnguarded(table[s][key])
  }

  /** `validate_unreachable_transitions` accepts exactly the tables in which only
      the last candidate of a group is unguarded. */
  method Validate(table: Table) returns (ok: bool)
    ensures ok <==> Accepted(table)
  {
    var states := table.Keys;
    while states != {}
      invariant states <= table.Keys
      invariant forall s, key :: s in table && s !in states && key in table[s] ==> OnlyLastUnguarded(table[s][key])
      decreases states
    {
      var s :| s in states;
      states := states - {s};
      var keys := table[s].Keys;
      while keys != {}
        invariant keys <= table[s].Keys
        invariant forall key :: key in table[s] && key !in keys ==> OnlyLastUnguarded(table[s][key])
        decreases keys
      {
        var key :| key in keys;
        keys := keys - {key};
        var fine := ValidateGroup(table[s][key]);
        if !fine {
          return false;
        }
      }
    }
    return true;
  }

  lemma NoneEarlier(rows: seq<Row>, i: nat, s: Name, key: string, j: nat)
    requires i <= |rows| && !Earlier(rows, i, s, key) && j < |rows| && Concerns(rows[j], s, key)
    ensures j >= i
  {
  }

  /** In an accepted table an unguarded wildcard row that reaches a state is alone
      in its group: no later row of that state has the same trigger. */
  lemma UnguardedWildcardIsAlone(table: Table, rows: seq<Row>, states: set<Name>, i: nat, s: Name)
    requires Holds(table, rows, states) && Accepted(table) && s in states
    requires i < |rows| && rows[i].wildcard && !rows[i].guarded && Reaches(rows, i, s)
    ensures rows[i].key in table[s] && table[s][rows[i].key] == [CandidateOf(i, rows[i], s)]
  {
    var key := rows[i].key;
    GroupIsChosenRows(rows, s, key);
    var group := Group(rows, s, key);
    var k :| 0 <= k < |group| && group[k] == CandidateOf(i, rows[i], s);
    var first := group[0];
    assert first in group;
    NoneEarlier(rows, i, s, key, first.row);
    assert k == 0;
    assert OnlyLastUnguarded(group);
  }

  // ---- Flat dispatch of a group ----------------------------------------------------------------

  datatype Verdict = Passed | Refused | Faulted

  datatype Outcome = Runs(candidate: nat) | GuardFailed(candidate: nat) | TransitionsFailed

  /** The candidates in order: the policy is asked first, then the guard. A
      guard's answer may depend on what was asked before, so it is given by place. */
  function Dispatch(group: seq<Candidate>, accepts: nat -> bool, guard: nat -> Verdict, i: nat): Outcome
    requires i <= |group|
    decreases |group| - i
  {
    if i == |group| then TransitionsFailed
    else if !accepts(i) then Dispatch(group, accepts, guard, i + 1)
    else if !group[i].guarded then Runs(i)
    else match guard(i)
      case Passed => Runs(i)
      case Faulted => GuardFailed(i)
      case Refused => Dispatch(group, accepts, guard, i + 1)
  }

  /** Candidate `i` is tried and turned down. */
  predicate PassedOver(group: seq<Candidate>, accepts: nat -> bool, guard: nat -> Verdict, i: nat)
    requires i < |group|
  {
    !accepts(i) || (group[i].guarded && guard(i) == Refused)
  }

  lemma {:induction false} DispatchRunsFirst(group: seq<Candidate>, accepts: nat -> bool, guard: nat -> Verdict,
                                             i: nat)
    requires i <= |group|
    ensures match Dispatch(group, accepts, guard, i)
            case Runs(k) =>
              && i <= k < |group| && (forall j :: i <= j < k ==> PassedOver(group, accepts, guard, j))
              && accepts(k) && (!group[k].guarded || guard(k) == Passed)
            case GuardFailed(k) =>
              && i <= k < |group| && (forall j :: i <= j < k ==> PassedOver(group, accepts, guard, j))
              && accepts(k) && group[k].guarded && guard(k) == Faulted
            case TransitionsFailed => forall j :: i <= j < |group| ==> PassedOver(group, accepts, guard, j)
    decreases |group| - i
  {
    if i < |group| && PassedOver(group, accepts, guard, i) {
      DispatchRunsFirst(group, accepts, guard, i + 1);
    }
  }

  /** An accepted group that ends unguarded never fails with `TransitionsFailed`
      while no guard fails and the policy accepts: one candidate runs, and it is
      the first whose guard passes, the last one if none of the others does. */
  lemma ClosedGroupAlwaysRuns(group: seq<Candidate>, accepts: nat -> bool, guard: nat -> Verdict)
    requires OnlyLastUnguarded(group) && group != [] && !group[|group| - 1].guarded
    requires forall i: nat :: i < |group| ==> accepts(i) && guard(i) != Faulted
    ensures Dispatch(group, accepts, guard, 0).Runs?
    ensures var k := Dispatch(group, accepts, guard, 0).candidate;
            && k < |group|
            && (forall j: nat :: j < k ==> guard(j) == Refused)
            && (k < |group| - 1 ==> guard(k) == Passed)
  {
    DispatchRunsFirst(group, accepts, guard, 0);
    assert accepts(|group| - 1);
    assert !PassedOver(group, accepts, guard, |group| - 1);
    forall j: nat | j < Dispatch(group, accepts, guard, 0).candidate
      ensures guard(j) == Refused
    {
      assert PassedOver(group, accepts, guard, j) && accepts(j);
    }
  }

  /** No accepted group hides a candidate: for each there are guard answers that make it run. */
  lemma EveryCandidateCanRun(group: seq<Candidate>, k: nat)
    requires k < |group| && OnlyLastUnguarded(group)
    ensures Dispatch(group, (_: nat) => true, (i: nat) => if i == k then Passed else Refused, 0) == Runs(k)
  {
    CanRunFrom(group, k, 0);
  }

  lemma {:induction false} CanRunFrom(group: seq<Candidate>, k: nat, i: nat)
    requires i <= k < |group| && OnlyLastUnguarded(group)
    ensures Dispatch(group, (_: nat) => true, (j: nat) => if j == k then Passed else Refused, i) == Runs(k)
    decreases k - i
  {
    if i < k {
      CanRunFrom(group, k, i + 1);
    }
  }
}
