/** Run-to-completion of a machine with one nested child
    (macros/src/composite_codegen.rs, `dispatch_code`, `completion_code`,
    `exception_code` and `recovering_stabilize_body` without settle sites).

    Guards, actions and the policy's choice of candidates are arbitrary functions
    of the context. Rows that defer or process events, and guards with `||` at
    their root (see `Guards`), are not covered. */
module TwoLevel {
  import opened Prelude

  datatype Level = Parent | Child

  datatype Trigger =
    | On(event: nat) | Unexpected(event: nat) | AnyUnexpected
    | CompletionOf(event: nat) | AnyCompletion
    | TypedException | AnyException

  /** `ty` is the payload type of the row's event, if it has a static one. */
  datatype Row = Row(id: nat, source: nat, trigger: Trigger, ty: Option<nat>, internal: bool, target: nat)

  datatype Verdict = Passed | Refused | Faulted

  /** How far a row's callbacks got: they may fail before the state is replaced,
      in the new state's own entry hook, or in that of the child entered after it. */
  datatype Effect<+C> = Ran(ctx: C) | FailedBefore(ctx: C) | FailedAtEntry(ctx: C) | FailedInChild(ctx: C)

  datatype Machine<!C> = Machine(
    parent: seq<Row>,
    child: seq<Row>,
    composite: nat,           // the parent state that holds the child
    initial: nat,             // the child's initial state
    history: bool,
    terminal: Option<nat>,    // the child's `X`
    accepts: (Level, Row, C) -> bool,
    guard: (Level, Row, C) -> Verdict,
    fire: (Level, Row, C) -> Effect<C>)

  datatype Config<+C> = Config(parent: nat, child: nat, ctx: C)

  predicate ChildIsActive<C>(m: Machine<C>, c: Config<C>) {
    c.parent == m.composite
  }

  function Rows<C>(m: Machine<C>, level: Level): seq<Row> {
    if level.Parent? then m.parent else m.child
  }

  function Current<C>(c: Config<C>, level: Level): nat {
    if level.Parent? then c.parent else c.child
  }

  // ---- Trying rows -----------------------------------------------------------------------

  /** `ran` is the row whose guard passed, at most one. */
  datatype Attempt<+C> = Attempt(c: Config<C>, handled: bool, fault: bool, ran: Option<(Level, Row)>)

  /** A row replaces its level's state. */
  function Replace<C>(level: Level, c: Config<C>, row: Row): Config<C> {
    if row.internal then c else if level.Child? then c.(child := row.target) else c.(parent := row.target)
  }

  /** After its entry hook, entering the composite state starts the child over. */
  function Arrive<C>(m: Machine<C>, level: Level, c: Config<C>, row: Row): Config<C> {
    var entersChild := level.Parent? && !row.internal && row.target == m.composite && c.parent != m.composite;
    Replace(level, c, row).(child := if entersChild && !m.history then m.initial else Replace(level, c, row).child)
  }

  /** The policy chooses among candidates of events only. */
  predicate Considered<C>(m: Machine<C>, level: Level, c: Config<C>, row: Row) {
    row.trigger.On? || row.trigger.Unexpected? || row.trigger.AnyUnexpected? ==> m.accepts(level, row, c.ctx)
  }

  function TryRow<C>(m: Machine<C>, level: Level, c: Config<C>, row: Row): (r: Attempt<C>)
    ensures !(r.handled && r.fault)
  {
    if !Considered(m, level, c, row) then Attempt(c, false, false, None)
    else match m.guard(level, row, c.ctx)
      case Refused => Attempt(c, false, false, None)
      case Faulted => Attempt(c, false, true, None)
      case Passed =>
        match m.fire(level, row, c.ctx)
        case Ran(ctx) => Attempt(Arrive(m, level, c, row).(ctx := ctx), true, false, Some((level, row)))
        case FailedBefore(ctx) => Attempt(c.(ctx := ctx), false, true, Some((level, row)))
        case FailedAtEntry(ctx) => Attempt(Replace(level, c, row).(ctx := ctx), false, true, Some((level, row)))
        case FailedInChild(ctx) => Attempt(Arrive(m, level, c, row).(ctx := ctx), false, true, Some((level, row)))
  }

  /** The rows of one match arm in order, each behind `!handled`. */
  function TryRows<C>(m: Machine<C>, level: Level, c: Config<C>, rows: seq<Row>): (r: Attempt<C>)
    ensures !(r.handled && r.fault)
    decreases |rows|
  {
    if rows == [] then Attempt(c, false, false, None)
    else
      var a := TryRow(m, level, c, rows[0]);
      if a.handled || a.fault then a else TryRows(m, level, c, rows[1..])
  }

  function Select(rows: seq<Row>, source: nat, trigger: Trigger): (r: seq<Row>)
    ensures forall i :: 0 <= i < |r| ==> r[i] in rows && r[i].source == source && r[i].trigger == trigger
  {
    if rows == [] then []
    else if rows[0].source == source && rows[0].trigger == trigger
    then [rows[0]] + Select(rows[1..], source, trigger)
    else Select(rows[1..], source, trigger)
  }

  function FirstOf(rows: seq<Row>): seq<Row> {
    if rows == [] then [] else [rows[0]]
  }

  /** The arm that matches a state and an event: the candidates of the event, else
      its first `unexpected` row, else the state's first one for any event. */
  function Arm(rows: seq<Row>, state: nat, event: nat): seq<Row> {
    if Select(rows, state, On(event)) != [] then Select(rows, state, On(event))
    else if Select(rows, state, Unexpected(event)) != [] then FirstOf(Select(rows, state, Unexpected(event)))
    else FirstOf(Select(rows, state, AnyUnexpected))
  }

  // ---- Dispatch of an event -----------------------------------------------------------------

  /** The active child's arm first; the parent's only if the child handled nothing. */
  function Dispatch<C>(m: Machine<C>, c: Config<C>, event: nat): Attempt<C> {
    if ChildIsActive(m, c) then
      var a := TryRows(m, Child, c, Arm(m.child, c.child, event));
      if a.handled || a.fault then a else TryRows(m, Parent, a.c, Arm(m.parent, a.c.parent, event))
    else TryRows(m, Parent, c, Arm(m.parent, c.parent, event))
  }

  /** The candidate is asked and says no, or is not asked at all. */
  predicate TurnedDown<C>(m: Machine<C>, level: Level, c: Config<C>, row: Row) {
    !Considered(m, level, c, row) || m.guard(level, row, c.ctx) == Refused
  }

  ghost predicate AllTurnedDown<C>(m: Machine<C>, level: Level, c: Config<C>, rows: seq<Row>) {
    forall i :: 0 <= i < |rows| ==> TurnedDown(m, level, c, rows[i])
  }

  /** `row` is the first candidate of `rows` that is not turned down. */
  ghost predicate FirstLive<C>(m: Machine<C>, level: Level, c: Config<C>, rows: seq<Row>, row: Row) {
    exists k :: 0 <= k < |rows| && rows[k] == row && !TurnedDown(m, level, c, row)
      && forall i :: 0 <= i < k ==> TurnedDown(m, level, c, rows[i])
  }

  /** What a sequence of candidates does is decided by its first live one. */
  ghost predicate DecidedBy<C>(m: Machine<C>, level: Level, c: Config<C>, rows: seq<Row>, a: Attempt<C>) {
    if AllTurnedDown(m, level, c, rows) then a == Attempt(c, false, false, None)
    else
      && (a.handled || a.fault)
      && exists row :: FirstLive(m, level, c, rows, row) && a == TryRow(m, level, c, row)
                       && a.ran == if m.guard(level, row, c.ctx) == Passed then Some((level, row)) else None
  }

  lemma FirstLiveBehind<C>(m: Machine<C>, level: Level, c: Config<C>, rows: seq<Row>, row: Row)
    requires rows != [] && TurnedDown(m, level, c, rows[0]) && FirstLive(m, level, c, rows[1..], row)
    ensures FirstLive(m, level, c, rows, row) && !AllTurnedDown(m, level, c, rows)
  {
    var k :| 0 <= k < |rows[1..]| && rows[1..][k] == row && !TurnedDown(m, level, c, row)
             && forall i :: 0 <= i < k ==> TurnedDown(m, level, c, rows[1..][i]);
    assert forall i :: 0 < i < |rows| ==> rows[i] == rows[1..][i - 1];
    assert rows[k + 1] == row;
  }

  lemma {:induction false} FirstLiveDecides<C>(m: Machine<C>, level: Level, c: Config<C>, rows: seq<Row>)
    ensures DecidedBy(m, level, c, rows, TryRows(m, level, c, rows))
    decreases |rows|
  {
    if rows != [] {
      FirstLiveDecides(m, level, c, rows[1..]);
      if TurnedDown(m, level, c, rows[0]) {
        assert forall i :: 0 < i < |rows| ==> rows[i] == rows[1..][i - 1];
        if !AllTurnedDown(m, level, c, rows[1..]) {
          var row :| FirstLive(m, level, c, rows[1..], row) &&
              TryRows(m, level, c, rows[1..]) == TryRow(m, level, c, row);
          FirstLiveBehind(m, level, c, rows, row);
        }
      } else {
        assert rows[0] == rows[0] && FirstLive(m, level, c, rows, rows[0]);
      }
    }
  }

  /** Child first: if some candidate of the active child's arm is not turned down,
      the first of these decides alone; otherwise the parent's arm does, on the
      same configuration. At most one row runs. */
  lemma ChildFirst<C>(m: Machine<C>, c: Config<C>, event: nat)
    ensures var a := Dispatch(m, c, event);
            if ChildIsActive(m, c) && !AllTurnedDown(m, Child, c, Arm(m.child, c.child, event))
            then DecidedBy(m, Child, c, Arm(m.child, c.child, event), a)
            else DecidedBy(m, Parent, c, Arm(m.parent, c.parent, event), a)
  {
    FirstLiveDecides(m, Child, c, Arm(m.child, c.child, event));
    FirstLiveDecides(m, Parent, c, Arm(m.parent, c.parent, event));
  }

  // ---- Current events --------------------------------------------------------------------------

  predicate IsQueryRow(row: Row) {
    row.trigger.On? || row.trigger.Unexpected?
  }

  /** `visit_current_events` visits a payload type if an event row of the active
      child's or the parent's state has it. */
  ghost predicate Visits<C>(m: Machine<C>, c: Config<C>, ty: nat) {
    || (exists row :: row in m.parent && IsQueryRow(row) && row.ty == Some(ty) && row.source == c.parent)
    || (&& ChildIsActive(m, c)
        && exists row :: row in m.child && IsQueryRow(row) && row.ty == Some(ty) && row.source == c.child)
  }

  lemma ArmIsOfState(rows: seq<Row>, state: nat, event: nat)
    ensures forall i :: 0 <= i < |Arm(rows, state, event)| ==>
              var row := Arm(rows, state, event)[i];
              row in rows && row.source == state && (IsQueryRow(row) || row.trigger.AnyUnexpected?)
  {
  }

  /** And a visited type of an event row is one whose event has a candidate in the
      current arm of the active child or the parent. */
  lemma VisitedTypesHaveCandidates<C>(m: Machine<C>, c: Config<C>, row: Row)
    requires row.trigger.On?
    requires (row in m.parent && row.source == c.parent)
          || (ChildIsActive(m, c) && row in m.child && row.source == c.child)
    ensures row.ty.Some? ==> Visits(m, c, row.ty.value)
    ensures var e := row.trigger.event;
            || row in Arm(m.parent, c.parent, e)
            || (ChildIsActive(m, c) && row in Arm(m.child, c.child, e))
  {
    var e := row.trigger.event;
    if row in m.parent && row.source == c.parent {
      SelectFinds(m.parent, c.parent, On(e), row);
    } else {
      SelectFinds(m.child, c.child, On(e), row);
    }
  }

  lemma {:induction false} SelectFinds(rows: seq<Row>, source: nat, trigger: Trigger, row: Row)
    requires row in rows && row.source == source && row.trigger == trigger
    ensures row in Select(rows, source, trigger)
    decreases |rows|
  {
    if rows[0] != row {
      SelectFinds(rows[1..], source, trigger, row);
    }
  }

  /** A static event type that a row handled, other than a wildcard one, is
      reported for the configuration before the dispatch. */
  lemma HandledTypesAreVisited<C>(m: Machine<C>, c: Config<C>, event: nat)
    ensures var a := Dispatch(m, c, event);
            a.ran.Some? && IsQueryRow(a.ran.value.1) && a.ran.value.1.ty.Some? ==> Visits(m, c, a.ran.value.1.ty.value)
  {
    ChildFirst(m, c, event);
    ArmIsOfState(m.child, c.child, event);
    ArmIsOfState(m.parent, c.parent, event);
  }

  // ---- Completion and recovery ------------------------------------------------------------------

  predicate ChildIsTerminal<C>(m: Machine<C>, c: Config<C>) {
    m.terminal == Some(c.child)
  }

  /** Completion rows out of the composite state wait for the child's `X`. */
  predicate Eligible<C>(m: Machine<C>, level: Level, c: Config<C>) {
    level.Parent? && c.parent == m.composite ==> ChildIsTerminal(m, c)
  }

  function CompletionRows<C>(m: Machine<C>, level: Level, c: Config<C>, origin: Option<nat>): (r: seq<Row>)
    ensures forall i :: 0 <= i < |r| ==>
              r[i] in Rows(m, level) && r[i].source == Current(c, level)
              && (r[i].trigger.CompletionOf? || r[i].trigger.AnyCompletion?)
  {
    if !Eligible(m, level, c) then []
    else (if origin.Some? then Select(Rows(m, level), Current(c, level), CompletionOf(origin.value)) else [])
         + Select(Rows(m, level), Current(c, level), AnyCompletion)
  }

  /** One completion step: the active child, and the parent if the child had nothing to do. */
  function CompletionStep<C>(m: Machine<C>, c: Config<C>, origin: Option<nat>): (r: Attempt<C>)
    ensures !(r.handled && r.fault)
  {
    if ChildIsActive(m, c) then
      var a := TryRows(m, Child, c, CompletionRows(m, Child, c, origin));
      if a.handled || a.fault then a else TryRows(m, Parent, a.c, CompletionRows(m, Parent, a.c, origin))
    else TryRows(m, Parent, c, CompletionRows(m, Parent, c, origin))
  }

  /** `exception_recovery`, or a failure of the handler's own callbacks. */
  datatype Walk<+C> = Walk(c: Config<C>, recovery: Option<bool>, failed: bool)

  function ExceptionRows<C>(m: Machine<C>, level: Level, c: Config<C>): (r: seq<Row>)
    ensures forall i :: 0 <= i < |r| ==>
              r[i] in Rows(m, level) && r[i].source == Current(c, level)
              && (r[i].trigger.TypedException? || r[i].trigger.AnyException?)
  {
    Select(Rows(m, level), Current(c, level), TypedException) + Select(Rows(m, level), Current(c, level), AnyException)
  }

  /** `exception_row_moves`. */
  predicate Moves(row: Row) {
    !row.internal && row.target != row.source
  }

  function RecoverAt<C>(m: Machine<C>, level: Level, c: Config<C>): Walk<C> {
    var a := TryRows(m, level, c, ExceptionRows(m, level, c));
    Walk(a.c, if a.handled && a.ran.Some? then Some(Moves(a.ran.value.1)) else None, a.fault)
  }

  /** Innermost first; the parent only if the child did not recover. */
  function Recover<C>(m: Machine<C>, c: Config<C>): Walk<C> {
    if ChildIsActive(m, c) then
      var w := RecoverAt(m, Child, c);
      if w.failed || w.recovery.Some? then w else RecoverAt(m, Parent, w.c)
    else RecoverAt(m, Parent, c)
  }

  /** How `stabilize` ends: stable, after a fault recovered without progress, or with an error. */
  datatype Ending<+C> = Stable(c: Config<C>, origin: Option<nat>) | Recovered(c: Config<C>) | Failed(c: Config<C>)

  datatype Turn<+C> = Return(ending: Ending<C>) | Again(c: Config<C>, origin: Option<nat>)

  function OneTurn<C>(m: Machine<C>, c: Config<C>, origin: Option<nat>): Turn<C> {
    var a := CompletionStep(m, c, origin);
    if !a.fault then
      if a.handled then Again(a.c, origin) else Return(Stable(a.c, origin))
    else
      var w := Recover(m, a.c);
      if w.failed || w.recovery.None? then Return(Failed(w.c))
      else if w.recovery.value then Again(w.c, None)
      else Return(Recovered(w.c))
  }

  /** Completion rows go down in rank, and so do exception rows that move; each
      level has a rank of its own. */
  ghost predicate Descending<C>(m: Machine<C>, rank: (Level, nat) -> nat) {
    forall level: Level, row {:trigger row in Rows(m, level)} :: row in Rows(m, level) ==>
      && (row.trigger.CompletionOf? || row.trigger.AnyCompletion? ==>
         !row.internal && rank(level, row.target) < rank(level, row.source))
      && ((row.trigger.TypedException? || row.trigger.AnyException?) && Moves(row) ==>
         rank(level, row.target) < rank(level, row.source))
  }

  /** Lower: the parent went down, or it stayed and the child went down. */
  predicate Lower<C>(rank: (Level, nat) -> nat, c': Config<C>, c: Config<C>) {
    || rank(Parent, c'.parent) < rank(Parent, c.parent)
    || (c'.parent == c.parent && rank(Child, c'.child) < rank(Child, c.child))
  }

  predicate NotHigher<C>(rank: (Level, nat) -> nat, c': Config<C>, c: Config<C>) {
    Lower(rank, c', c) || (c'.parent == c.parent && c'.child == c.child)
  }

  lemma {:induction false} CompletionLowers<C>(m: Machine<C>, rank: (Level, nat) -> nat, level: Level,
                                               c: Config<C>, rows: seq<Row>)
    requires Descending(m, rank)
    requires forall i :: 0 <= i < |rows| ==>
               rows[i] in Rows(m, level) && rows[i].source == Current(c, level)
               && (rows[i].trigger.CompletionOf? || rows[i].trigger.AnyCompletion?)
    ensures var a := TryRows(m, level, c, rows);
            NotHigher(rank, a.c, c) && (a.handled ==> Lower(rank, a.c, c))
    decreases |rows|
  {
    if rows != [] {
      assert rows[0] in Rows(m, level);
      var a := TryRow(m, level, c, rows[0]);
      if !a.handled && !a.fault {
        assert forall i :: 0 <= i < |rows[1..]| ==> rows[1..][i] == rows[i + 1];
        CompletionLowers(m, rank, level, c, rows[1..]);
      }
    }
  }

  lemma {:induction false} RecoveryLowers<C>(m: Machine<C>, rank: (Level, nat) -> nat, level: Level, c: Config<C>,
                                             rows: seq<Row>)
    requires Descending(m, rank)
    requires forall i :: 0 <= i < |rows| ==>
               rows[i] in Rows(m, level) && rows[i].source == Current(c, level)
               && (rows[i].trigger.TypedException? || rows[i].trigger.AnyException?)
    ensures var a := TryRows(m, level, c, rows);
            NotHigher(rank, a.c, c) && (a.handled ==> a.ran.Some? && (Moves(a.ran.value.1) ==> Lower(rank, a.c, c)))
    decreases |rows|
  {
    if rows != [] {
      assert rows[0] in Rows(m, level);
      var a := TryRow(m, level, c, rows[0]);
      if !a.handled && !a.fault {
        assert forall i :: 0 <= i < |rows[1..]| ==> rows[1..][i] == rows[i + 1];
        RecoveryLowers(m, rank, level, c, rows[1..]);
      }
    }
  }

  /** Every turn that goes on goes down. */
  lemma TurnDescends<C>(m: Machine<C>, rank: (Level, nat) -> nat, c: Config<C>, origin: Option<nat>)
    requires Descending(m, rank)
    ensures var t := OneTurn(m, c, origin); t.Again? ==> Lower(rank, t.c, c)
  {
    CompletionLowers(m, rank, Child, c, CompletionRows(m, Child, c, origin));
    UntouchedUnlessTried(m, Child, c, CompletionRows(m, Child, c, origin));
    CompletionLowers(m, rank, Parent, c, CompletionRows(m, Parent, c, origin));
    var a := CompletionStep(m, c, origin);
    if a.fault {
      RecoverDescends(m, rank, a.c);
    }
  }

  lemma RecoverDescends<C>(m: Machine<C>, rank: (Level, nat) -> nat, c: Config<C>)
    requires Descending(m, rank)
    ensures var w := Recover(m, c);
            !w.failed && w.recovery == Some(true) ==> Lower(rank, w.c, c)
  {
    RecoveryLowers(m, rank, Child, c, ExceptionRows(m, Child, c));
    UntouchedUnlessTried(m, Child, c, ExceptionRows(m, Child, c));
    RecoveryLowers(m, rank, Parent, c, ExceptionRows(m, Parent, c));
  }

  lemma UntouchedUnlessTried<C>(m: Machine<C>, level: Level, c: Config<C>, rows: seq<Row>)
    ensures var a := TryRows(m, level, c, rows);
            !a.handled && !a.fault ==> a.c == c && AllTurnedDown(m, level, c, rows)
  {
    FirstLiveDecides(m, level, c, rows);
  }

  /** `stabilize`. When completion and moving exception rows go down in rank, it
      ends for every choice of outcomes: the parent's rank goes down, or it stays
      and the child's does. */
  function Run<C>(m: Machine<C>, rank: (Level, nat) -> nat, c: Config<C>, origin: Option<nat>): Ending<C>
    requires Descending(m, rank)
    decreases rank(Parent, c.parent), rank(Child, c.child)
  {
    TurnDescends(m, rank, c, origin);
    match OneTurn(m, c, origin)
    case Return(ending) => ending
    case Again(c', origin') => Run(m, rank, c', origin')
  }

  /** No completion row of the active states is enabled for this origin. */
  ghost predicate Quiet<C>(m: Machine<C>, c: Config<C>, origin: Option<nat>) {
    && (ChildIsActive(m, c) ==> AllTurnedDown(m, Child, c, CompletionRows(m, Child, c, origin)))
    && AllTurnedDown(m, Parent, c, CompletionRows(m, Parent, c, origin))
  }

  /** A turn that handles nothing finds nothing enabled. */
  lemma TurnIsQuiet<C>(m: Machine<C>, c: Config<C>, origin: Option<nat>)
    ensures match OneTurn(m, c, origin)
            case Return(Stable(c', origin')) => Quiet(m, c', origin') && origin' == origin
            case Return(_) => true
            case Again(_, origin') => origin' == origin || origin' == None
  {
    if ChildIsActive(m, c) {
      UntouchedUnlessTried(m, Child, c, CompletionRows(m, Child, c, origin));
    }
    UntouchedUnlessTried(m, Parent, c, CompletionRows(m, Parent, c, origin));
  }

  /** Consecutive turns of the loop: each went on to the next. */
  ghost predicate Turns<C>(m: Machine<C>, cs: seq<Config<C>>, origins: seq<Option<nat>>) {
    && |cs| == |origins| > 0
    && forall k :: 0 <= k < |cs| - 1 ==> OneTurn(m, cs[k], origins[k]) == Again(cs[k + 1], origins[k + 1])
  }

  lemma {:induction false} TurnsKeepOrigin<C>(m: Machine<C>, cs: seq<Config<C>>, origins: seq<Option<nat>>, k: nat)
    requires Turns(m, cs, origins) && k < |cs|
    ensures origins[k] == origins[0] || origins[k] == None
    decreases k
  {
    if k > 0 {
      TurnsKeepOrigin(m, cs, origins, k - 1);
      TurnIsQuiet(m, cs[k - 1], origins[k - 1]);
      assert OneTurn(m, cs[k - 1], origins[k - 1]) == Again(cs[k], origins[k]);
    }
  }

  /** Whenever the turns of `stabilize`, for any table, come to a stable return,
      nothing is enabled for the origin that is still current: the one it was
      called with, or none after a recovery. */
  lemma StableIsQuiet<C>(m: Machine<C>, cs: seq<Config<C>>, origins: seq<Option<nat>>, c': Config<C>,
                         origin': Option<nat>)
    requires Turns(m, cs, origins)
    requires OneTurn(m, cs[|cs| - 1], origins[|cs| - 1]) == Return(Stable(c', origin'))
    ensures Quiet(m, c', origin') && (origin' == origins[0] || origin' == None)
  {
    TurnsKeepOrigin(m, cs, origins, |cs| - 1);
    TurnIsQuiet(m, cs[|cs| - 1], origins[|cs| - 1]);
  }

  lemma OneMoreTurn<C>(m: Machine<C>, c: Config<C>, origin: Option<nat>, cs: seq<Config<C>>, origins: seq<Option<nat>>)
    requires Turns(m, cs, origins) && OneTurn(m, c, origin) == Again(cs[0], origins[0])
    ensures Turns(m, [c] + cs, [origin] + origins)
    ensures ([c] + cs)[|cs|] == cs[|cs| - 1] && ([origin] + origins)[|cs|] == origins[|cs| - 1]
  {
    forall k | 0 <= k < |cs|
      ensures OneTurn(m, ([c] + cs)[k], ([origin] + origins)[k]) ==
              Again(([c] + cs)[k + 1], ([origin] + origins)[k + 1])
    {
      if k > 0 {
        assert OneTurn(m, cs[k - 1], origins[k - 1]) == Again(cs[k], origins[k]);
      }
    }
  }

  lemma RunUnfolds<C>(m: Machine<C>, rank: (Level, nat) -> nat, c: Config<C>, origin: Option<nat>)
    requires Descending(m, rank)
    ensures match OneTurn(m, c, origin)
            case Return(ending) => Run(m, rank, c, origin) == ending
            case Again(c', origin') => Lower(rank, c', c) && Run(m, rank, c, origin) == Run(m, rank, c', origin')
  {
    TurnDescends(m, rank, c, origin);
  }

  /** When rows go down in rank, `Run` is such a sequence of turns. */
  lemma {:induction false} RunIsTurns<C>(m: Machine<C>, rank: (Level, nat) -> nat, c: Config<C>, origin: Option<nat>)
    returns (cs: seq<Config<C>>, origins: seq<Option<nat>>)
    requires Descending(m, rank)
    ensures Turns(m, cs, origins) && cs[0] == c && origins[0] == origin
    ensures OneTurn(m, cs[|cs| - 1], origins[|cs| - 1]) == Return(Run(m, rank, c, origin))
    decreases rank(Parent, c.parent), rank(Child, c.child)
  {
    RunUnfolds(m, rank, c, origin);
    var turn := OneTurn(m, c, origin);
    cs, origins := [c], [origin];
    if turn.Again? {
      var cs', origins' := RunIsTurns(m, rank, turn.c, turn.origin);
      OneMoreTurn(m, c, origin, cs', origins');
      cs, origins := [c] + cs', [origin] + origins';
    }
  }

  // ---- One event, run to completion ---------------------------------------------------------------

  /** What dispatch and the recovery of its fault lead to. */
  datatype Outcome<+C> = InvalidEvent | Error(c: Config<C>) | Stabilizes(c: Config<C>, origin: Option<nat>)

  function Begin<C>(m: Machine<C>, c: Config<C>, event: nat): Outcome<C> {
    var a := Dispatch(m, c, event);
    if a.fault then
      var w := Recover(m, a.c);
      if w.failed || w.recovery.None? then Error(w.c) else Stabilizes(w.c, None)
    else if a.handled then Stabilizes(a.c, Some(event))
    else InvalidEvent
  }

  /** An event is invalid exactly if every candidate it has was turned down, and
      then nothing changed. */
  lemma InvalidExactly<C>(m: Machine<C>, c: Config<C>, event: nat)
    ensures Begin(m, c, event).InvalidEvent? <==>
              && AllTurnedDown(m, Parent, c, Arm(m.parent, c.parent, event))
              && (ChildIsActive(m, c) ==> AllTurnedDown(m, Child, c, Arm(m.child, c.child, event)))
    ensures Begin(m, c, event).InvalidEvent? ==> Dispatch(m, c, event).c == c
  {
    ChildFirst(m, c, event);
  }

  /** If an event is processed and its turns come to a stable return, no completion
      row is enabled: for the event itself, or for no origin once a fault was recovered. */
  lemma EventsRunToCompletion<C>(m: Machine<C>, c: Config<C>, event: nat,
                                 cs: seq<Config<C>>, origins: seq<Option<nat>>, c': Config<C>, origin': Option<nat>)
    requires Turns(m, cs, origins) && Begin(m, c, event) == Stabilizes(cs[0], origins[0])
    requires OneTurn(m, cs[|cs| - 1], origins[|cs| - 1]) == Return(Stable(c', origin'))
    ensures Quiet(m, c', origin') && (origin' == Some(event) || origin' == None)
    ensures Dispatch(m, c, event).fault ==> origin' == None
  {
    StableIsQuiet(m, cs, origins, c', origin');
  }
}
