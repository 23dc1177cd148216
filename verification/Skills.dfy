/**
 * The lifecycle of learned skills (sera/skills/lifecycle.py) and the registry that turns the eligible ones
 * into tools (sera/skills/loader.py). The lifecycle table is a map from names to rows; the manifests found on
 * disk are a sequence, in which two directories may well declare the same name.
 */
module Skills {
  import opened Sequences
  import opened Wrappers

  const STALE_AFTER: real := 7776000.0
  const ARCHIVE_AFTER: real := 15552000.0

  datatype State = Pinned | Active | Stale | Archived

  datatype Row = Row(state: State, lastUsed: real, archivedAt: Option<real>, pinned: bool, verified: bool)

  type Rows = map<string, Row>

  function Lookup<V>(m: map<string, V>, key: string): Option<V> {
    if key in m then Some(m[key]) else None
  }

  // state_of: what a read at time `now` sees.
  function StateOf(row: Option<Row>, now: real): State {
    if row.None? then Active
    else if row.value.pinned then Pinned
    else if row.value.state == Archived then Archived
    else if now - row.value.lastUsed >= STALE_AFTER then Stale
    else Active
  }

  function IsVerified(row: Option<Row>): bool {
    row.None? || row.value.verified
  }

  // _is_runtime_eligible.
  predicate Eligible(row: Option<Row>, now: real) {
    StateOf(row, now) != Archived && (IsVerified(row) || (row.Some? && row.value.pinned))
  }

  // ---------- what the operations do to a row ----------

  datatype Operation = Upsert | Touch | Archive | MarkCandidate | Verify | Revive | Pin | Unpin

  function NewRow(now: real): Row {
    Row(Active, now, None, false, true)
  }

  // The row that an operation leaves for the skill it names.
  function After(op: Operation, row: Option<Row>, now: real): Option<Row> {
    match op
    case Upsert => if row.Some? then row else Some(NewRow(now))
    case Touch =>
      if row.None? then Some(NewRow(now))
      else Some(row.value.(lastUsed := now, state := if row.value.state == Archived then Archived else Active))
    case Archive =>
      if row.None? then Some(Row(Archived, now, Some(now), false, true))
      else Some(row.value.(state := Archived, archivedAt := Some(now), pinned := false))
    case MarkCandidate =>
      if row.None? then Some(NewRow(now).(verified := false))
      else Some(row.value.(verified := false))
    case Verify => if row.None? then Some(NewRow(now)) else Some(row.value.(verified := true))
    case Revive => if row.None? then None else Some(row.value.(state := Active, archivedAt := None, lastUsed := now))
    case Pin => if row.None? then Some(NewRow(now).(pinned := true)) else Some(row.value.(pinned := true))
    case Unpin => if row.None? then None else Some(row.value.(pinned := false))
  }

  function Store(rows: Rows, name: string, row: Option<Row>): Rows {
    if row.None? then rows else rows[name := row.value]
  }

  predicate TurnsStale(row: Row, now: real) {
    !row.pinned && row.state == Active && row.lastUsed <= now - STALE_AFTER
  }

  function Swept(rows: Rows, now: real): Rows {
    map name | name in rows :: if TurnsStale(rows[name], now) then rows[name].(state := Stale) else rows[name]
  }

  /** The `skill_lifecycle` table and its operations. */
  class SkillLifecycle {
    var rows: Rows

    constructor ()
      ensures rows == map[]
    {
      rows := map[];
    }

    method Upsert(name: string, now: real)
      modifies this
      ensures rows == Store(old(rows), name, After(Operation.Upsert, Lookup(old(rows), name), now))
    {
      if name !in rows {
        rows := rows[name := Row(Active, now, None, false, true)];
      }
    }

    method Touch(name: string, now: real)
      modifies this
      ensures rows == Store(old(rows), name, After(Operation.Touch, Lookup(old(rows), name), now))
    {
      if name !in rows {
        rows := rows[name := Row(Active, now, None, false, true)];
      } else {
        var row := rows[name].(lastUsed := now);
        if row.state != State.Archived {
          row := row.(state := Active);
        }
        rows := rows[name := row];
      }
    }

    method Archive(name: string, now: real)
      modifies this
      ensures rows == Store(old(rows), name, After(Operation.Archive, Lookup(old(rows), name), now))
    {
      if name !in rows {
        rows := rows[name := Row(State.Archived, now, Some(now), false, true)];
      } else {
        rows := rows[name := rows[name].(state := State.Archived, archivedAt := Some(now), pinned := false)];
      }
    }

    method MarkCandidate(name: string, now: real)
      modifies this
      ensures rows == Store(old(rows), name, After(Operation.MarkCandidate, Lookup(old(rows), name), now))
    {
      if name !in rows {
        rows := rows[name := Row(Active, now, None, false, false)];
      } else {
        rows := rows[name := rows[name].(verified := false)];
      }
    }

    method Verify(name: string, now: real)
      modifies this
      ensures rows == Store(old(rows), name, After(Operation.Verify, Lookup(old(rows), name), now))
    {
      if name !in rows {
        rows := rows[name := Row(Active, now, None, false, true)];
      } else {
        rows := rows[name := rows[name].(verified := true)];
      }
    }

    method Revive(name: string, now: real)
      modifies this
      ensures rows == Store(old(rows), name, After(Operation.Revive, Lookup(old(rows), name), now))
    {
      if name in rows {
        rows := rows[name := rows[name].(state := Active, archivedAt := None, lastUsed := now)];
      }
    }

    method Pin(name: string, now: real)
      modifies this
      ensures rows == Store(old(rows), name, After(Operation.Pin, Lookup(old(rows), name), now))
    {
      if name !in rows {
        rows := rows[name := Row(Active, now, None, true, true)];
      } else {
        rows := rows[name := rows[name].(pinned := true)];
      }
    }

    method Unpin(name: string, now: real)
      modifies this
      ensures rows == Store(old(rows), name, After(Operation.Unpin, Lookup(old(rows), name), now))
    {
      if name in rows {
        rows := rows[name := rows[name].(pinned := false)];
      }
    }

    // The names written back as stale, and those proposed for archiving.
    method Sweep(now: real) returns (stale: set<string>, proposed: set<string>)
      modifies this
      ensures rows == Swept(old(rows), now)
      ensures stale == set name | name in old(rows) && TurnsStale(old(rows)[name], now)
      ensures forall name :: name in proposed ==> StateOf(Lookup(rows, name), now) == Stale
      ensures proposed == set name | name in old(rows) &&
                              StateOf(Lookup(old(rows), name), now) == Stale &&
                              now - old(rows)[name].lastUsed >= ARCHIVE_AFTER
    {
      var before := rows;
      stale := set name | name in rows && !rows[name].pinned && rows[name].state == Active
          && rows[name].lastUsed <= now - STALE_AFTER;
      rows := map name | name in rows :: if name in stale then rows[name].(state := Stale) else rows[name];
      proposed := set name | name in rows && !rows[name].pinned && rows[name].state != State.Archived
          && rows[name].lastUsed <= now - ARCHIVE_AFTER;
      assert forall name :: name in before ==>
          Lookup(before, name) == Some(before[name]) && Lookup(rows, name) == Some(rows[name]);
    }
  }

  // ---------- what holds over every run of operations ----------

  datatype Event = On(op: Operation, name: string, now: real) | Sweep(now: real)

  function Apply(rows: Rows, e: Event): Rows {
    match e
    case On(op, name, now) => Store(rows, name, After(op, Lookup(rows, name), now))
    case Sweep(now) => Swept(rows, now)
  }

  function Run(rows: Rows, events: seq<Event>): Rows {
    if events == [] then rows else Apply(Run(rows, events[..|events| - 1]), events[|events| - 1])
  }

  predicate Calls(e: Event, op: Operation, name: string) {
    e.On? && e.op == op && e.name == name
  }

  // Archived or unverified, and not pinned: withheld from the tool registry.
  predicate Withheld(rows: Rows, name: string) {
    name in rows && !rows[name].pinned && (rows[name].state == Archived || !rows[name].verified)
  }

  lemma EligibleIsNotWithheld(rows: Rows, name: string, now: real)
    ensures Eligible(Lookup(rows, name), now) <==> !Withheld(rows, name)
  {}

  // Exactly these calls release a withheld skill, each for its own reason.
  lemma ReleasedOnlyBy(rows: Rows, e: Event, name: string)
    requires Withheld(rows, name)
    ensures !Withheld(Apply(rows, e), name) <==>
            ( || Calls(e, Pin, name)
              || (Calls(e, Revive, name) && rows[name].verified)
              || (Calls(e, Verify, name) && rows[name].state != Archived))
  {}

  lemma {:induction false} WithheldStays(rows: Rows, events: seq<Event>, name: string)
    requires Withheld(rows, name)
    requires forall e :: e in events ==> !Calls(e, Pin, name) && !Calls(e, Revive, name) && !Calls(e, Verify, name)
    ensures Withheld(Run(rows, events), name)
  {
    if events != [] {
      var last := |events| - 1;
      WithheldStays(rows, events[..last], name);
      ReleasedOnlyBy(Run(rows, events[..last]), events[last], name);
    }
  }

  // An archived skill reads as archived at every later time, whatever happens, until a revive or a pin of it.
  lemma {:induction false} ArchiveIsSticky(rows: Rows, now: real, events: seq<Event>, name: string, later: real)
    requires forall e :: e in events ==> !Calls(e, Pin, name) && !Calls(e, Revive, name)
    ensures StateOf(Lookup(Run(Apply(rows, On(Archive, name, now)), events), name), later) == Archived
  {
    if events != [] {
      var last := |events| - 1;
      ArchiveIsSticky(rows, now, events[..last], name, later);
      assert !Calls(events[last], Pin, name) && !Calls(events[last], Revive, name);
    }
  }

  // Some call of `on` for the name has not been followed by one of `off`.
  ghost predicate Since(events: seq<Event>, name: string, on: Operation, off: set<Operation>) {
    exists i :: 0 <= i < |events| && StandsFrom(events, name, on, off, i)
  }

  predicate StandsFrom(events: seq<Event>, name: string, on: Operation, off: set<Operation>, i: nat)
    requires i < |events|
  {
    Calls(events[i], on, name)
    && forall j :: i < j < |events| ==> !(events[j].On? && events[j].name == name && events[j].op in off)
  }

  lemma SinceOneMore(events: seq<Event>, e: Event, name: string, on: Operation, off: set<Operation>)
    requires on !in off
    ensures Since(events + [e], name, on, off) <==>
            Calls(e, on, name) || (Since(events, name, on, off) && !(e.On? && e.name == name && e.op in off))
  {
    hide StandsFrom;
    var more, n := events + [e], |events|;
    StandsAtEnd(events, e, name, on, off);
    forall i | 0 <= i < n
      ensures StandsFrom(more, name, on, off, i) <==>
              StandsFrom(events, name, on, off, i) && !(e.On? && e.name == name && e.op in off)
    {
      StandsOneMore(events, e, name, on, off, i);
    }
    if Calls(e, on, name) {
      assert StandsFrom(more, name, on, off, n);
    }
    if i :| 0 <= i < n && StandsFrom(events, name, on, off, i) && !(e.On? && e.name == name && e.op in off) {
      assert StandsFrom(more, name, on, off, i);
    }
    if i :| 0 <= i < |more| && StandsFrom(more, name, on, off, i) && !Calls(e, on, name) {
      assert i < n && StandsFrom(events, name, on, off, i);
    }
  }

  lemma StandsAtEnd(events: seq<Event>, e: Event, name: string, on: Operation, off: set<Operation>)
    ensures StandsFrom(events + [e], name, on, off, |events|) <==> Calls(e, on, name)
  {}

  lemma StandsOneMore(events: seq<Event>, e: Event, name: string, on: Operation, off: set<Operation>, i: nat)
    requires i < |events|
    ensures StandsFrom(events + [e], name, on, off, i) <==>
            StandsFrom(events, name, on, off, i) && !(e.On? && e.name == name && e.op in off)
  {
    var more, n := events + [e], |events|;
    assert more[i] == events[i] && more[n] == e;
    assert forall j :: i < j < n ==> more[j] == events[j];
  }

  lemma {:induction false} RowAfterRun(events: seq<Event>, name: string)
    ensures var row := Lookup(Run(map[], events), name);
      && ((row.Some? && row.value.state == Archived) <==> Since(events, name, Archive, {Revive}))
      && ((row.Some? && row.value.pinned) <==> Since(events, name, Pin, {Unpin, Archive}))
      && ((row.Some? && !row.value.verified) <==> Since(events, name, MarkCandidate, {Verify}))
  {
    hide Since, Apply, After, Run;
    NothingRun(name);
    if events == [] {
      NothingSince(name);
    } else {
      var front, e := events[..|events| - 1], events[|events| - 1];
      assert events == front + [e];
      RowAfterRun(front, name);
      SinceOneMore(front, e, name, Archive, {Revive});
      SinceOneMore(front, e, name, Pin, {Unpin, Archive});
      SinceOneMore(front, e, name, MarkCandidate, {Verify});
      RunOneMore(front, e);
      RowAfterEvent(Run(map[], front), e, name);
    }
  }

  lemma NothingRun(name: string)
    ensures Lookup(Run(map[], []), name) == None
  {}

  lemma RunOneMore(events: seq<Event>, e: Event)
    ensures Run(map[], events + [e]) == Apply(Run(map[], events), e)
  {
    assert (events + [e])[..|events|] == events;
  }

  // What one event does to the three marks of a row.
  lemma RowAfterEvent(rows: Rows, e: Event, name: string)
    ensures var before, row := Lookup(rows, name), Lookup(Apply(rows, e), name);
      && ((row.Some? && row.value.state == Archived) <==>
            Calls(e, Archive, name) || (before.Some? && before.value.state == Archived && !Calls(e, Revive, name)))
      && ((row.Some? && row.value.pinned) <==>
            Calls(e, Pin, name) ||
            (before.Some? && before.value.pinned && !Calls(e, Unpin, name) && !Calls(e, Archive, name)))
      && ((row.Some? && !row.value.verified) <==>
            Calls(e, MarkCandidate, name) || (before.Some? && !before.value.verified && !Calls(e, Verify, name)))
  {}

  lemma NothingSince(name: string)
    ensures forall on, off :: !Since([], name, on, off)
  {}

  /**
   What a read sees, and what a refresh offers, after every run on an empty table: archived is what was
   archived and not revived since, unless it is pinned now; eligible is what is pinned now, or neither that
   nor a candidate not verified since.
   */
  lemma StateAfterRun(events: seq<Event>, name: string, later: real)
    ensures var row := Lookup(Run(map[], events), name);
            var pinned := Since(events, name, Pin, {Unpin, Archive});
            var archived := Since(events, name, Archive, {Revive});
            var candidate := Since(events, name, MarkCandidate, {Verify});
      && (StateOf(row, later) == Archived <==> archived && !pinned)
      && (StateOf(row, later) == Pinned <==> pinned)
      && (Eligible(row, later) <==> pinned || (!archived && !candidate))
  {
    hide Since, Run;
    RowAfterRun(events, name);
    RowStatesArePersisted(events, name);
  }

  // When the skill was last used: at its last touch, or revive of a known skill, or else when it became known.
  function LastUse(events: seq<Event>, name: string): Option<real> {
    if events == [] then None else
      var before, e := LastUse(events[..|events| - 1], name), events[|events| - 1];
      if !e.On? || e.name != name then before
      else if e.op == Touch || (e.op == Revive && before.Some?) then Some(e.now)
      else if before.Some? || e.op == Revive || e.op == Unpin then before
      else Some(e.now)
  }

  lemma {:induction false} LastUseIsStored(events: seq<Event>, name: string)
    ensures var row := Lookup(Run(map[], events), name);
      LastUse(events, name) == if row.Some? then Some(row.value.lastUsed) else None
  {
    hide StateOf;
    if events != [] {
      LastUseIsStored(events[..|events| - 1], name);
    }
  }

  /**
   The rest of what a read sees after every run: a skill that is neither pinned nor archived is stale once its last
   use is 90 days ago, and active before that, as is one that nothing is known of.
   */
  lemma StaleAfterRun(events: seq<Event>, name: string, later: real)
    ensures var state, used := StateOf(Lookup(Run(map[], events), name), later), LastUse(events, name);
            var days := 86400.0;
      state != Pinned && state != Archived ==>
        if used.Some? && later - used.value >= 90.0 * days then state == Stale else state == Active
  {
    hide Run;
    LastUseIsStored(events, name);
  }

  // No operation stores the state "pinned"; it is only read.
  lemma {:induction false} RowStatesArePersisted(events: seq<Event>, name: string)
    ensures var row := Lookup(Run(map[], events), name); row.Some? ==> row.value.state != Pinned
  {
    if events != [] {
      RowStatesArePersisted(events[..|events| - 1], name);
    }
  }

  // A pin alone ends it, and an unpin brings it back.
  lemma PinOverridesArchive(rows: Rows, name: string, t: real, later: real)
    ensures var pinned := Run(rows, [On(Archive, name, t), On(Pin, name, t)]);
            && StateOf(Lookup(pinned, name), later) == Pinned
            && Eligible(Lookup(pinned, name), later)
            && StateOf(Lookup(Apply(pinned, On(Unpin, name, t)), name), later) == Archived
  {
    var archive, pin := On(Archive, name, t), On(Pin, name, t);
    assert [archive, pin][..1] == [archive] && [archive][..0] == [];
    assert Run(rows, []) == rows;
    assert Run(rows, [archive]) == Apply(rows, archive);
    assert Run(rows, [archive, pin]) == Apply(Apply(rows, archive), pin);
  }

  // Nothing is ever deleted, and an archived skill comes back by one call exactly if it is verified.
  lemma ReviveRestores(rows: Rows, name: string, t: real, later: real)
    ensures var back := Apply(Apply(rows, On(Archive, name, t)), On(Revive, name, later));
            && StateOf(Lookup(back, name), later) == Active
            && (Eligible(Lookup(back, name), later) <==> IsVerified(Lookup(rows, name)))
  {}

  lemma {:induction false} RowsAreKept(rows: Rows, events: seq<Event>)
    ensures rows.Keys <= Run(rows, events).Keys
  {
    if events != [] {
      RowsAreKept(rows, events[..|events| - 1]);
    }
  }

  // The state a sweep writes is never the state a read sees: no read, at any time, can tell that it ran.
  lemma SweepIsInvisible(rows: Rows, now: real, name: string, later: real)
    ensures StateOf(Lookup(Swept(rows, now), name), later) == StateOf(Lookup(rows, name), later)
    ensures Withheld(Swept(rows, now), name) <==> Withheld(rows, name)
    ensures Swept(Swept(rows, now), now) == Swept(rows, now)
  {}

  // A sweep at a time stores of an active row what a read at that time sees, and leaves every other row as it is.
  lemma SweepStoresWhatIsRead(rows: Rows, now: real, name: string)
    requires name in rows
    ensures name in Swept(rows, now) && Swept(rows, now).Keys == rows.Keys
    ensures Swept(rows, now)[name] ==
            if rows[name].state == Active && !rows[name].pinned
            then rows[name].(state := StateOf(Some(rows[name]), now))
            else rows[name]
  {}

  lemma TouchKeepsWithheld(rows: Rows, touched: string, now: real, name: string)
    ensures Withheld(Apply(rows, On(Touch, touched, now)), name) <==> Withheld(rows, name)
  {}

  // The name was touched at some time, and more than once counts as the last time.
  ghost predicate Touched(before: Rows, after: Rows, name: string) {
    exists now: real :: Lookup(after, name) == After(Operation.Touch, Lookup(before, name), now)
  }

  lemma TouchedAgain(before: Rows, middle: Rows, after: Rows, name: string)
    requires Touched(middle, after, name)
    requires Touched(before, middle, name) || Lookup(middle, name) == Lookup(before, name)
    ensures Touched(before, after, name)
  {
    var now: real :| Lookup(after, name) == After(Operation.Touch, Lookup(middle, name), now);
    assert Lookup(after, name) == After(Operation.Touch, Lookup(before, name), now);
  }

  lemma TouchesGrow(before: Rows, middle: Rows, after: Rows, done: seq<string>, name: string)
    requires forall n :: n in done ==> Touched(before, middle, n)
    requires forall n :: n !in done ==> Lookup(middle, n) == Lookup(before, n)
    requires Touched(middle, after, name)
    requires forall n :: n != name ==> Lookup(after, n) == Lookup(middle, n)
    ensures forall n :: n in done || n == name ==> Touched(before, after, n)
  {
    hide After;
    TouchedAgain(before, middle, after, name);
    forall n | n in done && n != name ensures Touched(before, after, n) {
      var now: real :| Lookup(middle, n) == After(Operation.Touch, Lookup(before, n), now);
      assert Lookup(after, n) == After(Operation.Touch, Lookup(before, n), now);
    }
  }

  // ---------- the tool registry ----------

  const PREFIX := "skill."

  // A manifest as read from disk; `content` is all that its tool takes from it besides the name.
  datatype Skill = Skill(name: string, content: string, mtime: real)

  datatype Tool = Tool(name: string, content: string)

  function ToolName(name: string): string {
    PREFIX + name
  }

  lemma ToolNamesDiffer(a: string, b: string)
    ensures ToolName(a) == ToolName(b) <==> a == b
  {
    assert ToolName(a)[|PREFIX|..] == a && ToolName(b)[|PREFIX|..] == b;
  }

  // skill_to_tool.
  function ToolOf(s: Skill): Tool {
    Tool(ToolName(s.name), s.content)
  }

  datatype Entry = Entry(tool: string, mtime: real)

  // What a refresh reads and writes: the tracked entries and the global tool registry.
  datatype View = View(tracked: map<string, Entry>, tools: map<string, Tool>)

  predicate WellFormed(v: View) {
    forall name :: name in v.tracked ==> v.tracked[name].tool == ToolName(name)
  }

  predicate Registers(v: View, s: Skill) {
    s.name !in v.tracked || v.tracked[s.name].mtime != s.mtime
  }

  function Step(v: View, s: Skill): View {
    if Registers(v, s) then
      View(v.tracked[s.name := Entry(ToolName(s.name), s.mtime)], v.tools[ToolName(s.name) := ToolOf(s)])
    else v
  }

  // The first loop of refresh, over the eligible skills.
  function Scan(v: View, skills: seq<Skill>): View {
    if skills == [] then v else Step(Scan(v, skills[..|skills| - 1]), skills[|skills| - 1])
  }

  // The names the first loop reports: as added while untracked, as updated otherwise.
  function Reported(v: View, skills: seq<Skill>, added: bool): seq<string> {
    if skills == [] then [] else
      var front, s := skills[..|skills| - 1], skills[|skills| - 1];
      var before := Scan(v, front);
      Reported(v, front, added) +
      if Registers(before, s) && (s.name !in before.tracked) == added then [s.name] else []
  }

  function Names(skills: seq<Skill>): set<string> {
    set i | 0 <= i < |skills| :: skills[i].name
  }

  // Takes out the tracked entries of the names that are not live, with their tools.
  function DropDead(v: View, live: set<string>): View {
    View(map name | name in v.tracked && name in live :: v.tracked[name],
         v.tools - set name | name in v.tracked && name !in live :: v.tracked[name].tool)
  }

  function Refreshed(v: View, skills: seq<Skill>): View {
    DropDead(Scan(v, skills), Names(skills))
  }

  function Cleared(v: View): View {
    DropDead(v, {})
  }

  function Live(rows: Rows, disk: seq<Skill>): seq<Skill> {
    if disk == [] then [] else
      var s := disk[|disk| - 1];
      Live(rows, disk[..|disk| - 1]) + if Withheld(rows, s.name) then [] else [s]
  }

  // ---------- steps of the two loops ----------

  lemma LiveOneMore(rows: Rows, disk: seq<Skill>, i: nat)
    requires i < |disk|
    ensures Live(rows, disk[..i + 1]) ==
            if Withheld(rows, disk[i].name) then Live(rows, disk[..i]) else Live(rows, disk[..i]) + [disk[i]]
  {
    assert disk[..i + 1][..i] == disk[..i];
  }

  lemma NothingScanned(v: View, rows: Rows)
    ensures Live(rows, []) == [] && Scan(v, []) == v && Names([]) == {}
    ensures forall added :: Reported(v, [], added) == []
  {}

  lemma NothingDropped(v: View, live: set<string>)
    ensures DropDead(v, live + v.tracked.Keys) == v
  {}

  lemma ScanOneMore(v: View, skills: seq<Skill>, s: Skill)
    ensures Scan(v, skills + [s]) == Step(Scan(v, skills), s)
    ensures var before := Scan(v, skills);
            forall added :: Reported(v, skills + [s], added) == Reported(v, skills, added) +
                            if Registers(before, s) && (s.name !in before.tracked) == added then [s.name] else []
    ensures Names(skills + [s]) == Names(skills) + {s.name}
  {
    assert (skills + [s])[..|skills|] == skills;
    assert forall i :: 0 <= i < |skills| ==> (skills + [s])[i] == skills[i];
    assert (skills + [s])[|skills|] == s;
  }

  lemma DropOneMore(v: View, live: set<string>, left: set<string>, name: string)
    requires name in left && left <= v.tracked.Keys
    ensures var before, after := DropDead(v, live + left), DropDead(v, live + (left - {name}));
            && name in before.tracked
            && before.tracked[name] == v.tracked[name]
            && after == if name in live then before
                        else View(before.tracked - {name}, before.tools - {v.tracked[name].tool})
    ensures v.tracked.Keys - live - (left - {name}) ==
            (v.tracked.Keys - live - left) + if name in live then {} else {name}
  {
    var before, after := DropDead(v, live + left), DropDead(v, live + (left - {name}));
    if name in live {
      assert live + left == live + (left - {name});
    } else {
      var gone := set n | n in v.tracked && n !in live + left :: v.tracked[n].tool;
      var goneAfter := set n | n in v.tracked && n !in live + (left - {name}) :: v.tracked[n].tool;
      assert goneAfter == gone + {v.tracked[name].tool} by {
        forall t | t in goneAfter ensures t in gone || t == v.tracked[name].tool {
          var n :| n in v.tracked && n !in live + (left - {name}) && v.tracked[n].tool == t;
        }
        forall t | t in gone ensures t in goneAfter {
          var n :| n in v.tracked && n !in live + left && v.tracked[n].tool == t;
          assert n !in live + (left - {name});
        }
      }
      assert after.tracked == before.tracked - {name};
    }
  }

  lemma RefreshedIs(v: View, skills: seq<Skill>)
    ensures Refreshed(v, skills) == DropDead(Scan(v, skills), Names(skills))
  {}

  // ---------- what a scan does to one name ----------

  lemma FrontAndLast(skills: seq<Skill>)
    requires skills != []
    ensures var front, s := skills[..|skills| - 1], skills[|skills| - 1];
            && skills == front + [s]
            && Names(skills) == Names(front) + {s.name}
            && (forall t :: t in skills <==> t in front || t == s)
  {
    var front, s := skills[..|skills| - 1], skills[|skills| - 1];
    assert skills == front + [s];
    ScanOneMore(View(map[], map[]), front, s);
  }

  lemma {:induction false} ScanKeepsTracked(v: View, skills: seq<Skill>)
    ensures Scan(v, skills).tracked.Keys == v.tracked.Keys + Names(skills)
    ensures forall name :: name in v.tracked && name !in Names(skills) ==>
            Scan(v, skills).tracked[name] == v.tracked[name]
    ensures WellFormed(v) ==> WellFormed(Scan(v, skills))
  {
    if skills != [] {
      hide Names;
      FrontAndLast(skills);
      ScanKeepsTracked(v, skills[..|skills| - 1]);
    } else {
      assert Names(skills) == {};
    }
  }

  // The first manifest of that name.
  function First(skills: seq<Skill>, name: string): (s: Skill)
    requires name in Names(skills)
    ensures s in skills && s.name == name
  {
    var last := |skills| - 1;
    FrontAndLast(skills);
    if name in Names(skills[..last]) then First(skills[..last], name) else skills[last]
  }

  // Every manifest of the name carries the modification time that is tracked already.
  predicate Unmoved(v: View, skills: seq<Skill>, name: string) {
    name in v.tracked && forall s :: s in skills && s.name == name ==> s.mtime == v.tracked[name].mtime
  }

  // Scanned from two starting points, one of which does not track the name, a name ends up with the same
  // entry; and with the same tool unless nothing told the other scan to register it.
  lemma {:induction false} ScanOfName(v: View, w: View, skills: seq<Skill>, name: string)
    requires name in Names(skills) && name !in w.tracked && WellFormed(v) && WellFormed(w)
    ensures var a, b, tool := Scan(v, skills), Scan(w, skills), ToolName(name);
            && name in a.tracked && name in b.tracked
            && Lookup(a.tracked, name) == Lookup(b.tracked, name)
            && if Unmoved(v, skills, name) then
                 && Lookup(a.tools, tool) == Lookup(v.tools, tool)
                 && Lookup(a.tracked, name) == Lookup(v.tracked, name)
                 && Lookup(b.tools, tool) == Some(ToolOf(First(skills, name)))
               else Lookup(a.tools, tool) == Lookup(b.tools, tool)
  {
    hide Names, ToolName, ToolOf;
    NamesComeFromManifests(skills);
    FrontAndLast(skills);
    var front, s := skills[..|skills| - 1], skills[|skills| - 1];
    ScanKeepsTracked(v, front);
    ScanKeepsTracked(w, front);
    ToolNamesDiffer(s.name, name);
    if name in Names(front) {
      ScanOfName(v, w, front, name);
    } else {
      ScanPassesName(v, front, name);
    }
  }

  // A scan that does not meet a name leaves its entry and its tool alone.
  lemma ScanPassesName(v: View, skills: seq<Skill>, name: string)
    requires name !in Names(skills)
    ensures Lookup(Scan(v, skills).tools, ToolName(name)) == Lookup(v.tools, ToolName(name))
    ensures Lookup(Scan(v, skills).tracked, name) == Lookup(v.tracked, name)
    ensures forall t :: t in skills ==> t.name != name
  {
    hide Names, ToolName, Scan;
    ScanKeepsTracked(v, skills);
    ManifestsAreNamed(skills);
    forall t | t in skills ensures ToolName(t.name) != ToolName(name) {
      ToolNamesDiffer(t.name, name);
    }
    ScanLeavesTool(v, skills, ToolName(name));
  }

  lemma ManifestsAreNamed(skills: seq<Skill>)
    ensures forall s :: s in skills ==> s.name in Names(skills)
  {}

  lemma NamesComeFromManifests(skills: seq<Skill>)
    ensures skills == [] ==> Names(skills) == {}
  {}

  // A scan writes no tool but those of the names it meets.
  lemma {:induction false} ScanLeavesTool(v: View, skills: seq<Skill>, tool: string)
    requires forall s :: s in skills ==> ToolName(s.name) != tool
    ensures Lookup(Scan(v, skills).tools, tool) == Lookup(v.tools, tool)
  {
    if skills != [] {
      ScanLeavesTool(v, skills[..|skills| - 1], tool);
    }
  }

  // A name that was not tracked ends up with the entry and the tool of one and the same manifest.
  lemma {:induction false} ScanFindsManifest(w: View, skills: seq<Skill>, name: string) returns (s: Skill)
    requires name in Names(skills) && name !in w.tracked
    ensures s in skills && s.name == name
    ensures var b := Scan(w, skills);
            && Lookup(b.tracked, name) == Some(Entry(ToolName(name), s.mtime))
            && Lookup(b.tools, ToolName(name)) == Some(ToolOf(s))
  {
    hide Names, ToolName;
    NamesComeFromManifests(skills);
    FrontAndLast(skills);
    var front, last := skills[..|skills| - 1], skills[|skills| - 1];
    ScanKeepsTracked(w, front);
    ToolNamesDiffer(last.name, name);
    if name in Names(front) {
      s := ScanFindsManifest(w, front, name);
      if last.name == name && s.mtime != last.mtime {
        s := last;
      }
    } else {
      s := last;
    }
  }

  // ---------- refresh against clear and rebuild ----------

  function Rebuilt(v: View, skills: seq<Skill>): View {
    Refreshed(Cleared(v), skills)
  }

  lemma DroppedTool(v: View, live: set<string>, tool: string)
    requires WellFormed(v)
    ensures Lookup(DropDead(v, live).tools, tool) ==
            if exists name :: name in v.tracked && name !in live && ToolName(name) == tool
            then None else Lookup(v.tools, tool)
  {}

  predicate OwnedBy(tool: string, names: set<string>) {
    exists name :: name in names && ToolName(name) == tool
  }

  // What a refresh leaves under one tool name.
  lemma RefreshedTool(v: View, skills: seq<Skill>, tool: string)
    requires WellFormed(v)
    ensures Lookup(Refreshed(v, skills).tools, tool) ==
            if OwnedBy(tool, Names(skills)) then Lookup(Scan(v, skills).tools, tool)
            else if OwnedBy(tool, v.tracked.Keys) then None
            else Lookup(v.tools, tool)
  {
    hide Names, ToolName, Lookup, Scan;
    var scanned := Scan(v, skills);
    ScanKeepsTracked(v, skills);
    DroppedTool(scanned, Names(skills), tool);
    RefreshedIs(v, skills);
    if name :| name in Names(skills) && ToolName(name) == tool {
      forall other | other in scanned.tracked && ToolName(other) == tool ensures other == name {
        ToolNamesDiffer(other, name);
      }
    } else {
      ManifestsAreNamed(skills);
      ScanLeavesTool(v, skills, tool);
    }
  }

  lemma RefreshedTracked(v: View, skills: seq<Skill>)
    ensures var r := Refreshed(v, skills);
            && r.tracked.Keys == Names(skills)
            && (forall name :: name in Names(skills) ==>
                Lookup(r.tracked, name) == Lookup(Scan(v, skills).tracked, name))
            && (WellFormed(v) ==> WellFormed(r))
  {
    hide Names, ToolName, Scan;
    ScanKeepsTracked(v, skills);
  }

  lemma ClearedIs(v: View)
    requires WellFormed(v)
    ensures Cleared(v).tracked == map[] && WellFormed(Cleared(v))
    ensures forall tool :: Lookup(Cleared(v).tools, tool) == if OwnedBy(tool, v.tracked.Keys)
            then None else Lookup(v.tools, tool)
  {
    hide ToolName, Lookup;
    forall tool
      ensures Lookup(Cleared(v).tools, tool) == if OwnedBy(tool, v.tracked.Keys) then None else Lookup(v.tools, tool)
    {
      DroppedTool(v, {}, tool);
    }
  }

  lemma ViewsAgree(a: View, b: View)
    requires a.tracked.Keys == b.tracked.Keys
    requires forall name :: name in a.tracked ==> Lookup(a.tracked, name) == Lookup(b.tracked, name)
    requires forall tool :: Lookup(a.tools, tool) == Lookup(b.tools, tool)
    ensures a == b
  {
    forall name | name in a.tracked ensures a.tracked[name] == b.tracked[name] {
      assert Lookup(a.tracked, name) == Lookup(b.tracked, name);
    }
    assert a.tracked == b.tracked;
    forall tool ensures (tool in a.tools <==> tool in b.tools) && (tool in a.tools ==> a.tools[tool] == b.tools[tool]) {
      assert Lookup(a.tools, tool) == Lookup(b.tools, tool);
    }
    assert a.tools == b.tools;
  }

  // The rebuilt view is the disk: the eligible names, each with the entry and tool of a manifest of that
  // name, and everything else in the tool registry as it was.
  lemma RebuiltMatchesDisk(v: View, skills: seq<Skill>)
    requires WellFormed(v)
    ensures Rebuilt(v, skills).tracked.Keys == Names(skills)
    ensures forall name :: name in Names(skills) ==>
              exists s :: s in skills && s.name == name
                && Lookup(Rebuilt(v, skills).tracked, name) == Some(Entry(ToolName(name), s.mtime))
                && Lookup(Rebuilt(v, skills).tools, ToolName(name)) == Some(ToolOf(s))
    ensures forall tool :: !OwnedBy(tool, Names(skills)) ==>
              Lookup(Rebuilt(v, skills).tools, tool) == if OwnedBy(tool, v.tracked.Keys)
                  then None else Lookup(v.tools, tool)
  {
    hide Names, ToolName, Lookup, Scan, Refreshed, Cleared;
    ClearedIs(v);
    var w := Cleared(v);
    RefreshedTracked(w, skills);
    forall name | name in Names(skills)
      ensures exists s :: s in skills && s.name == name
                && Lookup(Rebuilt(v, skills).tracked, name) == Some(Entry(ToolName(name), s.mtime))
                && Lookup(Rebuilt(v, skills).tools, ToolName(name)) == Some(ToolOf(s))
    {
      var s := ScanFindsManifest(w, skills, name);
      RefreshedTool(w, skills, ToolName(name));
      assert OwnedBy(ToolName(name), Names(skills));
    }
    forall tool | !OwnedBy(tool, Names(skills))
      ensures Lookup(Rebuilt(v, skills).tools, tool) == if OwnedBy(tool, v.tracked.Keys)
              then None else Lookup(v.tools, tool)
    {
      RefreshedTool(w, skills, tool);
    }
  }

  // An incremental refresh can only differ from a rebuild in what it does not register.
  lemma RefreshSkips(v: View, skills: seq<Skill>)
    requires WellFormed(v)
    ensures Refreshed(v, skills) == Rebuilt(v, skills) <==>
            forall name :: name in Names(skills) && Unmoved(v, skills, name) ==>
              Lookup(v.tools, ToolName(name)) == Some(ToolOf(First(skills, name)))
  {
    hide Names, ToolName, ToolOf, Scan, Refreshed, Cleared, Unmoved, First, Lookup;
    var w := Cleared(v);
    ClearedIs(v);
    RefreshedTracked(v, skills);
    RefreshedTracked(w, skills);
    forall name | name in Names(skills)
      ensures Lookup(Refreshed(v, skills).tracked, name) == Lookup(Rebuilt(v, skills).tracked, name)
      ensures Lookup(Refreshed(v, skills).tools, ToolName(name)) ==
              Lookup(Rebuilt(v, skills).tools, ToolName(name)) <==>
              (Unmoved(v, skills, name) ==> Lookup(v.tools, ToolName(name)) == Some(ToolOf(First(skills, name))))
    {
      ScanOfName(v, w, skills, name);
      assert OwnedBy(ToolName(name), Names(skills));
      RefreshedTool(v, skills, ToolName(name));
      RefreshedTool(w, skills, ToolName(name));
    }
    forall tool | !OwnedBy(tool, Names(skills))
      ensures Lookup(Refreshed(v, skills).tools, tool) == Lookup(Rebuilt(v, skills).tools, tool)
    {
      RefreshedTool(v, skills, tool);
      RefreshedTool(w, skills, tool);
    }
    if forall name :: name in Names(skills) && Unmoved(v, skills, name) ==>
        Lookup(v.tools, ToolName(name)) == Some(ToolOf(First(skills, name))) {
      forall tool ensures Lookup(Refreshed(v, skills).tools, tool) == Lookup(Rebuilt(v, skills).tools, tool) {
        if name :| name in Names(skills) && ToolName(name) == tool {
        } else {
          assert !OwnedBy(tool, Names(skills));
        }
      }
      ViewsAgree(Refreshed(v, skills), Rebuilt(v, skills));
    }
  }

  /**
   What the registry remembers: under the tool name of every tracked skill is the content that the skill had
   at the tracked time.
   */
  ghost predicate InStep(v: View, content: (string, real) -> string) {
    WellFormed(v)
    && forall name :: name in v.tracked ==>
         Lookup(v.tools, ToolName(name)) == Some(Tool(ToolName(name), content(name, v.tracked[name].mtime)))
  }

  // Content changes only together with the time.
  ghost predicate Dated(skills: seq<Skill>, content: (string, real) -> string) {
    forall s :: s in skills ==> s.content == content(s.name, s.mtime)
  }

  /**
   For a registry in step, an incremental refresh equals clearing and rebuilding exactly if no manifest was
   rewritten under the tracked time: where all manifests of a name carry it, the first of them has the content
   registered at that time.
   */
  lemma RefreshIsRebuild(v: View, skills: seq<Skill>, content: (string, real) -> string)
    requires InStep(v, content)
    ensures Refreshed(v, skills) == Rebuilt(v, skills) <==>
            forall name :: name in Names(skills) && Unmoved(v, skills, name) ==>
              First(skills, name).content == content(name, v.tracked[name].mtime)
  {
    hide Names, ToolName, Refreshed, Cleared, First, Scan;
    RefreshSkips(v, skills);
    forall name | name in Names(skills) && Unmoved(v, skills, name)
      ensures Lookup(v.tools, ToolName(name)) == Some(ToolOf(First(skills, name))) <==>
              First(skills, name).content == content(name, v.tracked[name].mtime)
    {}
  }

  // When content changes only with the time, every refresh is a rebuild and leaves the registry in step.
  lemma DatedRefreshIsRebuild(v: View, skills: seq<Skill>, content: (string, real) -> string)
    requires InStep(v, content) && Dated(skills, content)
    ensures Refreshed(v, skills) == Rebuilt(v, skills) && InStep(Refreshed(v, skills), content)
  {
    hide Names, ToolName, Refreshed, Cleared, First, Scan;
    RefreshIsRebuild(v, skills, content);
    RefreshedTracked(v, skills);
    RebuiltMatchesDisk(v, skills);
    var r := Refreshed(v, skills);
    forall name | name in r.tracked
      ensures Lookup(r.tools, ToolName(name)) == Some(Tool(ToolName(name), content(name, r.tracked[name].mtime)))
    {
      var s :| s in skills && s.name == name
        && Lookup(r.tracked, name) == Some(Entry(ToolName(name), s.mtime))
        && Lookup(r.tools, ToolName(name)) == Some(ToolOf(s));
    }
  }

  // The view after refreshes with the eligible skills of one disk after another; an empty one acts as a clear.
  function Refreshes(v: View, disks: seq<seq<Skill>>): View {
    if disks == [] then v else Refreshed(Refreshes(v, disks[..|disks| - 1]), disks[|disks| - 1])
  }

  // From a registry that tracks nothing yet, through any disks: the last refresh was as good as a rebuild.
  lemma {:induction false} EveryRefreshIsRebuild(
    tools: map<string, Tool>, disks: seq<seq<Skill>>, content: (string, real) -> string)
    requires forall disk :: disk in disks ==> Dated(disk, content)
    ensures InStep(Refreshes(View(map[], tools), disks), content)
    ensures disks != [] ==>
              Refreshes(View(map[], tools), disks) ==
              Rebuilt(Refreshes(View(map[], tools), disks[..|disks| - 1]), disks[|disks| - 1])
  {
    hide Refreshed, Cleared, Dated, ToolName;
    if disks != [] {
      var front := disks[..|disks| - 1];
      EveryRefreshIsRebuild(tools, front, content);
      DatedRefreshIsRebuild(Refreshes(View(map[], tools), front), disks[|disks| - 1], content);
    }
  }

  // A manifest rewritten within the resolution of its time is missed.
  lemma RewriteIsMissed(v: View, content: (string, real) -> string)
    requires InStep(v, content) && Lookup(v.tracked, "x") == Some(Entry(ToolName("x"), 1.0))
             && content("x", 1.0) == "old"
    ensures var disk := [Skill("x", "new", 1.0)]; Refreshed(v, disk) != Rebuilt(v, disk)
  {
    hide Refreshed, Cleared, ToolName;
    var disk := [Skill("x", "new", 1.0)];
    RefreshIsRebuild(v, disk, content);
    assert disk[0].name in Names(disk) && Unmoved(v, disk, "x");
    assert First(disk, "x") in disk;
  }

  lemma UnmovedAgain(v: View, u: View, skills: seq<Skill>, name: string)
    requires Lookup(u.tracked, name) == Lookup(v.tracked, name)
    ensures Unmoved(u, skills, name) == Unmoved(v, skills, name)
  {
    if name in u.tracked {
      assert u.tracked[name] == v.tracked[name];
    }
  }

  // A second refresh of the same disk never changes anything more.
  lemma RefreshIsIdempotent(v: View, skills: seq<Skill>)
    requires WellFormed(v)
    ensures Refreshed(Refreshed(v, skills), skills) == Refreshed(v, skills)
  {
    hide Names, ToolName, ToolOf, Scan, Refreshed, Cleared, Unmoved, First, Lookup;
    var u, w := Refreshed(v, skills), Cleared(v);
    ClearedIs(v);
    RefreshedTracked(v, skills);
    RefreshedTracked(u, skills);
    forall name | name in Names(skills)
      ensures Lookup(Refreshed(u, skills).tracked, name) == Lookup(u.tracked, name)
    {
      ScanOfName(v, w, skills, name);
      ScanOfName(u, w, skills, name);
    }
    forall tool ensures Lookup(Refreshed(u, skills).tools, tool) == Lookup(u.tools, tool) {
      RefreshedTool(v, skills, tool);
      RefreshedTool(u, skills, tool);
      if name :| name in Names(skills) && ToolName(name) == tool {
        ScanOfName(v, w, skills, name);
        ScanOfName(u, w, skills, name);
        if Unmoved(v, skills, name) {
          UnmovedAgain(v, u, skills, name);
        }
      }
    }
    ViewsAgree(Refreshed(u, skills), u);
  }

  lemma {:induction false} LiveIs(rows: Rows, disk: seq<Skill>)
    ensures forall s :: s in Live(rows, disk) <==> s in disk && !Withheld(rows, s.name)
  {
    if disk != [] {
      var front, s := disk[..|disk| - 1], disk[|disk| - 1];
      LiveIs(rows, front);
      assert disk == front + [s];
    }
  }

  // After a refresh exactly the skills on disk that are not withheld are tracked, and a skill withheld since
  // the last one has lost its tool.
  lemma OnlyEligibleAreRegistered(v: View, rows: Rows, disk: seq<Skill>, name: string)
    requires WellFormed(v)
    ensures var r := Refreshed(v, Live(rows, disk));
            && (name in r.tracked <==> !Withheld(rows, name) && exists s :: s in disk && s.name == name)
            && (name in v.tracked && Withheld(rows, name) ==> ToolName(name) !in r.tools)
  {
    hide Withheld, ToolName, Scan, Refreshed, Live;
    var live := Live(rows, disk);
    LiveIs(rows, disk);
    RefreshedTracked(v, live);
    RefreshedTool(v, live, ToolName(name));
    if name in v.tracked && name !in Names(live) {
      assert OwnedBy(ToolName(name), v.tracked.Keys);
      if other :| other in Names(live) && ToolName(other) == ToolName(name) {
        ToolNamesDiffer(other, name);
      }
    }
    ManifestsAreNamed(live);
  }

  // ---------- what a second refresh reports ----------

  lemma {:induction false} QuietScan(v: View, skills: seq<Skill>)
    requires Names(skills) <= v.tracked.Keys
    ensures Reported(v, skills, true) == []
    ensures Reported(v, skills, false) == [] <==> forall name :: name in Names(skills) ==> Unmoved(v, skills, name)
    ensures Reported(v, skills, false) == [] ==> Scan(v, skills) == v
  {
    if skills != [] {
      hide Names;
      FrontAndLast(skills);
      ManifestsAreNamed(skills);
      var front, s := skills[..|skills| - 1], skills[|skills| - 1];
      ManifestsAreNamed(front);
      QuietScan(v, front);
      ScanKeepsTracked(v, front);
      if Reported(v, front, false) != [] {
        var name :| name in Names(front) && !Unmoved(v, front, name);
        assert !Unmoved(v, skills, name);
      } else if s.mtime != v.tracked[s.name].mtime {
        assert !Unmoved(v, skills, s.name);
      }
    }
  }

  predicate SameTimes(skills: seq<Skill>) {
    forall s, t :: s in skills && t in skills && s.name == t.name ==> s.mtime == t.mtime
  }

  // An immediate second refresh reports nothing exactly if manifests of one name share one modification time.
  lemma SecondRefreshIsQuiet(v: View, skills: seq<Skill>)
    requires WellFormed(v)
    ensures var u := Refreshed(v, skills);
            && Reported(u, skills, true) == []
            && u.tracked.Keys - Names(skills) == {}
            && (Reported(u, skills, false) == [] <==> SameTimes(skills))
  {
    hide Names, ToolName, ToolOf, Scan, Refreshed, Cleared, First, Reported;
    var u, w := Refreshed(v, skills), Cleared(v);
    ClearedIs(v);
    RefreshedTracked(v, skills);
    QuietScan(u, skills);
    ManifestsAreNamed(skills);
    forall name | name in Names(skills)
      ensures exists s ::
                s in skills && s.name == name && Lookup(u.tracked, name) == Some(Entry(ToolName(name), s.mtime))
    {
      ScanOfName(v, w, skills, name);
      var s := ScanFindsManifest(w, skills, name);
      assert Lookup(Scan(v, skills).tracked, name) == Lookup(Scan(w, skills).tracked, name);
    }
    if SameTimes(skills) {
      forall name | name in Names(skills) ensures Unmoved(u, skills, name) {
        var s :| s in skills && s.name == name && Lookup(u.tracked, name) == Some(Entry(ToolName(name), s.mtime));
      }
    } else {
      var s, t :| s in skills && t in skills && s.name == t.name && s.mtime != t.mtime;
      assert !Unmoved(u, skills, s.name);
    }
  }

  // Two directories that declare one name at different times are reported again by every refresh.
  lemma TwoTimesAreReported(v: View)
    requires WellFormed(v)
    ensures var disk := [Skill("x", "a", 1.0), Skill("x", "b", 2.0)];
      Reported(Refreshed(v, disk), disk, false) != []
  {
    hide Refreshed, Reported;
    var disk := [Skill("x", "a", 1.0), Skill("x", "b", 2.0)];
    assert disk[0] in disk && disk[1] in disk;
    SecondRefreshIsQuiet(v, disk);
  }

  /** sera/tools/registry.py: tool name to tool. */
  class ToolRegistry {
    var tools: map<string, Tool>

    constructor (tools: map<string, Tool>)
      ensures this.tools == tools
    {
      this.tools := tools;
    }

    method Register(tool: Tool)
      modifies this
      ensures tools == old(tools)[tool.name := tool]
    {
      tools := tools[tool.name := tool];
    }

    method Unregister(name: string) returns (removed: bool)
      modifies this
      ensures tools == old(tools) - {name} && removed == (name in old(tools))
    {
      removed := name in tools;
      tools := tools - {name};
    }
  }

  datatype RefreshSummary = RefreshSummary(added: seq<string>, removed: seq<string>, updated: seq<string>)

  /** The registry of the skills under one root. Without a lifecycle, every skill is eligible. */
  class SkillRegistry {
    const registry: ToolRegistry
    const lifecycle: SkillLifecycle?
    var tracked: map<string, Entry>

    constructor (registry: ToolRegistry, lifecycle: SkillLifecycle?)
      ensures this.registry == registry && this.lifecycle == lifecycle && Now() == View(map[], registry.tools)
    {
      this.registry := registry;
      this.lifecycle := lifecycle;
      tracked := map[];
    }

    function Now(): View
      reads this, registry
    {
      View(tracked, registry.tools)
    }

    function LifecycleRows(): Rows
      reads this, lifecycle
    {
      if lifecycle == null then map[] else lifecycle.rows
    }

    method IsRuntimeEligible(name: string) returns (eligible: bool)
      ensures eligible == !Withheld(LifecycleRows(), name)
    {
      if lifecycle == null {
        return true;
      }
      var now: real := *;
      var row := Lookup(lifecycle.rows, name);
      EligibleIsNotWithheld(lifecycle.rows, name, now);
      if StateOf(row, now) == Archived {
        return false;
      }
      if IsVerified(row) {
        return true;
      }
      eligible := row.Some? && row.value.pinned;
    }

    method RegisterSkill(s: Skill)
      modifies this, registry, lifecycle
      ensures tracked == old(tracked)[s.name := Entry(ToolName(s.name), s.mtime)]
      ensures registry.tools == old(registry.tools)[ToolName(s.name) := ToolOf(s)]
      ensures forall name :: Withheld(LifecycleRows(), name) <==> Withheld(old(LifecycleRows()), name)
      ensures forall name :: name != s.name ==> Lookup(LifecycleRows(), name) == Lookup(old(LifecycleRows()), name)
      ensures lifecycle != null ==> Touched(old(LifecycleRows()), LifecycleRows(), s.name)
    {
      registry.Register(ToolOf(s));
      tracked := tracked[s.name := Entry(ToolName(s.name), s.mtime)];
      if lifecycle != null {
        var now: real := *;
        ghost var before := lifecycle.rows;
        lifecycle.Touch(s.name, now);
        assert Lookup(lifecycle.rows, s.name) == After(Operation.Touch, Lookup(before, s.name), now);
        forall name ensures Withheld(lifecycle.rows, name) <==> Withheld(before, name) {
          TouchKeepsWithheld(before, s.name, now, name);
        }
      }
    }

    method Refresh(disk: seq<Skill>) returns (summary: RefreshSummary)
      modifies this, registry, lifecycle
      ensures var before, live := old(Now()), Live(old(LifecycleRows()), disk);
              && Now() == Refreshed(before, live)
              && summary.added == Reported(before, live, true)
              && summary.updated == Reported(before, live, false)
              && (forall name :: name in summary.removed <==> name in old(tracked) && name !in Names(live))
              && NoRepeats(summary.removed)
      ensures forall name :: Withheld(LifecycleRows(), name) <==> Withheld(old(LifecycleRows()), name)
      ensures forall name :: name !in summary.added && name !in summary.updated ==>
                Lookup(LifecycleRows(), name) == Lookup(old(LifecycleRows()), name)
      ensures lifecycle != null ==> forall name :: name in summary.added || name in summary.updated ==>
                Touched(old(LifecycleRows()), LifecycleRows(), name)
    {
      hide Refreshed, DropDead, Withheld, Lookup, Touched, ToolName, ToolOf, Scan, Reported, Names, Live;
      ghost var before, rows := Now(), LifecycleRows();
      var added: seq<string>, updated: seq<string> := [], [];
      var seen: set<string> := {};
      NothingScanned(before, rows);
      assert disk[..0] == [];
      for i := 0 to |disk|
        invariant Now() == Scan(before, Live(rows, disk[..i]))
        invariant added == Reported(before, Live(rows, disk[..i]), true)
        invariant updated == Reported(before, Live(rows, disk[..i]), false)
        invariant seen == Names(Live(rows, disk[..i]))
        invariant forall name :: Withheld(LifecycleRows(), name) <==> Withheld(rows, name)
        invariant forall name :: name !in added && name !in updated ==>
            Lookup(LifecycleRows(), name) == Lookup(rows, name)
        invariant lifecycle != null ==> forall name :: name in added || name in updated ==>
            Touched(rows, LifecycleRows(), name)
      {
        var s := disk[i];
        LiveOneMore(rows, disk, i);
        var eligible := IsRuntimeEligible(s.name);
        if eligible {
          ghost var live := Live(rows, disk[..i]);
          ScanOneMore(before, live, s);
          assert Registers(Now(), s) <==> s.name !in tracked || s.mtime != tracked[s.name].mtime;
          seen := seen + {s.name};
          ghost var middle := LifecycleRows();
          if s.name !in tracked {
            RegisterSkill(s);
            if lifecycle != null {
              TouchesGrow(rows, middle, LifecycleRows(), added + updated, s.name);
            }
            added := added + [s.name];
          } else if s.mtime != tracked[s.name].mtime {
            RegisterSkill(s);
            if lifecycle != null {
              TouchesGrow(rows, middle, LifecycleRows(), added + updated, s.name);
            }
            updated := updated + [s.name];
          }
        }
      }
      assert disk[..|disk|] == disk;
      var removed := RemoveDead(seen);
      ScanKeepsTracked(before, Live(rows, disk));
      RefreshedIs(before, Live(rows, disk));
      summary := RefreshSummary(added, removed, updated);
    }

    method Untrack(name: string)
      requires name in tracked
      modifies this, registry
      ensures Now() == View(old(tracked) - {name}, old(registry.tools) - {old(tracked)[name].tool})
    {
      var tool := tracked[name].tool;
      tracked := tracked - {name};
      var _ := registry.Unregister(tool);
    }

    // The second loop of refresh.
    method RemoveDead(seen: set<string>) returns (removed: seq<string>)
      modifies this, registry
      ensures Now() == DropDead(old(Now()), seen)
      ensures forall name :: name in removed <==> name in old(tracked) && name !in seen
      ensures NoRepeats(removed)
    {
      hide DropDead;
      removed := [];
      ghost var before := Now();
      ghost var gone: set<string> := {};
      var left := tracked.Keys;
      NothingDropped(before, seen);
      while left != {}
        invariant left <= before.tracked.Keys
        invariant Now() == DropDead(before, seen + left)
        invariant gone == before.tracked.Keys - seen - left
        invariant NoRepeats(removed) && forall name :: name in removed <==> name in gone
        decreases left
      {
        var name :| name in left;
        DropOneMore(before, seen, left, name);
        left := left - {name};
        if name !in seen {
          Untrack(name);
          removed := removed + [name];
          gone := gone + {name};
        }
      }
      assert seen + {} == seen && gone == before.tracked.Keys - seen;
    }

    method Clear()
      modifies this, registry
      ensures Now() == Cleared(old(Now()))
    {
      var _ := RemoveDead({});
      assert tracked == map[];
    }
  }
}
