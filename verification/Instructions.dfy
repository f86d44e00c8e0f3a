/**
 The instruction table and its transactions. A user has at most one default instruction among
 the rows outside projects; a transaction that fails rolls back to the rows it started from.
 */
module Instructions {
  import opened Options

  type Blob = seq<nat>

  datatype Row = Row(id: nat, uuid: nat, user: nat, project: Option<nat>, name: Option<Blob>, prompt: Blob, tokens: int,
                     isDefault: bool, updatedAt: nat)

  datatype Table = Table(rows: seq<Row>, nextId: nat)

  datatype Event =
    | Create(user: nat, uuid: nat, project: Option<nat>, name: Option<Blob>, prompt: Blob, tokens: int, isDefault: bool, now: nat)
    | Update(user: nat, id: nat, newName: Blob, prompt: Blob, tokens: int, isDefault: bool, now: nat)
    | Delete(user: nat, id: nat)
    | SetDefault(user: nat, id: nat, now: nat)
    | SetProjectInstruction(user: nat, projectId: nat, uuid: nat, prompt: Blob, tokens: int, now: nat)
    | ClearProjectInstruction(user: nat, projectId: nat)

  // ---------- Statements ----------

  /** Clears the user's default outside projects, except row `keep`; the update trigger stamps
      the rows it touches. */
  function ClearDefaults(rows: seq<Row>, user: nat, keep: Option<nat>, now: nat): (r: seq<Row>)
    ensures |r| == |rows|
    ensures forall i :: 0 <= i < |rows| ==>
              r[i] == if rows[i].user == user && rows[i].project.None? && rows[i].isDefault && Some(rows[i].id) != keep
                      then rows[i].(isDefault := false, updatedAt := now) else rows[i]
  {
    seq(|rows|, i requires 0 <= i < |rows| =>
      if rows[i].user == user && rows[i].project.None? && rows[i].isDefault && Some(rows[i].id) != keep
      then rows[i].(isDefault := false, updatedAt := now) else rows[i])
  }

  /** The user's row `id` outside projects, or the number of rows. */
  function Target(rows: seq<Row>, id: nat, user: nat): (r: nat)
    ensures r <= |rows|
    ensures r < |rows| ==> rows[r].id == id && rows[r].user == user && rows[r].project.None?
    ensures forall i :: 0 <= i < r ==> !(rows[i].id == id && rows[i].user == user && rows[i].project.None?)
  {
    if rows == [] || (rows[0].id == id && rows[0].user == user && rows[0].project.None?) then 0
    else
      var r := Target(rows[1..], id, user);
      assert forall i :: 1 <= i < |rows| ==> rows[i] == rows[1..][i - 1];
      1 + r
  }

  /** The user's row in a project, or the number of rows. */
  function InProject(rows: seq<Row>, user: nat, project: nat): (r: nat)
    ensures r <= |rows|
    ensures r < |rows| ==> rows[r].user == user && rows[r].project == Some(project)
    ensures forall i :: 0 <= i < r ==> !(rows[i].user == user && rows[i].project == Some(project))
  {
    if rows == [] || (rows[0].user == user && rows[0].project == Some(project)) then 0
    else
      var r := InProject(rows[1..], user, project);
      assert forall i :: 1 <= i < |rows| ==> rows[i] == rows[1..][i - 1];
      1 + r
  }

  function DropRow(rows: seq<Row>, i: nat): (r: seq<Row>)
    requires i < |rows|
  {
    rows[..i] + rows[i + 1..]
  }

  /** The constraints on a new row other than the default index: unique uuid, one row per
      project, no default inside a project, a name outside. */
  predicate Acceptable(rows: seq<Row>, row: Row) {
    && (forall i :: 0 <= i < |rows| ==> rows[i].uuid != row.uuid)
    && (row.project.Some? ==> !row.isDefault && forall i :: 0 <= i < |rows| ==> rows[i].project != row.project)
    && (row.project.None? ==> row.name.Some?)
  }

  /** The unique index on defaults would refuse the row. */
  predicate SecondDefault(rows: seq<Row>, row: Row) {
    row.isDefault && exists i :: 0 <= i < |rows| && rows[i].user == row.user && rows[i].isDefault
  }

  // ---------- The table as an object ----------

  class InstructionTable {
    var rows: seq<Row>
    var nextId: nat

    ghost function State(): (r: Table)
      reads this
    {
      Table(rows, nextId)
    }

    method Insert(row: Row) returns (ok: bool)
      modifies this
      ensures nextId == old(nextId) + 1
      ensures ok <==> Acceptable(old(rows), row) && !SecondDefault(old(rows), row)
      ensures rows == if ok then old(rows) + [row] else old(rows)
    {
      nextId := nextId + 1;
      ok := Acceptable(rows, row) && !SecondDefault(rows, row);
      if ok { rows := rows + [row]; }
    }

    method CreateUserInstruction(e: Event) returns (ok: bool)
      requires e.Create?
      modifies this
      ensures (State(), ok) == Next(old(State()), e)
    {
      var saved := rows;
      if e.isDefault {
        rows := ClearDefaults(rows, e.user, None, e.now);
      }
      ok := Insert(Row(nextId, e.uuid, e.user, e.project, e.name, e.prompt, e.tokens, e.isDefault, e.now));
      if !ok { rows := saved; }
    }

    method UpdateUserInstruction(e: Event) returns (ok: bool)
      requires e.Update?
      modifies this
      ensures (State(), ok) == Next(old(State()), e)
    {
      var saved := rows;
      if e.isDefault {
        rows := ClearDefaults(rows, e.user, Some(e.id), e.now);
      }
      var i := Target(rows, e.id, e.user);
      ok := i < |rows|;
      if ok {
        rows := rows[i := Edited(rows[i], e)];
      } else {
        rows := saved;
      }
    }

    method DeleteUserInstruction(e: Event) returns (ok: bool)
      requires e.Delete?
      modifies this
      ensures (State(), ok) == Next(old(State()), e)
    {
      var i := Target(rows, e.id, e.user);
      ok := i < |rows|;
      if ok { rows := DropRow(rows, i); }
    }

    method SetDefaultUserInstruction(e: Event) returns (ok: bool)
      requires e.SetDefault?
      modifies this
      ensures (State(), ok) == Next(old(State()), e)
    {
      var saved := rows;
      rows := ClearDefaults(rows, e.user, None, e.now);
      var i := Target(rows, e.id, e.user);
      ok := i < |rows|;
      if ok {
        rows := rows[i := rows[i].(isDefault := true, updatedAt := e.now)];
      } else {
        rows := saved;
      }
    }

    method UpdateProjectInstruction(e: Event) returns (ok: bool)
      requires e.SetProjectInstruction? || e.ClearProjectInstruction?
      modifies this
      ensures (State(), ok) == Next(old(State()), e)
    {
      var i := InProject(rows, e.user, e.projectId);
      ok := true;
      if e.SetProjectInstruction? {
        if i < |rows| {
          rows := rows[i := rows[i].(prompt := e.prompt, tokens := e.tokens, isDefault := false, updatedAt := e.now)];
        } else {
          ok := Insert(Row(nextId, e.uuid, e.user, Some(e.projectId), None, e.prompt, e.tokens, false, e.now));
        }
      } else if i < |rows| {
        rows := DropRow(rows, i);
      }
    }
  }

  // ---------- Transactions on values ----------

  function Edited(row: Row, e: Event): (r: Row)
    requires e.Update?
  {
    row.(name := Some(e.newName), prompt := e.prompt, tokens := e.tokens, isDefault := e.isDefault, updatedAt := e.now)
  }

  function InsertInto(t: Table, rows: seq<Row>, row: Row): (r: (Table, bool)) {
    if Acceptable(rows, row) && !SecondDefault(rows, row) then (Table(rows + [row], t.nextId + 1), true)
    else (t.(nextId := t.nextId + 1), false)
  }

  function Next(t: Table, e: Event): (r: (Table, bool)) {
    match e
    case Create(user, uuid, project, name, prompt, tokens, isDefault, now) =>
      var rows := if isDefault then ClearDefaults(t.rows, user, None, now) else t.rows;
      InsertInto(t, rows, Row(t.nextId, uuid, user, project, name, prompt, tokens, isDefault, now))
    case Update(user, id, _, _, _, isDefault, now) =>
      var rows := if isDefault then ClearDefaults(t.rows, user, Some(id), now) else t.rows;
      var i := Target(rows, id, user);
      if i < |rows| then (t.(rows := rows[i := Edited(rows[i], e)]), true) else (t, false)
    case Delete(user, id) =>
      var i := Target(t.rows, id, user);
      if i < |t.rows| then (t.(rows := DropRow(t.rows, i)), true) else (t, false)
    case SetDefault(user, id, now) =>
      var rows := ClearDefaults(t.rows, user, None, now);
      var i := Target(rows, id, user);
      if i < |rows| then (t.(rows := rows[i := rows[i].(isDefault := true, updatedAt := now)]), true) else (t, false)
    case SetProjectInstruction(user, project, uuid, prompt, tokens, now) =>
      var i := InProject(t.rows, user, project);
      if i < |t.rows| then
        (t.(rows := t.rows[i := t.rows[i].(prompt := prompt, tokens := tokens, isDefault := false, updatedAt := now)]), true)
      else InsertInto(t, t.rows, Row(t.nextId, uuid, user, Some(project), None, prompt, tokens, false, now))
    case ClearProjectInstruction(user, project) =>
      var i := InProject(t.rows, user, project);
      (if i < |t.rows| then t.(rows := DropRow(t.rows, i)) else t, true)
  }

  function Run(t: Table, events: seq<Event>): (r: Table)
    decreases |events|
  {
    if events == [] then t else Run(Next(t, events[0]).0, events[1..])
  }

  // ---------- The invariant ----------

  ghost predicate DistinctRows(rows: seq<Row>) {
    forall i, j :: 0 <= i < j < |rows| ==> rows[i].id != rows[j].id && rows[i].uuid != rows[j].uuid
  }

  /** The ids of the user's default rows. */
  ghost function Defaults(rows: seq<Row>, user: nat): (r: set<nat>) {
    set i | 0 <= i < |rows| && rows[i].user == user && rows[i].isDefault :: rows[i].id
  }

  ghost predicate AtMostOne(ids: set<nat>) {
    forall x, y :: x in ids && y in ids ==> x == y
  }

  ghost predicate ProjectRowsOk(rows: seq<Row>) {
    && (forall i :: 0 <= i < |rows| && rows[i].isDefault ==> rows[i].project.None?)
    && (forall i, j :: 0 <= i < j < |rows| && rows[i].project.Some? ==> rows[i].project != rows[j].project)
  }

  ghost predicate RowsOk(rows: seq<Row>, nextId: nat) {
    && DistinctRows(rows) && ProjectRowsOk(rows)
    && (forall i :: 0 <= i < |rows| ==> rows[i].id < nextId)
  }

  ghost predicate Valid(t: Table) {
    && RowsOk(t.rows, t.nextId)
    && (forall u :: AtMostOne(Defaults(t.rows, u)))
  }

  // ---------- What each statement does to the defaults ----------

  lemma DefaultsClear(rows: seq<Row>, user: nat, keep: Option<nat>, now: nat, u: nat)
    requires ProjectRowsOk(rows)
    ensures Defaults(ClearDefaults(rows, user, keep, now), u) ==
            if u != user then Defaults(rows, u)
            else Defaults(rows, u) * (if keep.Some? then {keep.value} else {})
  {
    var rows' := ClearDefaults(rows, user, keep, now);
    forall i | 0 <= i < |rows|
      ensures rows[i].user == u && rows[i].isDefault && (u == user ==> Some(rows[i].id) == keep) <==>
              rows'[i].user == u && rows'[i].isDefault
      ensures rows'[i].id == rows[i].id
    {
    }
  }

  /** An edit that leaves a row with its user and project. */
  ghost predicate EditedAt(rows: seq<Row>, i: nat, row: Row) {
    && i < |rows|
    && (row.id, row.uuid, row.user, row.project) == (rows[i].id, rows[i].uuid, rows[i].user, rows[i].project)
  }

  lemma DefaultsEdit(rows: seq<Row>, i: nat, row: Row, u: nat)
    requires DistinctRows(rows) && EditedAt(rows, i, row)
    ensures Defaults(rows[i := row], u) ==
            if u != row.user then Defaults(rows, u)
            else if row.isDefault then Defaults(rows, u) + {row.id} else Defaults(rows, u) - {row.id}
  {
    var rows' := rows[i := row];
    assert rows'[i] == row;
    assert forall j :: 0 <= j < |rows| && j != i ==> rows'[j] == rows[j] && rows[j].id != row.id;
  }

  lemma DefaultsAppend(rows: seq<Row>, row: Row, u: nat)
    ensures Defaults(rows + [row], u) == Defaults(rows, u) + (if row.user == u && row.isDefault then {row.id} else {})
  {
    var rows' := rows + [row];
    assert rows'[|rows|] == row;
    assert forall j :: 0 <= j < |rows| ==> rows'[j] == rows[j];
  }

  lemma DefaultsDrop(rows: seq<Row>, i: nat, u: nat)
    requires DistinctRows(rows) && i < |rows|
    ensures Defaults(DropRow(rows, i), u) == Defaults(rows, u) - (if rows[i].user == u then {rows[i].id} else {})
  {
    var rows' := DropRow(rows, i);
    assert forall j :: 0 <= j < |rows'| ==> rows'[j] == if j < i then rows[j] else rows[j + 1];
    assert forall j :: 0 <= j < i ==> rows[j] == rows'[j];
    assert forall j :: i < j < |rows| ==> rows[j] == rows'[j - 1];
  }

  // ---------- What each statement does to the other constraints ----------

  lemma ClearRows(rows: seq<Row>, nextId: nat, user: nat, keep: Option<nat>, now: nat)
    requires RowsOk(rows, nextId)
    ensures RowsOk(ClearDefaults(rows, user, keep, now), nextId)
  {
  }

  lemma EditRows(rows: seq<Row>, nextId: nat, i: nat, row: Row)
    requires RowsOk(rows, nextId) && EditedAt(rows, i, row) && (row.isDefault ==> row.project.None?)
    ensures RowsOk(rows[i := row], nextId)
  {
  }

  lemma AppendRows(rows: seq<Row>, nextId: nat, row: Row)
    requires RowsOk(rows, nextId) && row.id == nextId && Acceptable(rows, row)
    ensures RowsOk(rows + [row], nextId + 1)
  {
  }

  lemma DropRows(rows: seq<Row>, nextId: nat, i: nat)
    requires RowsOk(rows, nextId) && i < |rows|
    ensures RowsOk(DropRow(rows, i), nextId)
  {
    var rows' := DropRow(rows, i);
    assert forall j :: 0 <= j < |rows'| ==> rows'[j] == if j < i then rows[j] else rows[j + 1];
  }

  // ---------- What each transaction does to the defaults ----------

  /** The reference: what a user's set of defaults becomes, in terms of the request alone. */
  ghost function Expected(ids: set<nat>, e: Event, ok: bool, newId: nat, u: nat): (r: set<nat>) {
    if !ok || u != e.user then ids
    else
      match e
      case Create(_, _, _, _, _, _, isDefault, _) => if isDefault then {newId} else ids
      case Update(_, id, _, _, _, isDefault, _) => if isDefault then {id} else ids - {id}
      case Delete(_, id) => ids - {id}
      case SetDefault(_, id, _) => {id}
      case SetProjectInstruction(_, _, _, _, _, _) => ids
      case ClearProjectInstruction(_, _) => ids
  }

  lemma NotADefault(rows: seq<Row>, i: nat, u: nat)
    requires DistinctRows(rows) && i < |rows| && !rows[i].isDefault
    ensures rows[i].id !in Defaults(rows, u)
  {
  }

  lemma CreateAfter(t: Table, e: Event, u: nat)
    requires Valid(t) && e.Create?
    ensures var (t', ok) := Next(t, e);
            && Defaults(t'.rows, u) == Expected(Defaults(t.rows, u), e, ok, t.nextId, u)
            && RowsOk(t'.rows, t'.nextId)
  {
    var rows := if e.isDefault then ClearDefaults(t.rows, e.user, None, e.now) else t.rows;
    var row := Row(t.nextId, e.uuid, e.user, e.project, e.name, e.prompt, e.tokens, e.isDefault, e.now);
    DefaultsClear(t.rows, e.user, None, e.now, u);
    ClearRows(t.rows, t.nextId, e.user, None, e.now);
    DefaultsAppend(rows, row, u);
    if Acceptable(rows, row) { AppendRows(rows, t.nextId, row); }
  }

  lemma UpdateAfter(t: Table, e: Event, u: nat)
    requires Valid(t) && e.Update?
    ensures var (t', ok) := Next(t, e);
            && Defaults(t'.rows, u) == Expected(Defaults(t.rows, u), e, ok, t.nextId, u)
            && RowsOk(t'.rows, t'.nextId)
  {
    var rows := if e.isDefault then ClearDefaults(t.rows, e.user, Some(e.id), e.now) else t.rows;
    DefaultsClear(t.rows, e.user, Some(e.id), e.now, u);
    ClearRows(t.rows, t.nextId, e.user, Some(e.id), e.now);
    var i := Target(rows, e.id, e.user);
    if i < |rows| {
      DefaultsEdit(rows, i, Edited(rows[i], e), u);
      EditRows(rows, t.nextId, i, Edited(rows[i], e));
    }
  }

  lemma SetDefaultAfter(t: Table, e: Event, u: nat)
    requires Valid(t) && e.SetDefault?
    ensures var (t', ok) := Next(t, e);
            && Defaults(t'.rows, u) == Expected(Defaults(t.rows, u), e, ok, t.nextId, u)
            && RowsOk(t'.rows, t'.nextId)
  {
    var rows := ClearDefaults(t.rows, e.user, None, e.now);
    DefaultsClear(t.rows, e.user, None, e.now, u);
    ClearRows(t.rows, t.nextId, e.user, None, e.now);
    var i := Target(rows, e.id, e.user);
    if i < |rows| {
      DefaultsEdit(rows, i, rows[i].(isDefault := true, updatedAt := e.now), u);
      EditRows(rows, t.nextId, i, rows[i].(isDefault := true, updatedAt := e.now));
    }
  }

  lemma DeleteAfter(t: Table, e: Event, u: nat)
    requires Valid(t) && e.Delete?
    ensures var (t', ok) := Next(t, e);
            && Defaults(t'.rows, u) == Expected(Defaults(t.rows, u), e, ok, t.nextId, u)
            && RowsOk(t'.rows, t'.nextId)
  {
    var i := Target(t.rows, e.id, e.user);
    if i < |t.rows| {
      DefaultsDrop(t.rows, i, u);
      DropRows(t.rows, t.nextId, i);
    }
  }

  lemma ProjectAfter(t: Table, e: Event, u: nat)
    requires Valid(t) && (e.SetProjectInstruction? || e.ClearProjectInstruction?)
    ensures var (t', ok) := Next(t, e);
            && Defaults(t'.rows, u) == Expected(Defaults(t.rows, u), e, ok, t.nextId, u)
            && RowsOk(t'.rows, t'.nextId)
  {
    var rows := t.rows;
    var i := InProject(rows, e.user, e.projectId);
    if i < |rows| { NotADefault(rows, i, u); }
    if e.ClearProjectInstruction? {
      if i < |rows| {
        DefaultsDrop(rows, i, u);
        DropRows(rows, t.nextId, i);
      }
    } else if i < |rows| {
      var row := rows[i].(prompt := e.prompt, tokens := e.tokens, isDefault := false, updatedAt := e.now);
      DefaultsEdit(rows, i, row, u);
      EditRows(rows, t.nextId, i, row);
    } else {
      var row := Row(t.nextId, e.uuid, e.user, Some(e.projectId), None, e.prompt, e.tokens, false, e.now);
      DefaultsAppend(rows, row, u);
      if Acceptable(rows, row) { AppendRows(rows, t.nextId, row); }
    }
  }

  /** A transaction that succeeds leaves its user with exactly the default it asks for and every
      other user with theirs; one that fails rolls back, so the old default stays. */
  lemma DefaultsAfter(t: Table, e: Event, u: nat)
    requires Valid(t)
    ensures var (t', ok) := Next(t, e);
            && Defaults(t'.rows, u) == Expected(Defaults(t.rows, u), e, ok, t.nextId, u)
            && RowsOk(t'.rows, t'.nextId)
            && (!ok ==> t'.rows == t.rows)
  {
    match e
    case Create(_, _, _, _, _, _, _, _) => CreateAfter(t, e, u);
    case Update(_, _, _, _, _, _, _) => UpdateAfter(t, e, u);
    case Delete(_, _) => DeleteAfter(t, e, u);
    case SetDefault(_, _, _) => SetDefaultAfter(t, e, u);
    case SetProjectInstruction(_, _, _, _, _, _) => ProjectAfter(t, e, u);
    case ClearProjectInstruction(_, _) => ProjectAfter(t, e, u);
  }

  // ---------- What each transaction stores ----------

  /** Row `after` is row `before`, except that a transaction which makes another row the user's
      default at `now` lowers the flag of the old one and stamps it. */
  predicate Spared(before: Row, after: Row, user: nat, replacesDefault: bool, now: nat) {
    if replacesDefault && before.user == user && before.project.None? && before.isDefault
    then after == before.(isDefault := false, updatedAt := now)
    else after == before
  }

  /** A create that succeeds adds one row with exactly what was asked for and spares the others. */
  lemma CreateStores(t: Table, e: Event)
    requires e.Create? && Next(t, e).1
    ensures var rows := Next(t, e).0.rows; var n := |t.rows|;
            && |rows| == n + 1
            && rows[n] == Row(t.nextId, e.uuid, e.user, e.project, e.name, e.prompt, e.tokens, e.isDefault, e.now)
            && forall i :: 0 <= i < n ==> Spared(t.rows[i], rows[i], e.user, e.isDefault, e.now)
  {
  }

  /** Row `i` is the user's row `id` outside projects. */
  ghost predicate IsTarget(rows: seq<Row>, i: int, id: nat, user: nat) {
    0 <= i < |rows| && rows[i].id == id && rows[i].user == user && rows[i].project.None?
  }

  lemma TargetFound(rows: seq<Row>, rows': seq<Row>, id: nat, user: nat, i: nat)
    requires DistinctRows(rows) && IsTarget(rows, i, id, user) && |rows'| == |rows|
    requires forall j :: 0 <= j < |rows| ==> (rows'[j].id, rows'[j].user, rows'[j].project) == (rows[j].id, rows[j].user, rows[j].project)
    ensures Target(rows', id, user) == i
  {
    var r := Target(rows', id, user);
    assert r <= i && rows[r].id == id;
  }

  /** An edit leaves in the targeted row exactly what was asked for and spares the others. */
  lemma UpdateStores(t: Table, e: Event, i: nat)
    requires DistinctRows(t.rows) && e.Update? && IsTarget(t.rows, i, e.id, e.user)
    ensures var (t', ok) := Next(t, e);
            && ok && |t'.rows| == |t.rows|
            && t'.rows[i] == Row(e.id, t.rows[i].uuid, e.user, None, Some(e.newName), e.prompt, e.tokens, e.isDefault, e.now)
            && forall j :: 0 <= j < |t.rows| && j != i ==> Spared(t.rows[j], t'.rows[j], e.user, e.isDefault, e.now)
  {
    var cleared := if e.isDefault then ClearDefaults(t.rows, e.user, Some(e.id), e.now) else t.rows;
    TargetFound(t.rows, cleared, e.id, e.user, i);
  }

  /** Choosing a default raises the flag of the targeted row, stamps it and spares the others. */
  lemma SetDefaultStores(t: Table, e: Event, i: nat)
    requires DistinctRows(t.rows) && e.SetDefault? && IsTarget(t.rows, i, e.id, e.user)
    ensures var (t', ok) := Next(t, e);
            && ok && |t'.rows| == |t.rows|
            && t'.rows[i] == Row(e.id, t.rows[i].uuid, e.user, None, t.rows[i].name, t.rows[i].prompt, t.rows[i].tokens, true, e.now)
            && forall j :: 0 <= j < |t.rows| && j != i ==> Spared(t.rows[j], t'.rows[j], e.user, true, e.now)
  {
    TargetFound(t.rows, ClearDefaults(t.rows, e.user, None, e.now), e.id, e.user, i);
  }

  /** A deletion takes out the targeted row and no other. */
  lemma DeleteStores(t: Table, e: Event, i: nat)
    requires DistinctRows(t.rows) && e.Delete? && IsTarget(t.rows, i, e.id, e.user)
    ensures var (t', ok) := Next(t, e);
            && ok && t'.rows == t.rows[..i] + t.rows[i + 1..]
            && forall j :: 0 <= j < |t'.rows| ==> t'.rows[j].id != e.id
  {
    TargetFound(t.rows, t.rows, e.id, e.user, i);
    var rows := DropRow(t.rows, i);
    assert forall j :: 0 <= j < |rows| ==> rows[j] == if j < i then t.rows[j] else t.rows[j + 1];
  }

  /** Setting a project's instruction leaves one row of the user in the project with exactly what was
      asked for, edited in place or added, and no other row changes. */
  lemma SetProjectStores(t: Table, e: Event)
    requires e.SetProjectInstruction? && Next(t, e).1
    ensures var rows := Next(t, e).0.rows; var n := |t.rows|;
            if exists i :: 0 <= i < n && t.rows[i].user == e.user && t.rows[i].project == Some(e.projectId) then
              && |rows| == n
              && exists i :: 0 <= i < n && t.rows[i].user == e.user && t.rows[i].project == Some(e.projectId)
                   && rows[i] == Row(t.rows[i].id, t.rows[i].uuid, e.user, Some(e.projectId), t.rows[i].name, e.prompt, e.tokens, false, e.now)
                   && forall j :: 0 <= j < n && j != i ==> rows[j] == t.rows[j]
            else rows == t.rows + [Row(t.nextId, e.uuid, e.user, Some(e.projectId), None, e.prompt, e.tokens, false, e.now)]
  {
    var i := InProject(t.rows, e.user, e.projectId);
    if i < |t.rows| {
      assert t.rows[i].user == e.user && t.rows[i].project == Some(e.projectId);
    }
  }

  /** Clearing a project's instruction leaves no row of the user in the project, and every other row
      in its place. */
  lemma ClearProjectStores(t: Table, e: Event)
    requires ProjectRowsOk(t.rows) && e.ClearProjectInstruction?
    ensures var (t', ok) := Next(t, e);
            && ok && (forall j :: 0 <= j < |t'.rows| ==> !(t'.rows[j].user == e.user && t'.rows[j].project == Some(e.projectId)))
            && (t'.rows == t.rows || exists i :: 0 <= i < |t.rows| && t'.rows == t.rows[..i] + t.rows[i + 1..]
                                       && t.rows[i].user == e.user && t.rows[i].project == Some(e.projectId))
  {
    var i := InProject(t.rows, e.user, e.projectId);
    if i < |t.rows| {
      var rows := DropRow(t.rows, i);
      assert forall j :: 0 <= j < |rows| ==> rows[j] == if j < i then t.rows[j] else t.rows[j + 1];
      assert t.rows[i].project == Some(e.projectId);
    }
  }

  // ---------- When a transaction succeeds ----------

  /** The unique index on defaults never refuses a row: a create succeeds exactly when the other
      constraints allow its row. */
  lemma CreateSucceeds(t: Table, e: Event)
    requires Valid(t) && e.Create?
    ensures Next(t, e).1 <==>
              && (forall i :: 0 <= i < |t.rows| ==> t.rows[i].uuid != e.uuid)
              && (e.project.None? ==> e.name.Some?)
              && (e.project.Some? ==> !e.isDefault && forall i :: 0 <= i < |t.rows| ==> t.rows[i].project != e.project)
  {
    if e.isDefault {
      var cleared := ClearDefaults(t.rows, e.user, None, e.now);
      assert forall i :: 0 <= i < |cleared| ==> !(cleared[i].user == e.user && cleared[i].isDefault);
    }
  }

  /** Edits, deletions and choosing a default succeed exactly when the user has that row outside
      projects. */
  lemma TargetedSucceeds(t: Table, e: Event)
    requires e.Update? || e.SetDefault? || e.Delete?
    ensures Next(t, e).1 <==>
              exists i :: 0 <= i < |t.rows| && t.rows[i].id == e.id && t.rows[i].user == e.user && t.rows[i].project.None?
  {
    if !e.Delete? {
      var cleared := ClearDefaults(t.rows, e.user, if e.Update? then Some(e.id) else None, e.now);
      assert forall i :: 0 <= i < |t.rows| ==>
          (cleared[i].id, cleared[i].user, cleared[i].project) == (t.rows[i].id, t.rows[i].user, t.rows[i].project);
    }
  }

  /** Setting a project's instruction succeeds exactly when the user has a row there, or the new row
      would break neither the uuid nor the project constraint. */
  lemma SetProjectSucceeds(t: Table, e: Event)
    requires e.SetProjectInstruction?
    ensures Next(t, e).1 <==>
              || (exists i :: 0 <= i < |t.rows| && t.rows[i].user == e.user && t.rows[i].project == Some(e.projectId))
              || (forall i :: 0 <= i < |t.rows| ==> t.rows[i].uuid != e.uuid && t.rows[i].project != Some(e.projectId))
  {
    var i := InProject(t.rows, e.user, e.projectId);
    if i < |t.rows| { assert t.rows[i].user == e.user && t.rows[i].project == Some(e.projectId); }
  }

  // ---------- Whole runs ----------

  lemma StepKeeps(t: Table, e: Event)
    requires Valid(t)
    ensures Valid(Next(t, e).0)
  {
    DefaultsAfter(t, e, 0);
    forall u
      ensures AtMostOne(Defaults(Next(t, e).0.rows, u))
    {
      DefaultsAfter(t, e, u);
    }
  }

  /** Over every serial run from an empty table a user has at most one default, outside projects. */
  lemma {:induction false} RunKeeps(t: Table, events: seq<Event>)
    requires Valid(t)
    ensures Valid(Run(t, events))
    decreases |events|
  {
    if events != [] {
      StepKeeps(t, events[0]);
      RunKeeps(Next(t, events[0]).0, events[1..]);
    }
  }
}
