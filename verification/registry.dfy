/** The service's registry operations that edit one stored row or remove it
    (`updateInstance`, `toggleMCP`, `deleteInstance` in
    app/lib/instanceService.js), over a store made of the `instances` table and
    the per-instance working directories. */
module Registry {
  import opened Wrappers
  import opened Values
  import opened Errors
  import opened Schema
  import opened EnvFile

  /** A top-level entry of a working directory: a directory made empty, content
      left by an external command or a copy (an opaque token), or a `.env` file
      the service wrote, kept as the configuration it was generated from. */
  datatype Entry = EmptyDir | Opaque(token: string) | EnvFileOf(config: Body, key: string, secret: string)

  /** The bytes of an entry; a generated `.env` file reads as its text. */
  function Contents(e: Entry): string {
    match e
    case EmptyDir => ""
    case Opaque(t) => t
    case EnvFileOf(config, key, secret) => GenerateEnvFile(config, key, secret)
  }

  /** A working directory: top-level entry name to entry. */
  type Workspace = map<string, Entry>

  /** The table and the working directories, keyed by instance id. */
  datatype Store = Store(rows: seq<Instance>, dirs: map<string, Workspace>)

  /** A call's effect on the store together with what it returned or threw. */
  datatype Reply<T> = Reply(store: Store, result: Result<T, Error>)

  /** The entries of an update body that become assignments: those whose value
      is not `undefined` and whose key is not `id`, in key order. */
  function Assignments(data: Body): (r: Body)
    ensures |r| <= |data|
    ensures forall e :: e in r <==> e in data && e.1 != Undefined && e.0 != "id"
    decreases |data|
  {
    if |data| == 0 then []
    else
      var rest := Assignments(data[1..]);
      assert forall e :: e in data <==> e == data[0] || e in data[1..];
      if data[0].1 != Undefined && data[0].0 != "id" then [data[0]] + rest else rest
  }

  /** The first key that names no column: preparing `UPDATE … SET key = ?` fails
      on it with `no such column`. */
  function UnknownKey(asg: Body): (r: Option<string>)
    ensures r.None? <==> forall i :: 0 <= i < |asg| ==> ColumnNamed(asg[i].0).Some?
    ensures r.Some? ==> exists i :: 0 <= i < |asg| && asg[i].0 == r.value && ColumnNamed(r.value).None?
    decreases |asg|
  {
    if |asg| == 0 then None
    else if ColumnNamed(asg[0].0).None? then Some(asg[0].0)
    else
      var r := UnknownKey(asg[1..]);
      assert forall i :: 1 <= i < |asg| ==> asg[i] == asg[1..][i - 1];
      r
  }

  /** The assignments with their columns resolved and their values bound. */
  function Resolved(asg: Body): (r: seq<(Column, Cell)>)
    requires forall i :: 0 <= i < |asg| ==> ColumnNamed(asg[i].0).Some? && Bindable(asg[i].1)
    ensures |r| == |asg|
    ensures forall i :: 0 <= i < |asg| ==>
      ColumnName(r[i].0) == asg[i].0 && FromCell(r[i].1) == asg[i].1
  {
    seq(|asg|, i requires 0 <= i < |asg| => (ColumnNamed(asg[i].0).value, Bind(asg[i].1)))
  }

  /** No assignment in `sets` names column `c`. */
  predicate Untouched(sets: seq<(Column, Cell)>, c: Column) {
    forall i :: 0 <= i < |sets| ==> sets[i].0 != c
  }

  /** The assignment at `i` is the last one to its column. */
  predicate LastFor(sets: seq<(Column, Cell)>, i: int)
    requires 0 <= i < |sets|
  {
    forall j :: i < j < |sets| ==> sets[j].0 != sets[i].0
  }

  /** `SET c1 = v1, c2 = v2, …`: when a column is assigned more than once the
      rightmost assignment is the one that takes effect. */
  function Assign(r: Instance, sets: seq<(Column, Cell)>): (r': Instance)
    ensures r'.id == r.id
    ensures forall c: Column :: Untouched(sets, c) ==> Field(r', c) == Field(r, c)
    ensures forall i :: 0 <= i < |sets| && LastFor(sets, i) ==> Field(r', sets[i].0) == sets[i].1
    decreases |sets|
  {
    if |sets| == 0 then r
    else
      var k := |sets| - 1;
      var before := Assign(r, sets[..k]);
      var after := WithField(before, sets[k].0, sets[k].1);
      AssignLast(r, sets, sets[..k], before, after);
      after
  }

  /** Setting the last assignment on top of the earlier ones. */
  lemma AssignLast(r: Instance, sets: seq<(Column, Cell)>, p: seq<(Column, Cell)>, before: Instance, after: Instance)
    requires |sets| > 0 && p == sets[..|sets| - 1]
    requires forall c: Column :: Untouched(p, c) ==> Field(before, c) == Field(r, c)
    requires forall i :: 0 <= i < |p| && LastFor(p, i) ==> Field(before, p[i].0) == p[i].1
    requires Field(after, sets[|sets| - 1].0) == sets[|sets| - 1].1
    requires forall d: Column :: d != sets[|sets| - 1].0 ==> Field(after, d) == Field(before, d)
    ensures forall c: Column :: Untouched(sets, c) ==> Field(after, c) == Field(r, c)
    ensures forall i :: 0 <= i < |sets| && LastFor(sets, i) ==> Field(after, sets[i].0) == sets[i].1
  {
    var k := |sets| - 1;
    forall c: Column | Untouched(sets, c) ensures Field(after, c) == Field(r, c) {
      assert sets[k].0 != c;
      assert Untouched(p, c);
    }
    forall i | 0 <= i < |sets| && LastFor(sets, i) ensures Field(after, sets[i].0) == sets[i].1 {
      if i < k {
        assert sets[k].0 != sets[i].0;
        assert p[i] == sets[i];
        assert LastFor(p, i);
      }
    }
  }

  /** Two assignments apply one after the other. */
  lemma AssignPair(row: Instance, c: Column, v: Cell, d: Column, w: Cell)
    ensures Assign(row, [(c, v), (d, w)]) == WithField(WithField(row, c, v), d, w)
  {
    var sets := [(c, v), (d, w)];
    assert sets[..1] == [(c, v)] && sets[..1][..0] == [];
    assert Assign(row, sets[..1]) == WithField(row, c, v);
  }

  /** `getInstanceById`. */
  function GetInstanceById(s: Store, id: string): Option<Instance> {
    Find(s.rows, id)
  }

  /** `getAllInstances`. */
  function GetAllInstances(s: Store): seq<Instance> {
    NewestFirst(s.rows)
  }

  /** `updateInstance(id, data)`; `now` is `CURRENT_TIMESTAMP` at the time of the
      statement. An update that assigns nothing returns the row untouched; one
      that assigns anything also sets `updated_at`, after the body's own
      assignments so that it wins over them. */
  function UpdateInstance(s: Store, id: string, data: Body, now: string): (out: Reply<Instance>)
    ensures out.result.Err? ==> out.store == s
    ensures out.store.dirs == s.dirs
  {
    match IndexOf(s.rows, id)
    case None => Reply(s, Err(InstanceNotFound))
    case Some(i) =>
      var row := s.rows[i];
      var asg := Assignments(data);
      if |asg| == 0 then Reply(s, Ok(row))
      else match UnknownKey(asg)
        case Some(k) => Reply(s, Err(NoSuchColumn(k)))
        case None =>
          if exists j :: 0 <= j < |asg| && !Bindable(asg[j].1) then Reply(s, Err(CannotBind))
          else
            var row' := Assign(row, Resolved(asg) + [(UpdatedAt, SqlText(now))]);
            if Fits(Without(s.rows, i), row') then Reply(s.(rows := s.rows[i := row']), Ok(row'))
            else Reply(s, Err(ConstraintFailed))
  }

  /** `toggleMCP(id, enabled)`: `mcp_enabled` becomes 1 or 0 by the truthiness of
      `enabled`, and `updated_at` is refreshed. */
  function ToggleMcp(s: Store, id: string, enabled: Val, now: string): (out: Reply<Instance>)
    ensures out.result.Err? ==> out.store == s
    ensures out.store.dirs == s.dirs
  {
    match IndexOf(s.rows, id)
    case None => Reply(s, Err(InstanceNotFound))
    case Some(i) =>
      var row' := s.rows[i].(mcpEnabled := SqlInt(if Truthy(enabled) then 1 else 0), updatedAt := SqlText(now));
      Reply(s.(rows := s.rows[i := row']), Ok(row'))
  }

  /** `deleteInstance(id)`: the working directory and the row go; the reply is
      the success message. */
  function DeleteInstance(s: Store, id: string): (out: Reply<string>)
    ensures out.result.Err? ==> out.store == s
  {
    if Find(s.rows, id).None? then Reply(s, Err(InstanceNotFound))
    else Reply(Store(RemoveId(s.rows, id), s.dirs - {id}), Ok("Instance deleted successfully"))
  }

  // ---------------------------------------------------------------------------
  // Properties

  /** Update, toggle and delete on an unknown id throw `Instance not found` and
      change nothing. */
  lemma UnknownIdChangesNothing(s: Store, id: string, data: Body, enabled: Val, now: string)
    requires forall o :: o in s.rows ==> o.id != id
    ensures UpdateInstance(s, id, data, now) == Reply(s, Err(InstanceNotFound))
    ensures ToggleMcp(s, id, enabled, now) == Reply(s, Err(InstanceNotFound))
    ensures DeleteInstance(s, id) == Reply(s, Err(InstanceNotFound))
  {
  }

  /** A body with nothing to assign (every value undefined, or only `id`) returns
      the stored row as it is and leaves the table alone: no `updated_at` bump. */
  lemma EmptyUpdateKeepsRow(s: Store, id: string, data: Body, now: string)
    requires Wf(s.rows)
    requires forall i :: 0 <= i < |data| ==> data[i].1 == Undefined || data[i].0 == "id"
    requires exists o :: o in s.rows && o.id == id
    ensures var out := UpdateInstance(s, id, data, now);
            out.store == s && out.result.Ok? && Some(out.result.value) == Find(s.rows, id)
  {
  }

  /** A successful update changes exactly the row with that id: `updated_at`
      becomes `now`, a column the body assigns (other than `id`) takes the body's
      rightmost value for it, every other column keeps its value, and the table
      stays well formed. */
  lemma UpdateEffect(s: Store, id: string, data: Body, now: string)
    requires Wf(s.rows)
    ensures var out := UpdateInstance(s, id, data, now);
            out.result.Ok? && out.store != s ==>
              && IndexOf(s.rows, id).Some?
              && var i := IndexOf(s.rows, id).value;
              && var row' := out.result.value;
              && s.rows[i].id == id
              && out.store.rows == s.rows[i := row']
              && Wf(out.store.rows)
              && row'.id == id
              && Field(row', UpdatedAt) == SqlText(now)
              && (forall c: Column ::
                    (c != UpdatedAt && forall e :: e in Assignments(data) ==> e.0 != ColumnName(c)) ==>
                      Field(row', c) == Field(s.rows[i], c))
  {
    var out := UpdateInstance(s, id, data, now);
    if out.result.Ok? && out.store != s {
      var i := IndexOf(s.rows, id).value;
      var asg := Assignments(data);
      var sets := Resolved(asg) + [(UpdatedAt, SqlText(now))];
      var row' := Assign(s.rows[i], sets);
      assert out.result.value == row';
      assert sets[|sets| - 1] == (UpdatedAt, SqlText(now));
      WfReplace(s.rows, i, row');
      forall c: Column | c != UpdatedAt && (forall e :: e in asg ==> e.0 != ColumnName(c))
        ensures Field(row', c) == Field(s.rows[i], c)
      {
        AssignUntouched(s.rows[i], asg, now, c);
      }
    }
  }

  /** What a successful update replies is what `getInstanceById` reads
      afterwards, and the table stays well formed. */
  lemma UpdateReadsBack(s: Store, id: string, data: Body, now: string)
    requires Wf(s.rows)
    ensures var out := UpdateInstance(s, id, data, now);
      out.result.Ok? ==> Wf(out.store.rows) && GetInstanceById(out.store, id) == Some(out.result.value)
  {
    var out := UpdateInstance(s, id, data, now);
    if out.result.Ok? {
      var i := IndexOf(s.rows, id).value;
      if out.store == s {
        assert out.result.value == s.rows[i];
        FindUnique(s.rows, s.rows[i]);
      } else {
        UpdateEffect(s, id, data, now);
        assert out.store.rows[i] == out.result.value;
        FindUnique(out.store.rows, out.result.value);
      }
    }
  }

  /** An update whose body passes every check writes the assigned row in place. */
  lemma UpdateApplies(s: Store, id: string, data: Body, now: string, i: nat, row': Instance)
    requires IndexOf(s.rows, id) == Some(i)
    requires |Assignments(data)| > 0 && UnknownKey(Assignments(data)) == None
    requires forall j :: 0 <= j < |Assignments(data)| ==> Bindable(Assignments(data)[j].1)
    requires row' == Assign(s.rows[i], Resolved(Assignments(data)) + [(UpdatedAt, SqlText(now))])
    requires Fits(Without(s.rows, i), row')
    ensures UpdateInstance(s, id, data, now) == Reply(s.(rows := s.rows[i := row']), Ok(row'))
  {
  }

  /** A column that neither the body nor the timestamp assigns keeps its value. */
  lemma AssignUntouched(row: Instance, asg: Body, now: string, c: Column)
    requires forall i :: 0 <= i < |asg| ==> ColumnNamed(asg[i].0).Some? && Bindable(asg[i].1)
    requires c != UpdatedAt && forall e :: e in asg ==> e.0 != ColumnName(c)
    ensures Field(Assign(row, Resolved(asg) + [(UpdatedAt, SqlText(now))]), c) == Field(row, c)
  {
    var sets := Resolved(asg) + [(UpdatedAt, SqlText(now))];
    forall k | 0 <= k < |sets| ensures sets[k].0 != c {
      if k < |asg| {
        assert asg[k] in asg;
      }
    }
  }

  /** With `updated_at = CURRENT_TIMESTAMP` appended, the rightmost body
      assignment to any other column is the value that column ends with. */
  lemma AssignLastBody(row: Instance, asg: Body, now: string, k: nat)
    requires forall i :: 0 <= i < |asg| ==> ColumnNamed(asg[i].0).Some? && Bindable(asg[i].1)
    requires k < |asg| && asg[k].0 != "updated_at"
    requires forall j :: k < j < |asg| ==> asg[j].0 != asg[k].0
    ensures CellOf(Assign(row, Resolved(asg) + [(UpdatedAt, SqlText(now))]), asg[k].0) == Some(Bind(asg[k].1))
  {
    var sets := Resolved(asg) + [(UpdatedAt, SqlText(now))];
    var c := sets[k].0;
    assert ColumnName(c) == asg[k].0;
    forall j | k < j < |sets| ensures sets[j].0 != c {
      if j < |asg| {
        assert ColumnName(sets[j].0) == asg[j].0;
      }
    }
    assert ColumnNamed(asg[k].0) == Some(c);
    BindFromCell(sets[k].1);
  }

  /** The rightmost assignment to a column in the body is the value stored. */
  lemma UpdateLastAssignmentWins(s: Store, id: string, data: Body, now: string, k: nat)
    requires k < |Assignments(data)| && Assignments(data)[k].0 != "updated_at"
    requires forall j :: k < j < |Assignments(data)| ==> Assignments(data)[j].0 != Assignments(data)[k].0
    ensures var out := UpdateInstance(s, id, data, now);
            out.result.Ok? ==> CellOf(out.result.value, Assignments(data)[k].0) == Some(Bind(Assignments(data)[k].1))
  {
    var out := UpdateInstance(s, id, data, now);
    if out.result.Ok? {
      var i := IndexOf(s.rows, id).value;
      assert out.result.value == Assign(s.rows[i], Resolved(Assignments(data)) + [(UpdatedAt, SqlText(now))]);
      AssignLastBody(s.rows[i], Assignments(data), now, k);
    }
  }

  /** The cell of the column an identifier names. */
  function CellOf(r: Instance, key: string): (c: Option<Cell>)
    ensures c.Some? <==> ColumnNamed(key).Some?
  {
    match ColumnNamed(key)
    case None => None
    case Some(col) => Some(Field(r, col))
  }

  /** An update that names an unknown column or a value SQLite cannot bind, or
      that would break a NOT NULL or UNIQUE constraint, changes nothing. */
  lemma UpdateFailureKeepsStore(s: Store, id: string, data: Body, now: string)
    ensures UpdateInstance(s, id, data, now).result.Err? ==> UpdateInstance(s, id, data, now).store == s
  {
  }

  /** Toggling sets `mcp_enabled` to 1 exactly when `enabled` is truthy, touches
      nothing else of the row but `updated_at`, and keeps the table well formed. */
  lemma ToggleEffect(s: Store, id: string, enabled: Val, now: string)
    requires Wf(s.rows)
    requires exists o :: o in s.rows && o.id == id
    ensures var out := ToggleMcp(s, id, enabled, now);
            && out.result.Ok?
            && out.result.value.mcpEnabled == (if Truthy(enabled) then SqlInt(1) else SqlInt(0))
            && out.result.value.updatedAt == SqlText(now)
            && (forall c: Column :: c != McpEnabled && c != UpdatedAt ==>
                  Field(out.result.value, c) == Field(Find(s.rows, id).value, c))
            && Wf(out.store.rows)
            && Find(out.store.rows, id) == Some(out.result.value)
  {
    var i := IndexOf(s.rows, id).value;
    var row' := ToggleMcp(s, id, enabled, now).result.value;
    assert NotNullOk(s.rows[i]);
    FitsInPlace(s.rows, i, row');
    WfReplace(s.rows, i, row');
    assert s.rows[i := row'][i] == row';
    FindUnique(s.rows[i := row'], row');
  }

  /** Delete removes exactly the row with that id and its working directory. */
  lemma DeleteEffect(s: Store, id: string)
    requires Wf(s.rows)
    requires exists o :: o in s.rows && o.id == id
    ensures var out := DeleteInstance(s, id);
            && out.result == Ok("Instance deleted successfully")
            && (forall o :: o in out.store.rows <==> o in s.rows && o.id != id)
            && out.store.dirs.Keys == s.dirs.Keys - {id}
            && (forall d :: d in out.store.dirs ==> out.store.dirs[d] == s.dirs[d])
            && Wf(out.store.rows)
  {
    WfRemoveId(s.rows, id);
  }
}
