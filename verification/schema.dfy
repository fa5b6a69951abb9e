/** The `instances` table (app/lib/database.js): the record shape, the column
    defaults, and the constraints every stored row satisfies. The table is a
    sequence of rows in storage order; the registry reads of the service
    (`getInstanceById`, `getAllInstances`) live here as well. */
module Schema {
  import opened Wrappers
  import opened Text
  import opened Values

  /** The table's columns other than the key `id`. */
  datatype Column =
    | Name | Subdomain | Port | CustomDomain
    | DatabaseType | DatabaseHost | DatabasePort | DatabaseName | DatabaseUser | DatabasePassword
    | AdminEmail | AdminPassword | ApiKey | McpEnabled | Status | AutoReload
    | CreatedAt | UpdatedAt

  function ColumnName(c: Column): string {
    match c
    case Name => "name"
    case Subdomain => "subdomain"
    case Port => "port"
    case CustomDomain => "custom_domain"
    case DatabaseType => "database_type"
    case DatabaseHost => "database_host"
    case DatabasePort => "database_port"
    case DatabaseName => "database_name"
    case DatabaseUser => "database_user"
    case DatabasePassword => "database_password"
    case AdminEmail => "admin_email"
    case AdminPassword => "admin_password"
    case ApiKey => "api_key"
    case McpEnabled => "mcp_enabled"
    case Status => "status"
    case AutoReload => "auto_reload"
    case CreatedAt => "created_at"
    case UpdatedAt => "updated_at"
  }

  /** The column a SQL identifier names, if any. */
  function ColumnNamed(key: string): (r: Option<Column>)
    ensures r.Some? ==> ColumnName(r.value) == key
    ensures r.None? ==> forall c: Column :: ColumnName(c) != key
  {
    if key == "name" then Some(Name)
    else if key == "subdomain" then Some(Subdomain)
    else if key == "port" then Some(Port)
    else if key == "custom_domain" then Some(CustomDomain)
    else if key == "database_type" then Some(DatabaseType)
    else if key == "database_host" then Some(DatabaseHost)
    else if key == "database_port" then Some(DatabasePort)
    else if key == "database_name" then Some(DatabaseName)
    else if key == "database_user" then Some(DatabaseUser)
    else if key == "database_password" then Some(DatabasePassword)
    else if key == "admin_email" then Some(AdminEmail)
    else if key == "admin_password" then Some(AdminPassword)
    else if key == "api_key" then Some(ApiKey)
    else if key == "mcp_enabled" then Some(McpEnabled)
    else if key == "status" then Some(Status)
    else if key == "auto_reload" then Some(AutoReload)
    else if key == "created_at" then Some(CreatedAt)
    else if key == "updated_at" then Some(UpdatedAt)
    else None
  }

  /** The DEFAULT clause of each column; columns without one default to NULL.
      `now` is the text `CURRENT_TIMESTAMP` yields at the time of the insert. */
  function Default(c: Column, now: string): Cell {
    match c
    case DatabaseType => SqlText("sqlite")
    case McpEnabled => SqlInt(0)
    case Status => SqlText("stopped")
    case AutoReload => SqlInt(1)
    case CreatedAt => SqlText(now)
    case UpdatedAt => SqlText(now)
    case _ => SqlNull
  }

  /** One row. */
  datatype Instance = Instance(
    id: string,
    name: Cell, subdomain: Cell, port: Cell, customDomain: Cell,
    databaseType: Cell, databaseHost: Cell, databasePort: Cell, databaseName: Cell,
    databaseUser: Cell, databasePassword: Cell,
    adminEmail: Cell, adminPassword: Cell, apiKey: Cell,
    mcpEnabled: Cell, status: Cell, autoReload: Cell,
    createdAt: Cell, updatedAt: Cell)

  function Field(r: Instance, c: Column): Cell {
    match c
    case Name => r.name
    case Subdomain => r.subdomain
    case Port => r.port
    case CustomDomain => r.customDomain
    case DatabaseType => r.databaseType
    case DatabaseHost => r.databaseHost
    case DatabasePort => r.databasePort
    case DatabaseName => r.databaseName
    case DatabaseUser => r.databaseUser
    case DatabasePassword => r.databasePassword
    case AdminEmail => r.adminEmail
    case AdminPassword => r.adminPassword
    case ApiKey => r.apiKey
    case McpEnabled => r.mcpEnabled
    case Status => r.status
    case AutoReload => r.autoReload
    case CreatedAt => r.createdAt
    case UpdatedAt => r.updatedAt
  }

  /** `SET column = value` on one row. */
  function WithField(r: Instance, c: Column, v: Cell): (r': Instance)
    ensures Field(r', c) == v
    ensures forall d: Column :: d != c ==> Field(r', d) == Field(r, d)
    ensures r'.id == r.id
  {
    match c
    case Name => r.(name := v)
    case Subdomain => r.(subdomain := v)
    case Port => r.(port := v)
    case CustomDomain => r.(customDomain := v)
    case DatabaseType => r.(databaseType := v)
    case DatabaseHost => r.(databaseHost := v)
    case DatabasePort => r.(databasePort := v)
    case DatabaseName => r.(databaseName := v)
    case DatabaseUser => r.(databaseUser := v)
    case DatabasePassword => r.(databasePassword := v)
    case AdminEmail => r.(adminEmail := v)
    case AdminPassword => r.(adminPassword := v)
    case ApiKey => r.(apiKey := v)
    case McpEnabled => r.(mcpEnabled := v)
    case Status => r.(status := v)
    case AutoReload => r.(autoReload := v)
    case CreatedAt => r.(createdAt := v)
    case UpdatedAt => r.(updatedAt := v)
  }

  /** The row an `INSERT` naming no column would store: every column at its
      DEFAULT. An insert naming columns updates this row with their values. */
  function DefaultRow(id: string, now: string): (r: Instance)
    ensures r.id == id
    ensures forall c: Column :: Field(r, c) == Default(c, now)
  {
    Instance(id, SqlNull, SqlNull, SqlNull, SqlNull,
             SqlText("sqlite"), SqlNull, SqlNull, SqlNull, SqlNull, SqlNull,
             SqlNull, SqlNull, SqlNull,
             SqlInt(0), SqlText("stopped"), SqlInt(1), SqlText(now), SqlText(now))
  }

  /** The NOT NULL columns hold values. */
  predicate NotNullOk(r: Instance) {
    r.name != SqlNull && r.subdomain != SqlNull && r.port != SqlNull && r.databaseType != SqlNull
  }

  /** Two rows that could not both be stored: same key, subdomain or port, or the
      same non-null custom domain. */
  predicate Clash(a: Instance, b: Instance) {
    || a.id == b.id
    || a.subdomain == b.subdomain
    || a.port == b.port
    || (a.customDomain != SqlNull && a.customDomain == b.customDomain)
  }

  /** `r` may be stored next to the rows `others`. */
  predicate Fits(others: seq<Instance>, r: Instance) {
    NotNullOk(r) && forall o :: o in others ==> !Clash(o, r)
  }

  /** The table invariant: every row satisfies NOT NULL and no two rows clash. */
  predicate Wf(rows: seq<Instance>) {
    && (forall i :: 0 <= i < |rows| ==> NotNullOk(rows[i]))
    && (forall i, j :: 0 <= i < j < |rows| ==> !Clash(rows[i], rows[j]))
  }

  lemma WfCons(x: Instance, t: seq<Instance>)
    ensures Wf([x] + t) <==> NotNullOk(x) && Fits(t, x) && Wf(t)
  {
    if NotNullOk(x) && Fits(t, x) && Wf(t) {
      WfConsIntro(x, t);
    }
    if Wf([x] + t) {
      WfConsElim(x, t);
    }
  }

  lemma WfConsIntro(x: Instance, t: seq<Instance>)
    requires NotNullOk(x) && Fits(t, x) && Wf(t)
    ensures Wf([x] + t)
  {
    var s := [x] + t;
    forall i, j | 0 <= i < j < |s| ensures !Clash(s[i], s[j]) {
      if i == 0 {
        assert s[j] == t[j - 1] && s[j] in t;
      } else {
        assert s[i] == t[i - 1] && s[j] == t[j - 1];
      }
    }
  }

  lemma WfConsElim(x: Instance, t: seq<Instance>)
    requires Wf([x] + t)
    ensures NotNullOk(x) && Fits(t, x) && Wf(t)
  {
    var s := [x] + t;
    assert s[0] == x;
    forall o | o in t ensures !Clash(o, x) {
      var j :| 0 <= j < |t| && t[j] == o;
      assert s[0] == x && s[j + 1] == o;
      assert !Clash(s[0], s[j + 1]);
    }
    forall i, j | 0 <= i < j < |t| ensures !Clash(t[i], t[j]) {
      assert s[i + 1] == t[i] && s[j + 1] == t[j];
    }
    assert forall i :: 0 <= i < |t| ==> s[i + 1] == t[i];
  }

  /** Inserting a fitting row keeps the table well formed. */
  lemma WfAppend(rows: seq<Instance>, r: Instance)
    requires Wf(rows) && Fits(rows, r)
    ensures Wf(rows + [r])
  {
    var s := rows + [r];
    forall i, j | 0 <= i < j < |s| ensures !Clash(s[i], s[j]) {
      if j == |rows| {
        assert s[i] in rows;
      }
    }
  }

  /** The rows other than the one at `i`. */
  function Without(rows: seq<Instance>, i: nat): (r: seq<Instance>)
    requires i < |rows|
    ensures |r| == |rows| - 1
    ensures forall o :: o in r ==> o in rows
  {
    rows[..i] + rows[i + 1..]
  }

  /** Replacing the row at `i` by one that fits beside the others keeps the table
      well formed. */
  lemma WfReplace(rows: seq<Instance>, i: nat, r: Instance)
    requires i < |rows| && Wf(rows) && Fits(Without(rows, i), r)
    ensures Wf(rows[i := r])
  {
    var s := rows[i := r];
    var w := Without(rows, i);
    forall j, k | 0 <= j < k < |s| ensures !Clash(s[j], s[k]) {
      if j == i {
        assert s[k] == rows[k];
        assert w[k - 1] == rows[k];
        assert rows[k] in w;
      } else if k == i {
        assert s[j] == rows[j];
        assert w[j] == rows[j];
        assert rows[j] in w;
      }
    }
  }

  /** A row that keeps the key, subdomain, port and custom domain of the row it
      replaces fits beside the others. */
  lemma FitsInPlace(rows: seq<Instance>, i: nat, r: Instance)
    requires i < |rows| && Wf(rows) && NotNullOk(r)
    requires r.id == rows[i].id && r.subdomain == rows[i].subdomain
    requires r.port == rows[i].port && r.customDomain == rows[i].customDomain
    ensures Fits(Without(rows, i), r)
  {
    var w := Without(rows, i);
    forall o | o in w ensures !Clash(o, r) {
      var k :| 0 <= k < |w| && w[k] == o;
      if k < i {
        assert o == rows[k];
      } else {
        assert o == rows[k + 1];
      }
    }
  }

  /** Position of the row with key `id`. */
  function IndexOf(rows: seq<Instance>, id: string): (r: Option<nat>)
    ensures r.Some? ==> r.value < |rows| && rows[r.value].id == id
    ensures r.Some? ==> forall j :: 0 <= j < r.value ==> rows[j].id != id
    ensures r.None? <==> forall j :: 0 <= j < |rows| ==> rows[j].id != id
    decreases |rows|
  {
    if |rows| == 0 then None
    else if rows[0].id == id then Some(0)
    else match IndexOf(rows[1..], id)
      case None => None
      case Some(k) => Some(k + 1)
  }

  /** `getInstanceById`: the row with that key, or nothing. */
  function Find(rows: seq<Instance>, id: string): (r: Option<Instance>)
    ensures r.Some? ==> r.value in rows && r.value.id == id
    ensures r.None? <==> forall o :: o in rows ==> o.id != id
  {
    match IndexOf(rows, id)
    case None => None
    case Some(i) => Some(rows[i])
  }

  /** In a well-formed table the key determines the row. */
  lemma FindUnique(rows: seq<Instance>, o: Instance)
    requires Wf(rows) && o in rows
    ensures Find(rows, o.id) == Some(o)
  {
    var i := IndexOf(rows, o.id).value;
    var j :| 0 <= j < |rows| && rows[j] == o;
    if i < j {
      assert Clash(rows[i], rows[j]);
    }
  }

  /** `DELETE FROM instances WHERE id = ?`. */
  function RemoveId(rows: seq<Instance>, id: string): (r: seq<Instance>)
    ensures forall o :: o in r <==> o in rows && o.id != id
    ensures |r| <= |rows|
    decreases |rows|
  {
    if |rows| == 0 then []
    else (if rows[0].id == id then [] else [rows[0]]) + RemoveId(rows[1..], id)
  }

  lemma {:induction false} RemoveIdAbsent(rows: seq<Instance>, id: string)
    requires forall o :: o in rows ==> o.id != id
    ensures RemoveId(rows, id) == rows
    decreases |rows|
  {
    if |rows| > 0 {
      assert rows[0] in rows;
      assert forall o :: o in rows[1..] ==> o in rows;
      RemoveIdAbsent(rows[1..], id);
      assert [rows[0]] + rows[1..] == rows;
    }
  }

  lemma {:induction false} RemoveIdAppended(rows: seq<Instance>, r: Instance)
    requires forall o :: o in rows ==> o.id != r.id
    ensures RemoveId(rows + [r], r.id) == rows
    decreases |rows|
  {
    if |rows| == 0 {
      assert RemoveId([r], r.id) == [] + RemoveId([], r.id);
    } else {
      var s := rows + [r];
      assert s[0] == rows[0] && s[1..] == rows[1..] + [r];
      assert rows[0] in rows;
      assert forall o :: o in rows[1..] ==> o in rows;
      RemoveIdAppended(rows[1..], r);
      assert [rows[0]] + rows[1..] == rows;
    }
  }

  lemma {:induction false} WfRemoveId(rows: seq<Instance>, id: string)
    requires Wf(rows)
    ensures Wf(RemoveId(rows, id))
    decreases |rows|
  {
    if |rows| > 0 {
      assert rows == [rows[0]] + rows[1..];
      WfCons(rows[0], rows[1..]);
      WfRemoveId(rows[1..], id);
      if rows[0].id != id {
        WfCons(rows[0], RemoveId(rows[1..], id));
      } else {
        assert RemoveId(rows, id) == RemoveId(rows[1..], id);
      }
    }
  }

  /** Keys of all stored rows. */
  function Ids(rows: seq<Instance>): set<string> {
    set o | o in rows :: o.id
  }

  /** SQLite's ordering of values in `ORDER BY`: NULL first, then numbers, then
      text in BINARY collation. */
  predicate CellLe(a: Cell, b: Cell) {
    match a
    case SqlNull => true
    case SqlInt(i) => (b.SqlInt? && i <= b.i) || b.SqlText?
    case SqlText(t) => b.SqlText? && TextLe(t, b.t)
  }

  lemma CellLeTotal(a: Cell, b: Cell)
    ensures CellLe(a, b) || CellLe(b, a)
  {
    if a.SqlText? && b.SqlText? {
      TextLeTotal(a.t, b.t);
    }
  }

  lemma CellLeTrans(a: Cell, b: Cell, c: Cell)
    requires CellLe(a, b) && CellLe(b, c)
    ensures CellLe(a, c)
  {
    if a.SqlText? {
      TextLeTrans(a.t, b.t, c.t);
    }
  }

  /** Place `x` before the first row that is not newer than it. */
  function InsertNewest(x: Instance, sorted: seq<Instance>): (r: seq<Instance>)
    requires NewestFirstOrder(sorted)
    ensures multiset(r) == multiset(sorted) + multiset{x}
    ensures NewestFirstOrder(r)
    ensures |r| > 0 && (r[0] == x || (|sorted| > 0 && r[0] == sorted[0]))
    decreases |sorted|
  {
    if |sorted| == 0 then [x]
    else if CellLe(sorted[0].createdAt, x.createdAt) then
      NewestPrepended(x, sorted);
      [x] + sorted
    else
      CellLeTotal(sorted[0].createdAt, x.createdAt);
      var rest := InsertNewest(x, sorted[1..]);
      assert sorted == [sorted[0]] + sorted[1..];
      OlderInserted(sorted, x, rest);
      [sorted[0]] + rest
  }

  /** A row at least as new as the first of a newest-first list may go first. */
  lemma NewestPrepended(x: Instance, sorted: seq<Instance>)
    requires NewestFirstOrder(sorted) && |sorted| > 0 && CellLe(sorted[0].createdAt, x.createdAt)
    ensures NewestFirstOrder([x] + sorted)
  {
    var r := [x] + sorted;
    forall i, j | 0 <= i < j < |r| ensures CellLe(r[j].createdAt, r[i].createdAt) {
      if i == 0 && j > 1 {
        CellLeTrans(r[j].createdAt, sorted[0].createdAt, x.createdAt);
      }
    }
  }

  /** The head of a newest-first list stays first when an older row is
      inserted behind it. */
  lemma OlderInserted(sorted: seq<Instance>, x: Instance, rest: seq<Instance>)
    requires |sorted| > 0 && NewestFirstOrder(sorted) && NewestFirstOrder(rest)
    requires CellLe(x.createdAt, sorted[0].createdAt)
    requires multiset(rest) == multiset(sorted[1..]) + multiset{x}
    ensures NewestFirstOrder([sorted[0]] + rest)
  {
    var r := [sorted[0]] + rest;
    forall i, j | 0 <= i < j < |r| ensures CellLe(r[j].createdAt, r[i].createdAt) {
      if i == 0 {
        assert r[j] in multiset(rest);
        assert r[j] == x || r[j] in sorted[1..];
      } else {
        assert r[i] == rest[i - 1] && r[j] == rest[j - 1];
      }
    }
  }

  /** Newest first: no row is older than one that follows it. */
  predicate NewestFirstOrder(rows: seq<Instance>) {
    forall i, j :: 0 <= i < j < |rows| ==> CellLe(rows[j].createdAt, rows[i].createdAt)
  }

  /** `getAllInstances`: `SELECT * … ORDER BY created_at DESC`. SQLite leaves the
      order of equal timestamps open; the model keeps storage order for them. */
  function NewestFirst(rows: seq<Instance>): (r: seq<Instance>)
    ensures multiset(r) == multiset(rows)
    ensures NewestFirstOrder(r)
    decreases |rows|
  {
    if |rows| == 0 then []
    else
      assert rows == [rows[0]] + rows[1..];
      InsertNewest(rows[0], NewestFirst(rows[1..]))
  }

  /** The listing holds exactly the stored rows. */
  lemma ListingMembers(rows: seq<Instance>, o: Instance)
    ensures o in NewestFirst(rows) <==> o in rows
  {
    var l := NewestFirst(rows);
    assert o in l <==> o in multiset(l);
    assert o in rows <==> o in multiset(rows);
  }
}
