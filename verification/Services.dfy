/** Installing services into the staging tree: BusyBox start scripts and systemd units. */
module Services {
  import opened Wrappers
  import opened Bytes
  import opened Tables
  import opened Ordering
  import opened TextLines
  import opened ArtifactStore
  import opened Staging

  datatype ServiceRow = ServiceRow(initSystem: string, unit: Option<Id>)

  /** The `services` table by name; `None` when no database is given. */
  type ServiceTable = Option<map<string, ServiceRow>>

  /** The generated units, and whether a link in a tree leads to something that exists. */
  datatype Stubs = Stubs(busybox: string -> Blob, systemd: string -> Blob, resolves: (Tree, string) -> bool)

  const INIT_D := "etc/init.d/"
  const UNITS := "etc/systemd/system/"
  const WANTS := "etc/systemd/system/multi-user.target.wants/"

  /** `f"{order:02d}"` */
  function TwoDigits(n: nat): string {
    if n < 10 then "0" + Decimal(n) else Decimal(n)
  }

  function Script(order: nat, name: string): string {
    "S" + TwoDigits(order) + name
  }

  /** The start order of the i-th service of a list. */
  function Order(i: nat): nat {
    20 + i * 10
  }

  function UnitFile(name: string): string {
    name + ".service"
  }

  /** A service's own init system wins over the one asked for, unless it is blank. */
  function InitSystem(db: ServiceTable, name: string, asked: string): string {
    if db.Some? && name in db.value && db.value[name].initSystem != "" then db.value[name].initSystem else asked
  }

  /** The stored unit of a service, when it has one that can be read. */
  function StoredUnit(d: Disk, db: ServiceTable, name: string): Option<Blob> {
    if db.None? || name !in db.value || db.value[name].unit.None? then None
    else
      var loaded := Load(d, db.value[name].unit.value);
      if loaded.Found? then Some(loaded.data) else None
  }

  function OrStub(unit: Option<Blob>, stub: Blob): Node {
    File(Or(unit, stub))
  }

  function Unit(name: string, unit: Option<Blob>, stubs: Stubs): Member {
    Member(UNITS + UnitFile(name), OrStub(unit, stubs.systemd(name)))
  }

  /** `symlink.exists()` follows the link. */
  predicate Exists(t: Tree, p: string, stubs: Stubs) {
    p in t && (t[p].Link? ==> stubs.resolves(t, p))
  }

  /** What installing one service writes; `None` when it raises. */
  function ServiceWrites(t: Tree, init: string, name: string, order: nat, unit: Option<Blob>, stubs: Stubs)
    : Option<seq<Member>>
  {
    if init == "busybox" then
      Some([Member(INIT_D + Script(order, name), OrStub(unit, stubs.busybox(name)))])
    else if init == "systemd" then
      var u := Unit(name, unit, stubs);
      var t' := t[u.name := u.node];
      var link := WANTS + UnitFile(name);
      if Exists(t', link, stubs) then Some([u])
      else if link in t' then None
      else Some([u, Member(link, Link("../" + UnitFile(name)))])
    else None
  }

  /** The paths that an installation reports. */
  function ServicePaths(init: string, name: string, order: nat): seq<string> {
    if init == "busybox" then [INIT_D + Script(order, name)] else [UNITS + UnitFile(name), WANTS + UnitFile(name)]
  }

  /** The report for a list: for each name the paths of its last installation. */
  function Report(db: ServiceTable, names: seq<string>, asked: string): map<string, seq<string>> {
    if names == [] then map[]
    else
      var n := |names| - 1;
      Report(db, names[..n], asked)[names[n] := ServicePaths(InitSystem(db, names[n], asked), names[n], Order(n))]
  }

  function ServicesWrites(t: Tree, d: Disk, db: ServiceTable, names: seq<string>, asked: string, stubs: Stubs)
    : Option<seq<Member>>
  {
    if names == [] then Some([])
    else
      var n := |names| - 1;
      var before := ServicesWrites(t, d, db, names[..n], asked, stubs);
      if before.None? then None
      else
        var one := ServiceWrites(Applied(t, before.value), InitSystem(db, names[n], asked), names[n], Order(n),
                                 StoredUnit(d, db, names[n]), stubs);
        if one.None? then None else Some(before.value + one.value)
  }

  method InstallBusybox(stage: Stage, name: string, order: nat, unit: Option<Blob>, stubs: Stubs) returns (path: string)
    modifies stage
    ensures path == INIT_D + Script(order, name)
    ensures stage.tree == old(stage.tree)[path := OrStub(unit, stubs.busybox(name))]
  {
    var scriptName := Script(order, name);
    if unit.Some? {
      stage.Write(INIT_D + scriptName, File(unit.value));
    } else {
      stage.Write(INIT_D + scriptName, File(stubs.busybox(name)));
    }
    return INIT_D + scriptName;
  }

  method InstallSystemd(stage: Stage, name: string, unit: Option<Blob>, stubs: Stubs) returns (r: Result<seq<string>, Error>)
    modifies stage
    ensures var w := ServiceWrites(old(stage.tree), "systemd", name, 0, unit, stubs);
      && (r.Ok? <==> w.Some?)
      && (r.Ok? ==> stage.tree == Applied(old(stage.tree), w.value))
    ensures r.Ok? ==> r.value == [UNITS + UnitFile(name), WANTS + UnitFile(name)]
    ensures r.Ok? ==> forall p :: p in r.value ==> p in stage.tree
  {
    var u := Unit(name, unit, stubs);
    stage.Write(u.name, u.node);
    AppliedSnoc(old(stage.tree), [], u);
    assert [] + [u] == [u];
    var link := WANTS + UnitFile(name);
    if !Exists(stage.tree, link, stubs) {
      if link in stage.tree {
        return Err(LinkInTheWay);
      }
      var target := Link("../" + UnitFile(name));
      stage.Write(link, target);
      AppliedSnoc(old(stage.tree), [u], Member(link, target));
      assert [u] + [Member(link, target)] == [u, Member(link, target)];
    }
    return Ok([u.name, link]);
  }

  method InstallService(stage: Stage, store: Store, db: ServiceTable, name: string, asked: string, order: nat, stubs: Stubs)
    returns (r: Result<seq<string>, Error>)
    modifies stage
    ensures var w := ServiceWrites(old(stage.tree), InitSystem(db, name, asked), name, order,
                                   StoredUnit(store.State(), db, name), stubs);
      && (r.Ok? <==> w.Some?)
      && (r.Ok? ==> stage.tree == Applied(old(stage.tree), w.value))
    ensures r.Ok? ==> r.value == ServicePaths(InitSystem(db, name, asked), name, order)
    ensures r.Ok? ==> forall p :: p in r.value ==> p in stage.tree
  {
    var unit: Option<Blob> := None;
    var init := asked;
    if db.Some? && name in db.value {
      var row := db.value[name];
      if row.initSystem != "" {
        init := row.initSystem;
      }
      if row.unit.Some? {
        var loaded := store.Open(row.unit.value);
        if loaded.Found? {
          unit := Some(loaded.data);
        }
      }
    }
    if init == "busybox" {
      var path := InstallBusybox(stage, name, order, unit, stubs);
      AppliedSnoc(old(stage.tree), [], Member(path, OrStub(unit, stubs.busybox(name))));
      assert [] + [Member(path, OrStub(unit, stubs.busybox(name)))] == [Member(path, OrStub(unit, stubs.busybox(name)))];
      return Ok([path]);
    }
    if init == "systemd" {
      r := InstallSystemd(stage, name, unit, stubs);
      return;
    }
    return Err(UnknownInitSystem);
  }

  lemma AppliedGrows(t: Tree, ws: seq<Member>)
    ensures t.Keys <= Applied(t, ws).Keys
  {
    forall p | p in t ensures p in Applied(t, ws) {
      AppliedIs(t, ws, p);
    }
  }

  lemma {:induction false} PrefixFails(t: Tree, d: Disk, db: ServiceTable, names: seq<string>, n: nat, asked: string, stubs: Stubs)
    requires n <= |names| && ServicesWrites(t, d, db, names[..n], asked, stubs).None?
    ensures ServicesWrites(t, d, db, names, asked, stubs).None?
    decreases |names|
  {
    if n == |names| {
      assert names[..n] == names;
    } else {
      var init := names[..|names| - 1];
      assert init[..n] == names[..n];
      PrefixFails(t, d, db, init, n, asked, stubs);
    }
  }

  /** One more service extends the writes so far, or fails the whole list. */
  lemma NextService(t: Tree, d: Disk, db: ServiceTable, names: seq<string>, i: nat, asked: string, stubs: Stubs)
    requires i < |names| && ServicesWrites(t, d, db, names[..i], asked, stubs).Some?
    ensures var before := ServicesWrites(t, d, db, names[..i], asked, stubs).value;
      var one := ServiceWrites(Applied(t, before), InitSystem(db, names[i], asked), names[i], Order(i),
                               StoredUnit(d, db, names[i]), stubs);
      var after := ServicesWrites(t, d, db, names[..i + 1], asked, stubs);
      && (one.None? ==> ServicesWrites(t, d, db, names, asked, stubs).None?)
      && (one.Some? ==>
            && after == Some(before + one.value)
            && Applied(t, after.value) == Applied(Applied(t, before), one.value)
            && Applied(t, before).Keys <= Applied(t, after.value).Keys)
  {
    var before := ServicesWrites(t, d, db, names[..i], asked, stubs).value;
    var one := ServiceWrites(Applied(t, before), InitSystem(db, names[i], asked), names[i], Order(i),
                             StoredUnit(d, db, names[i]), stubs);
    assert names[..i + 1][..i] == names[..i];
    if one.None? {
      PrefixFails(t, d, db, names, i + 1, asked, stubs);
    } else {
      AppliedAppend(t, before, one.value);
      AppliedGrows(Applied(t, before), one.value);
    }
  }

  /** Every reported path exists. */
  ghost predicate AllExist(report: map<string, seq<string>>, t: Tree) {
    forall n, p :: n in report && p in report[n] ==> p in t
  }

  /** The report for the services so far is right, and what it names exists. */
  ghost predicate Reported(report: map<string, seq<string>>, db: ServiceTable, names: seq<string>, asked: string, t: Tree) {
    report == Report(db, names, asked) && AllExist(report, t)
  }

  lemma ReportNext(report: map<string, seq<string>>, db: ServiceTable, names: seq<string>, i: nat, asked: string,
                   paths: seq<string>, t: Tree, t': Tree)
    requires i < |names| && Reported(report, db, names[..i], asked, t) && t.Keys <= t'.Keys
    requires paths == ServicePaths(InitSystem(db, names[i], asked), names[i], Order(i)) && forall p :: p in paths ==> p in t'
    ensures Reported(report[names[i] := paths], db, names[..i + 1], asked, t')
  {
    assert names[..i + 1][..i] == names[..i];
  }

  lemma {:induction false} ReportNames(db: ServiceTable, names: seq<string>, asked: string)
    ensures Report(db, names, asked).Keys == set n | n in names
  {
    if names != [] {
      var n := |names| - 1;
      ReportNames(db, names[..n], asked);
      assert names == names[..n] + [names[n]];
    }
  }

  /** Installs the services in list order; reports for each name the paths that it wrote. */
  method InstallServices(stage: Stage, store: Store, db: ServiceTable, names: seq<string>, asked: string, stubs: Stubs)
    returns (r: Result<map<string, seq<string>>, Error>)
    modifies stage
    ensures var w := ServicesWrites(old(stage.tree), store.State(), db, names, asked, stubs);
      && (r.Ok? <==> w.Some?)
      && (r.Ok? ==> stage.tree == Applied(old(stage.tree), w.value))
    ensures r.Ok? ==> Reported(r.value, db, names, asked, stage.tree)
  {
    var result: map<string, seq<string>> := map[];
    ghost var t, d := stage.tree, store.State();
    var i := 0;
    while i < |names|
      invariant 0 <= i <= |names|
      invariant store.State() == d
      invariant ServicesWrites(t, d, db, names[..i], asked, stubs).Some?
      invariant stage.tree == Applied(t, ServicesWrites(t, d, db, names[..i], asked, stubs).value)
      invariant Reported(result, db, names[..i], asked, stage.tree)
    {
      ghost var was := stage.tree;
      NextService(t, d, db, names, i, asked, stubs);
      var paths := InstallService(stage, store, db, names[i], asked, Order(i), stubs);
      if paths.Err? {
        return Err(paths.error);
      }
      ReportNext(result, db, names, i, asked, paths.value, was, stage.tree);
      result := result[names[i] := paths.value];
      i := i + 1;
    }
    assert names[..i] == names;
    return Ok(result);
  }

  // ---------------------------------------------------------------------
  // Start order of BusyBox scripts
  // ---------------------------------------------------------------------

  ghost predicate StrictlyBefore(a: string, b: string) {
    StrLeq(a, b) && a != b
  }

  /** The script names of the list, read in directory order, are in list order. */
  ghost predicate StartInListOrder(names: seq<string>) {
    forall i, j :: 0 <= i < j < |names| ==> StrictlyBefore(Script(Order(i), names[i]), Script(Order(j), names[j]))
  }

  lemma ShortScript(i: nat, name: string)
    requires i < 8
    ensures Script(Order(i), name) == ['S', (50 + i) as char, '0'] + name
  {
    var n := Order(i);
    assert n / 10 == 2 + i && n % 10 == 0;
    assert Decimal(n) == Decimal(n / 10) + ['0'];
    assert Decimal(2 + i) == [(50 + i) as char];
  }

  lemma DecidedAtSecond(a: string, b: string)
    requires |a| >= 2 && |b| >= 2 && a[0] == b[0] && a[1] < b[1]
    ensures StrictlyBefore(a, b) && !StrLeq(b, a)
  {
  }

  /** Start order follows list order, whatever the names, exactly up to eight services. */
  lemma StartOrderExactly(names: seq<string>)
    ensures StartInListOrder(names) <==> |names| <= 8
  {
    if |names| <= 8 {
      forall i, j | 0 <= i < j < |names|
        ensures StrictlyBefore(Script(Order(i), names[i]), Script(Order(j), names[j]))
      {
        ShortScript(i, names[i]);
        ShortScript(j, names[j]);
        DecidedAtSecond(Script(Order(i), names[i]), Script(Order(j), names[j]));
      }
    } else {
      ShortScript(7, names[7]);
      DecidedAtSecond(Script(Order(8), names[8]), Script(Order(7), names[7]));
      assert !StrictlyBefore(Script(Order(7), names[7]), Script(Order(8), names[8]));
    }
  }

  // ---------------------------------------------------------------------
  // What one service leaves in the tree
  // ---------------------------------------------------------------------

  /** The service's own init system if it names one, else the one asked for. */
  ghost predicate Runs(db: ServiceTable, name: string, asked: string, init: string) {
    && (db.Some? && name in db.value && db.value[name].initSystem != "" ==> init == db.value[name].initSystem)
    && (db.None? || name !in db.value || db.value[name].initSystem == "" ==> init == asked)
  }

  /** The artifact that the service refers to if it can be read, else the generated one. */
  ghost predicate UnitOf(d: Disk, db: ServiceTable, name: string, generated: Blob, unit: Blob) {
    var stored := db.Some? && name in db.value && db.value[name].unit.Some? && Load(d, db.value[name].unit.value).Found?;
    && (stored ==> unit == Load(d, db.value[name].unit.value).data)
    && (!stored ==> unit == generated)
  }

  /** A BusyBox service gets its unit as a numbered start script, and nothing else. */
  lemma BusyboxService(t: Tree, d: Disk, db: ServiceTable, name: string, asked: string, i: nat, stubs: Stubs)
    requires Runs(db, name, asked, "busybox")
    ensures var w := ServiceWrites(t, InitSystem(db, name, asked), name, Order(i), StoredUnit(d, db, name), stubs);
      && w.Some? && |w.value| == 1
      && w.value[0].name == "etc/init.d/" + ("S" + Decimal(20 + 10 * i) + name)
      && w.value[0].node.File? && UnitOf(d, db, name, stubs.busybox(name), w.value[0].node.data)
  {
    assert TwoDigits(Order(i)) == Decimal(20 + 10 * i);
  }

  /** A systemd service gets its unit file, and a link that enables it unless something is already there. */
  lemma SystemdService(t: Tree, d: Disk, db: ServiceTable, name: string, asked: string, i: nat, stubs: Stubs)
    requires Runs(db, name, asked, "systemd")
    ensures var link := "etc/systemd/system/multi-user.target.wants/" + (name + ".service");
      var w := ServiceWrites(t, InitSystem(db, name, asked), name, Order(i), StoredUnit(d, db, name), stubs);
      && (link !in t && link != "etc/systemd/system/" + (name + ".service") ==>
            w.Some? && |w.value| == 2 && w.value[1] == Member(link, Link("../" + (name + ".service"))))
      && (w.Some? ==>
            && w.value != [] && w.value[0].name == "etc/systemd/system/" + (name + ".service")
            && w.value[0].node.File? && UnitOf(d, db, name, stubs.systemd(name), w.value[0].node.data))
  {
  }

  /** Any other init system fails. */
  lemma OtherService(t: Tree, d: Disk, db: ServiceTable, name: string, asked: string, i: nat, stubs: Stubs, init: string)
    requires Runs(db, name, asked, init) && init != "busybox" && init != "systemd"
    ensures ServiceWrites(t, InitSystem(db, name, asked), name, Order(i), StoredUnit(d, db, name), stubs) == None
  {
  }

  /** A name's report is about the last of its positions in the list. */
  lemma {:induction false} ReportIs(db: ServiceTable, names: seq<string>, asked: string, i: nat)
    requires i < |names| && forall j :: i < j < |names| ==> names[j] != names[i]
    ensures names[i] in Report(db, names, asked)
    ensures Runs(db, names[i], asked, "busybox") ==>
      Report(db, names, asked)[names[i]] == ["etc/init.d/" + ("S" + Decimal(20 + 10 * i) + names[i])]
    ensures Runs(db, names[i], asked, "systemd") ==>
      Report(db, names, asked)[names[i]] ==
        ["etc/systemd/system/" + (names[i] + ".service"),
         "etc/systemd/system/multi-user.target.wants/" + (names[i] + ".service")]
    decreases |names|
  {
    if i == |names| - 1 {
      assert TwoDigits(Order(i)) == Decimal(20 + 10 * i);
    } else {
      ReportIs(db, names[..|names| - 1], asked, i);
    }
  }

  /** A script name has at least two digits. */
  lemma ScriptIs(order: nat, name: string)
    ensures 10 <= order ==> Script(order, name) == "S" + Decimal(order) + name
    ensures order < 10 ==> Script(order, name) == "S" + ("0" + [('0' as int + order) as char]) + name
  {
    assert order < 10 ==> Decimal(order) == [('0' as int + order) as char];
  }
}
