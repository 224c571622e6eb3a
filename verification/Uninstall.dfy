/** The uninstaller's removal plan (setup/uninstall/plan.ts), its execution with
    failing actions (setup/uninstall/remove.ts) and the split the flow makes of
    it (setup/uninstall/flow.ts). */
module Uninstall {
  import opened Options

  datatype PathItem = PathItem(what: string, path: string)

  datatype Service = Service(
    launchdPlist: Option<string>, systemdUserUnit: Option<string>, systemdSystemUnit: Option<string>,
    pidFile: Option<string>, image: Option<string>, nclSymlink: Option<string>)

  datatype Inventory = Inventory(
    slug: string, projectRoot: string, containerRuntime: string, service: Service,
    data: seq<PathItem>, runtime: seq<PathItem>, user: seq<PathItem>)

  datatype VaultAgent = VaultAgent(uuid: string, identifier: string, name: string)

  datatype Decisions = Decisions(service: bool, data: bool, user: bool, onecliDelete: seq<VaultAgent>)

  datatype Flavor = Launchd | SystemdUser | SystemdSystem

  datatype Action =
    | UnloadService(flavor: Flavor, unitPath: string, unitName: string)
    | KillPid(pidFile: string)
    | PkillHost(pattern: string)
    | RmContainers(runtime: string, labelFilter: string)
    | Rmi(runtime: string, image: string)
    | RmNclSymlink(linkPath: string)
    | DeleteOnecliAgent(agent: VaultAgent)
    | BackupEnv(envPath: string)
    | DeletePath(item: PathItem)
    | DeleteRuntimePath(item: PathItem)

  // ---- Paths ----

  function LastSlash(p: string): (i: int)
    ensures -1 <= i < |p|
    decreases |p|
  {
    if p == "" then -1 else if p[|p| - 1] == '/' then |p| - 1 else LastSlash(p[..|p| - 1])
  }

  function NoEndSlash(p: string): string
    decreases |p|
  {
    if p != "" && p[|p| - 1] == '/' then NoEndSlash(p[..|p| - 1]) else p
  }

  /** path.basename(p) */
  function Base(p: string): string {
    var q := NoEndSlash(p);
    q[LastSlash(q) + 1..]
  }

  /** path.basename(p, ext) */
  function BaseWithout(p: string, ext: string): string {
    var b := Base(p);
    if b != ext && |ext| <= |b| && b[|b| - |ext|..] == ext then b[..|b| - |ext|] else b
  }

  predicate IsEnv(i: PathItem) {
    Base(i.path) == ".env"
  }

  predicate IsModules(i: PathItem) {
    Base(i.path) == "node_modules"
  }

  // ---- The plan ----

  function Unload(flavor: Flavor, unit: Option<string>, ext: string): seq<Action> {
    if Given(unit) then [UnloadService(flavor, unit.value, BaseWithout(unit.value, ext))] else []
  }

  function UnitActions(s: Service): seq<Action> {
    Unload(Launchd, s.launchdPlist, ".plist")
    + Unload(SystemdUser, s.systemdUserUnit, ".service")
    + Unload(SystemdSystem, s.systemdSystemUnit, ".service")
  }

  /** The two unconditional actions: kill the host, remove containers found now. */
  function HostActions(inv: Inventory): seq<Action> {
    [PkillHost(inv.projectRoot + "/dist/index.js"),
     RmContainers(inv.containerRuntime, "nanoclaw-install=" + inv.slug)]
  }

  function PidActions(s: Service): seq<Action> {
    if Given(s.pidFile) then [KillPid(s.pidFile.value)] else []
  }

  function ImageActions(inv: Inventory): seq<Action> {
    if Given(inv.service.image) then [Rmi(inv.containerRuntime, inv.service.image.value)] else []
  }

  function LinkActions(s: Service): seq<Action> {
    if Given(s.nclSymlink) then [RmNclSymlink(s.nclSymlink.value)] else []
  }

  function ServiceActions(inv: Inventory): seq<Action> {
    UnitActions(inv.service) + PidActions(inv.service) + HostActions(inv) + ImageActions(inv) + LinkActions(inv.service)
  }

  /** Present and not the empty string. */
  predicate Given(o: Option<string>) {
    o.Some? && o.value != ""
  }

  function VaultActions(agents: seq<VaultAgent>): (r: seq<Action>)
    ensures |r| == |agents|
    decreases |agents|
  {
    if agents == [] then [] else [DeleteOnecliAgent(agents[0])] + VaultActions(agents[1..])
  }

  function FindEnv(items: seq<PathItem>): (i: int)
    ensures -1 <= i < |items|
    decreases |items|
  {
    if items == [] then -1
    else if IsEnv(items[0]) then 0
    else var i := FindEnv(items[1..]); if i < 0 then -1 else i + 1
  }

  function Deletes(items: seq<PathItem>): (r: seq<Action>)
    ensures |r| == |items|
    decreases |items|
  {
    if items == [] then [] else [DeletePath(items[0])] + Deletes(items[1..])
  }

  function RuntimeDeletes(items: seq<PathItem>): (r: seq<Action>)
    ensures |r| == |items|
    decreases |items|
  {
    if items == [] then [] else [DeleteRuntimePath(items[0])] + RuntimeDeletes(items[1..])
  }

  /** The first `n` items without the `e`th. */
  function Spared(items: seq<PathItem>, e: int, n: nat): seq<PathItem>
    requires e < |items| && n <= |items|
  {
    if 0 <= e < n then items[..e] + items[e + 1..n] else items[..n]
  }

  function DataActions(data: seq<PathItem>): seq<Action> {
    var e := FindEnv(data);
    (if e >= 0 then [BackupEnv(data[e].path)] else []) + Deletes(Spared(data, e, |data|))
  }

  /** The items for which `modules` says whether they are node_modules, in order. */
  function Only(items: seq<PathItem>, modules: bool): seq<PathItem>
    decreases |items|
  {
    if items == [] then []
    else if IsModules(items[0]) == modules then [items[0]] + Only(items[1..], modules)
    else Only(items[1..], modules)
  }

  function ServicePart(inv: Inventory, d: Decisions): seq<Action> {
    if d.service then ServiceActions(inv) else []
  }

  function DataPart(inv: Inventory, d: Decisions): seq<Action> {
    if d.data then DataActions(inv.data) else []
  }

  function UserPart(inv: Inventory, d: Decisions): seq<Action> {
    if d.user then Deletes(inv.user) else []
  }

  function RuntimePart(inv: Inventory, d: Decisions): seq<Action> {
    if d.data then RuntimeDeletes(Only(inv.runtime, false) + Only(inv.runtime, true)) else []
  }

  function Plan(inv: Inventory, d: Decisions): seq<Action> {
    ServicePart(inv, d) + VaultActions(d.onecliDelete) + DataPart(inv, d) + UserPart(inv, d) + RuntimePart(inv, d)
  }

  // ---- Building it ----

  /** Number(a is node_modules) - Number(b is node_modules) */
  function ModulesLast(a: PathItem, b: PathItem): int {
    (if IsModules(a) then 1 else 0) - (if IsModules(b) then 1 else 0)
  }

  /** A stable sort by `ModulesLast`. */
  function InsertItem(i: PathItem, items: seq<PathItem>): seq<PathItem>
    decreases |items|
  {
    if items == [] || ModulesLast(i, items[0]) <= 0 then [i] + items
    else [items[0]] + InsertItem(i, items[1..])
  }

  function SortItems(items: seq<PathItem>): seq<PathItem>
    decreases |items|
  {
    if items == [] then [] else InsertItem(items[0], SortItems(items[1..]))
  }

  lemma {:induction false} OnlyKind(items: seq<PathItem>, modules: bool)
    ensures forall i :: 0 <= i < |Only(items, modules)| ==> IsModules(Only(items, modules)[i]) == modules
    decreases |items|
  {
    if items == [] {
    } else {
      OnlyKind(items[1..], modules);
    }
  }

  lemma InsertFirst(i: PathItem, items: seq<PathItem>)
    requires !IsModules(i) || items == [] || IsModules(items[0])
    ensures InsertItem(i, items) == [i] + items
  {
  }

  lemma InsertStep(i: PathItem, first: PathItem, rest: seq<PathItem>)
    requires !IsModules(first)
    ensures InsertItem(i, [first] + rest)
         == if IsModules(i) then [first] + InsertItem(i, rest) else [i] + ([first] + rest)
  {
    assert ([first] + rest)[1..] == rest;
  }

  lemma {:induction false} InsertPast(i: PathItem, a: seq<PathItem>, b: seq<PathItem>)
    requires IsModules(i) && (forall j :: 0 <= j < |a| ==> !IsModules(a[j])) && (b == [] || IsModules(b[0]))
    ensures InsertItem(i, a + b) == a + ([i] + b)
    decreases |a|
  {
    if a == [] {
      assert a + b == b && a + ([i] + b) == [i] + b;
      InsertFirst(i, b);
    } else {
      var rest := a[1..];
      assert forall j :: 0 <= j < |rest| ==> rest[j] == a[j + 1];
      InsertPast(i, rest, b);
      InsertStep(i, a[0], rest + b);
      Moved(a, b);
      Moved(a, [i] + b);
    }
  }

  lemma Moved(a: seq<PathItem>, b: seq<PathItem>)
    requires a != []
    ensures [a[0]] + (a[1..] + b) == a + b
  {
  }

  lemma InsertAfterOthers(i: PathItem, a: seq<PathItem>, b: seq<PathItem>)
    requires forall j :: 0 <= j < |a| ==> !IsModules(a[j])
    requires forall j :: 0 <= j < |b| ==> IsModules(b[j])
    ensures InsertItem(i, a + b) == if IsModules(i) then a + ([i] + b) else [i] + (a + b)
  {
    if IsModules(i) { InsertPast(i, a, b); } else { InsertFirst(i, a + b); }
  }

  /** Sorting keeps the order and moves node_modules to the end. */
  lemma {:induction false} SortedIs(items: seq<PathItem>)
    ensures SortItems(items) == Only(items, false) + Only(items, true)
    decreases |items|
  {
    if items == [] {
    } else {
      SortedIs(items[1..]);
      OnlyKind(items[1..], false);
      OnlyKind(items[1..], true);
      InsertAfterOthers(items[0], Only(items[1..], false), Only(items[1..], true));
    }
  }

  lemma {:induction false} DeletesSnoc(items: seq<PathItem>, i: PathItem)
    ensures Deletes(items + [i]) == Deletes(items) + [DeletePath(i)]
    ensures RuntimeDeletes(items + [i]) == RuntimeDeletes(items) + [DeleteRuntimePath(i)]
    decreases |items|
  {
    if items == [] {
      assert items + [i] == [i];
    } else {
      assert (items + [i])[1..] == items[1..] + [i];
      DeletesSnoc(items[1..], i);
    }
  }

  lemma {:induction false} VaultSnoc(agents: seq<VaultAgent>, a: VaultAgent)
    ensures VaultActions(agents + [a]) == VaultActions(agents) + [DeleteOnecliAgent(a)]
    decreases |agents|
  {
    if agents == [] {
      assert agents + [a] == [a];
    } else {
      assert (agents + [a])[1..] == agents[1..] + [a];
      VaultSnoc(agents[1..], a);
    }
  }

  lemma SparedSnoc(items: seq<PathItem>, e: int, n: nat)
    requires e < |items| && n < |items|
    ensures Spared(items, e, n + 1) == if n == e then Spared(items, e, n) else Spared(items, e, n) + [items[n]]
  {
    if 0 <= e < n { assert items[e + 1..n + 1] == items[e + 1..n] + [items[n]]; }
  }

  /** One more item: skipped if it is the .env, deleted otherwise. */
  lemma DeletesOneMore(items: seq<PathItem>, e: int, n: nat)
    requires e < |items| && n < |items|
    ensures Deletes(Spared(items, e, n + 1))
         == Deletes(Spared(items, e, n)) + if n == e then [] else [DeletePath(items[n])]
  {
    SparedSnoc(items, e, n);
    DeletesSnoc(Spared(items, e, n), items[n]);
  }

  method PlanData(data: seq<PathItem>) returns (actions: seq<Action>)
    ensures actions == DataActions(data)
  {
    actions := [];
    var env := FindEnv(data);
    if env >= 0 {
      actions := [BackupEnv(data[env].path)];
    }
    ghost var start := actions;
    for i := 0 to |data|
      invariant actions == start + Deletes(Spared(data, env, i))
    {
      DeletesOneMore(data, env, i);
      if i == env {
        continue;
      }
      actions := actions + [DeletePath(data[i])];
    }
  }

  method PlanVault(agents: seq<VaultAgent>) returns (actions: seq<Action>)
    ensures actions == VaultActions(agents)
  {
    actions := [];
    for i := 0 to |agents|
      invariant actions == VaultActions(agents[..i])
    {
      assert agents[..i + 1] == agents[..i] + [agents[i]];
      VaultSnoc(agents[..i], agents[i]);
      actions := actions + [DeleteOnecliAgent(agents[i])];
    }
    assert agents[..|agents|] == agents;
  }

  method PlanUser(user: seq<PathItem>) returns (actions: seq<Action>)
    ensures actions == Deletes(user)
  {
    actions := [];
    for i := 0 to |user|
      invariant actions == Deletes(user[..i])
    {
      assert user[..i + 1] == user[..i] + [user[i]];
      DeletesSnoc(user[..i], user[i]);
      actions := actions + [DeletePath(user[i])];
    }
    assert user[..|user|] == user;
  }

  method PlanTail(tail: seq<PathItem>) returns (actions: seq<Action>)
    ensures actions == RuntimeDeletes(tail)
  {
    actions := [];
    for i := 0 to |tail|
      invariant actions == RuntimeDeletes(tail[..i])
    {
      assert tail[..i + 1] == tail[..i] + [tail[i]];
      DeletesSnoc(tail[..i], tail[i]);
      actions := actions + [DeleteRuntimePath(tail[i])];
    }
    assert tail[..|tail|] == tail;
  }

  method PlanRuntime(runtime: seq<PathItem>) returns (actions: seq<Action>)
    ensures actions == RuntimeDeletes(Only(runtime, false) + Only(runtime, true))
  {
    SortedIs(runtime);
    actions := PlanTail(SortItems(runtime));
  }

  method BuildRemovalPlan(inv: Inventory, d: Decisions) returns (actions: seq<Action>)
    ensures actions == Plan(inv, d)
  {
    var service, data, user, tail: seq<Action> := [], [], [], [];
    if d.service {
      service := ServiceActions(inv);
    }
    var vault := PlanVault(d.onecliDelete);
    if d.data {
      data := PlanData(inv.data);
    }
    if d.user {
      user := PlanUser(inv.user);
    }
    if d.data {
      tail := PlanRuntime(inv.runtime);
    }
    actions := service + vault + data + user + tail;
  }

  // ---- What the plan removes ----

  /** The paths of the three groups that an action removes. */
  function PathOf(a: Action): seq<string> {
    match a
    case BackupEnv(p) => [p]
    case DeletePath(i) => [i.path]
    case DeleteRuntimePath(i) => [i.path]
    case _ => []
  }

  function PathsOf(actions: seq<Action>): seq<string>
    decreases |actions|
  {
    if actions == [] then [] else PathOf(actions[0]) + PathsOf(actions[1..])
  }

  function ItemPaths(items: seq<PathItem>): seq<string>
    decreases |items|
  {
    if items == [] then [] else [items[0].path] + ItemPaths(items[1..])
  }

  lemma {:induction false} PathsCat(a: seq<Action>, b: seq<Action>)
    ensures PathsOf(a + b) == PathsOf(a) + PathsOf(b)
    decreases |a|
  {
    if a == [] {
      assert a + b == b;
    } else {
      assert (a + b)[0] == a[0] && (a + b)[1..] == a[1..] + b;
      PathsCat(a[1..], b);
    }
  }

  lemma {:induction false} ItemPathsCat(a: seq<PathItem>, b: seq<PathItem>)
    ensures ItemPaths(a + b) == ItemPaths(a) + ItemPaths(b)
    decreases |a|
  {
    if a == [] {
      assert a + b == b;
    } else {
      assert (a + b)[0] == a[0] && (a + b)[1..] == a[1..] + b;
      ItemPathsCat(a[1..], b);
    }
  }

  lemma {:induction false} DeletesPaths(items: seq<PathItem>)
    ensures PathsOf(Deletes(items)) == ItemPaths(items) && PathsOf(RuntimeDeletes(items)) == ItemPaths(items)
    decreases |items|
  {
    if items == [] {
    } else {
      DeletesPaths(items[1..]);
    }
  }

  lemma {:induction false} NoPaths(actions: seq<Action>)
    requires forall i :: 0 <= i < |actions| ==> PathOf(actions[i]) == []
    ensures PathsOf(actions) == []
    decreases |actions|
  {
    if actions == [] {
    } else {
      NoPaths(actions[1..]);
    }
  }

  lemma ItemPathsAround(a: seq<PathItem>, i: PathItem, b: seq<PathItem>)
    ensures ItemPaths(a + [i] + b) == ItemPaths(a) + [i.path] + ItemPaths(b)
  {
    ItemPathsCat(a + [i], b);
    ItemPathsCat(a, [i]);
    assert [i][1..] == [];
  }

  lemma SameBag(p: string, a: seq<string>, b: seq<string>)
    ensures multiset([p] + (a + b)) == multiset(a + [p] + b)
  {
    assert multiset(a + [p] + b) == multiset(a) + multiset([p]) + multiset(b);
  }

  lemma BackupThen(p: string, rest: seq<Action>)
    ensures PathsOf([BackupEnv(p)] + rest) == [p] + PathsOf(rest)
  {
    assert ([BackupEnv(p)] + rest)[1..] == rest;
  }

  lemma SparedPaths(data: seq<PathItem>, e: nat)
    requires e < |data|
    ensures multiset([data[e].path] + ItemPaths(Spared(data, e, |data|))) == multiset(ItemPaths(data))
  {
    AroundItem(data, e);
    AroundBag(data[..e], data[e], data[e + 1..|data|]);
  }

  lemma AroundItem(data: seq<PathItem>, e: nat)
    requires e < |data|
    ensures data == data[..e] + [data[e]] + data[e + 1..|data|]
    ensures Spared(data, e, |data|) == data[..e] + data[e + 1..|data|]
  {
  }

  lemma AroundBag(a: seq<PathItem>, i: PathItem, b: seq<PathItem>)
    ensures multiset([i.path] + ItemPaths(a + b)) == multiset(ItemPaths(a + [i] + b))
  {
    ItemPathsAround(a, i, b);
    ItemPathsCat(a, b);
    SameBag(i.path, ItemPaths(a), ItemPaths(b));
  }

  lemma DataPaths(data: seq<PathItem>)
    ensures multiset(PathsOf(DataActions(data))) == multiset(ItemPaths(data))
  {
    var e := FindEnv(data);
    var spared := Spared(data, e, |data|);
    DeletesPaths(spared);
    if e < 0 {
      assert spared == data && [] + Deletes(spared) == Deletes(spared);
    } else {
      SparedPaths(data, e);
      BackupThen(data[e].path, Deletes(spared));
    }
  }

  lemma FirstOfBag(x: string, s: seq<string>)
    ensures multiset([x] + s) == multiset{x} + multiset(s)
  {
  }

  lemma {:induction false} OnlyBags(items: seq<PathItem>)
    ensures multiset(ItemPaths(Only(items, false))) + multiset(ItemPaths(Only(items, true))) == multiset(ItemPaths(items))
    decreases |items|
  {
    if items == [] {
    } else {
      var x, rest := items[0].path, items[1..];
      OnlyBags(rest);
      FirstOfBag(x, ItemPaths(rest));
      FirstOfBag(x, ItemPaths(Only(rest, IsModules(items[0]))));
    }
  }

  lemma OnlyPaths(items: seq<PathItem>)
    ensures multiset(ItemPaths(Only(items, false) + Only(items, true))) == multiset(ItemPaths(items))
  {
    OnlyBags(items);
    ItemPathsCat(Only(items, false), Only(items, true));
  }

  lemma {:induction false} VaultKinds(agents: seq<VaultAgent>)
    ensures forall i :: 0 <= i < |agents| ==> VaultActions(agents)[i] == DeleteOnecliAgent(agents[i])
    decreases |agents|
  {
    if agents == [] {
    } else {
      VaultKinds(agents[1..]);
    }
  }

  /** The paths of the approved groups, each as often as the inventory lists it. */
  function Approved(inv: Inventory, d: Decisions): multiset<string> {
    (if d.data then multiset(ItemPaths(inv.data)) + multiset(ItemPaths(inv.runtime)) else multiset{})
    + (if d.user then multiset(ItemPaths(inv.user)) else multiset{})
  }

  lemma NothingThen(a: seq<Action>, b: seq<Action>)
    requires PathsOf(a) == []
    ensures PathsOf(a + b) == PathsOf(b)
  {
    PathsCat(a, b);
  }

  lemma NothingThenThree(a: seq<Action>, c: seq<Action>, d: seq<Action>, e: seq<Action>)
    requires PathsOf(a) == []
    ensures PathsOf(a + c + d + e) == PathsOf(c) + PathsOf(d) + PathsOf(e)
  {
    NothingThen(a, c);
    PathsCat(a + c, d);
    PathsCat(a + c + d, e);
  }

  /** Stop the host, then its containers, image and command; then the vault, the
      backup of .env, the paths, and the runtime paths. */
  function Stage(a: Action): nat {
    match a
    case RmContainers(_, _) => 1
    case Rmi(_, _) => 2
    case RmNclSymlink(_) => 3
    case DeleteOnecliAgent(_) => 4
    case BackupEnv(_) => 5
    case DeletePath(_) => 6
    case DeleteRuntimePath(_) => 7
    case _ => 0
  }

  ghost predicate Within(actions: seq<Action>, low: nat, high: nat) {
    forall i :: 0 <= i < |actions| ==> low <= Stage(actions[i]) <= high
  }

  ghost predicate Staged(actions: seq<Action>) {
    forall i, j :: 0 <= i < j < |actions| ==> Stage(actions[i]) <= Stage(actions[j])
  }

  lemma StagedCat(a: seq<Action>, b: seq<Action>, low: nat, mid: nat, high: nat)
    requires Staged(a) && Within(a, low, mid) && Staged(b) && Within(b, mid, high) && low <= mid <= high
    ensures Staged(a + b) && Within(a + b, low, high)
  {
  }

  lemma UnitsStaged(s: Service)
    ensures Staged(UnitActions(s)) && Within(UnitActions(s), 0, 0)
  {
    var a, b := Unload(Launchd, s.launchdPlist, ".plist"), Unload(SystemdUser, s.systemdUserUnit, ".service");
    StagedCat(a, b, 0, 0, 0);
    StagedCat(a + b, Unload(SystemdSystem, s.systemdSystemUnit, ".service"), 0, 0, 0);
  }

  lemma StagedFive(a: seq<Action>, b: seq<Action>, c: seq<Action>, d: seq<Action>, e: seq<Action>)
    requires Within(a, 0, 0) && Within(b, 0, 0) && Staged(c) && Within(c, 0, 1) && Within(d, 2, 2) && Within(e, 3, 3)
    ensures Staged(a + b + c + d + e) && Within(a + b + c + d + e, 0, 3)
  {
    StagedCat(a, b, 0, 0, 0);
    StagedCat(a + b, c, 0, 0, 1);
    StagedCat(a + b + c, d, 0, 2, 2);
    StagedCat(a + b + c + d, e, 0, 3, 3);
  }

  lemma ServiceActionsStaged(inv: Inventory)
    ensures Staged(ServiceActions(inv)) && Within(ServiceActions(inv), 0, 3)
  {
    var s := inv.service;
    UnitsStaged(s);
    StagedFive(UnitActions(s), PidActions(s), HostActions(inv), ImageActions(inv), LinkActions(s));
  }

  lemma ServiceStaged(inv: Inventory, d: Decisions)
    ensures Staged(ServicePart(inv, d)) && Within(ServicePart(inv, d), 0, 3)
  {
    if d.service { ServiceActionsStaged(inv); }
  }

  lemma ServiceNoPaths(inv: Inventory, d: Decisions)
    ensures PathsOf(ServicePart(inv, d)) == []
  {
    ServiceStaged(inv, d);
    NoPaths(ServicePart(inv, d));
  }

  lemma VaultNoPaths(agents: seq<VaultAgent>)
    ensures PathsOf(VaultActions(agents)) == []
  {
    VaultKinds(agents);
    NoPaths(VaultActions(agents));
  }

  lemma BagOfThree(a: seq<string>, b: seq<string>, c: seq<string>)
    ensures multiset(a + b + c) == multiset(a) + multiset(b) + multiset(c)
  {
  }

  lemma PartPaths(inv: Inventory, d: Decisions)
    ensures d.data ==> multiset(PathsOf(DataPart(inv, d))) == multiset(ItemPaths(inv.data))
    ensures d.data ==> multiset(PathsOf(RuntimePart(inv, d))) == multiset(ItemPaths(inv.runtime))
    ensures d.user ==> PathsOf(UserPart(inv, d)) == ItemPaths(inv.user)
  {
    if d.data {
      DataPaths(inv.data);
      DeletesPaths(Only(inv.runtime, false) + Only(inv.runtime, true));
      OnlyPaths(inv.runtime);
    }
    if d.user { DeletesPaths(inv.user); }
  }

  /** Nothing approved is missed or removed twice, nothing else is removed. */
  lemma RemovesExactlyApproved(inv: Inventory, d: Decisions)
    ensures multiset(PathsOf(Plan(inv, d))) == Approved(inv, d)
  {
    var first, data, user, tail :=
      ServicePart(inv, d) + VaultActions(d.onecliDelete), DataPart(inv, d), UserPart(inv, d), RuntimePart(inv, d);
    ServiceNoPaths(inv, d);
    VaultNoPaths(d.onecliDelete);
    NothingThen(ServicePart(inv, d), VaultActions(d.onecliDelete));
    NothingThenThree(first, data, user, tail);
    BagOfThree(PathsOf(data), PathsOf(user), PathsOf(tail));
    PartPaths(inv, d);
  }

  // ---- Order ----

  function UnitOf(s: Service, flavor: Flavor): Option<string> {
    match flavor
    case Launchd => s.launchdPlist
    case SystemdUser => s.systemdUserUnit
    case SystemdSystem => s.systemdSystemUnit
  }

  predicate Unloads(a: Action, flavor: Flavor, path: string) {
    a.UnloadService? && a.flavor == flavor && a.unitPath == path
  }

  ghost predicate HasUnload(actions: seq<Action>, flavor: Flavor, path: string) {
    exists i :: 0 <= i < |actions| && Unloads(actions[i], flavor, path)
  }

  lemma HasUnloadCat(a: seq<Action>, b: seq<Action>, flavor: Flavor, path: string)
    ensures HasUnload(a + b, flavor, path) <==> HasUnload(a, flavor, path) || HasUnload(b, flavor, path)
  {
    if i :| 0 <= i < |a| && Unloads(a[i], flavor, path) { assert (a + b)[i] == a[i]; }
    if i :| 0 <= i < |b| && Unloads(b[i], flavor, path) { assert (a + b)[|a| + i] == b[i]; }
  }

  lemma UnloadHas(own: Flavor, unit: Option<string>, ext: string, flavor: Flavor, path: string)
    ensures HasUnload(Unload(own, unit, ext), flavor, path) <==> own == flavor && unit == Some(path) && path != ""
  {
    var u := Unload(own, unit, ext);
    if own == flavor && unit == Some(path) && path != "" { assert Unloads(u[0], flavor, path); }
  }

  lemma UnitsHave(s: Service, flavor: Flavor, path: string)
    ensures HasUnload(UnitActions(s), flavor, path) <==> UnitOf(s, flavor) == Some(path) && path != ""
  {
    var a, b := Unload(Launchd, s.launchdPlist, ".plist"), Unload(SystemdUser, s.systemdUserUnit, ".service");
    var c := Unload(SystemdSystem, s.systemdSystemUnit, ".service");
    UnloadHas(Launchd, s.launchdPlist, ".plist", flavor, path);
    UnloadHas(SystemdUser, s.systemdUserUnit, ".service", flavor, path);
    UnloadHas(SystemdSystem, s.systemdSystemUnit, ".service", flavor, path);
    HasUnloadCat(a, b, flavor, path);
    HasUnloadCat(a + b, c, flavor, path);
  }

  lemma UnloadsOfFive(a: seq<Action>, b: seq<Action>, c: seq<Action>, d: seq<Action>, e: seq<Action>,
                      flavor: Flavor, path: string)
    requires !HasUnload(b, flavor, path) && !HasUnload(c, flavor, path)
    requires !HasUnload(d, flavor, path) && !HasUnload(e, flavor, path)
    ensures HasUnload(a + b + c + d + e, flavor, path) <==> HasUnload(a, flavor, path)
  {
    HasUnloadCat(a, b, flavor, path);
    HasUnloadCat(a + b, c, flavor, path);
    HasUnloadCat(a + b + c, d, flavor, path);
    HasUnloadCat(a + b + c + d, e, flavor, path);
  }

  /** Exactly the unit files found are unloaded, each as what it is. */
  lemma UnitsUnloaded(inv: Inventory, flavor: Flavor, path: string)
    ensures HasUnload(ServiceActions(inv), flavor, path) <==> UnitOf(inv.service, flavor) == Some(path) && path != ""
  {
    var s := inv.service;
    UnitsHave(s, flavor, path);
    UnloadsOfFive(UnitActions(s), PidActions(s), HostActions(inv), ImageActions(inv), LinkActions(s), flavor, path);
  }

  lemma InFive(x: Action, a: seq<Action>, b: seq<Action>, c: seq<Action>, d: seq<Action>, e: seq<Action>)
    ensures x in a + b + c + d + e <==> x in a || x in b || x in c || x in d || x in e
  {
  }

  /** Everything the service group does, and nothing else: the units found, the recorded
      process, any host process of this copy, its containers, its image, its command. */
  lemma ServiceContents(inv: Inventory, a: Action)
    ensures var s := inv.service;
      a in ServiceActions(inv)
      <==> match a
           case UnloadService(flavor, path, name) =>
             path != ""
             && ((flavor == Launchd && s.launchdPlist == Some(path) && name == BaseWithout(path, ".plist"))
                 || (flavor == SystemdUser && s.systemdUserUnit == Some(path) && name == BaseWithout(path, ".service"))
                 || (flavor == SystemdSystem && s.systemdSystemUnit == Some(path) && name == BaseWithout(path, ".service")))
           case KillPid(file) => s.pidFile == Some(file) && file != ""
           case PkillHost(pattern) => pattern == inv.projectRoot + "/dist/index.js"
           case RmContainers(runtime, filter) => runtime == inv.containerRuntime && filter == "nanoclaw-install=" + inv.slug
           case Rmi(runtime, image) => runtime == inv.containerRuntime && s.image == Some(image) && image != ""
           case RmNclSymlink(link) => s.nclSymlink == Some(link) && link != ""
           case _ => false
  {
    var s := inv.service;
    InFive(a, UnitActions(s), PidActions(s), HostActions(inv), ImageActions(inv), LinkActions(s));
    assert a in UnitActions(s) <==> a in Unload(Launchd, s.launchdPlist, ".plist")
                                    || a in Unload(SystemdUser, s.systemdUserUnit, ".service")
                                    || a in Unload(SystemdSystem, s.systemdSystemUnit, ".service");
  }

  /** Each of them once: two always, and one for each thing found. */
  lemma ServiceCount(inv: Inventory)
    ensures var s := inv.service; var found := [s.launchdPlist, s.systemdUserUnit, s.systemdSystemUnit, s.pidFile, s.image,
                                                s.nclSymlink];
      |ServiceActions(inv)| == 2 + Count(found)
  {
    var s := inv.service;
    CountSix(s.launchdPlist, s.systemdUserUnit, s.systemdSystemUnit, s.pidFile, s.image, s.nclSymlink);
  }

  function Count(found: seq<Option<string>>): nat {
    if found == [] then 0 else (if found[0].Some? && found[0].value != "" then 1 else 0) + Count(found[1..])
  }

  lemma CountCons(x: Option<string>, rest: seq<Option<string>>)
    ensures Count([x] + rest) == (if Given(x) then 1 else 0) + Count(rest)
  {
    assert ([x] + rest)[1..] == rest;
  }

  lemma CountThree(a: Option<string>, b: Option<string>, c: Option<string>, rest: seq<Option<string>>)
    ensures Count([a, b, c] + rest)
         == (if Given(a) then 1 else 0) + (if Given(b) then 1 else 0) + (if Given(c) then 1 else 0) + Count(rest)
  {
    CountCons(c, rest);
    CountCons(b, [c] + rest);
    CountCons(a, [b] + ([c] + rest));
    assert [a, b, c] + rest == [a] + ([b] + ([c] + rest));
  }

  lemma CountSix(a: Option<string>, b: Option<string>, c: Option<string>, d: Option<string>, e: Option<string>,
                 f: Option<string>)
    ensures Count([a, b, c, d, e, f])
         == (if Given(a) then 1 else 0) + (if Given(b) then 1 else 0) + (if Given(c) then 1 else 0)
            + (if Given(d) then 1 else 0) + (if Given(e) then 1 else 0) + (if Given(f) then 1 else 0)
  {
    CountThree(d, e, f, []);
    CountThree(a, b, c, [d, e, f] + []);
    assert [a, b, c] + ([d, e, f] + []) == [a, b, c, d, e, f];
  }

  /** The service group comes first and only if approved, then one deletion for each chosen
      vault agent, in their order; with nothing chosen nothing is planned. */
  lemma PlanBegins(inv: Inventory, d: Decisions)
    ensures var plan := Plan(inv, d); var n := if d.service then |ServiceActions(inv)| else 0;
      |plan| >= n + |d.onecliDelete|
      && (d.service ==> plan[..n] == ServiceActions(inv))
      && (forall i :: 0 <= i < |d.onecliDelete| ==> plan[n + i] == DeleteOnecliAgent(d.onecliDelete[i]))
      && (forall i :: n + |d.onecliDelete| <= i < |plan| ==> Stage(plan[i]) >= 5)
      && (!d.service && !d.data && !d.user && d.onecliDelete == [] ==> plan == [])
  {
    var first, late := PlanParts(inv, d);
    PartsBegin(first, d.onecliDelete, late);
  }

  lemma PlanParts(inv: Inventory, d: Decisions) returns (first: seq<Action>, late: seq<Action>)
    ensures Plan(inv, d) == first + VaultActions(d.onecliDelete) + late && Within(late, 5, 7)
    ensures first == if d.service then ServiceActions(inv) else []
    ensures !d.data && !d.user ==> late == []
  {
    first := ServicePart(inv, d);
    late := DataPart(inv, d) + UserPart(inv, d) + RuntimePart(inv, d);
    PathsLate(inv, d);
    Together(first, VaultActions(d.onecliDelete), DataPart(inv, d), UserPart(inv, d), RuntimePart(inv, d));
  }

  lemma Together(a: seq<Action>, b: seq<Action>, c: seq<Action>, d: seq<Action>, e: seq<Action>)
    ensures a + b + c + d + e == a + b + (c + d + e)
  {
  }

  lemma PartsBegin(first: seq<Action>, agents: seq<VaultAgent>, late: seq<Action>)
    requires Within(late, 5, 7)
    ensures var all := first + VaultActions(agents) + late;
      |all| >= |first| + |agents| && all[..|first|] == first
      && (forall i :: 0 <= i < |agents| ==> all[|first| + i] == DeleteOnecliAgent(agents[i]))
      && forall i :: |first| + |agents| <= i < |all| ==> Stage(all[i]) >= 5
  {
    VaultKinds(agents);
    ThreeParts(first, VaultActions(agents), late);
  }

  lemma PathsLate(inv: Inventory, d: Decisions)
    ensures Within(DataPart(inv, d) + UserPart(inv, d) + RuntimePart(inv, d), 5, 7)
  {
    if d.data {
      DataStaged(inv.data);
      DeletesStaged(Only(inv.runtime, false) + Only(inv.runtime, true));
    }
    if d.user { DeletesStaged(inv.user); }
  }

  lemma ThreeParts(a: seq<Action>, b: seq<Action>, c: seq<Action>)
    ensures var all := a + b + c;
      all[..|a|] == a && (forall i :: 0 <= i < |b| ==> all[|a| + i] == b[i])
      && forall i :: |a| + |b| <= i < |all| ==> all[i] == c[i - |a| - |b|]
  {
  }

  lemma {:induction false} DeletesStaged(items: seq<PathItem>)
    ensures Staged(Deletes(items)) && Within(Deletes(items), 6, 6)
    ensures Staged(RuntimeDeletes(items)) && Within(RuntimeDeletes(items), 7, 7)
    decreases |items|
  {
    if items == [] {
    } else {
      DeletesStaged(items[1..]);
      StagedCat([DeletePath(items[0])], Deletes(items[1..]), 6, 6, 6);
      StagedCat([DeleteRuntimePath(items[0])], RuntimeDeletes(items[1..]), 7, 7, 7);
    }
  }

  lemma DataStaged(data: seq<PathItem>)
    ensures Staged(DataActions(data)) && Within(DataActions(data), 5, 6)
  {
    var e := FindEnv(data);
    DeletesStaged(Spared(data, e, |data|));
    StagedCat(if e >= 0 then [BackupEnv(data[e].path)] else [], Deletes(Spared(data, e, |data|)), 5, 6, 6);
  }

  /** The stages never go back: the host is stopped before its containers are
      removed, the vault comes before every path, the backup of .env before every
      deletion, and the runtime paths last. */
  lemma PlanStaged(inv: Inventory, d: Decisions)
    ensures Staged(Plan(inv, d))
  {
    var s, v, data, user, tail :=
      ServicePart(inv, d), VaultActions(d.onecliDelete), DataPart(inv, d), UserPart(inv, d), RuntimePart(inv, d);
    ServiceStaged(inv, d);
    VaultKinds(d.onecliDelete);
    StagedCat(s, v, 0, 4, 4);
    if d.data { DataStaged(inv.data); }
    StagedCat(s + v, data, 0, 5, 6);
    if d.user { DeletesStaged(inv.user); }
    StagedCat(s + v + data, user, 0, 6, 6);
    if d.data { DeletesStaged(Only(inv.runtime, false) + Only(inv.runtime, true)); }
    StagedCat(s + v + data + user, tail, 0, 7, 7);
  }

  lemma RuntimeEnds(runtime: seq<PathItem>, i: nat)
    requires i < |runtime| && IsModules(runtime[i])
    ensures var tail := RuntimeDeletes(Only(runtime, false) + Only(runtime, true));
      tail != [] && tail[|tail| - 1].DeleteRuntimePath? && IsModules(tail[|tail| - 1].item)
  {
    var a, b := Only(runtime, false), Only(runtime, true);
    OnlyMember(runtime, i);
    OnlyKind(runtime, true);
    assert (a + b)[|a + b| - 1] == b[|b| - 1];
    LastDelete(a + b);
  }

  lemma EndsWith(head: seq<Action>, tail: seq<Action>)
    requires tail != []
    ensures (head + tail)[|head + tail| - 1] == tail[|tail| - 1]
  {
  }

  lemma PlanEnds(inv: Inventory, d: Decisions) returns (last: Action)
    requires RuntimePart(inv, d) != []
    ensures var plan, tail := Plan(inv, d), RuntimePart(inv, d);
      plan != [] && plan[|plan| - 1] == last == tail[|tail| - 1]
  {
    var head, tail := ServicePart(inv, d) + VaultActions(d.onecliDelete) + DataPart(inv, d) + UserPart(inv, d),
                      RuntimePart(inv, d);
    EndsWith(head, tail);
    last := tail[|tail| - 1];
  }

  /** When any approved runtime item is node_modules, the very last action removes one. */
  lemma ModulesLastOfAll(inv: Inventory, d: Decisions, i: nat)
    requires d.data && i < |inv.runtime| && IsModules(inv.runtime[i])
    ensures var plan := Plan(inv, d);
      plan != [] && plan[|plan| - 1].DeleteRuntimePath? && IsModules(plan[|plan| - 1].item)
  {
    RuntimeEnds(inv.runtime, i);
    var last := PlanEnds(inv, d);
    assert last.DeleteRuntimePath? && IsModules(last.item);
  }

  lemma {:induction false} OnlyMember(items: seq<PathItem>, i: nat)
    requires i < |items|
    ensures Only(items, IsModules(items[i])) != []
    decreases |items|
  {
    if i == 0 {
    } else {
      OnlyMember(items[1..], i - 1);
    }
  }

  lemma {:induction false} LastDelete(items: seq<PathItem>)
    requires items != []
    ensures RuntimeDeletes(items)[|items| - 1] == DeleteRuntimePath(items[|items| - 1])
    decreases |items|
  {
    if |items| > 1 { LastDelete(items[1..]); }
  }

  lemma {:induction false} FoundEnv(items: seq<PathItem>)
    ensures var e := FindEnv(items);
      if e < 0 then forall i :: 0 <= i < |items| ==> !IsEnv(items[i]) else IsEnv(items[e])
    decreases |items|
  {
    if items != [] && !IsEnv(items[0]) {
      FoundEnv(items[1..]);
      assert forall i :: 0 <= i < |items| - 1 ==> items[1..][i] == items[i + 1];
    }
  }

  ghost predicate BareEnv(actions: seq<Action>) {
    exists i :: 0 <= i < |actions| && actions[i].DeletePath? && IsEnv(actions[i].item)
  }

  /** At most one item of the list is a .env. */
  ghost predicate OneEnv(items: seq<PathItem>) {
    forall i, j :: 0 <= i < j < |items| ==> !(IsEnv(items[i]) && IsEnv(items[j]))
  }

  lemma {:induction false} DeletesAt(items: seq<PathItem>, i: nat)
    requires i < |items|
    ensures Deletes(items)[i] == DeletePath(items[i])
    decreases |items|
  {
    if i == 0 {
    } else {
      DeletesAt(items[1..], i - 1);
    }
  }

  lemma BareEnvIsItem(p: seq<Action>, items: seq<PathItem>)
    requires forall i :: 0 <= i < |p| ==> p[i].BackupEnv?
    ensures BareEnv(p + Deletes(items)) <==> exists i :: 0 <= i < |items| && IsEnv(items[i])
  {
    var all := p + Deletes(items);
    forall i | 0 <= i < |items| ensures all[|p| + i] == DeletePath(items[i]) { DeletesAt(items, i); }
    if BareEnv(all) {
      var k :| 0 <= k < |all| && all[k].DeletePath? && IsEnv(all[k].item);
      assert IsEnv(items[k - |p|]);
    }
    if i :| 0 <= i < |items| && IsEnv(items[i]) { assert all[|p| + i].DeletePath?; }
  }

  ghost predicate NoEnv(items: seq<PathItem>) {
    forall i :: 0 <= i < |items| ==> !IsEnv(items[i])
  }

  lemma AroundAt(a: seq<PathItem>, x: PathItem, b: seq<PathItem>, i: nat)
    requires i < |a + b|
    ensures (a + b)[i] == (a + [x] + b)[if i < |a| then i else i + 1]
  {
  }

  lemma EnvAround(a: seq<PathItem>, x: PathItem, b: seq<PathItem>)
    requires IsEnv(x)
    ensures OneEnv(a + [x] + b) <==> NoEnv(a + b)
  {
    var all, spared := a + [x] + b, a + b;
    assert all[|a|] == x;
    if !NoEnv(spared) {
      var i :| 0 <= i < |spared| && IsEnv(spared[i]);
      AroundAt(a, x, b, i);
    }
    if !OneEnv(all) {
      var i, j :| 0 <= i < j < |all| && IsEnv(all[i]) && IsEnv(all[j]);
      var k := if i == |a| then j else i;
      AroundAt(a, x, b, if k < |a| then k else k - 1);
    }
  }

  lemma AnotherEnv(data: seq<PathItem>, e: nat)
    requires e < |data| && IsEnv(data[e])
    ensures OneEnv(data) <==> NoEnv(Spared(data, e, |data|))
  {
    AroundItem(data, e);
    EnvAround(data[..e], data[e], data[e + 1..|data|]);
  }

  /** A .env of the data group is removed only by way of its backup exactly when there is at most one. */
  lemma EnvOnlyBackedUpIff(data: seq<PathItem>)
    ensures !BareEnv(DataActions(data)) <==> OneEnv(data)
  {
    var e := FindEnv(data);
    FoundEnv(data);
    if e >= 0 { AnotherEnv(data, e); } else { assert Spared(data, e, |data|) == data; }
    BareEnvIsItem(if e >= 0 then [BackupEnv(data[e].path)] else [], Spared(data, e, |data|));
  }

  // ---- Running it ----

  /** What became of one action: it may throw before or after its effect. `ThrewBefore` also
      stands for one without effect, such as a system unit left in place without root. */
  datatype Outcome = Done | ThrewBefore | ThrewAfter

  /** Files by path. */
  type Files = map<string, string>

  /** A recursive removal of a path removes it and everything below it. */
  predicate Covers(path: string, file: string) {
    path == file || path + "/" <= file
  }

  function Dir(p: string): string {
    var i := LastSlash(p);
    if i < 0 then "" else p[..i + 1]
  }

  function Bak(envPath: string): string {
    Dir(envPath) + ".env.bak"
  }

  function Stamped(envPath: string, stamp: string): string {
    Bak(envPath) + "." + stamp
  }

  /** `.env.bak`, or a name with the time when that one is taken. */
  function BackupName(files: Files, envPath: string, stamp: string): string {
    if Bak(envPath) in files then Stamped(envPath, stamp) else Bak(envPath)
  }

  /** Copy, then remove; each may throw, and a failed copy ends the action. */
  function BackedUp(files: Files, envPath: string, stamp: string, o: Outcome): Files {
    if o == ThrewBefore || envPath !in files then files
    else
      var copied := files[BackupName(files, envPath, stamp) := files[envPath]];
      if o == ThrewAfter then copied else copied - {envPath}
  }

  /** Does the action remove the file? Unit files and the link are removed one by one,
      the items of the inventory with all they hold. */
  predicate Removes(a: Action, file: string) {
    match a
    case UnloadService(_, p, _) => p == file
    case RmNclSymlink(p) => p == file
    case DeletePath(i) => Covers(i.path, file)
    case DeleteRuntimePath(i) => Covers(i.path, file)
    case _ => false
  }

  function Performed(files: Files, a: Action, stamp: string, o: Outcome): Files {
    if a.BackupEnv? then BackedUp(files, a.envPath, stamp, o)
    else if o == ThrewBefore then files
    else map f | f in files && !Removes(a, f) :: files[f]
  }

  function Executed(files: Files, actions: seq<Action>, stamp: string, os: seq<Outcome>): Files
    requires |os| == |actions|
    decreases |actions|
  {
    if actions == [] then files
    else Executed(Performed(files, actions[0], stamp, os[0]), actions[1..], stamp, os[1..])
  }

  /** What an action leaves of a file: nothing changes when it throws before its removal, an
      item goes with all that is under it, and a completed backup moves .env aside. */
  lemma PerformedIs(files: Files, a: Action, stamp: string, o: Outcome, file: string)
    ensures o == ThrewBefore ==> Performed(files, a, stamp, o) == files
    ensures o != ThrewBefore && (a.DeletePath? || a.DeleteRuntimePath?) ==>
              (file in Performed(files, a, stamp, o)
               <==> file in files && file != a.item.path && !(a.item.path + "/" <= file))
    ensures o == Done && a.BackupEnv? && a.envPath in files && IsEnvFile(a.envPath) ==>
              a.envPath !in Performed(files, a, stamp, o)
              && BackupName(files, a.envPath, stamp) in Performed(files, a, stamp, o)
              && Performed(files, a, stamp, o)[BackupName(files, a.envPath, stamp)] == files[a.envPath]
  {
    if a.BackupEnv? && IsEnvFile(a.envPath) { CopiesApart(a.envPath, stamp); }
  }

  /** The path names a file called .env in its directory. */
  predicate IsEnvFile(envPath: string) {
    envPath == Dir(envPath) + ".env"
  }

  /** The action leaves the file and its copies alone, or backs up this very file. */
  predicate Spares(a: Action, envPath: string, stamp: string) {
    (a.BackupEnv? ==> a.envPath == envPath)
    && !Removes(a, envPath) && !Removes(a, Bak(envPath)) && !Removes(a, Stamped(envPath, stamp))
  }

  /** The text is in the file or in one of its two possible copies, and the file holds nothing else. */
  predicate Kept(files: Files, envPath: string, stamp: string, text: string) {
    ((envPath in files && files[envPath] == text)
     || (Bak(envPath) in files && files[Bak(envPath)] == text)
     || (Stamped(envPath, stamp) in files && files[Stamped(envPath, stamp)] == text))
    && (envPath in files ==> files[envPath] == text)
  }

  predicate AllSpare(actions: seq<Action>, envPath: string, stamp: string) {
    forall i :: 0 <= i < |actions| ==> Spares(actions[i], envPath, stamp)
  }

  lemma CopiesApart(envPath: string, stamp: string)
    requires IsEnvFile(envPath)
    ensures envPath != Bak(envPath) && envPath != Stamped(envPath, stamp) && Bak(envPath) != Stamped(envPath, stamp)
  {
    assert |Stamped(envPath, stamp)| > |Bak(envPath)| > |envPath|;
  }

  /** A backup that goes through leaves the text in `.env.bak`, or beside an existing one under
      the time, and the file itself gone; one whose copy fails leaves everything. */
  lemma BackedUpIs(files: Files, envPath: string, stamp: string, o: Outcome)
    requires IsEnvFile(envPath)
    ensures var dir := Dir(envPath);
      var copy := if dir + ".env.bak" in files then dir + ".env.bak." + stamp else dir + ".env.bak";
      BackedUp(files, envPath, stamp, o)
      == if envPath !in files || o == ThrewBefore then files
         else if o == ThrewAfter then files[copy := files[envPath]]
         else files[copy := files[envPath]] - {envPath}
  {
    assert Dir(envPath) + ".env.bak" + "." + stamp == Dir(envPath) + ".env.bak." + stamp;
  }

  lemma BackupKeeps(files: Files, envPath: string, stamp: string, text: string, o: Outcome)
    requires IsEnvFile(envPath) && Kept(files, envPath, stamp, text)
    ensures Kept(BackedUp(files, envPath, stamp, o), envPath, stamp, text)
    ensures Bak(envPath) in files ==>
      Bak(envPath) in BackedUp(files, envPath, stamp, o)
      && BackedUp(files, envPath, stamp, o)[Bak(envPath)] == files[Bak(envPath)]
  {
    CopiesApart(envPath, stamp);
  }

  /** Whatever actions fail, before or after their effect, the text of .env is
      still in it or in a copy beside it. */
  lemma {:induction false} EnvSurvives(
      files: Files, actions: seq<Action>, stamp: string, os: seq<Outcome>, envPath: string, text: string)
    requires |os| == |actions| && IsEnvFile(envPath)
    requires Kept(files, envPath, stamp, text) && AllSpare(actions, envPath, stamp)
    ensures Kept(Executed(files, actions, stamp, os), envPath, stamp, text)
    decreases |actions|
  {
    if actions == [] {
    } else {
      var a, rest := actions[0], actions[1..];
      assert Spares(a, envPath, stamp) && forall i :: 0 <= i < |rest| ==> rest[i] == actions[i + 1];
      if a.BackupEnv? { BackupKeeps(files, envPath, stamp, text, os[0]); }
      EnvSurvives(Performed(files, a, stamp, os[0]), rest, stamp, os[1..], envPath, text);
    }
  }

  /** A failing action stops none of the later ones: whatever a later one removes is gone at the
      end, unless a backup is written under its name. */
  lemma {:induction false} RemovedStaysRemoved(
      files: Files, actions: seq<Action>, stamp: string, os: seq<Outcome>, i: nat, file: string)
    requires |os| == |actions| && i < |actions| && Removes(actions[i], file) && os[i] != ThrewBefore
    requires forall j :: 0 <= j < |actions| && actions[j].BackupEnv? ==>
               file != Bak(actions[j].envPath) && file != Stamped(actions[j].envPath, stamp)
    ensures file !in Executed(files, actions, stamp, os)
    decreases |actions|
  {
    var rest := actions[1..];
    assert forall j :: 0 <= j < |rest| ==> rest[j] == actions[j + 1] && os[1..][j] == os[j + 1];
    if i == 0 {
      GoneStaysGone(Performed(files, actions[0], stamp, os[0]), rest, stamp, os[1..], file);
    } else {
      RemovedStaysRemoved(Performed(files, actions[0], stamp, os[0]), rest, stamp, os[1..], i - 1, file);
    }
  }

  lemma {:induction false} GoneStaysGone(files: Files, actions: seq<Action>, stamp: string, os: seq<Outcome>,
                                         file: string)
    requires |os| == |actions| && file !in files
    requires forall j :: 0 <= j < |actions| && actions[j].BackupEnv? ==>
               file != Bak(actions[j].envPath) && file != Stamped(actions[j].envPath, stamp)
    ensures file !in Executed(files, actions, stamp, os)
    decreases |actions|
  {
    if actions == [] {
    } else {
      var rest := actions[1..];
      assert forall j :: 0 <= j < |rest| ==> rest[j] == actions[j + 1];
      GoneStaysGone(Performed(files, actions[0], stamp, os[0]), rest, stamp, os[1..], file);
    }
  }

  /** And nothing else goes: a file that no action removes or backs up stays as it is. */
  lemma {:induction false} OthersStay(files: Files, actions: seq<Action>, stamp: string, os: seq<Outcome>, file: string)
    requires |os| == |actions| && file in files
    requires forall j :: 0 <= j < |actions| ==>
               !Removes(actions[j], file)
               && (actions[j].BackupEnv? ==>
                      file !in {actions[j].envPath, Bak(actions[j].envPath), Stamped(actions[j].envPath, stamp)})
    ensures file in Executed(files, actions, stamp, os) && Executed(files, actions, stamp, os)[file] == files[file]
    decreases |actions|
  {
    if actions == [] {
    } else {
      var rest := actions[1..];
      assert forall j :: 0 <= j < |rest| ==> rest[j] == actions[j + 1];
      assert !Removes(actions[0], file);
      OthersStay(Performed(files, actions[0], stamp, os[0]), rest, stamp, os[1..], file);
    }
  }

  /** Entries of the project directory other than .env and its copies spare it. */
  lemma BesideSpares(root: string, rel: string, file: string)
    requires '/' !in file
    ensures Covers(root + "/" + rel, root + "/" + file) <==> rel == file
  {
    var p, f := root + "/" + rel, root + "/" + file;
    assert p[|root| + 1..] == rel && f[|root| + 1..] == file;
    if p + "/" <= f { SlashBelow(p, f, |root| + 1); }
  }

  lemma SlashBelow(p: string, f: string, n: nat)
    requires n <= |p| && p + "/" <= f
    ensures '/' in f[n..]
  {
    assert f[n..][|p| - n] == '/';
  }

  // ---- The flow: everything else first, the runtime paths after the summary ----

  function OfKind(actions: seq<Action>, runtime: bool): seq<Action>
    decreases |actions|
  {
    if actions == [] then []
    else if actions[0].DeleteRuntimePath? == runtime then [actions[0]] + OfKind(actions[1..], runtime)
    else OfKind(actions[1..], runtime)
  }

  lemma {:induction false} AllRuntime(actions: seq<Action>)
    requires Within(actions, 7, 7)
    ensures OfKind(actions, false) == [] && OfKind(actions, true) == actions
    decreases |actions|
  {
    if actions == [] {
    } else {
      assert Stage(actions[0]) == 7;
      AllRuntime(actions[1..]);
    }
  }

  lemma {:induction false} TailOfStaged(actions: seq<Action>)
    requires Staged(actions)
    ensures OfKind(actions, false) + OfKind(actions, true) == actions
    decreases |actions|
  {
    if actions == [] {
    } else {
      if actions[0].DeleteRuntimePath? {
        assert Within(actions, 7, 7);
        AllRuntime(actions);
      } else {
        assert Staged(actions[1..]);
        TailOfStaged(actions[1..]);
      }
    }
  }

  /** Running the filtered head and then the filtered tail is running the plan in its order. */
  lemma HeadThenTail(inv: Inventory, d: Decisions)
    ensures OfKind(Plan(inv, d), false) + OfKind(Plan(inv, d), true) == Plan(inv, d)
  {
    PlanStaged(inv, d);
    TailOfStaged(Plan(inv, d));
  }

  // ---- The text of .env survives the uninstaller's own plan ----

  predicate SlashFree(s: string) {
    '/' !in s
  }

  /** An entry of the project directory that is neither .env nor one of its copies. */
  predicate Beside(path: string, root: string, stamp: string) {
    root + "/" <= path && path != root + "/"
    && var rel := path[|root| + 1..];
       SlashFree(rel) && rel != ".env" && rel != ".env.bak" && rel != ".env.bak." + stamp
  }

  /** A recursive removal of the path leaves .env and its copies alone. */
  predicate Clear(path: string, root: string, stamp: string) {
    !Covers(path, root + "/.env") && !Covers(path, root + "/.env.bak") && !Covers(path, root + "/.env.bak." + stamp)
  }

  predicate AllBeside(items: seq<PathItem>, root: string, stamp: string) {
    forall i :: 0 <= i < |items| ==> Beside(items[i].path, root, stamp)
  }

  predicate BesideButOne(items: seq<PathItem>, root: string, stamp: string) {
    (forall i :: 0 <= i < |items| ==> items[i].path == root + "/.env" || Beside(items[i].path, root, stamp))
    && forall i, j :: 0 <= i < j < |items| ==>
         !(items[i].path == root + "/.env" && items[j].path == root + "/.env")
  }

  predicate OtherFile(unit: Option<string>, root: string, stamp: string) {
    unit.Some? ==> unit.value !in {root + "/.env", root + "/.env.bak", root + "/.env.bak." + stamp}
  }

  /** An inventory as the scan makes it: entries of the project directory, .env at most
      once and in the data group, and service files that are none of the three. */
  predicate Scanned(inv: Inventory, root: string, stamp: string) {
    SlashFree(stamp) && BesideButOne(inv.data, root, stamp)
    && AllBeside(inv.user, root, stamp) && AllBeside(inv.runtime, root, stamp)
    && OtherFile(inv.service.launchdPlist, root, stamp) && OtherFile(inv.service.systemdUserUnit, root, stamp)
    && OtherFile(inv.service.systemdSystemUnit, root, stamp) && OtherFile(inv.service.nclSymlink, root, stamp)
  }

  // ---- The scan makes such inventories ----

  /** `existingItems`: those of the listed entries that are there. */
  function ExistingItems(root: string, rels: seq<string>, present: set<string>): seq<PathItem>
    decreases |rels|
  {
    if rels == [] then []
    else if root + "/" + rels[0] in present
    then [PathItem(rels[0], root + "/" + rels[0])] + ExistingItems(root, rels[1..], present)
    else ExistingItems(root, rels[1..], present)
  }

  const DATA_ENTRIES: seq<string> := ["data", "logs"] + [".env"] + ["start-nanoclaw.sh", "nanoclaw.pid"]
  const RUNTIME_ENTRIES: seq<string> := ["dist", "node_modules"]
  const USER_ENTRIES: seq<string> := ["groups", "store"]

  predicate Ordinary(rel: string) {
    SlashFree(rel) && rel != "" && rel[0] != '.'
  }

  lemma {:induction false} ExistingCat(root: string, a: seq<string>, b: seq<string>, present: set<string>)
    ensures ExistingItems(root, a + b, present) == ExistingItems(root, a, present) + ExistingItems(root, b, present)
    decreases |a|
  {
    if a == [] {
      assert a + b == b;
    } else {
      assert (a + b)[0] == a[0] && (a + b)[1..] == a[1..] + b;
      ExistingCat(root, a[1..], b, present);
    }
  }

  /** One entry is listed exactly when it is there, under its own path; with the law above,
      a whole list is its entries' items, in order. */
  lemma ExistingOne(root: string, rel: string, present: set<string>)
    ensures root + "/" + rel in present ==>
              ExistingItems(root, [rel], present) == [PathItem(rel, root + "/" + rel)]
    ensures root + "/" + rel !in present ==> ExistingItems(root, [rel], present) == []
  {
    assert [rel][1..] == [];
    assert ExistingItems(root, [], present) == [];
  }

  lemma {:induction false} OrdinaryBeside(root: string, rels: seq<string>, present: set<string>, stamp: string)
    requires forall i :: 0 <= i < |rels| ==> Ordinary(rels[i])
    ensures AllBeside(ExistingItems(root, rels, present), root, stamp)
    decreases |rels|
  {
    if rels == [] {
    } else {
      var path := root + "/" + rels[0];
      assert Ordinary(rels[0]) && path[|root| + 1..] == rels[0];
      OrdinaryBeside(root, rels[1..], present, stamp);
    }
  }

  lemma EnvItem(root: string, present: set<string>)
    ensures var items := ExistingItems(root, [".env"], present);
      |items| <= 1 && (items != [] ==> items[0].path == root + "/.env")
  {
    assert [".env"][1..] == [] && root + "/" + ".env" == root + "/.env";
  }

  lemma DataScan(root: string, present: set<string>, stamp: string)
    ensures BesideButOne(ExistingItems(root, DATA_ENTRIES, present), root, stamp)
  {
    var a, b := ["data", "logs"], ["start-nanoclaw.sh", "nanoclaw.pid"];
    ExistingCat(root, a + [".env"], b, present);
    ExistingCat(root, a, [".env"], present);
    OrdinaryBeside(root, a, present, stamp);
    OrdinaryBeside(root, b, present, stamp);
    EnvItem(root, present);
    ButOne(ExistingItems(root, a, present), ExistingItems(root, [".env"], present), ExistingItems(root, b, present),
           root, stamp);
  }

  lemma OtherScans(root: string, present: set<string>, stamp: string)
    ensures AllBeside(ExistingItems(root, RUNTIME_ENTRIES, present), root, stamp)
    ensures AllBeside(ExistingItems(root, USER_ENTRIES, present), root, stamp)
  {
    OrdinaryBeside(root, RUNTIME_ENTRIES, present, stamp);
    OrdinaryBeside(root, USER_ENTRIES, present, stamp);
  }

  predicate FoundAt(unit: Option<string>, path: string) {
    unit.Some? ==> unit.value == path
  }

  /** `scanService`: where the four service files are, if they are there. */
  predicate ServiceScan(s: Service, home: string, slug: string) {
    FoundAt(s.launchdPlist, home + "/Library/LaunchAgents" + "/" + ("com.nanoclaw-v2-" + slug + ".plist"))
    && FoundAt(s.systemdUserUnit, home + "/.config/systemd/user" + "/" + ("nanoclaw-v2-" + slug + ".service"))
    && FoundAt(s.systemdSystemUnit, "/etc/systemd/system" + "/" + ("nanoclaw-v2-" + slug + ".service"))
    && FoundAt(s.nclSymlink, home + "/.local/bin" + "/" + "ncl")
  }

  /** Whatever the directories are, such a name is none of the three. */
  lemma NamedOtherwise(dir: string, name: string, root: string, stamp: string)
    requires Ordinary(name) && SlashFree(stamp)
    ensures OtherFile(Some(dir + "/" + name), root, stamp)
  {
    assert root + "/" + ".env" == root + "/.env" && root + "/" + ".env.bak" == root + "/.env.bak";
    assert root + "/" + (".env.bak." + stamp) == root + "/.env.bak." + stamp;
    NamesDiffer(dir, name, root, ".env");
    NamesDiffer(dir, name, root, ".env.bak");
    NamesDiffer(dir, name, root, ".env.bak." + stamp);
  }

  lemma NamesDiffer(dir: string, name: string, root: string, rel: string)
    requires Ordinary(name) && SlashFree(rel) && "." <= rel
    ensures dir + "/" + name != root + "/" + rel
  {
    LastSlashAt(dir, name);
    LastSlashAt(root, rel);
    assert (dir + "/" + name)[|dir| + 1] == name[0] && (root + "/" + rel)[|root| + 1] == '.';
  }

  /** What the scan lists is such an inventory. The slug is hexadecimal. */
  lemma ScanIsScanned(inv: Inventory, root: string, home: string, present: set<string>, stamp: string)
    requires inv.data == ExistingItems(root, DATA_ENTRIES, present)
    requires inv.runtime == ExistingItems(root, RUNTIME_ENTRIES, present)
    requires inv.user == ExistingItems(root, USER_ENTRIES, present)
    requires ServiceScan(inv.service, home, inv.slug) && SlashFree(inv.slug) && SlashFree(stamp)
    ensures Scanned(inv, root, stamp)
  {
    DataScan(root, present, stamp);
    OtherScans(root, present, stamp);
    NamedOtherwise(home + "/Library/LaunchAgents", "com.nanoclaw-v2-" + inv.slug + ".plist", root, stamp);
    NamedOtherwise(home + "/.config/systemd/user", "nanoclaw-v2-" + inv.slug + ".service", root, stamp);
    NamedOtherwise("/etc/systemd/system", "nanoclaw-v2-" + inv.slug + ".service", root, stamp);
    NamedOtherwise(home + "/.local/bin", "ncl", root, stamp);
  }

  lemma ButOne(x: seq<PathItem>, e: seq<PathItem>, y: seq<PathItem>, root: string, stamp: string)
    requires AllBeside(x, root, stamp) && AllBeside(y, root, stamp)
    requires |e| <= 1 && (e != [] ==> e[0].path == root + "/.env")
    ensures BesideButOne(x + e + y, root, stamp)
  {
    var all := x + e + y;
    BesideNotEnv(root, stamp);
    forall i | 0 <= i < |all|
      ensures if i == |x| && e != [] then all[i].path == root + "/.env" else Beside(all[i].path, root, stamp)
    {
      if i < |x| { assert all[i] == x[i]; }
      else if i >= |x| + |e| { assert all[i] == y[i - |x| - |e|]; }
    }
  }

  lemma BesideNotEnv(root: string, stamp: string)
    ensures !Beside(root + "/.env", root, stamp)
  {
    assert (root + "/.env")[|root| + 1..] == ".env";
  }

  lemma {:induction false} LastSlashAt(a: string, rel: string)
    requires SlashFree(rel)
    ensures LastSlash(a + "/" + rel) == |a|
    decreases |rel|
  {
    var p := a + "/" + rel;
    if rel == "" {
      assert p == a + "/" && p[|p| - 1] == '/';
    } else {
      assert p[|p| - 1] == rel[|rel| - 1] && rel[|rel| - 1] in rel;
      assert p[..|p| - 1] == a + "/" + rel[..|rel| - 1];
      LastSlashAt(a, rel[..|rel| - 1]);
    }
  }

  lemma BaseIs(root: string, rel: string)
    requires SlashFree(rel) && rel != ""
    ensures Base(root + "/" + rel) == rel
  {
    var p := root + "/" + rel;
    assert p[|p| - 1] == rel[|rel| - 1] && rel[|rel| - 1] in rel;
    LastSlashAt(root, rel);
  }

  lemma BaseEndSlash(p: string)
    ensures Base(p + "/") == Base(p)
  {
    assert (p + "/")[..|p|] == p;
  }

  /** A path is node_modules, or .env, exactly when its last name is; a slash behind it does
      not matter. */
  lemma NamedIs(root: string, rel: string, i: PathItem)
    requires SlashFree(rel) && rel != "" && i.path in {root + "/" + rel, root + "/" + rel + "/"}
    ensures (IsModules(i) <==> rel == "node_modules") && (IsEnv(i) <==> rel == ".env")
  {
    BaseIs(root, rel);
    BaseEndSlash(root + "/" + rel);
  }

  lemma RootEnv(root: string, stamp: string)
    ensures var env := root + "/.env";
      IsEnvFile(env) && Bak(env) == root + "/.env.bak" && Stamped(env, stamp) == root + "/.env.bak." + stamp
  {
    var env := root + "/.env";
    assert env == root + "/" + ".env";
    LastSlashAt(root, ".env");
    assert env[..|root| + 1] == root + "/";
    assert Bak(env) == root + "/" + ".env.bak" == root + "/.env.bak";
    assert Stamped(env, stamp) == root + "/.env.bak" + "." + stamp == root + "/.env.bak." + stamp;
  }

  /** The names the units are unloaded by: the file names that the scan looks for, without
      their endings. */
  lemma UnitNames(home: string, slug: string)
    requires SlashFree(slug)
    ensures BaseWithout(home + "/Library/LaunchAgents" + "/" + ("com.nanoclaw-v2-" + slug + ".plist"), ".plist")
         == "com.nanoclaw-v2-" + slug
    ensures BaseWithout(home + "/.config/systemd/user" + "/" + ("nanoclaw-v2-" + slug + ".service"), ".service")
         == "nanoclaw-v2-" + slug
    ensures BaseWithout("/etc/systemd/system" + "/" + ("nanoclaw-v2-" + slug + ".service"), ".service")
         == "nanoclaw-v2-" + slug
  {
    NameWithout(home + "/Library/LaunchAgents", "com.nanoclaw-v2-" + slug, ".plist");
    NameWithout(home + "/.config/systemd/user", "nanoclaw-v2-" + slug, ".service");
    NameWithout("/etc/systemd/system", "nanoclaw-v2-" + slug, ".service");
  }

  lemma NameWithout(dir: string, name: string, ext: string)
    requires SlashFree(name) && SlashFree(ext) && name != "" && ext != ""
    ensures BaseWithout(dir + "/" + (name + ext), ext) == name
  {
    BaseIs(dir, name + ext);
    assert (name + ext)[|name|..] == ext && (name + ext)[..|name|] == name;
  }

  lemma BesideClear(path: string, root: string, stamp: string)
    requires Beside(path, root, stamp) && SlashFree(stamp)
    ensures Clear(path, root, stamp) && Base(path) != ".env"
  {
    var rel := path[|root| + 1..];
    assert path == root + "/" + rel;
    BesideSpares(root, rel, ".env");
    BesideSpares(root, rel, ".env.bak");
    BesideSpares(root, rel, ".env.bak." + stamp);
    assert root + "/" + ".env" == root + "/.env" && root + "/" + ".env.bak" == root + "/.env.bak";
    assert root + "/" + (".env.bak." + stamp) == root + "/.env.bak." + stamp;
    BaseIs(root, rel);
  }

  lemma SparesIff(a: Action, root: string, stamp: string)
    requires a.BackupEnv? ==> a.envPath == root + "/.env"
    requires !Removes(a, root + "/.env") && !Removes(a, root + "/.env.bak") && !Removes(a, root + "/.env.bak." + stamp)
    ensures Spares(a, root + "/.env", stamp)
  {
    RootEnv(root, stamp);
  }

  lemma AllSpareCat(a: seq<Action>, b: seq<Action>, envPath: string, stamp: string)
    ensures AllSpare(a + b, envPath, stamp) <==> AllSpare(a, envPath, stamp) && AllSpare(b, envPath, stamp)
  {
    if AllSpare(a + b, envPath, stamp) {
      forall i | 0 <= i < |a| ensures Spares(a[i], envPath, stamp) { assert Spares((a + b)[i], envPath, stamp); }
      forall i | 0 <= i < |b| ensures Spares(b[i], envPath, stamp) { assert Spares((a + b)[|a| + i], envPath, stamp); }
    }
  }

  lemma ItemSpares(item: PathItem, root: string, stamp: string)
    requires Beside(item.path, root, stamp) && SlashFree(stamp)
    ensures Spares(DeletePath(item), root + "/.env", stamp) && Spares(DeleteRuntimePath(item), root + "/.env", stamp)
  {
    BesideClear(item.path, root, stamp);
    SparesIff(DeletePath(item), root, stamp);
    SparesIff(DeleteRuntimePath(item), root, stamp);
  }

  lemma {:induction false} DeletesSpare(items: seq<PathItem>, root: string, stamp: string)
    requires AllBeside(items, root, stamp) && SlashFree(stamp)
    ensures AllSpare(Deletes(items), root + "/.env", stamp)
    ensures AllSpare(RuntimeDeletes(items), root + "/.env", stamp)
    decreases |items|
  {
    if items == [] {
    } else {
      assert Beside(items[0].path, root, stamp);
      ItemSpares(items[0], root, stamp);
      DeletesSpare(items[1..], root, stamp);
    }
  }

  lemma UnloadSpares(flavor: Flavor, unit: Option<string>, ext: string, root: string, stamp: string)
    requires OtherFile(unit, root, stamp)
    ensures AllSpare(Unload(flavor, unit, ext), root + "/.env", stamp)
  {
    if Given(unit) { SparesIff(Unload(flavor, unit, ext)[0], root, stamp); }
  }

  lemma ServiceSpares(inv: Inventory, d: Decisions, root: string, stamp: string)
    requires Scanned(inv, root, stamp)
    ensures AllSpare(ServicePart(inv, d), root + "/.env", stamp)
  {
    var s, env := inv.service, root + "/.env";
    var a, b := Unload(Launchd, s.launchdPlist, ".plist"), Unload(SystemdUser, s.systemdUserUnit, ".service");
    var c := Unload(SystemdSystem, s.systemdSystemUnit, ".service");
    UnloadSpares(Launchd, s.launchdPlist, ".plist", root, stamp);
    UnloadSpares(SystemdUser, s.systemdUserUnit, ".service", root, stamp);
    UnloadSpares(SystemdSystem, s.systemdSystemUnit, ".service", root, stamp);
    AllSpareCat(a, b, env, stamp);
    AllSpareCat(a + b, c, env, stamp);
    if Given(s.nclSymlink) { SparesIff(RmNclSymlink(s.nclSymlink.value), root, stamp); }
    FiveSpare(UnitActions(s), PidActions(s), HostActions(inv), ImageActions(inv), LinkActions(s), env, stamp);
  }

  lemma FiveSpare(a: seq<Action>, b: seq<Action>, c: seq<Action>, d: seq<Action>, e: seq<Action>,
                  envPath: string, stamp: string)
    requires AllSpare(a, envPath, stamp) && AllSpare(b, envPath, stamp) && AllSpare(c, envPath, stamp)
    requires AllSpare(d, envPath, stamp) && AllSpare(e, envPath, stamp)
    ensures AllSpare(a + b + c + d + e, envPath, stamp)
  {
    AllSpareCat(a, b, envPath, stamp);
    AllSpareCat(a + b, c, envPath, stamp);
    AllSpareCat(a + b + c, d, envPath, stamp);
    AllSpareCat(a + b + c + d, e, envPath, stamp);
  }

  lemma DataItem(inv: Inventory, i: nat, root: string, stamp: string)
    requires Scanned(inv, root, stamp) && i < |inv.data|
    ensures IsEnv(inv.data[i]) <==> inv.data[i].path == root + "/.env"
    ensures !IsEnv(inv.data[i]) ==> Beside(inv.data[i].path, root, stamp)
  {
    assert root + "/.env" == root + "/" + ".env";
    BaseIs(root, ".env");
    if inv.data[i].path != root + "/.env" { BesideClear(inv.data[i].path, root, stamp); }
  }

  lemma SliceBeside(items: seq<PathItem>, lo: nat, hi: nat, root: string, stamp: string)
    requires lo <= hi <= |items| && forall i :: lo <= i < hi ==> Beside(items[i].path, root, stamp)
    ensures AllBeside(items[lo..hi], root, stamp)
  {
  }

  /** Every item of a scanned inventory but its .env lies beside it. */
  lemma OthersBeside(inv: Inventory, e: int, root: string, stamp: string)
    requires Scanned(inv, root, stamp) && e == FindEnv(inv.data)
    ensures forall i :: 0 <= i < |inv.data| && i != e ==> Beside(inv.data[i].path, root, stamp)
  {
    FoundEnv(inv.data);
    if e >= 0 { DataItem(inv, e, root, stamp); }
    forall i | 0 <= i < |inv.data| && i != e ensures Beside(inv.data[i].path, root, stamp) {
      DataItem(inv, i, root, stamp);
    }
  }

  lemma BesideCat(a: seq<PathItem>, b: seq<PathItem>, root: string, stamp: string)
    requires AllBeside(a, root, stamp) && AllBeside(b, root, stamp)
    ensures AllBeside(a + b, root, stamp)
  {
  }

  lemma SparedBeside(inv: Inventory, root: string, stamp: string)
    requires Scanned(inv, root, stamp)
    ensures AllBeside(Spared(inv.data, FindEnv(inv.data), |inv.data|), root, stamp)
  {
    var data, e := inv.data, FindEnv(inv.data);
    OthersBeside(inv, e, root, stamp);
    if e < 0 {
      SliceBeside(data, 0, |data|, root, stamp);
    } else {
      SliceBeside(data, 0, e, root, stamp);
      SliceBeside(data, e + 1, |data|, root, stamp);
      BesideCat(data[..e], data[e + 1..|data|], root, stamp);
    }
  }

  lemma DataSpares(inv: Inventory, root: string, stamp: string)
    requires Scanned(inv, root, stamp)
    ensures AllSpare(DataActions(inv.data), root + "/.env", stamp)
  {
    var e := FindEnv(inv.data);
    var spared := Spared(inv.data, e, |inv.data|);
    SparedBeside(inv, root, stamp);
    DeletesSpare(spared, root, stamp);
    if e >= 0 { BackupSpares(inv, root, stamp); }
    AllSpareCat(if e >= 0 then [BackupEnv(inv.data[e].path)] else [], Deletes(spared), root + "/.env", stamp);
  }

  lemma BackupSpares(inv: Inventory, root: string, stamp: string)
    requires Scanned(inv, root, stamp) && FindEnv(inv.data) >= 0
    ensures AllSpare([BackupEnv(inv.data[FindEnv(inv.data)].path)], root + "/.env", stamp)
  {
    var e := FindEnv(inv.data);
    FoundEnv(inv.data);
    DataItem(inv, e, root, stamp);
    SparesIff(BackupEnv(inv.data[e].path), root, stamp);
  }

  lemma {:induction false} OnlyBeside(items: seq<PathItem>, modules: bool, root: string, stamp: string)
    requires AllBeside(items, root, stamp)
    ensures AllBeside(Only(items, modules), root, stamp)
    decreases |items|
  {
    if items == [] {
    } else {
      assert Beside(items[0].path, root, stamp);
      OnlyBeside(items[1..], modules, root, stamp);
    }
  }

  lemma RuntimeSpares(runtime: seq<PathItem>, root: string, stamp: string)
    requires AllBeside(runtime, root, stamp) && SlashFree(stamp)
    ensures AllSpare(RuntimeDeletes(Only(runtime, false) + Only(runtime, true)), root + "/.env", stamp)
  {
    OnlyBeside(runtime, false, root, stamp);
    OnlyBeside(runtime, true, root, stamp);
    DeletesSpare(Only(runtime, false) + Only(runtime, true), root, stamp);
  }

  /** Every action of a plan made from a scanned inventory leaves .env and its copies alone, or is their backup. */
  lemma PlanSpares(inv: Inventory, d: Decisions, root: string, stamp: string)
    requires Scanned(inv, root, stamp)
    ensures AllSpare(Plan(inv, d), root + "/.env", stamp)
  {
    ServiceSpares(inv, d, root, stamp);
    VaultKinds(d.onecliDelete);
    DataSpares(inv, root, stamp);
    DeletesSpare(inv.user, root, stamp);
    RuntimeSpares(inv.runtime, root, stamp);
    FiveSpare(ServicePart(inv, d), VaultActions(d.onecliDelete), DataPart(inv, d), UserPart(inv, d), RuntimePart(inv, d),
              root + "/.env", stamp);
  }

  /** The whole uninstall, head and then tail, whatever is approved and whatever fails:
      the text of .env is still there or in a copy beside it. */
  lemma UninstallKeepsEnv(files: Files, inv: Inventory, d: Decisions, root: string, stamp: string,
                          first: seq<Outcome>, last: seq<Outcome>, text: string)
    requires Scanned(inv, root, stamp) && root + "/.env" in files && files[root + "/.env"] == text
    requires |first| == |OfKind(Plan(inv, d), false)| && |last| == |OfKind(Plan(inv, d), true)|
    ensures var done := Executed(files, OfKind(Plan(inv, d), false), stamp, first);
      Kept(Executed(done, OfKind(Plan(inv, d), true), stamp, last), root + "/.env", stamp, text)
  {
    var env, head, tail := root + "/.env", OfKind(Plan(inv, d), false), OfKind(Plan(inv, d), true);
    PlanSpares(inv, d, root, stamp);
    HeadThenTail(inv, d);
    AllSpareCat(head, tail, env, stamp);
    RootEnv(root, stamp);
    EnvSurvives(files, head, stamp, first, env, text);
    EnvSurvives(Executed(files, head, stamp, first), tail, stamp, last, env, text);
  }
}
