/** The dashboard's derivations (apps/client/src/pages/Dashboard.tsx): alerts
    matched to services by tag, the multi-key service filter, the visible
    column map, the tallies of bulk start/stop/restart, and the selection.
    The outcome of each start or stop request is an input. */
module Dashboard {
  import opened Wrappers
  import opened Sequences

  datatype Tag = Tag(name: string)

  datatype Alert = Alert(id: string, tag: string, isDismissed: bool)

  datatype Provider = Provider(name: string, providerType: string)

  datatype ContainerDetails = ContainerDetails(namespace: Option<string>)

  /** A service as loaded; `fields` holds the text of its other scalar
      properties (`serviceStatus`, `serviceType`, ...) as `String(...)` gives it. */
  datatype Service = Service(
    id: string,
    name: string,
    fields: map<string, string>,
    tags: Option<seq<Tag>>,
    provider: Option<Provider>,
    containerDetails: Option<ContainerDetails>)

  /** A service with its alerts: every field of `service`, plus the badge
      count and the alerts shown in the sidebar. */
  datatype ServiceWithAlerts = ServiceWithAlerts(service: Service, alertsCount: nat, serviceAlerts: seq<Alert>)

  // ---------------------------------------------------------------------
  // Alerts per service

  /** `service.tags?.some(tag => tag.name === name)` */
  predicate HasTag(s: Service, name: string) {
    s.tags.Some? && exists t | t in s.tags.value :: t.name == name
  }

  /** The alerts whose tag names one of the service's tags, in list order. */
  function AlertsForService(s: Service, alerts: seq<Alert>): (r: seq<Alert>)
    ensures forall a :: a in r <==> a in alerts && HasTag(s, a.tag)
    ensures IsSubsequence(r, alerts)
    ensures s.tags.None? || s.tags.value == [] ==> r == []
  {
    if alerts == [] then []
    else
      var rest := AlertsForService(s, alerts[1..]);
      if HasTag(s, alerts[0].tag) then [alerts[0]] + rest else rest
  }

  /** Each matching alert is kept as often as the list holds it, and no
      other alert at all. */
  lemma {:induction false} AlertsForServiceCounts(s: Service, alerts: seq<Alert>)
    ensures forall a :: multiset(AlertsForService(s, alerts))[a] == if HasTag(s, a.tag) then multiset(alerts)[a] else 0
    decreases |alerts|
  {
    if alerts != [] {
      AlertsForServiceCounts(s, alerts[1..]);
      assert alerts == [alerts[0]] + alerts[1..];
    }
  }

  /** `self.findIndex(a => a.id === id)`: the first index with that id, or -1. */
  function FindIndexById(xs: seq<Alert>, id: string): (r: int)
    ensures -1 <= r < |xs|
    ensures r >= 0 ==> xs[r].id == id && forall j :: 0 <= j < r ==> xs[j].id != id
    ensures r == -1 ==> forall j :: 0 <= j < |xs| ==> xs[j].id != id
  {
    if xs == [] then -1
    else if xs[0].id == id then 0
    else
      var k := FindIndexById(xs[1..], id);
      if k == -1 then -1 else k + 1
  }

  /** `xs.filter((a, index, self) => index === self.findIndex(b => b.id === a.id))`
      restricted to the first `n` positions. */
  function UniquePrefix(xs: seq<Alert>, n: nat): seq<Alert>
    requires n <= |xs|
  {
    if n == 0 then []
    else UniquePrefix(xs, n - 1) + (if FindIndexById(xs, xs[n - 1].id) == n - 1 then [xs[n - 1]] else [])
  }

  /** The alerts of `xs` that are the first of their id to appear. */
  function UniqueById(xs: seq<Alert>): seq<Alert> {
    UniquePrefix(xs, |xs|)
  }

  function Ids(xs: seq<Alert>): set<string> {
    set i | 0 <= i < |xs| :: xs[i].id
  }

  /** A reference de-duplication: scan left to right, keeping an alert when
      its id has not been seen yet. */
  function KeepUnseen(xs: seq<Alert>, seen: set<string>): seq<Alert> {
    if xs == [] then []
    else if xs[0].id in seen then KeepUnseen(xs[1..], seen)
    else [xs[0]] + KeepUnseen(xs[1..], seen + {xs[0].id})
  }

  /** No id occurs twice. */
  predicate DistinctIds(xs: seq<Alert>) {
    forall i, j :: 0 <= i < j < |xs| ==> xs[i].id != xs[j].id
  }

  /** What the scan keeps is new: no id of `seen`, no id twice. */
  lemma {:induction false} KeepUnseenDistinct(xs: seq<Alert>, seen: set<string>)
    ensures forall a :: a in KeepUnseen(xs, seen) ==> a.id !in seen
    ensures DistinctIds(KeepUnseen(xs, seen))
    decreases |xs|
  {
    if xs != [] {
      KeepUnseenDistinct(xs[1..], seen);
      KeepUnseenDistinct(xs[1..], seen + {xs[0].id});
      var seen' := seen + {xs[0].id};
      var rest := KeepUnseen(xs[1..], seen');
      if xs[0].id !in seen {
        var r := [xs[0]] + rest;
        assert r == KeepUnseen(xs, seen);
        assert DistinctIds(rest);
        forall i, j | 0 <= i < j < |r| ensures r[i].id != r[j].id {
          assert r[j] == rest[j - 1] && rest[j - 1] in rest;
          assert rest[j - 1].id !in seen';
          if i > 0 {
            assert r[i] == rest[i - 1];
            assert rest[i - 1].id != rest[j - 1].id;
          }
        }
      }
    }
  }

  /** Each kept alert is the first one of its id in `xs`. */
  lemma {:induction false} KeepUnseenFirst(xs: seq<Alert>, seen: set<string>)
    ensures forall a :: a in KeepUnseen(xs, seen) ==>
      FindIndexById(xs, a.id) >= 0 && xs[FindIndexById(xs, a.id)] == a
    decreases |xs|
  {
    if xs != [] {
      var seen' := if xs[0].id in seen then seen else seen + {xs[0].id};
      KeepUnseenFirst(xs[1..], seen');
      KeepUnseenDistinct(xs[1..], seen');
      var rest := KeepUnseen(xs[1..], seen');
      forall a | a in rest
        ensures FindIndexById(xs, a.id) >= 0 && xs[FindIndexById(xs, a.id)] == a
      {
        assert a.id !in seen' && xs[0].id in seen';
        assert FindIndexById(xs, a.id) == FindIndexById(xs[1..], a.id) + 1;
      }
    }
  }

  /** Every id of `xs` outside `seen` is kept. */
  lemma {:induction false} KeepUnseenCovers(xs: seq<Alert>, seen: set<string>)
    ensures forall a :: a in xs && a.id !in seen ==> exists b :: b in KeepUnseen(xs, seen) && b.id == a.id
    decreases |xs|
  {
    if xs != [] {
      var seen' := if xs[0].id in seen then seen else seen + {xs[0].id};
      KeepUnseenCovers(xs[1..], seen');
      var r := KeepUnseen(xs, seen);
      forall a | a in xs && a.id !in seen
        ensures exists b :: b in r && b.id == a.id
      {
        if a.id == xs[0].id {
          assert xs[0] in r;
        } else {
          assert a in xs[1..];
        }
      }
    }
  }

  lemma {:induction false} KeepUnseenSubsequence(xs: seq<Alert>, seen: set<string>)
    ensures IsSubsequence(KeepUnseen(xs, seen), xs)
    decreases |xs|
  {
    if xs != [] {
      KeepUnseenSubsequence(xs[1..], seen);
      KeepUnseenSubsequence(xs[1..], seen + {xs[0].id});
      if xs[0].id !in seen {
        var rest := KeepUnseen(xs[1..], seen + {xs[0].id});
        assert ([xs[0]] + rest)[1..] == rest;
      }
    }
  }

  /** `u` lists its alerts in the order their ids first appear in `xs`. */
  predicate InFirstIndexOrder(u: seq<Alert>, xs: seq<Alert>) {
    forall i, j :: 0 <= i < j < |u| ==> FindIndexById(xs, u[i].id) < FindIndexById(xs, u[j].id)
  }

  /** Alerts whose ids do not start `xs` keep their relative order when
      `xs[0]` is put back in front, and none of them comes first. */
  lemma OrderShift(xs: seq<Alert>, rest: seq<Alert>)
    requires xs != [] && InFirstIndexOrder(rest, xs[1..])
    requires forall a :: a in rest ==> a.id != xs[0].id && FindIndexById(xs[1..], a.id) >= 0
    ensures InFirstIndexOrder(rest, xs)
    ensures forall a :: a in rest ==> FindIndexById(xs, a.id) >= 1
  {
    forall i, j | 0 <= i < j < |rest|
      ensures FindIndexById(xs, rest[i].id) < FindIndexById(xs, rest[j].id)
    {
      assert rest[i] in rest && rest[j] in rest;
    }
  }

  /** `xs[0]` goes in front of alerts that do not come first. */
  lemma OrderCons(xs: seq<Alert>, rest: seq<Alert>, r: seq<Alert>)
    requires xs != [] && InFirstIndexOrder(rest, xs)
    requires forall a :: a in rest ==> FindIndexById(xs, a.id) >= 1
    requires |r| == |rest| + 1 && r[0] == xs[0] && r[1..] == rest
    ensures InFirstIndexOrder(r, xs)
  {
    assert FindIndexById(xs, xs[0].id) == 0;
    forall i, j | 0 <= i < j < |r| ensures FindIndexById(xs, r[i].id) < FindIndexById(xs, r[j].id) {
      var b := rest[j - 1];
      assert r[j] == b && b in rest;
      if i > 0 {
        assert r[i] == rest[i - 1];
      }
    }
  }

  /** The scan keeps alerts in the order their ids first appear in `xs`. */
  lemma {:induction false} KeepUnseenOrdered(xs: seq<Alert>, seen: set<string>)
    ensures InFirstIndexOrder(KeepUnseen(xs, seen), xs)
    decreases |xs|
  {
    if xs != [] {
      var seen' := if xs[0].id in seen then seen else seen + {xs[0].id};
      KeepUnseenOrdered(xs[1..], seen');
      KeepUnseenDistinct(xs[1..], seen');
      KeepUnseenFirst(xs[1..], seen');
      var rest := KeepUnseen(xs[1..], seen');
      assert xs[0].id in seen';
      OrderShift(xs, rest);
      if xs[0].id !in seen {
        var r := KeepUnseen(xs, seen);
        assert r == [xs[0]] + rest;
        OrderCons(xs, rest, r);
      }
    }
  }

  /** The scan over a suffix that starts at `m`, once `xs[m]` has been read. */
  lemma KeepUnseenUnfold(xs: seq<Alert>, m: nat, seen: set<string>)
    requires m < |xs|
    ensures KeepUnseen(xs[m..], seen) ==
      if xs[m].id in seen then KeepUnseen(xs[m + 1..], seen)
      else [xs[m]] + KeepUnseen(xs[m + 1..], seen + {xs[m].id})
  {
    assert xs[m..][0] == xs[m] && xs[m..][1..] == xs[m + 1..];
  }

  lemma IdsSnoc(xs: seq<Alert>, m: nat)
    requires m < |xs|
    ensures Ids(xs[..m + 1]) == Ids(xs[..m]) + {xs[m].id}
  {
    var p, q := xs[..m], xs[..m + 1];
    assert forall i :: 0 <= i < m ==> q[i] == p[i];
    assert q[m] == xs[m];
    forall id | id in Ids(q) ensures id in Ids(p) + {xs[m].id} {
      var i :| 0 <= i < |q| && q[i].id == id;
      if i < m {
        assert p[i].id == id;
      }
    }
    forall id | id in Ids(p) + {xs[m].id} ensures id in Ids(q) {
      if id in Ids(p) {
        var i :| 0 <= i < |p| && p[i].id == id;
        assert q[i].id == id;
      } else {
        assert q[m].id == id;
      }
    }
  }

  /** `xs[m]` is the first of its id exactly when no earlier alert has it. */
  lemma FirstIndexIffUnseen(xs: seq<Alert>, m: nat)
    requires m < |xs|
    ensures FindIndexById(xs, xs[m].id) == m <==> xs[m].id !in Ids(xs[..m])
  {
    var id := xs[m].id;
    var k := FindIndexById(xs, id);
    if id in Ids(xs[..m]) {
      var i :| 0 <= i < m && xs[..m][i].id == id;
      assert xs[i].id == id;
    } else {
      assert forall j :: 0 <= j < m ==> xs[j].id != id by {
        forall j | 0 <= j < m ensures xs[j].id != id {
          assert xs[..m][j] == xs[j];
        }
      }
    }
  }

  /** Reading `xs[m]` moves it from the scan's input to the kept prefix. */
  lemma UniquePrefixAdvance(xs: seq<Alert>, m: nat)
    requires m < |xs|
    ensures UniquePrefix(xs, m + 1) + KeepUnseen(xs[m + 1..], Ids(xs[..m + 1]))
         == UniquePrefix(xs, m) + KeepUnseen(xs[m..], Ids(xs[..m]))
  {
    var before := Ids(xs[..m]);
    var tail := xs[m + 1..];
    KeepUnseenUnfold(xs, m, before);
    IdsSnoc(xs, m);
    FirstIndexIffUnseen(xs, m);
    if xs[m].id in before {
      assert before + {xs[m].id} == before;
      assert UniquePrefix(xs, m + 1) == UniquePrefix(xs, m);
    } else {
      var kept := KeepUnseen(tail, before + {xs[m].id});
      assert UniquePrefix(xs, m + 1) == UniquePrefix(xs, m) + [xs[m]];
      assert UniquePrefix(xs, m) + [xs[m]] + kept == UniquePrefix(xs, m) + ([xs[m]] + kept);
    }
  }

  lemma {:induction false} UniquePrefixStep(xs: seq<Alert>, n: nat)
    requires n <= |xs|
    ensures UniquePrefix(xs, n) + KeepUnseen(xs[n..], Ids(xs[..n])) == KeepUnseen(xs, {})
    decreases n
  {
    if n == 0 {
      assert xs[0..] == xs;
      assert Ids(xs[..0]) == {};
    } else {
      UniquePrefixStep(xs, n - 1);
      UniquePrefixAdvance(xs, n - 1);
    }
  }

  /** The source's index-based filter and the reference scan agree. */
  lemma UniqueByIdIsKeepUnseen(xs: seq<Alert>)
    ensures UniqueById(xs) == KeepUnseen(xs, {})
  {
    UniquePrefixStep(xs, |xs|);
    assert xs[|xs|..] == [];
  }

  /** `UniqueById` keeps, in order, exactly one alert per id: the first. */
  lemma UniqueByIdSpec(xs: seq<Alert>)
    ensures var u := UniqueById(xs);
      DistinctIds(u) &&
      (forall a :: a in u ==> FindIndexById(xs, a.id) >= 0 && xs[FindIndexById(xs, a.id)] == a) &&
      (forall a :: a in xs ==> exists b :: b in u && b.id == a.id) &&
      InFirstIndexOrder(u, xs) &&
      IsSubsequence(u, xs)
  {
    KeepUnseenOrdered(xs, {});
    UniqueByIdIsKeepUnseen(xs);
    KeepUnseenDistinct(xs, {});
    KeepUnseenFirst(xs, {});
    KeepUnseenCovers(xs, {});
    KeepUnseenSubsequence(xs, {});
  }

  /** Number of alerts not dismissed. */
  function CountActive(xs: seq<Alert>): (r: nat)
    ensures r <= |xs|
    ensures r == |xs| <==> forall a :: a in xs ==> !a.isDismissed
    ensures r == 0 <==> forall a :: a in xs ==> a.isDismissed
  {
    if xs == [] then 0 else (if xs[0].isDismissed then 0 else 1) + CountActive(xs[1..])
  }

  /** One service's entry: its matching alerts without repeated ids, and
      the badge count of the non-dismissed ones. */
  function WithAlerts(s: Service, alerts: seq<Alert>): ServiceWithAlerts {
    var unique := UniqueById(AlertsForService(s, alerts));
    ServiceWithAlerts(s, CountActive(unique), unique)
  }

  /** The sidebar shows every matching alert id once, as the first matching
      alert of that id, in alert-list order; the badge counts the
      non-dismissed ones among them. */
  lemma WithAlertsSpec(s: Service, alerts: seq<Alert>)
    ensures var r := WithAlerts(s, alerts);
      r.service == s &&
      (forall a :: a in r.serviceAlerts ==> a in alerts && HasTag(s, a.tag)) &&
      (forall a :: a in alerts && HasTag(s, a.tag) ==> exists b :: b in r.serviceAlerts && b.id == a.id) &&
      (forall a :: a in r.serviceAlerts ==>
        var m := AlertsForService(s, alerts);
        FindIndexById(m, a.id) >= 0 && m[FindIndexById(m, a.id)] == a) &&
      InFirstIndexOrder(r.serviceAlerts, AlertsForService(s, alerts)) &&
      DistinctIds(r.serviceAlerts) &&
      IsSubsequence(r.serviceAlerts, alerts) &&
      r.alertsCount == CountActive(r.serviceAlerts) &&
      r.alertsCount <= |r.serviceAlerts| &&
      (s.tags.None? || s.tags.value == [] ==> r.serviceAlerts == [] && r.alertsCount == 0)
  {
    var matching := AlertsForService(s, alerts);
    var unique := UniqueById(matching);
    UniqueByIdSpec(matching);
    SubsequenceTransitive(unique, matching, alerts);
    forall a | a in unique ensures a in alerts && HasTag(s, a.tag) {
      var k := FindIndexById(matching, a.id);
      assert matching[k] in matching;
    }
    if s.tags.None? || s.tags.value == [] {
      assert matching == [];
      assert UniqueById(matching) == [];
    }
  }

  /** `servicesWithAlerts`: one entry per service, same order. */
  function ServicesWithAlerts(services: seq<Service>, alerts: seq<Alert>): (r: seq<ServiceWithAlerts>)
    ensures |r| == |services|
    ensures forall i :: 0 <= i < |r| ==> r[i].service == services[i] && r[i] == WithAlerts(services[i], alerts)
  {
    seq(|services|, i requires 0 <= i < |services| => WithAlerts(services[i], alerts))
  }

  // ---------------------------------------------------------------------
  // Service filter

  type Filters = map<string, seq<string>>

  /** `String(service[key])` for a direct property; an absent one reads
      "undefined". */
  function FieldText(s: Service, key: string): string {
    if key == "id" then s.id
    else if key == "name" then s.name
    else if key in s.fields then s.fields[key]
    else "undefined"
  }

  function ProviderTypeText(s: Service): string {
    if s.provider.Some? then s.provider.value.providerType else "undefined"
  }

  function ProviderNameText(s: Service): string {
    if s.provider.Some? then s.provider.value.name else "undefined"
  }

  function NamespaceText(s: Service): string {
    if s.containerDetails.Some? && s.containerDetails.value.namespace.Some? then
      s.containerDetails.value.namespace.value
    else "undefined"
  }

  /** Whether a service passes one active key: its value is one of the
      listed ones, except for `tags`, where it must carry every listed tag and
      a service without tags fails. `serviceStatus`, `serviceType` and any
      other key read the direct property. */
  predicate KeyHolds(s: Service, key: string, values: seq<string>) {
    if key == "providerType" then ProviderTypeText(s) in values
    else if key == "providerName" then ProviderNameText(s) in values
    else if key == "containerNamespace" then NamespaceText(s) in values
    else if key == "tags" then
      s.tags.Some? && |s.tags.value| > 0 && forall v | v in values :: HasTag(s, v)
    else FieldText(s, key) in values
  }

  /** AND across the active keys. */
  predicate Passes(x: ServiceWithAlerts, filters: Filters) {
    forall key | key in filters && |filters[key]| > 0 :: KeyHolds(x.service, key, filters[key])
  }

  function FilterServices(xs: seq<ServiceWithAlerts>, filters: Filters): (r: seq<ServiceWithAlerts>)
    ensures forall x :: x in r <==> x in xs && Passes(x, filters)
    ensures IsSubsequence(r, xs)
  {
    if xs == [] then []
    else
      var rest := FilterServices(xs[1..], filters);
      if Passes(xs[0], filters) then
        assert ([xs[0]] + rest)[1..] == rest;
        [xs[0]] + rest
      else rest
  }

  /** Each passing service is kept as often as the list holds it, and no
      other service at all. */
  lemma {:induction false} FilterServicesCounts(xs: seq<ServiceWithAlerts>, filters: Filters)
    ensures forall x :: multiset(FilterServices(xs, filters))[x] == if Passes(x, filters) then multiset(xs)[x] else 0
    decreases |xs|
  {
    if xs != [] {
      FilterServicesCounts(xs[1..], filters);
      assert xs == [xs[0]] + xs[1..];
    }
  }

  /** `filteredServices`: the input itself when no key has values, the
      services passing every active key otherwise. */
  function FilteredServices(xs: seq<ServiceWithAlerts>, filters: Filters): (r: seq<ServiceWithAlerts>)
    ensures (forall key | key in filters :: |filters[key]| == 0) ==> r == xs
    ensures r == FilterServices(xs, filters)
  {
    if forall key | key in filters :: |filters[key]| == 0 then
      FilterKeepsAll(xs, filters);
      xs
    else FilterServices(xs, filters)
  }

  lemma {:induction false} FilterKeepsAll(xs: seq<ServiceWithAlerts>, filters: Filters)
    requires forall x :: x in xs ==> Passes(x, filters)
    ensures FilterServices(xs, filters) == xs
    decreases |xs|
  {
    if xs != [] {
      assert xs[0] in xs && Passes(xs[0], filters);
      assert forall x :: x in xs[1..] ==> x in xs;
      FilterKeepsAll(xs[1..], filters);
      assert FilterServices(xs, filters) == [xs[0]] + FilterServices(xs[1..], filters);
      assert [xs[0]] + xs[1..] == xs;
    }
  }

  lemma {:induction false} FilterMonotone(xs: seq<ServiceWithAlerts>, narrow: Filters, wide: Filters)
    requires forall x :: x in xs && Passes(x, narrow) ==> Passes(x, wide)
    ensures IsSubsequence(FilterServices(xs, narrow), FilterServices(xs, wide))
    decreases |xs|
  {
    if xs != [] {
      assert forall x :: x in xs[1..] ==> x in xs;
      FilterMonotone(xs[1..], narrow, wide);
      var n, w := FilterServices(xs[1..], narrow), FilterServices(xs[1..], wide);
      if Passes(xs[0], narrow) {
        assert ([xs[0]] + n)[1..] == n && ([xs[0]] + w)[1..] == w;
      } else if Passes(xs[0], wide) {
        assert ([xs[0]] + w)[1..] == w;
        assert IsSubsequence(n, [xs[0]] + w);
      }
    }
  }

  /** AND across keys: adding an active key can only remove services. */
  lemma AddedKeyNarrows(xs: seq<ServiceWithAlerts>, filters: Filters, key: string, values: seq<string>)
    requires key !in filters
    ensures IsSubsequence(FilteredServices(xs, filters[key := values]), FilteredServices(xs, filters))
  {
    var f' := filters[key := values];
    forall x | x in xs && Passes(x, f')
      ensures Passes(x, filters)
    {
      forall k | k in filters && |filters[k]| > 0
        ensures KeyHolds(x.service, k, filters[k])
      {
        assert k in f' && f'[k] == filters[k];
      }
    }
    FilterMonotone(xs, f', filters);
  }

  /** OR within a key: one more value lets more services through, except
      for `tags`, where one more selected tag lets fewer through. */
  lemma WithinKey(s: Service, key: string, values: seq<string>, v: string)
    ensures key != "tags" && KeyHolds(s, key, values) ==> KeyHolds(s, key, values + [v])
    ensures key == "tags" && KeyHolds(s, key, values + [v]) ==> KeyHolds(s, key, values)
  {
    var vs := values + [v];
    assert forall w :: w in values ==> w in vs;
  }

  // ---------------------------------------------------------------------
  // Visible columns

  type Columns = map<string, bool>

  /** A column shows when its entry is true; a missing entry is falsy. */
  predicate Shown(cols: Columns, c: string) {
    c in cols && cols[c]
  }

  const DEFAULT_COLUMNS: Columns := map[
    "name" := true, "serviceIP" := true, "serviceStatus" := true, "provider" := true,
    "containerDetails" := false, "tags" := true, "alerts" := true]

  /** `handleColumnToggle`: flips the named column, nothing else. */
  function ToggleColumn(cols: Columns, c: string): (r: Columns)
    ensures r.Keys == cols.Keys + {c}
    ensures Shown(r, c) == !Shown(cols, c)
    ensures forall k :: k in cols && k != c ==> r[k] == cols[k]
  {
    cols[c := !Shown(cols, c)]
  }

  /** Toggling twice shows exactly what was shown, and gives back the same map
      when the column had an entry. */
  lemma ToggleTwice(cols: Columns, c: string)
    ensures forall k :: Shown(ToggleColumn(ToggleColumn(cols, c), c), k) == Shown(cols, k)
    ensures c in cols ==> ToggleColumn(ToggleColumn(cols, c), c) == cols
  {
  }

  /** `applyView`: the view's entries overlay the previous ones; columns the
      view omits keep their previous value. */
  function ApplyViewColumns(prev: Columns, view: Columns): (r: Columns)
    ensures r.Keys == prev.Keys + view.Keys
    ensures forall k :: k in view ==> r[k] == view[k]
    ensures forall k :: k in prev && k !in view ==> r[k] == prev[k]
  {
    prev + view
  }

  /** Applying the same view twice changes nothing the second time. */
  lemma ApplyViewIdempotent(prev: Columns, view: Columns)
    ensures ApplyViewColumns(ApplyViewColumns(prev, view), view) == ApplyViewColumns(prev, view)
  {
  }

  /** A view naming every column of the starting map installs its own map:
      the default columns never leak through when the view covers them. */
  lemma ApplyViewCovering(view: Columns)
    requires DEFAULT_COLUMNS.Keys <= view.Keys
    ensures ApplyViewColumns(DEFAULT_COLUMNS, view) == view
  {
  }

  // ---------------------------------------------------------------------
  // Bulk start / stop / restart

  datatype MutationKind = Start | Stop

  /** A start or stop request issued for a service id. */
  datatype Mutation = Mutation(kind: MutationKind, serviceId: string)

  datatype BulkAction = StartAction | StopAction | RestartAction

  datatype BulkVerdict = AllSucceeded | PartialSuccess | AllFailed

  datatype BulkReport = BulkReport(successCount: nat, failureCount: nat, verdict: BulkVerdict, title: string)

  function CountTrue(bs: seq<bool>): (r: nat)
    ensures r <= |bs|
  {
    if bs == [] then 0 else CountTrue(bs[..|bs| - 1]) + (if bs[|bs| - 1] then 1 else 0)
  }

  /** Requests succeeding both their stop and their start. */
  function CountBoth(stops: seq<bool>, starts: seq<bool>): (r: nat)
    requires |stops| == |starts|
    ensures r <= |stops|
  {
    if stops == [] then 0
    else
      var n := |stops| - 1;
      CountBoth(stops[..n], starts[..n]) + (if stops[n] && starts[n] then 1 else 0)
  }

  /** The result toast's kind: all succeeded, partial, or (no success) all failed. */
  function Verdict(successCount: nat, failureCount: nat): BulkVerdict {
    if successCount > 0 && failureCount == 0 then AllSucceeded
    else if successCount > 0 && failureCount > 0 then PartialSuccess
    else AllFailed
  }

  /** For a non-empty selection the three kinds are told apart exactly by
      the counts. */
  lemma VerdictCases(successCount: nat, failureCount: nat)
    requires successCount + failureCount > 0
    ensures Verdict(successCount, failureCount) == AllSucceeded <==> failureCount == 0
    ensures Verdict(successCount, failureCount) == PartialSuccess <==> successCount > 0 && failureCount > 0
    ensures Verdict(successCount, failureCount) == AllFailed <==> successCount == 0
  {
  }

  function Title(action: BulkAction, verdict: BulkVerdict): string {
    match (action, verdict)
    case (_, PartialSuccess) => "Partial Success"
    case (StartAction, AllSucceeded) => "Services Started"
    case (StopAction, AllSucceeded) => "Services Stopped"
    case (RestartAction, AllSucceeded) => "Services Restarted"
    case (StartAction, AllFailed) => "Failed to Start Services"
    case (StopAction, AllFailed) => "Failed to Stop Services"
    case (RestartAction, AllFailed) => "Failed to Restart Services"
  }

  function Report(action: BulkAction, successCount: nat, failureCount: nat): BulkReport {
    var v := Verdict(successCount, failureCount);
    BulkReport(successCount, failureCount, v, Title(action, v))
  }

  /** One request per selected service, in order; each outcome counted. */
  method RequestEach(kind: MutationKind, selected: seq<Service>, outcomes: seq<bool>)
    returns (issued: seq<Mutation>, successCount: nat, failureCount: nat)
    requires |outcomes| == |selected|
    ensures |issued| == |selected|
    ensures forall i :: 0 <= i < |issued| ==> issued[i] == Mutation(kind, selected[i].id)
    ensures successCount == CountTrue(outcomes)
    ensures successCount + failureCount == |selected|
  {
    issued, successCount, failureCount := [], 0, 0;
    var i := 0;
    while i < |selected|
      invariant 0 <= i <= |selected|
      invariant |issued| == i
      invariant forall j :: 0 <= j < i ==> issued[j] == Mutation(kind, selected[j].id)
      invariant successCount == CountTrue(outcomes[..i])
      invariant successCount + failureCount == i
    {
      assert outcomes[..i + 1][..i] == outcomes[..i];
      issued := issued + [Mutation(kind, selected[i].id)];
      if outcomes[i] {
        successCount := successCount + 1;
      } else {
        failureCount := failureCount + 1;
      }
      i := i + 1;
    }
    assert outcomes[..i] == outcomes;
  }

  /** `handleStart`: nothing for an empty selection; otherwise one start
      request per service and a report whose counts add up to the selection. */
  method HandleStart(selected: seq<Service>, outcomes: seq<bool>)
    returns (issued: seq<Mutation>, report: Option<BulkReport>)
    requires |outcomes| == |selected|
    ensures selected == [] ==> issued == [] && report == None
    ensures selected != [] ==>
      (report.Some? && report.value == Report(StartAction, CountTrue(outcomes), |selected| - CountTrue(outcomes)))
    ensures selected != [] ==>
      (|issued| == |selected| && forall i :: 0 <= i < |issued| ==> issued[i] == Mutation(Start, selected[i].id))
  {
    if |selected| == 0 {
      return [], None;
    }
    var successCount, failureCount;
    issued, successCount, failureCount := RequestEach(Start, selected, outcomes);
    report := Some(Report(StartAction, successCount, failureCount));
  }

  /** `handleStop`: as `handleStart`, with stop requests. */
  method HandleStop(selected: seq<Service>, outcomes: seq<bool>)
    returns (issued: seq<Mutation>, report: Option<BulkReport>)
    requires |outcomes| == |selected|
    ensures selected == [] ==> issued == [] && report == None
    ensures selected != [] ==>
      (report.Some? && report.value == Report(StopAction, CountTrue(outcomes), |selected| - CountTrue(outcomes)))
    ensures selected != [] ==>
      (|issued| == |selected| && forall i :: 0 <= i < |issued| ==> issued[i] == Mutation(Stop, selected[i].id))
  {
    if |selected| == 0 {
      return [], None;
    }
    var successCount, failureCount;
    issued, successCount, failureCount := RequestEach(Stop, selected, outcomes);
    report := Some(Report(StopAction, successCount, failureCount));
  }

  /** The requests of a restart: a stop for each service, followed by its
      start only when the stop succeeded. */
  function RestartRequests(selected: seq<Service>, stopOutcomes: seq<bool>): seq<Mutation>
    requires |stopOutcomes| == |selected|
  {
    if selected == [] then []
    else
      var n := |selected| - 1;
      RestartRequests(selected[..n], stopOutcomes[..n])
        + [Mutation(Stop, selected[n].id)]
        + (if stopOutcomes[n] then [Mutation(Start, selected[n].id)] else [])
  }

  /** A restart issues one stop per service and one start per successful stop. */
  lemma {:induction false} RestartRequestCount(selected: seq<Service>, stopOutcomes: seq<bool>)
    requires |stopOutcomes| == |selected|
    ensures |RestartRequests(selected, stopOutcomes)| == |selected| + CountTrue(stopOutcomes)
    decreases |selected|
  {
    if selected != [] {
      var n := |selected| - 1;
      RestartRequestCount(selected[..n], stopOutcomes[..n]);
    }
  }

  /** `handleRestart`: a service counts as a success only when both its stop
      and its start succeed; a failed stop skips the start. */
  method HandleRestart(selected: seq<Service>, stopOutcomes: seq<bool>, startOutcomes: seq<bool>)
    returns (issued: seq<Mutation>, report: Option<BulkReport>)
    requires |stopOutcomes| == |selected| && |startOutcomes| == |selected|
    ensures selected == [] ==> issued == [] && report == None
    ensures selected != [] ==>
      (report.Some? && report.value == Report(RestartAction, CountBoth(stopOutcomes, startOutcomes),
                                              |selected| - CountBoth(stopOutcomes, startOutcomes)))
    ensures issued == RestartRequests(selected, stopOutcomes)
  {
    issued := [];
    if |selected| == 0 {
      return [], None;
    }
    var successCount, failureCount := 0, 0;
    var i := 0;
    while i < |selected|
      invariant 0 <= i <= |selected|
      invariant issued == RestartRequests(selected[..i], stopOutcomes[..i])
      invariant successCount == CountBoth(stopOutcomes[..i], startOutcomes[..i])
      invariant successCount + failureCount == i
    {
      assert selected[..i + 1][..i] == selected[..i];
      assert stopOutcomes[..i + 1][..i] == stopOutcomes[..i];
      assert startOutcomes[..i + 1][..i] == startOutcomes[..i];
      var id := selected[i].id;
      issued := issued + [Mutation(Stop, id)];
      if stopOutcomes[i] {
        issued := issued + [Mutation(Start, id)];
        if startOutcomes[i] {
          successCount := successCount + 1;
        } else {
          failureCount := failureCount + 1;
        }
      } else {
        failureCount := failureCount + 1;
      }
      i := i + 1;
    }
    assert selected[..i] == selected && stopOutcomes[..i] == stopOutcomes && startOutcomes[..i] == startOutcomes;
    report := Some(Report(RestartAction, successCount, failureCount));
  }

  // ---------------------------------------------------------------------
  // Selection

  /** The service the sidebar shows: the enriched entry, or the plain
      selected service when it has none. */
  datatype Focus = Enriched(entry: ServiceWithAlerts) | Plain(service: Service)

  datatype Selection = Selection(selectedServices: seq<Service>, selectedService: Option<Focus>)

  /** `xs.find(s => s.id === id)` */
  function FindById(xs: seq<ServiceWithAlerts>, id: string): (r: Option<ServiceWithAlerts>)
    ensures r.Some? ==>
      (exists i :: 0 <= i < |xs| && xs[i] == r.value && r.value.service.id == id &&
                   forall j :: 0 <= j < i ==> xs[j].service.id != id)
    ensures r.None? ==> forall i :: 0 <= i < |xs| ==> xs[i].service.id != id
  {
    if xs == [] then None
    else if xs[0].service.id == id then Some(xs[0])
    else
      var r := FindById(xs[1..], id);
      if r.Some? then
        var i :| 0 <= i < |xs[1..]| && xs[1..][i] == r.value && r.value.service.id == id &&
          forall j :: 0 <= j < i ==> xs[1..][j].service.id != id;
        assert xs[i + 1] == r.value;
        r
      else r
  }

  /** `handleServicesSelect`: the selection is kept; a single selected
      service is focused, through its enriched entry when one has its id. */
  function SelectServices(chosen: seq<Service>, withAlerts: seq<ServiceWithAlerts>): (r: Selection)
    ensures r.selectedServices == chosen
    ensures |chosen| != 1 <==> r.selectedService.None?
    ensures |chosen| == 1 && r.selectedService.Some? && r.selectedService.value.Plain? ==>
      r.selectedService.value.service == chosen[0] &&
      forall x :: x in withAlerts ==> x.service.id != chosen[0].id
    ensures |chosen| == 1 && r.selectedService.Some? && r.selectedService.value.Enriched? ==>
      r.selectedService.value.entry in withAlerts && r.selectedService.value.entry.service.id == chosen[0].id &&
      exists i :: 0 <= i < |withAlerts| && withAlerts[i] == r.selectedService.value.entry &&
        forall j :: 0 <= j < i ==> withAlerts[j].service.id != chosen[0].id
  {
    if |chosen| == 1 then
      var found := FindById(withAlerts, chosen[0].id);
      Selection(chosen, Some(if found.Some? then Enriched(found.value) else Plain(chosen[0])))
    else Selection(chosen, None)
  }
}
