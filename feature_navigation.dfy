/** The dashboard's feature cards: the navigation configuration flattened
    group by group, the items without dashboard metadata or without read
    permission dropped, and each remaining item turned into a card. */
module FeatureNavigation {
  import opened Common
  import opened JsStrings
  import opened PermissionHook

  datatype DashboardMeta = DashboardMeta(statsLabel: string)

  /** `requiredPermission`; its action is always "read". */
  datatype RequiredPermission = RequiredPermission(table: string)

  /** A navigation item. `href` holds the name of the route constant; icons are left out. */
  datatype NavigationItem = NavigationItem(
    title: string, href: string, description: Option<string>,
    dashboard: Option<DashboardMeta>, requiredPermission: Option<RequiredPermission>)

  datatype NavigationGroup = NavigationGroup(id: string, title: string, items: seq<NavigationItem>)

  function Item(title: string, href: string, description: string, statsLabel: string, table: string): NavigationItem {
    NavigationItem(title, href, Some(description), Some(DashboardMeta(statsLabel)), Some(RequiredPermission(table)))
  }

  /** The "operations" group's only item. */
  const DashboardItem := NavigationItem("Dashboard", "DASHBOARD", Some("Vista general y alertas"), None, None)

  /** The "management" group's items. */
  const ManagementItems: seq<NavigationItem> := [
    Item("Plantas", "PLANTS", "Inventario de plantas", "Plantas activas", "plants"),
    Item("Clientes", "CLIENTS", "Gesti\U{00F3}n de clientes", "Clientes activos", "clients"),
    Item("Facturas", "INVOICES", "Facturaci\U{00F3}n y pagos", "Facturas pendientes", "invoices"),
    Item("\U{00D3}rdenes de compra", "PURCHASE_ORDERS", "Pedidos y proveedores", "Pedidos pendientes", "purchase_orders")]

  /** The "admin" group's items. */
  const AdminItems: seq<NavigationItem> := [
    Item("Usuarios", "USERS", "Gesti\U{00F3}n de usuarios del sistema", "Usuarios activos", "users"),
    Item("Auditor\U{00ED}a", "AUDIT_LOGS", "Registro de actividades del sistema", "Registros de auditor\U{00ED}a", "audit_logs"),
    Item("Tenants", "TENANTS", "Gesti\U{00F3}n de organizaciones", "Organizaciones activas", "tenants"),
    Item("Permisos de Usuario", "USER_PERMISSIONS", "Configuraci\U{00F3}n de permisos por usuario", "Permisos configurados", "user_permissions"),
    Item("Enums", "ENUMS", "Valores de configuraci\U{00F3}n del sistema", "Enumeraciones del sistema", "enums"),
    Item("Mensajes", "MESSAGE", "Comunicaciones del sistema", "Mensajes del sistema", "messages")]

  /** `NAVIGATION_CONFIG`. */
  const NavigationConfig: seq<NavigationGroup> := [
    NavigationGroup("operations", "Operaciones", [DashboardItem]),
    NavigationGroup("management", "Gesti\U{00F3}n", ManagementItems),
    NavigationGroup("admin", "Administraci\U{00F3}n", AdminItems)
  ]

  /** `flatMap((group) => group.items)`. */
  function Flatten(groups: seq<NavigationGroup>): (r: seq<NavigationItem>)
    ensures forall g, x :: g in groups && x in g.items ==> x in r
    ensures forall x :: x in r ==> exists g :: g in groups && x in g.items
  {
    if groups == [] then [] else groups[0].items + Flatten(groups[1..])
  }

  lemma {:induction false} FlattenAppend(a: seq<NavigationGroup>, b: seq<NavigationGroup>)
    ensures Flatten(a + b) == Flatten(a) + Flatten(b)
  {
    if a == [] {
      assert a + b == b;
    } else {
      assert (a + b)[1..] == a[1..] + b;
      FlattenAppend(a[1..], b);
    }
  }

  /** The filter: dashboard metadata is required, and a required permission
      needs its table's entry with a truthy `canRead`. */
  predicate Visible(permissions: ClientPermissions, item: NavigationItem) {
    && item.dashboard.Some?
    && (item.requiredPermission.Some? ==>
          var table := item.requiredPermission.value.table;
          table in permissions && FlagOrFalse(permissions[table].canRead))
  }

  function VisibleItems(permissions: ClientPermissions, items: seq<NavigationItem>): (r: seq<NavigationItem>)
    ensures forall x :: x in r <==> x in items && Visible(permissions, x)
    ensures |r| <= |items|
  {
    if items == [] then []
    else if Visible(permissions, items[0]) then [items[0]] + VisibleItems(permissions, items[1..])
    else VisibleItems(permissions, items[1..])
  }

  lemma {:induction false} VisibleItemsAppend(permissions: ClientPermissions, a: seq<NavigationItem>, b: seq<NavigationItem>)
    ensures VisibleItems(permissions, a + b) == VisibleItems(permissions, a) + VisibleItems(permissions, b)
  {
    if a == [] {
      assert a + b == b;
    } else {
      assert (a + b)[1..] == a[1..] + b;
      assert (a + b)[0] == a[0];
      VisibleItemsAppend(permissions, a[1..], b);
    }
  }

  datatype FeatureCardData = FeatureCardData(title: string, href: string, description: string, statsLabel: string)

  /** `item.description || "Gestionar " + title.toLowerCase()`. */
  function CardDescription(item: NavigationItem): string {
    if item.description.Some? && item.description.value != "" then item.description.value
    else "Gestionar " + ToLower(item.title)
  }

  function CardOf(item: NavigationItem): FeatureCardData
    requires item.dashboard.Some?
  {
    FeatureCardData(item.title, item.href, CardDescription(item), item.dashboard.value.statsLabel)
  }

  function CardsOf(items: seq<NavigationItem>): (r: seq<FeatureCardData>)
    requires forall k :: 0 <= k < |items| ==> items[k].dashboard.Some?
    ensures |r| == |items|
    ensures forall k :: 0 <= k < |items| ==> r[k] == CardOf(items[k])
  {
    if items == [] then [] else [CardOf(items[0])] + CardsOf(items[1..])
  }

  /** `featureCards`. */
  function FeatureCards(permissions: ClientPermissions, groups: seq<NavigationGroup>): seq<FeatureCardData> {
    var items := VisibleItems(permissions, Flatten(groups));
    assert forall k :: 0 <= k < |items| ==> items[k] in items;
    CardsOf(items)
  }

  /** Some item with dashboard metadata has a required permission: the
      filter reaches `permissions[table]` on it. */
  predicate ReachesLookup(items: seq<NavigationItem>) {
    exists k :: 0 <= k < |items| && items[k].dashboard.Some? && items[k].requiredPermission.Some?
  }

  /** `featureCards` over whatever the context holds: with `permissions`
      `undefined`, the filter throws at the first item it has to look up,
      and otherwise computes the cards of the items needing no permission. */
  function FeatureCardsOf(provided: Option<ClientPermissions>, groups: seq<NavigationGroup>): (r: Rendered<seq<FeatureCardData>>)
    ensures provided.Some? ==> r == Rendered(FeatureCards(provided.value, groups))
    ensures provided.None? ==> (r.Threw? <==> ReachesLookup(Flatten(groups)))
  {
    if provided.Some? then Rendered(FeatureCards(provided.value, groups))
    else if ReachesLookup(Flatten(groups)) then Threw("TypeError: Cannot read properties of undefined")
    else Rendered(FeatureCards(map[], groups))
  }

  /** As written the dashboard's navigation throws on the configured groups,
      while the corrected provider, holding a map that lets the user read
      `users`, shows the "Usuarios" card. */
  lemma FeatureCardsAsWrittenThrows(permissions: ClientPermissions)
    requires "users" in permissions && permissions["users"].canRead == Some(true)
    ensures FeatureCardsOf(ProvidedPermissionsAsWritten, NavigationConfig).Threw?
    ensures CardOf(AdminItems[0]) in FeatureCards(permissions, NavigationConfig)
  {
    FlattenConfig();
    var items := Flatten(NavigationConfig);
    assert items[1] == ManagementItems[0];
    assert items[1].dashboard.Some? && items[1].requiredPermission.Some?;
    assert AdminItems[0] in items;
    assert Visible(permissions, AdminItems[0]);
    FeatureCardsSpec(permissions, NavigationConfig);
  }

  /** Every card comes from a visible configured item, and every visible
      configured item gives a card; cards follow group-then-item order. */
  lemma FeatureCardsSpec(permissions: ClientPermissions, groups: seq<NavigationGroup>)
    ensures forall c :: c in FeatureCards(permissions, groups) <==>
      exists x :: x in Flatten(groups) && Visible(permissions, x) && c == CardOf(x)
    ensures forall a, b :: FeatureCards(permissions, a + b) == FeatureCards(permissions, a) + FeatureCards(permissions, b)
  {
    var items := VisibleItems(permissions, Flatten(groups));
    var r := FeatureCards(permissions, groups);
    forall c | c in r ensures exists x :: x in Flatten(groups) && Visible(permissions, x) && c == CardOf(x) {
      var k :| 0 <= k < |r| && r[k] == c;
      assert items[k] in items;
    }
    forall c | exists x :: x in Flatten(groups) && Visible(permissions, x) && c == CardOf(x) ensures c in r {
      var x :| x in Flatten(groups) && Visible(permissions, x) && c == CardOf(x);
      assert x in items;
      var k :| 0 <= k < |items| && items[k] == x;
      assert r[k] == c;
    }
    forall a, b ensures FeatureCards(permissions, a + b) == FeatureCards(permissions, a) + FeatureCards(permissions, b) {
      FeatureCardsAppend(permissions, a, b);
    }
  }

  lemma FeatureCardsAppend(permissions: ClientPermissions, a: seq<NavigationGroup>, b: seq<NavigationGroup>)
    ensures FeatureCards(permissions, a + b) == FeatureCards(permissions, a) + FeatureCards(permissions, b)
  {
    FlattenAppend(a, b);
    VisibleItemsAppend(permissions, Flatten(a), Flatten(b));
    var ia := VisibleItems(permissions, Flatten(a));
    var ib := VisibleItems(permissions, Flatten(b));
    assert VisibleItems(permissions, Flatten(a + b)) == ia + ib;
    VisibleHaveDashboard(permissions, ia, Flatten(a));
    VisibleHaveDashboard(permissions, ib, Flatten(b));
    CardsOfAppend(ia, ib);
  }

  lemma VisibleHaveDashboard(permissions: ClientPermissions, items: seq<NavigationItem>, from: seq<NavigationItem>)
    requires items == VisibleItems(permissions, from)
    ensures forall k :: 0 <= k < |items| ==> items[k].dashboard.Some?
  {
    forall k | 0 <= k < |items| ensures items[k].dashboard.Some? {
      assert items[k] in items;
    }
  }

  lemma {:induction false} CardsOfAppend(a: seq<NavigationItem>, b: seq<NavigationItem>)
    requires forall k :: 0 <= k < |a| ==> a[k].dashboard.Some?
    requires forall k :: 0 <= k < |b| ==> b[k].dashboard.Some?
    ensures forall k :: 0 <= k < |a + b| ==> (a + b)[k].dashboard.Some?
    ensures CardsOf(a + b) == CardsOf(a) + CardsOf(b)
  {
    if a == [] {
      assert a + b == b;
    } else {
      assert (a + b)[0] == a[0];
      assert (a + b)[1..] == a[1..] + b;
      CardsOfAppend(a[1..], b);
    }
  }

  /** An item that becomes a card whenever its table is readable. */
  predicate CardItem(x: NavigationItem) {
    x.title != "Dashboard" && x.dashboard.Some? && x.requiredPermission.Some?
  }

  lemma ManagementItemsShaped()
    ensures forall x :: x in ManagementItems ==> CardItem(x)
  {
    assert |"\U{00D3}rdenes de compra"| != |"Dashboard"|;
  }

  lemma AdminItemsShaped()
    ensures forall x :: x in AdminItems ==> CardItem(x)
  {
    assert "Auditor\U{00ED}a"[0] != "Dashboard"[0];
  }

  lemma FlattenConfig()
    ensures Flatten(NavigationConfig) == [DashboardItem] + ManagementItems + AdminItems
  {
    var g := NavigationConfig;
    assert g[1..][1..][1..] == [];
    assert g[1..][1..][0].items == AdminItems && g[1..][0].items == ManagementItems;
    assert Flatten(g[1..][1..]) == AdminItems + [];
    assert Flatten(g[1..]) == ManagementItems + AdminItems;
    assert Flatten(g) == [DashboardItem] + (ManagementItems + AdminItems);
  }

  /** The configured items: the Dashboard item has no dashboard metadata,
      and every other item has both dashboard metadata and a required
      permission. */
  lemma ConfigShape()
    ensures forall x :: x in Flatten(NavigationConfig) ==>
      (x.title == "Dashboard" && x.dashboard.None?) ||
      (x.title != "Dashboard" && x.dashboard.Some? && x.requiredPermission.Some?)
  {
    FlattenConfig();
    ManagementItemsShaped();
    AdminItemsShaped();
  }

  /** The Dashboard item is never a card. */
  lemma DashboardNeverCard(permissions: ClientPermissions)
    ensures forall c :: c in FeatureCards(permissions, NavigationConfig) ==> c.title != "Dashboard"
  {
    FeatureCardsSpec(permissions, NavigationConfig);
    ConfigShape();
  }

  /** A present, non-empty description is kept; otherwise the card says
      "Gestionar " and the lowercased title. The stats label is copied. */
  lemma CardFields(item: NavigationItem)
    requires item.dashboard.Some?
    ensures CardOf(item).statsLabel == item.dashboard.value.statsLabel
    ensures CardOf(item).title == item.title && CardOf(item).href == item.href
    ensures item.description.Some? && item.description.value != "" ==> CardOf(item).description == item.description.value
    ensures item.description.None? || item.description == Some("") ==>
      CardOf(item).description == "Gestionar " + ToLower(item.title)
  {
  }

  /** Granting `canRead` never removes a card: with more tables readable,
      every card shown before is still shown. */
  lemma FeatureCardsMonotone(less: ClientPermissions, more: ClientPermissions, groups: seq<NavigationGroup>)
    requires forall t :: t in less && FlagOrFalse(less[t].canRead) ==> t in more && FlagOrFalse(more[t].canRead)
    ensures forall c :: c in FeatureCards(less, groups) ==> c in FeatureCards(more, groups)
    ensures |FeatureCards(less, groups)| <= |FeatureCards(more, groups)|
  {
    FeatureCardsSpec(less, groups);
    FeatureCardsSpec(more, groups);
    forall c | c in FeatureCards(less, groups) ensures c in FeatureCards(more, groups) {
      var x :| x in Flatten(groups) && Visible(less, x) && c == CardOf(x);
      assert Visible(more, x);
    }
    VisibleItemsMonotone(less, more, Flatten(groups));
  }

  lemma {:induction false} VisibleItemsMonotone(less: ClientPermissions, more: ClientPermissions, items: seq<NavigationItem>)
    requires forall t :: t in less && FlagOrFalse(less[t].canRead) ==> t in more && FlagOrFalse(more[t].canRead)
    ensures |VisibleItems(less, items)| <= |VisibleItems(more, items)|
  {
    if items != [] {
      VisibleItemsMonotone(less, more, items[1..]);
      assert Visible(less, items[0]) ==> Visible(more, items[0]);
    }
  }

  lemma {:induction false} NoneVisible(permissions: ClientPermissions, items: seq<NavigationItem>)
    requires forall x :: x in items ==> !Visible(permissions, x)
    ensures VisibleItems(permissions, items) == []
  {
    if items != [] {
      assert items[0] in items;
      NoneVisible(permissions, items[1..]);
    }
  }

  /** With no permissions at all the dashboard shows no card. */
  lemma NoPermissionsNoCards()
    ensures FeatureCards(map[], NavigationConfig) == []
  {
    var items := Flatten(NavigationConfig);
    assert forall x :: x in items ==> !Visible(map[], x) by {
      ConfigShape();
    }
    NoneVisible(map[], items);
  }
}
