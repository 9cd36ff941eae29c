/** JSON value trees: what `to_dict` produces and the storage backends keep. */
module Json {

  /** The attribute names `to_dict` writes. */
  datatype Key =
    | Addresses | Backend | Banner | Cidr | Containers | Description | DiskGb | Extra | FirstSeen | GeneratedAt
    | GuestOs | HostId | HostedVmIds | Hostname | Hosts | HypervisorId | Id | LastSeen | Mac | MacAddresses
    | MemoryMb | Name | Networks | Os | Packages | Port | PowerState | Processes | Product | Protocol | Role
    | SchemaVersion | Services | Source | Sources | State | Tags | Vcpus | Version | Vlan | Vms

  /** One item of a Python dict with string keys. */
  datatype Entry<V> = Entry(key: string, value: V)

  /** `Record` is the object of one `to_dict`; `Mapping` is a free-form object such as `extra`. */
  datatype Json =
    | Null
    | Bool(b: bool)
    | Int(n: int)
    | Real(r: real)
    | Str(s: string)
    | List(items: seq<Json>)
    | Record(fields: map<Key, Json>)
    | Mapping(entries: seq<Entry<Json>>)
}

/** The records of the inventory: services, hosts, virtual machines, networks. */
module Model {
  import opened Json
  import opened KeyedLists
  import opened Text
  import opened Wrappers

  function EntryKey<V>(e: Entry<V>): string { e.key }

  datatype Service = Service(
    port: int,
    protocol: string,
    name: Option<string>,
    product: Option<string>,
    version: Option<string>,
    state: string,
    banner: Option<string>,
    source: Option<string>,
    extra: seq<Entry<Json>>)

  /** `Service.key`: `proto/port`. */
  function ServiceKey(s: Service): string {
    s.protocol + "/" + Decimal(s.port)
  }

  /** What identifies a service on a host. */
  function PortOf(s: Service): (string, int) {
    (s.protocol, s.port)
  }

  /** The last slash splits a key, so two services share one exactly when they share protocol and port. */
  lemma {:induction false} ServiceKeyIff(s: Service, t: Service)
    ensures ServiceKey(s) == ServiceKey(t) <==> s.protocol == t.protocol && s.port == t.port
  {
    NoSlash(s.port);
    NoSlash(t.port);
    if ServiceKey(s) == ServiceKey(t) {
      SplitAtSlash(s.protocol, Decimal(s.port), t.protocol, Decimal(t.port));
      DecimalInjective(s.port, t.port);
    }
  }

  lemma {:induction false} SplitAtSlash(p: string, d: string, q: string, e: string)
    requires p + "/" + d == q + "/" + e && '/' !in d && '/' !in e
    ensures p == q && d == e
  {
    var u, v := p + "/" + d, q + "/" + e;
    forall i | |p| < i < |u|
      ensures u[i] != '/'
    {
      assert u[i] == d[i - |p| - 1] && d[i - |p| - 1] in d;
    }
    forall i | |q| < i < |v|
      ensures v[i] != '/'
    {
      assert v[i] == e[i - |q| - 1] && e[i - |q| - 1] in e;
    }
    assert u[|p|] == '/' && v[|q|] == '/';
    assert |p| == |q|;
    assert p == u[..|p|] && q == v[..|q|] && d == u[|p| + 1..] && e == v[|q| + 1..];
  }

  lemma {:induction false} NoSlash(n: int)
    ensures '/' !in Decimal(n)
  {
  }

  /** `Service.label`: the human label the changelog shows. */
  function ServiceLabel(s: Service): string {
    var bits := if Truthy(s.name) then s.name.value else if Truthy(s.product) then s.product.value else ServiceKey(s);
    if Truthy(s.product) && s.product != s.name then
      bits + " (" + s.product.value + (if Truthy(s.version) then " " + s.version.value else "") + ")"
    else if Truthy(s.version) then bits + " " + s.version.value
    else bits
  }

  datatype HostRole = Unknown | Physical | Hypervisor | VirtualMachine | Container | Network | Nas | Printer

  /** `HostRole.value`. */
  function RoleName(r: HostRole): string {
    match r
    case Unknown => "unknown"
    case Physical => "physical"
    case Hypervisor => "hypervisor"
    case VirtualMachine => "vm"
    case Container => "container"
    case Network => "network"
    case Nas => "nas"
    case Printer => "printer"
  }

  /** `HostRole(s)`, which raises `ValueError` on any other string. */
  function ParseRole(s: string): Option<HostRole> {
    if s == "unknown" then Some(Unknown)
    else if s == "physical" then Some(Physical)
    else if s == "hypervisor" then Some(Hypervisor)
    else if s == "vm" then Some(VirtualMachine)
    else if s == "container" then Some(Container)
    else if s == "network" then Some(Network)
    else if s == "nas" then Some(Nas)
    else if s == "printer" then Some(Printer)
    else None
  }

  lemma {:induction false} RoleNameRoundTrip(r: HostRole, s: string)
    ensures ParseRole(s) == Some(r) <==> s == RoleName(r)
  {
    assert "unknown"[0] == 'u' && "network"[0] == 'n' && "printer"[0] == 'p';
  }

  datatype DiscoverySource = Icmp | Arp | Tcp | Nmap | Virtualization | Manual

  /** `DiscoverySource.value`. */
  function SourceName(d: DiscoverySource): string {
    match d
    case Icmp => "icmp"
    case Arp => "arp"
    case Tcp => "tcp"
    case Nmap => "nmap"
    case Virtualization => "virtualization"
    case Manual => "manual"
  }

  function ParseSource(s: string): Option<DiscoverySource> {
    if s == "icmp" then Some(Icmp)
    else if s == "arp" then Some(Arp)
    else if s == "tcp" then Some(Tcp)
    else if s == "nmap" then Some(Nmap)
    else if s == "virtualization" then Some(Virtualization)
    else if s == "manual" then Some(Manual)
    else None
  }

  lemma {:induction false} SourceNameRoundTrip(d: DiscoverySource, s: string)
    ensures ParseSource(s) == Some(d) <==> s == SourceName(d)
  {
    assert "icmp"[0] == 'i' && "nmap"[0] == 'n' && "arp"[0] == 'a' && "tcp"[0] == 't';
  }

  datatype PowerState = Running | Stopped | Paused | UnknownPower

  /** `PowerState.value`. */
  function PowerName(p: PowerState): string {
    match p
    case Running => "running"
    case Stopped => "stopped"
    case Paused => "paused"
    case UnknownPower => "unknown"
  }

  function ParsePower(s: string): Option<PowerState> {
    if s == "running" then Some(Running)
    else if s == "stopped" then Some(Stopped)
    else if s == "paused" then Some(Paused)
    else if s == "unknown" then Some(UnknownPower)
    else None
  }

  lemma {:induction false} PowerNameRoundTrip(p: PowerState, s: string)
    ensures ParsePower(s) == Some(p) <==> s == PowerName(p)
  {
    assert "running"[0] == 'r' && "stopped"[0] == 's' && "unknown"[0] == 'u';
  }

  datatype Host = Host(
    id: string,
    addresses: seq<string>,
    hostname: Option<string>,
    mac: Option<string>,
    role: HostRole,
    os: Option<string>,
    services: seq<Service>,
    tags: seq<string>,
    sources: seq<DiscoverySource>,
    packages: seq<Json>,
    processes: seq<Json>,
    containers: seq<Json>,
    hypervisorId: Option<string>,
    hostedVmIds: seq<string>,
    firstSeen: Option<string>,
    lastSeen: Option<string>,
    extra: seq<Entry<Json>>)

  /** `Host.primary_address`. */
  function PrimaryAddress(h: Host): Option<string> {
    if h.addresses != [] then Some(h.addresses[0]) else None
  }

  /** The name reports use: `hostname or primary_address or id`. */
  function HostLabel(h: Host): string {
    if Truthy(h.hostname) then h.hostname.value
    else if Truthy(PrimaryAddress(h)) then PrimaryAddress(h).value
    else h.id
  }

  /** `Host.is_hypervisor`. */
  predicate IsHypervisor(h: Host) {
    h.role == Hypervisor || h.hostedVmIds != []
  }

  datatype Vm = Vm(
    id: string,
    name: string,
    hypervisorId: string,
    backend: string,
    powerState: PowerState,
    vcpus: Option<int>,
    memoryMb: Option<int>,
    diskGb: Option<real>,
    guestOs: Option<string>,
    addresses: seq<string>,
    macAddresses: seq<string>,
    hostId: Option<string>,
    tags: seq<string>,
    extra: seq<Entry<Json>>)

  datatype Net = Net(
    cidr: string,
    name: Option<string>,
    vlan: Option<int>,
    description: Option<string>,
    extra: seq<Entry<Json>>)

  function NetCidr(n: Net): string { n.cidr }

  /** The state of an `Inventory`: two dicts seen as their item lists, and a list of networks. */
  datatype Inv = Inv(
    hosts: seq<Entry<Host>>,
    vms: seq<Entry<Vm>>,
    networks: seq<Net>,
    generatedAt: string,
    schemaVersion: int)

  /** No key twice: what every Python dict guarantees. */
  ghost predicate IsDict<V>(d: seq<Entry<V>>) {
    Distinct(d, EntryKey)
  }

  function Values<V>(d: seq<Entry<V>>): (r: seq<V>)
    ensures |r| == |d|
    ensures forall i :: 0 <= i < |d| ==> r[i] == d[i].value
  {
    if d == [] then [] else Values(d[..|d| - 1]) + [d[|d| - 1].value]
  }

  /** The ids a dict answers for. */
  function Ids<V>(d: seq<Entry<V>>): (r: set<string>)
    ensures forall k :: k in r <==> HasKey(d, EntryKey, k)
  {
    KeySet(d, EntryKey)
  }

  /** Every record is filed under its own id. */
  ghost predicate FiledById(inv: Inv) {
    && (forall e :: e in inv.hosts ==> e.key == e.value.id)
    && (forall e :: e in inv.vms ==> e.key == e.value.id)
  }

  /** A state Python can hold whose records are filed by id. */
  ghost predicate WellFormed(inv: Inv) {
    && IsDict(inv.hosts)
    && IsDict(inv.vms)
    && FiledById(inv)
  }
}
