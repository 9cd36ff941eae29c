/** Role and tag classification: heuristics, user rules, and when repeated passes come to rest. */
module Classify {
  import opened Json
  import opened KeyedLists
  import opened Model
  import opened OrderedSets
  import opened Text
  import opened Wrappers

  /** What the classifier takes from outside: case folding, `str`, regular expressions and the vendor table. */
  datatype Library = Library(
    lower: string -> string,
    show: Json -> string,
    search: (string, string) -> bool,
    vendorFor: Option<string> -> (Option<string>, Option<HostRole>))

  datatype Rule = Rule(
    role: Option<string>,
    tags: seq<string>,
    ports: seq<int>,
    services: seq<string>,
    osContains: Option<string>,
    vendorContains: Option<string>,
    hostnameRegex: Option<string>)

  /** `_WEAK_ROLES` */
  predicate Weak(r: HostRole) {
    r == Unknown || r == Physical
  }

  function Names(h: Host): set<string> {
    set i | 0 <= i < |h.services| && Truthy(h.services[i].name) :: h.services[i].name.value
  }

  function Ports(h: Host): set<int> {
    set i | 0 <= i < |h.services| :: h.services[i].port
  }

  function TextOr(s: Option<string>): string {
    if s.Some? then s.value else ""
  }

  function JoinSpaced(parts: seq<string>): string {
    if parts == [] then "" else if |parts| == 1 then parts[0] else parts[0] + " " + JoinSpaced(parts[1..])
  }

  function ServiceTexts(services: seq<Service>): seq<string> {
    if services == [] then []
    else
      var s := services[0];
      var product := if Truthy(s.product) then [s.product.value] else [];
      var parts := product + if Truthy(s.name) then [s.name.value] else [];
      [JoinSpaced(parts)] + ServiceTexts(services[1..])
  }

  /** `str(extra.get(key, ""))` */
  function ExtraText(h: Host, key: string, lib: Library): string {
    var e := Get(h.extra, EntryKey<Json>, key);
    if e.Some? then lib.show(e.value.value) else ""
  }

  /** The text the vendor and product strings are looked up in. */
  function Blob(h: Host, lib: Library): string {
    lib.lower(JoinSpaced(ServiceTexts(h.services))) + " " + lib.lower(ExtraText(h, "snmp_descr", lib)) + " " +
    lib.lower(TextOr(h.os))
  }

  predicate AnyIn(text: string, parts: set<string>) {
    exists p | p in parts :: Contains(text, p)
  }

  /** `_suggest_role` */
  function SuggestRole(h: Host, lib: Library): Option<HostRole> {
    var names, ports, blob := Names(h), Ports(h), Blob(h, lib);
    if IsHypervisor(h) || {"proxmox-ve", "vmware-esxi"} * names != {} || {8006, 902} * ports != {} then Some(Hypervisor)
    else if AnyIn(blob, {"synology", "qnap", "truenas", "unraid", "freenas"}) then Some(Nas)
    else if {"smb", "nfs", "afp"} * names != {} && {"http", "https", "http-alt"} * names != {} then Some(Nas)
    else if {"jetdirect", "ipp", "printer"} * names != {} || {9100, 515, 631} * ports != {} then Some(Printer)
    else if AnyIn(blob, {"routeros", "mikrotik", "cisco ios", "edgeos", "vyos"}) then Some(Network)
    else lib.vendorFor(h.mac).1
  }

  /** Some order in which Python may iterate the set of service names. */
  ghost predicate Enumerates(names: seq<string>, h: Host) {
    NoDup(names) && (forall n :: n in names <==> n in Names(h))
  }

  /** `_SERVICE_TAGS` */
  function ServiceTag(name: string): Option<string> {
    if name in {"http", "https", "http-alt", "https-alt"} then Some("web-server")
    else if name in {"mysql", "postgresql", "redis", "mongodb", "mssql"} then Some("database")
    else if name == "dns" then Some("dns")
    else if name in {"smtp", "imap", "imaps", "pop3"} then Some("mail")
    else if name == "ssh" then Some("ssh")
    else if name == "rdp" then Some("rdp")
    else if name in {"smb", "nfs", "afp"} then Some("file-sharing")
    else None
  }

  /** `s.replace(" ", "-")` */
  function Dashed(s: string): (r: string)
    ensures |r| == |s|
    ensures forall i :: 0 <= i < |s| ==> r[i] == if s[i] == ' ' then '-' else s[i]
  {
    seq(|s|, i requires 0 <= i < |s| => if s[i] == ' ' then '-' else s[i])
  }

  function TagsOfNames(names: seq<string>): seq<string> {
    if names == [] then []
    else
      var tag := ServiceTag(names[|names| - 1]);
      TagsOfNames(names[..|names| - 1]) + if tag.Some? then [tag.value] else []
  }

  /** The tags that do not depend on the role. */
  function FactTags(h: Host, names: seq<string>, lib: Library): seq<string> {
    var vendor := lib.vendorFor(h.mac).0;
    TagsOfNames(names)
    + (if h.containers != [] then ["container-host"] else [])
    + (if Truthy(vendor) then ["vendor:" + Dashed(lib.lower(vendor.value))] else [])
  }

  function VerdictTag(h: Host, lib: Library): seq<string> {
    var role := SuggestRole(h, lib);
    if role.Some? then [RoleName(role.value)] else []
  }

  /** `classify_host`; `names` is the set of service names in iteration order. */
  function ClassifyHost(h: Host, names: seq<string>, lib: Library): (Option<HostRole>, seq<string>) {
    (SuggestRole(h, lib), Dedupe(FactTags(h, names, lib) + VerdictTag(h, lib)))
  }

  function Elements<T>(s: seq<T>): set<T> {
    set x | x in s
  }

  /** `_rule_matches` */
  predicate RuleMatches(h: Host, rule: Rule, lib: Library) {
    && (rule.ports != [] ==> Elements(rule.ports) * Ports(h) != {})
    && (rule.services != [] ==> Elements(rule.services) * Names(h) != {})
    && (Truthy(rule.osContains) ==> Contains(lib.lower(TextOr(h.os)), lib.lower(rule.osContains.value)))
    && (Truthy(rule.vendorContains) ==>
          Contains(lib.lower(ExtraText(h, "vendor", lib)), lib.lower(rule.vendorContains.value)))
    && (Truthy(rule.hostnameRegex) ==> lib.search(rule.hostnameRegex.value, TextOr(h.hostname)))
    && (rule.ports != [] || rule.services != [] || Truthy(rule.osContains) || Truthy(rule.vendorContains)
        || Truthy(rule.hostnameRegex))
  }

  /** The role a matching rule sets; an unknown role string is ignored. */
  function RuleRole(rule: Rule): Option<HostRole> {
    if Truthy(rule.role) then ParseRole(rule.role.value) else None
  }

  function ApplyRule(h: Host, rule: Rule, lib: Library): Host {
    if RuleMatches(h, rule, lib) then
      h.(role := RuleRole(rule).GetOr(h.role), tags := Dedupe(h.tags + rule.tags))
    else h
  }

  function ApplyRules(h: Host, rules: seq<Rule>, lib: Library): Host {
    if rules == [] then h else ApplyRule(ApplyRules(h, rules[..|rules| - 1], lib), rules[|rules| - 1], lib)
  }

  /** `extra.setdefault("vendor", vendor)` */
  function WithVendor(h: Host, lib: Library): Host {
    var vendor := lib.vendorFor(h.mac).0;
    if Truthy(vendor) && !HasKey(h.extra, EntryKey<Json>, "vendor") then
      h.(extra := h.extra + [Entry("vendor", Str(vendor.value))])
    else h
  }

  function Heuristic(h: Host, names: seq<string>, lib: Library): Host {
    var (role, tags) := ClassifyHost(h, names, lib);
    h.(role := if role.Some? && Weak(h.role) then role.value else h.role, tags := Dedupe(h.tags + tags))
  }

  /** One pass over a host: `_classify`. */
  function Pass(h: Host, rules: seq<Rule>, names: seq<string>, lib: Library): Host {
    ApplyRules(Heuristic(WithVendor(h, lib), names, lib), rules, lib)
  }

  /** A host being classified: only its role, tags and extra change. */
  class HostRecord {
    const facts: Host
    var role: HostRole
    var tags: seq<string>
    var extra: seq<Entry<Json>>

    function Value(): Host
      reads this
    {
      facts.(role := role, tags := tags, extra := extra)
    }

    constructor (h: Host)
      ensures Value() == h
    {
      facts, role, tags, extra := h, h.role, h.tags, h.extra;
    }

    /** `_classify`; the answer tells whether role or tags changed. */
    method Classify(rules: seq<Rule>, names: seq<string>, lib: Library) returns (changed: bool)
      modifies this
      ensures Value() == Pass(old(Value()), rules, names, lib)
      ensures changed <==> role != old(role) || tags != old(tags)
    {
      var vendor, vendorRole := lib.vendorFor(facts.mac).0, lib.vendorFor(facts.mac).1;
      if Truthy(vendor) && !HasKey(extra, EntryKey<Json>, "vendor") {
        extra := extra + [Entry("vendor", Str(vendor.value))];
      }
      var beforeRole, beforeTags := role, tags;
      var (suggested, found) := ClassifyHost(Value(), names, lib);
      if suggested.Some? && Weak(role) {
        role := suggested.value;
      }
      tags := Dedupe(tags + found);
      assert Value() == Heuristic(WithVendor(old(Value()), lib), names, lib);
      RunRules(rules, lib);
      changed := role != beforeRole || tags != beforeTags;
    }

    /** The rule loop. */
    method RunRules(rules: seq<Rule>, lib: Library)
      modifies this`role, this`tags
      ensures Value() == ApplyRules(old(Value()), rules, lib)
    {
      hide RuleMatches, Dedupe, ParseRole;
      ghost var start := Value();
      assert rules[..0] == [];
      for i := 0 to |rules|
        invariant Value() == ApplyRules(start, rules[..i], lib)
      {
        assert rules[..i + 1][..i] == rules[..i];
        if RuleMatches(Value(), rules[i], lib) {
          if Truthy(rules[i].role) {
            var parsed := ParseRole(rules[i].role.value);
            if parsed.Some? { role := parsed.value; }
          }
          tags := Dedupe(tags + rules[i].tags);
        }
      }
      assert rules[..|rules|] == rules;
    }
  }
}
