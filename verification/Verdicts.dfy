/** Which evidence gives which role and which tags, told on the services, OS, notes and rules themselves. */
module Verdicts {
  import opened Classify
  import opened ClassifyLaws
  import opened Json
  import opened KeyedLists
  import opened Model
  import opened OrderedSets
  import opened Text
  import opened Wrappers

  // ---- Evidence ----

  predicate Runs(h: Host, name: string) {
    exists i :: 0 <= i < |h.services| && h.services[i].name == Some(name)
  }

  predicate Listens(h: Host, port: int) {
    exists i :: 0 <= i < |h.services| && h.services[i].port == port
  }

  /** Product and name of a service, with a space between them. */
  function ServiceWords(s: Service): string {
    if Truthy(s.product) && Truthy(s.name) then s.product.value + " " + s.name.value
    else if Truthy(s.product) then s.product.value
    else if Truthy(s.name) then s.name.value
    else ""
  }

  /** The words of all services, with a space between services. */
  function AllWords(services: seq<Service>): string {
    if services == [] then ""
    else if |services| == 1 then ServiceWords(services[0])
    else AllWords(services[..|services| - 1]) + " " + ServiceWords(services[|services| - 1])
  }

  /** The text of a note in `extra`, empty without the note. */
  function Note(h: Host, key: string, lib: Library): string {
    var note := Get(h.extra, EntryKey<Json>, key);
    match note
    case Some(e) => lib.show(e.value)
    case None => ""
  }

  /** Services, SNMP description and OS, folded to lower case. */
  function EvidenceText(h: Host, lib: Library): string {
    lib.lower(AllWords(h.services)) + " " + lib.lower(Note(h, "snmp_descr", lib)) + " " +
    lib.lower(if h.os.Some? then h.os.value else "")
  }

  ghost predicate LooksHypervisor(h: Host) {
    || h.role == Hypervisor || h.hostedVmIds != []
    || Runs(h, "proxmox-ve") || Runs(h, "vmware-esxi") || Listens(h, 8006) || Listens(h, 902)
  }

  ghost predicate LooksNas(h: Host, lib: Library) {
    var text := EvidenceText(h, lib);
    || Occurs(text, "synology") || Occurs(text, "qnap") || Occurs(text, "truenas") || Occurs(text, "unraid")
    || Occurs(text, "freenas")
    || ((Runs(h, "smb") || Runs(h, "nfs") || Runs(h, "afp"))
        && (Runs(h, "http") || Runs(h, "https") || Runs(h, "http-alt")))
  }

  ghost predicate LooksPrinter(h: Host) {
    || Runs(h, "jetdirect") || Runs(h, "ipp") || Runs(h, "printer")
    || Listens(h, 9100) || Listens(h, 515) || Listens(h, 631)
  }

  ghost predicate LooksNetwork(h: Host, lib: Library) {
    var text := EvidenceText(h, lib);
    || Occurs(text, "routeros") || Occurs(text, "mikrotik") || Occurs(text, "cisco ios") || Occurs(text, "edgeos")
    || Occurs(text, "vyos")
  }

  /** `r` is the verdict the evidence calls for, strongest evidence first; `None` when nothing speaks. */
  ghost predicate Speaks(h: Host, lib: Library, r: Option<HostRole>) {
    && (LooksHypervisor(h) ==> r == Some(Hypervisor))
    && (!LooksHypervisor(h) && LooksNas(h, lib) ==> r == Some(Nas))
    && (!LooksHypervisor(h) && !LooksNas(h, lib) && LooksPrinter(h) ==> r == Some(Printer))
    && (!LooksHypervisor(h) && !LooksNas(h, lib) && !LooksPrinter(h) && LooksNetwork(h, lib) ==> r == Some(Network))
    && (!LooksHypervisor(h) && !LooksNas(h, lib) && !LooksPrinter(h) && !LooksNetwork(h, lib) ==>
          r == lib.vendorFor(h.mac).1)
  }

  lemma {:induction false} NamesAre(h: Host, name: string)
    requires name != ""
    ensures name in Names(h) <==> Runs(h, name)
  {
  }

  lemma {:induction false} PortsAre(h: Host, port: int)
    ensures port in Ports(h) <==> Listens(h, port)
  {
  }

  lemma {:induction false} JoinSnoc(parts: seq<string>, x: string)
    requires parts != []
    ensures JoinSpaced(parts + [x]) == JoinSpaced(parts) + " " + x
  {
    var all := parts + [x];
    assert all[1..] == parts[1..] + [x];
    if |parts| > 1 {
      JoinSnoc(parts[1..], x);
    }
  }

  lemma {:induction false} OneText(x: Service)
    ensures ServiceTexts([x]) == [ServiceWords(x)]
  {
    assert [x][1..] == [];
    if Truthy(x.product) && Truthy(x.name) {
      var parts := [x.product.value] + [x.name.value];
      assert parts[1..] == [x.name.value];
      assert JoinSpaced(parts) == x.product.value + " " + x.name.value;
    }
  }

  lemma {:induction false} TextsSnoc(services: seq<Service>, x: Service)
    ensures ServiceTexts(services + [x]) == ServiceTexts(services) + [ServiceWords(x)]
    ensures |ServiceTexts(services)| == |services|
  {
    if services == [] {
      assert services + [x] == [x] && [x][1..] == [];
      OneText(x);
    } else {
      assert (services + [x])[1..] == services[1..] + [x];
      TextsSnoc(services[1..], x);
    }
  }

  lemma {:induction false} WordsJoined(services: seq<Service>)
    ensures JoinSpaced(ServiceTexts(services)) == AllWords(services)
  {
    if services != [] {
      var n := |services| - 1;
      var front, x := services[..n], services[n];
      assert services == front + [x];
      TextsSnoc(front, x);
      if front == [] {
        assert ServiceTexts(front) == [];
      } else {
        WordsJoined(front);
        JoinSnoc(ServiceTexts(front), ServiceWords(x));
      }
    }
  }

  lemma {:induction false} BlobIsEvidence(h: Host, lib: Library)
    ensures Blob(h, lib) == EvidenceText(h, lib)
  {
    WordsJoined(h.services);
  }

  lemma {:induction false} SomeOccurs(text: string, a: string, b: string, c: string, d: string, e: string)
    ensures AnyIn(text, {a, b, c, d, e}) <==>
            Occurs(text, a) || Occurs(text, b) || Occurs(text, c) || Occurs(text, d) || Occurs(text, e)
  {
    hide Contains, Occurs;
    ContainsIff(text, a);
    ContainsIff(text, b);
    ContainsIff(text, c);
    ContainsIff(text, d);
    ContainsIff(text, e);
  }

  lemma {:induction false} TwoOf<T>(s: set<T>, a: T, b: T)
    ensures {a, b} * s != {} <==> a in s || b in s
  {
    assert a in s ==> a in {a, b} * s;
    assert b in s ==> b in {a, b} * s;
  }

  lemma {:induction false} ThreeOf<T>(s: set<T>, a: T, b: T, c: T)
    ensures {a, b, c} * s != {} <==> a in s || b in s || c in s
  {
    assert a in s ==> a in {a, b, c} * s;
    assert b in s ==> b in {a, b, c} * s;
    assert c in s ==> c in {a, b, c} * s;
  }

  lemma {:induction false} HypervisorEvidence(h: Host)
    ensures LooksHypervisor(h) <==>
            IsHypervisor(h) || {"proxmox-ve", "vmware-esxi"} * Names(h) != {} || {8006, 902} * Ports(h) != {}
  {
    hide Names, Ports, Runs, Listens;
    TwoOf(Names(h), "proxmox-ve", "vmware-esxi");
    TwoOf(Ports(h), 8006, 902);
    NamesAre(h, "proxmox-ve");
    NamesAre(h, "vmware-esxi");
    PortsAre(h, 8006);
    PortsAre(h, 902);
  }

  lemma {:induction false} NasEvidence(h: Host, lib: Library)
    ensures LooksNas(h, lib) <==>
            || AnyIn(Blob(h, lib), {"synology", "qnap", "truenas", "unraid", "freenas"})
            || ({"smb", "nfs", "afp"} * Names(h) != {} && {"http", "https", "http-alt"} * Names(h) != {})
  {
    hide Names, Runs, Blob, EvidenceText, AnyIn, Occurs;
    BlobIsEvidence(h, lib);
    SomeOccurs(Blob(h, lib), "synology", "qnap", "truenas", "unraid", "freenas");
    ThreeOf(Names(h), "smb", "nfs", "afp");
    ThreeOf(Names(h), "http", "https", "http-alt");
    NamesAre(h, "smb");
    NamesAre(h, "nfs");
    NamesAre(h, "afp");
    NamesAre(h, "http");
    NamesAre(h, "https");
    NamesAre(h, "http-alt");
  }

  lemma {:induction false} PrinterEvidence(h: Host)
    ensures LooksPrinter(h) <==>
            {"jetdirect", "ipp", "printer"} * Names(h) != {} || {9100, 515, 631} * Ports(h) != {}
  {
    hide Names, Ports, Runs, Listens;
    ThreeOf(Names(h), "jetdirect", "ipp", "printer");
    ThreeOf(Ports(h), 9100, 515, 631);
    NamesAre(h, "jetdirect");
    NamesAre(h, "ipp");
    NamesAre(h, "printer");
    PortsAre(h, 9100);
    PortsAre(h, 515);
    PortsAre(h, 631);
  }

  lemma {:induction false} NetworkEvidence(h: Host, lib: Library)
    ensures LooksNetwork(h, lib) <==>
            AnyIn(Blob(h, lib), {"routeros", "mikrotik", "cisco ios", "edgeos", "vyos"})
  {
    hide Blob, EvidenceText, AnyIn, Occurs;
    BlobIsEvidence(h, lib);
    SomeOccurs(Blob(h, lib), "routeros", "mikrotik", "cisco ios", "edgeos", "vyos");
  }

  lemma {:induction false} SuggestionSpeaks(h: Host, lib: Library)
    ensures Speaks(h, lib, SuggestRole(h, lib))
  {
    hide LooksHypervisor, LooksNas, LooksPrinter, LooksNetwork, AnyIn, Blob, Names, Ports, IsHypervisor;
    HypervisorEvidence(h);
    NasEvidence(h, lib);
    PrinterEvidence(h);
    NetworkEvidence(h, lib);
  }

  /** Noting the vendor is no evidence. */
  lemma {:induction false} VendorNoteIsNoEvidence(h: Host, lib: Library, r: Option<HostRole>)
    ensures Speaks(WithVendor(h, lib), lib, r) <==> Speaks(h, lib, r)
  {
    hide AllWords, Note, LooksPrinter, Occurs;
    var v := WithVendor(h, lib);
    SameDescription(h, lib);
    assert v == h.(extra := v.extra);
    assert EvidenceText(v, lib) == EvidenceText(h, lib);
    SameServices(h, v);
  }

  lemma {:induction false} SameServices(h: Host, v: Host)
    requires v == h.(extra := v.extra)
    ensures LooksHypervisor(v) == LooksHypervisor(h) && LooksPrinter(v) == LooksPrinter(h)
    ensures forall name :: Runs(v, name) == Runs(h, name)
  {
  }

  lemma {:induction false} SameDescription(h: Host, lib: Library)
    ensures Note(WithVendor(h, lib), "snmp_descr", lib) == Note(h, "snmp_descr", lib)
  {
    var v := WithVendor(h, lib);
    if v != h {
      var x := v.extra[|h.extra|];
      assert v.extra == h.extra + [x] && x.key == "vendor";
      assert "vendor"[0] == 'v' && "snmp_descr"[0] == 's';
      NoteBehind(h.extra, x, "snmp_descr");
    }
  }

  lemma {:induction false} NoteBehind(extra: seq<Entry<Json>>, x: Entry<Json>, key: string)
    requires x.key != key
    ensures Get(extra + [x], EntryKey<Json>, key) == Get(extra, EntryKey<Json>, key)
  {
    var i := Find(extra, EntryKey<Json>, key);
    FindIs(extra + [x], EntryKey<Json>, key, if i < |extra| then i else |extra| + 1);
  }

  // ---- What a pass makes of it ----

  /**
   * A pass without rules takes a host of unknown or physical role for what the strongest evidence says, leaves every
   * other role alone, and tags the host with the verdict in either case.
   */
  lemma {:induction false} VerdictOfPass(h: Host, names: seq<string>, lib: Library) returns (r: Option<HostRole>)
    ensures Speaks(h, lib, r)
    ensures var p := Pass(h, [], names, lib);
            && (h.role == Unknown || h.role == Physical ==> p.role == r.GetOr(h.role))
            && (h.role != Unknown && h.role != Physical ==> p.role == h.role)
            && (r.Some? ==> RoleName(r.value) in p.tags)
  {
    hide Pass, SuggestRole, FactTags, Speaks, RoleName, Dedupe;
    var v := WithVendor(h, lib);
    r := SuggestRole(v, lib);
    SuggestionSpeaks(v, lib);
    VendorNoteIsNoEvidence(h, lib, r);
    PassIs(h, [], names, lib);
    DedupeElements(h.tags + (FactTags(v, names, lib) + VerdictTag(v, lib)) + RuleTags(v, [], lib));
    assert r.Some? ==> VerdictTag(v, lib)[0] == RoleName(r.value);
  }

  /** In particular: the role such a pass leaves, by evidence. */
  lemma {:induction false} RoleByEvidence(h: Host, names: seq<string>, lib: Library)
    requires h.role == Unknown || h.role == Physical
    ensures var p := Pass(h, [], names, lib);
            var vendorRole := lib.vendorFor(h.mac).1;
            if LooksHypervisor(h) then p.role == Hypervisor && "hypervisor" in p.tags
            else if LooksNas(h, lib) then p.role == Nas && "nas" in p.tags
            else if LooksPrinter(h) then p.role == Printer && "printer" in p.tags
            else if LooksNetwork(h, lib) then p.role == Network && "network" in p.tags
            else if vendorRole.Some? then p.role == vendorRole.value && RoleName(vendorRole.value) in p.tags
            else p.role == h.role
  {
    hide Pass, LooksHypervisor, LooksNas, LooksPrinter, LooksNetwork;
    var r := VerdictOfPass(h, names, lib);
  }

  // ---- Rules ----

  /** Every criterion a rule states is met, and it states one. */
  ghost predicate Meets(h: Host, rule: Rule, lib: Library) {
    && (rule.ports != [] ==> exists port :: port in rule.ports && Listens(h, port))
    && (rule.services != [] ==> exists name :: name in rule.services && name != "" && Runs(h, name))
    && (rule.osContains.Some? && rule.osContains.value != "" ==>
          Occurs(lib.lower(if h.os.Some? then h.os.value else ""), lib.lower(rule.osContains.value)))
    && (rule.vendorContains.Some? && rule.vendorContains.value != "" ==>
          Occurs(lib.lower(Note(h, "vendor", lib)), lib.lower(rule.vendorContains.value)))
    && (rule.hostnameRegex.Some? && rule.hostnameRegex.value != "" ==>
          lib.search(rule.hostnameRegex.value, if h.hostname.Some? then h.hostname.value else ""))
    && !(rule.ports == [] && rule.services == []
         && (rule.osContains == None || rule.osContains == Some(""))
         && (rule.vendorContains == None || rule.vendorContains == Some(""))
         && (rule.hostnameRegex == None || rule.hostnameRegex == Some("")))
  }

  lemma {:induction false} MatchesIff(h: Host, rule: Rule, lib: Library)
    ensures RuleMatches(h, rule, lib) <==> Meets(h, rule, lib)
  {
    hide Contains, Occurs;
    PortsMeet(h, rule);
    ServicesMeet(h, rule);
    if rule.osContains.Some? {
      ContainsIff(lib.lower(TextOr(h.os)), lib.lower(rule.osContains.value));
    }
    if rule.vendorContains.Some? {
      ContainsIff(lib.lower(ExtraText(h, "vendor", lib)), lib.lower(rule.vendorContains.value));
    }
  }

  lemma {:induction false} PortsMeet(h: Host, rule: Rule)
    ensures Elements(rule.ports) * Ports(h) != {} <==> exists port :: port in rule.ports && Listens(h, port)
  {
    forall port
      ensures port in Elements(rule.ports) * Ports(h) <==> port in rule.ports && Listens(h, port)
    {
      PortsAre(h, port);
    }
  }

  lemma {:induction false} ServicesMeet(h: Host, rule: Rule)
    ensures Elements(rule.services) * Names(h) != {} <==>
            exists name :: name in rule.services && name != "" && Runs(h, name)
  {
    forall name
      ensures name in Elements(rule.services) * Names(h) <==> name in rule.services && name != "" && Runs(h, name)
    {
      if name != "" {
        NamesAre(h, name);
      }
    }
  }

  /** Rule `i` is met and names a role. */
  ghost predicate SetsRole(v: Host, rules: seq<Rule>, i: nat, lib: Library, r: HostRole) {
    i < |rules| && Meets(v, rules[i], lib) && rules[i].role == Some(RoleName(r))
  }

  /** The last rule that is met and names a role decides it, whatever the role was. */
  lemma {:induction false} LastRuleDecides(
      h: Host, rules: seq<Rule>, names: seq<string>, lib: Library, i: nat, r: HostRole)
    requires SetsRole(WithVendor(h, lib), rules, i, lib, r)
    requires forall j, q :: i < j < |rules| ==> !SetsRole(WithVendor(h, lib), rules, j, lib, q)
    ensures Pass(h, rules, names, lib).role == r
  {
    hide Pass, RuleMatches, Meets, HeuristicRole, RuleRole;
    var v := WithVendor(h, lib);
    PassIs(h, rules, names, lib);
    DecidedBy(v, rules, lib, HeuristicRole(v, lib), i, r);
  }

  lemma {:induction false} DecidedBy(v: Host, rules: seq<Rule>, lib: Library, start: HostRole, i: nat, r: HostRole)
    requires SetsRole(v, rules, i, lib, r)
    requires forall j, q :: i < j < |rules| ==> !SetsRole(v, rules, j, lib, q)
    ensures RuledRole(v, rules, lib, start) == r
  {
    hide RuleMatches, Meets, RuleRole;
    var n := |rules| - 1;
    SetsRoleIff(v, rules, n, lib);
    if i < n {
      forall j, q | i < j < n
        ensures !SetsRole(v, rules[..n], j, lib, q)
      {
        assert !SetsRole(v, rules, j, lib, q);
      }
      assert !SetsRole(v, rules, n, lib, RuleRole(rules[n]).GetOr(r));
      DecidedBy(v, rules[..n], lib, start, i, r);
    } else {
      assert SetsRole(v, rules, n, lib, r);
    }
  }

  lemma {:induction false} SetsRoleIff(v: Host, rules: seq<Rule>, i: nat, lib: Library)
    requires i < |rules|
    ensures forall q :: SetsRole(v, rules, i, lib, q) <==>
              RuleMatches(v, rules[i], lib) && RuleRole(rules[i]) == Some(q)
  {
    hide RuleMatches, Meets;
    MatchesIff(v, rules[i], lib);
    forall q
      ensures rules[i].role == Some(RoleName(q)) <==> RuleRole(rules[i]) == Some(q)
    {
      if rules[i].role.Some? {
        RoleNameRoundTrip(q, rules[i].role.value);
      }
    }
  }

  /** Where no rule that is met names a role, the rules leave the one the heuristics found. */
  lemma {:induction false} OtherwiseHeuristics(h: Host, rules: seq<Rule>, names: seq<string>, lib: Library)
    requires forall j, q :: 0 <= j < |rules| ==> !SetsRole(WithVendor(h, lib), rules, j, lib, q)
    ensures Pass(h, rules, names, lib).role == Pass(h, [], names, lib).role
  {
    hide Pass, SetsRole, HeuristicRole;
    var v := WithVendor(h, lib);
    PassIs(h, rules, names, lib);
    PassIs(h, [], names, lib);
    Undecided(v, rules, lib, HeuristicRole(v, lib));
  }

  lemma {:induction false} Undecided(v: Host, rules: seq<Rule>, lib: Library, start: HostRole)
    requires forall j, q :: 0 <= j < |rules| ==> !SetsRole(v, rules, j, lib, q)
    ensures RuledRole(v, rules, lib, start) == start
  {
    hide RuleMatches, Meets, RuleRole;
    if rules != [] {
      var n := |rules| - 1;
      SetsRoleIff(v, rules, n, lib);
      assert !SetsRole(v, rules, n, lib, RuleRole(rules[n]).GetOr(start));
      forall j, q | 0 <= j < n
        ensures !SetsRole(v, rules[..n], j, lib, q)
      {
        assert !SetsRole(v, rules, j, lib, q);
      }
      Undecided(v, rules[..n], lib, start);
    }
  }

  // ---- Tags ----

  /** A tag the facts of a host call for: of one of its services, for running containers, or of its vendor. */
  ghost predicate FactTag(h: Host, lib: Library, tag: string) {
    var vendor := lib.vendorFor(h.mac).0;
    || (exists name :: name != "" && Runs(h, name) && ServiceTag(name) == Some(tag))
    || (h.containers != [] && tag == "container-host")
    || (vendor.Some? && vendor.value != "" && tag == "vendor:" + Dashed(lib.lower(vendor.value)))
  }

  /** The tags of a host after a pass: its own, those of its facts, the verdict, and those of the rules it meets. */
  lemma {:induction false} TagsOfPass(h: Host, rules: seq<Rule>, names: seq<string>, lib: Library, tag: string)
      returns (verdict: Option<HostRole>)
    requires Enumerates(names, h)
    ensures Speaks(h, lib, verdict)
    ensures tag in Pass(h, rules, names, lib).tags <==>
            || tag in h.tags || FactTag(h, lib, tag) || (verdict.Some? && tag == RoleName(verdict.value))
            || exists i :: 0 <= i < |rules| && Meets(WithVendor(h, lib), rules[i], lib) && tag in rules[i].tags
  {
    hide Pass, SuggestRole, Speaks, RoleName, Dedupe, FactTags, FactTag, RuleTags, Meets;
    var v := WithVendor(h, lib);
    verdict := SuggestRole(v, lib);
    SuggestionSpeaks(v, lib);
    VendorNoteIsNoEvidence(h, lib, verdict);
    PassIs(h, rules, names, lib);
    DedupeElements(h.tags + (FactTags(v, names, lib) + VerdictTag(v, lib)) + RuleTags(v, rules, lib));
    FactTagsAre(h, v, names, lib, tag);
    RuleTagsAre(v, rules, lib, tag);
  }

  lemma {:induction false} FactTagsAre(h: Host, v: Host, names: seq<string>, lib: Library, tag: string)
    requires Enumerates(names, h) && v == h.(extra := v.extra)
    ensures tag in FactTags(v, names, lib) <==> FactTag(h, lib, tag)
  {
    hide ServiceTag;
    TagsOfNamesElements(names);
    forall name
      ensures name in names <==> name != "" && Runs(h, name)
    {
      if name != "" {
        NamesAre(h, name);
      }
    }
  }

  lemma {:induction false} RuleTagsAre(v: Host, rules: seq<Rule>, lib: Library, tag: string)
    ensures tag in RuleTags(v, rules, lib) <==>
            exists i :: 0 <= i < |rules| && Meets(v, rules[i], lib) && tag in rules[i].tags
  {
    hide RuleMatches, Meets;
    if rules != [] {
      var n := |rules| - 1;
      RuleTagsAre(v, rules[..n], lib, tag);
      MatchesIff(v, rules[n], lib);
      assert forall i :: 0 <= i < n ==> rules[..n][i] == rules[i];
    }
  }

  /** The table of service tags. */
  lemma {:induction false} ServiceTagsAre(name: string, tag: string)
    ensures ServiceTag(name) == Some(tag) <==>
            || (tag == "web-server" && name in ["http", "https", "http-alt", "https-alt"])
            || (tag == "database" && name in ["mysql", "postgresql", "redis", "mongodb", "mssql"])
            || (tag == "mail" && name in ["smtp", "imap", "imaps", "pop3"])
            || (tag == "file-sharing" && name in ["smb", "nfs", "afp"])
            || (tag == name && name in ["dns", "ssh", "rdp"])
  {
    assert "dns"[0] == 'd' && "ssh"[0] == 's' && "rdp"[0] == 'r';
    assert "smb"[0] == 's' && "nfs"[0] == 'n' && "afp"[0] == 'a';
  }

  /** A pass notes the vendor of a host that has no such note yet, keeps every other note, and touches nothing else. */
  lemma {:induction false} NotesOfPass(h: Host, rules: seq<Rule>, names: seq<string>, lib: Library, key: string)
    ensures var p, vendor := Pass(h, rules, names, lib), lib.vendorFor(h.mac).0;
            && p == h.(role := p.role, tags := p.tags, extra := p.extra)
            && Get(p.extra, EntryKey<Json>, key) ==
               if key == "vendor" && !HasKey(h.extra, EntryKey<Json>, key) && vendor.Some? && vendor.value != ""
               then Some(Entry("vendor", Str(vendor.value)))
               else Get(h.extra, EntryKey<Json>, key)
  {
    hide Pass, FactTags, VerdictTag, RuleTags, RuledRole, HeuristicRole;
    PassIs(h, rules, names, lib);
    var v := WithVendor(h, lib);
    if v != h {
      var x := v.extra[|h.extra|];
      assert v.extra == h.extra + [x] && x.key == "vendor";
      if key == "vendor" {
        FindIs(v.extra, EntryKey<Json>, key, |h.extra|);
      } else {
        NoteBehind(h.extra, x, key);
      }
    }
  }
}
