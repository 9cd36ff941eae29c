/** The enrichment stage: the classifier over a whole inventory, and what the enrichers keep of a correlated scan. */
module Enrichment {
  import opened Classify
  import opened ClassifyLaws
  import opened Correlation
  import opened Counting
  import opened Hostnames
  import opened Json
  import opened Leases
  import opened Model
  import opened Wrappers
  import O = InventoryObject

  /** `order(i)` is the iteration order of the i-th host's service names. */
  function ClassifiedHosts(hosts: seq<Entry<Host>>, rules: seq<Rule>, order: nat -> seq<string>, lib: Library)
      : (r: seq<Entry<Host>>)
    ensures |r| == |hosts|
    ensures forall i :: 0 <= i < |r| ==> r[i] == Entry(hosts[i].key, Pass(hosts[i].value, rules, order(i), lib))
  {
    seq(|hosts|, i requires 0 <= i < |hosts| => Entry(hosts[i].key, Pass(hosts[i].value, rules, order(i), lib)))
  }

  predicate Reclassified(before: Host, after: Host) {
    after.role != before.role || after.tags != before.tags
  }

  /** How many hosts got another role or other tags. */
  function CountReclassified(before: seq<Entry<Host>>, after: seq<Entry<Host>>): nat
    requires |before| == |after|
  {
    if before == [] then 0
    else
      var n := |before| - 1;
      CountReclassified(before[..n], after[..n]) + if Reclassified(before[n].value, after[n].value) then 1 else 0
  }

  method ClassifyOne(h: Host, rules: seq<Rule>, names: seq<string>, lib: Library) returns (r: Host, changed: bool)
    ensures r == Pass(h, rules, names, lib) && (changed <==> Reclassified(h, r))
  {
    hide Pass;
    var host := new HostRecord(h);
    changed := host.Classify(rules, names, lib);
    r := host.Value();
  }

  /** `ClassifierEnricher.enrich` */
  method ClassifyAll(inventory: O.Inventory, rules: seq<Rule>, order: nat -> seq<string>, lib: Library)
      returns (applied: nat)
    modifies inventory`hosts
    ensures inventory.hosts == ClassifiedHosts(old(inventory.hosts), rules, order, lib)
    ensures applied == CountReclassified(old(inventory.hosts), inventory.hosts)
  {
    hide Pass, CountReclassified, Reclassified;
    ghost var before := inventory.hosts;
    ghost var after := ClassifiedHosts(before, rules, order, lib);
    applied := 0;
    NothingCounted(before, after);
    for i := 0 to |inventory.hosts|
      invariant |inventory.hosts| == |before|
      invariant inventory.hosts == after[..i] + before[i..]
      invariant applied == CountReclassified(before[..i], after[..i])
    {
      var entry := inventory.hosts[i];
      assert entry == before[i..][0];
      var host, changed := ClassifyOne(entry.value, rules, order(i), lib);
      OneMoreCounted(before, after, i);
      assert Entry(entry.key, host) == after[i];
      OneMoreSpliced(before, after, i);
      inventory.hosts := inventory.hosts[i := Entry(entry.key, host)];
      if changed {
        applied := applied + 1;
      }
    }
    assert before[..|before|] == before && after[..|before|] == after;
  }

  lemma {:induction false} OneMoreSpliced<T>(before: seq<T>, after: seq<T>, i: nat)
    requires i < |before| == |after|
    ensures (after[..i] + before[i..])[i := after[i]] == after[..i + 1] + before[i + 1..]
  {
  }

  lemma NothingCounted(before: seq<Entry<Host>>, after: seq<Entry<Host>>)
    requires |before| == |after|
    ensures CountReclassified(before[..0], after[..0]) == 0
  {
  }

  lemma {:induction false} OneMoreCounted(before: seq<Entry<Host>>, after: seq<Entry<Host>>, i: nat)
    requires i < |before| == |after|
    ensures CountReclassified(before[..i + 1], after[..i + 1]) ==
            CountReclassified(before[..i], after[..i]) + if Reclassified(before[i].value, after[i].value) then 1 else 0
  {
    assert before[..i + 1][..i] == before[..i] && after[..i + 1][..i] == after[..i];
  }

  /** The hostname passes and the classifier, in the order the stage runs them. */
  function EnrichedHosts(
      hosts: seq<Entry<Host>>, leases: seq<Lease>, lower: string -> string, names: map<string, Option<string>>,
      rules: seq<Rule>, order: nat -> seq<string>, lib: Library): seq<Entry<Host>>
  {
    var named := NamedHosts(hosts, DhcpName(leases, lower), "dhcp_hostname");
    ClassifiedHosts(NamedHosts(named, RdnsName(names), "rdns"), rules, order, lib)
  }

  /** A pass over a host leaves everything but role, tags and extra alone. */
  lemma {:induction false} PassKeepsFacts(h: Host, rules: seq<Rule>, names: seq<string>, lib: Library)
    ensures var p := Pass(h, rules, names, lib); p == h.(role := p.role, tags := p.tags, extra := p.extra)
  {
    hide Pass, FactTags, VerdictTag, RuleTags, RuledRole, HeuristicRole;
    PassIs(h, rules, names, lib);
  }

  /** These enrichers annotate: whatever leases, names and rules say, ids, order and VMs stay. */
  lemma {:induction false} EnrichersAnnotate(
      inv: Inv, leases: seq<Lease>, lower: string -> string, names: map<string, Option<string>>,
      rules: seq<Rule>, order: nat -> seq<string>, lib: Library)
    ensures Annotated(inv, inv.(hosts := EnrichedHosts(inv.hosts, leases, lower, names, rules, order, lib)))
  {
    hide Pass, DhcpName, RdnsName, Renamed;
    var byLease := NamedHosts(inv.hosts, DhcpName(leases, lower), "dhcp_hostname");
    var named := NamedHosts(byLease, RdnsName(names), "rdns");
    forall h | 0 <= h < |inv.hosts|
      ensures named[h].key == inv.hosts[h].key && named[h].value.id == inv.hosts[h].value.id
    {
      NamedKeepsId(inv.hosts[h].value, DhcpName(leases, lower), "dhcp_hostname");
      NamedKeepsId(byLease[h].value, RdnsName(names), "rdns");
    }
    forall h | 0 <= h < |inv.hosts|
      ensures Pass(named[h].value, rules, order(h), lib).id == named[h].value.id
    {
      PassKeepsFacts(named[h].value, rules, order(h), lib);
    }
  }

  lemma NamedKeepsId(h: Host, namer: Host -> Option<string>, mark: string)
    ensures Named(h, namer, mark).id == h.id
  {
  }

  /** `applied` counts the hosts whose role or tags the stage changed. */
  lemma {:induction false} CountReclassifiedIs(before: seq<Entry<Host>>, after: seq<Entry<Host>>)
    requires |before| == |after|
    ensures CountReclassified(before, after) ==
            |set i | 0 <= i < |before| &&
                     (after[i].value.role != before[i].value.role || after[i].value.tags != before[i].value.tags)|
  {
    var p := (i: int) => 0 <= i < |before| == |after| && Reclassified(before[i].value, after[i].value);
    CountUpTo(before, after, |before|, p);
    assert before[..|before|] == before && after[..|before|] == after;
    assert (set i | 0 <= i < |before| && p(i)) ==
           (set i | 0 <= i < |before| &&
                    (after[i].value.role != before[i].value.role || after[i].value.tags != before[i].value.tags));
  }

  lemma {:induction false} CountUpTo(before: seq<Entry<Host>>, after: seq<Entry<Host>>, n: nat, p: int -> bool)
    requires n <= |before| == |after|
    requires forall i :: 0 <= i < |before| ==> p(i) == Reclassified(before[i].value, after[i].value)
    ensures CountReclassified(before[..n], after[..n]) == |set i | 0 <= i < n && p(i)|
  {
    hide Reclassified;
    if n > 0 {
      CountUpTo(before, after, n - 1, p);
      OneMorePosition(n - 1, p);
      assert before[..n][..n - 1] == before[..n - 1] && after[..n][..n - 1] == after[..n - 1];
    }
  }
}
