/** Service changes by protocol and port: what a host diff adds, removes and changes, on the hosts' own services. */
module ServiceDiffs {
  import opened DiffLaws
  import opened Diffs
  import opened Flattening
  import opened KeyedLists
  import opened Model
  import opened Sorting
  import opened Text
  import opened Wrappers

  predicate SamePort(s: Service, t: Service) {
    s.protocol == t.protocol && s.port == t.port
  }

  /** Position `i` holds the last service of its protocol and port: the one a dict of the services keeps. */
  ghost predicate LastOfPort(s: seq<Service>, i: nat)
    requires i < |s|
  {
    forall j :: i < j < |s| ==> !SamePort(s[j], s[i])
  }

  ghost predicate Listed(s: seq<Service>, x: Service) {
    exists j :: 0 <= j < |s| && SamePort(s[j], x)
  }

  /** The labels of the first `n` of `these` that are the last of their port, and whose port `those` does not list. */
  ghost function LabelsBeyond(these: seq<Service>, those: seq<Service>, n: nat): multiset<string>
    requires n <= |these|
  {
    if n == 0 then multiset{}
    else
      var x := these[n - 1];
      LabelsBeyond(these, those, n - 1) +
      if LastOfPort(these, n - 1) && !Listed(those, x) then multiset{ServiceLabel(x)} else multiset{}
  }

  /** The same sum by service key, for an arbitrary set of keys. */
  ghost function LastLabels(s: seq<Service>, n: nat, ks: set<string>): multiset<string>
    requires n <= |s|
  {
    if n == 0 then multiset{}
    else
      LastLabels(s, n - 1, ks) + LastLabel(s, n - 1, ks)
  }

  ghost function LastLabel(s: seq<Service>, i: nat, ks: set<string>): multiset<string>
    requires i < |s|
  {
    if LastOfKey(s, i) && ServiceKey(s[i]) in ks then multiset{ServiceLabel(s[i])} else multiset{}
  }

  ghost predicate LastOfKey(s: seq<Service>, i: nat)
    requires i < |s|
  {
    forall j :: i < j < |s| ==> ServiceKey(s[j]) != ServiceKey(s[i])
  }

  lemma {:induction false} LastLabelsSnoc(s: seq<Service>, x: Service, n: nat, ks: set<string>)
    requires n <= |s|
    ensures LastLabels(s + [x], n, ks) == LastLabels(s, n, ks - {ServiceKey(x)})
  {
    hide ServiceKey, ServiceLabel, LastLabel;
    if n > 0 {
      LastLabelsSnoc(s, x, n - 1, ks);
      LastLabelSnoc(s, x, n - 1, ks);
    }
  }

  lemma {:induction false} LastLabelSnoc(s: seq<Service>, x: Service, i: nat, ks: set<string>)
    requires i < |s|
    ensures LastLabel(s + [x], i, ks) == LastLabel(s, i, ks - {ServiceKey(x)})
  {
    hide ServiceKey, ServiceLabel, LastOfKey;
    StillLast(s, x, i);
    assert (s + [x])[i] == s[i];
  }

  lemma {:induction false} StillLast(s: seq<Service>, x: Service, i: nat)
    requires i < |s|
    ensures LastOfKey(s + [x], i) <==> LastOfKey(s, i) && ServiceKey(x) != ServiceKey(s[i])
  {
    hide ServiceKey;
    var t := s + [x];
    assert t[|s|] == x && forall j :: 0 <= j < |s| ==> t[j] == s[j];
  }

  function KeyLabels(d: seq<Service>, ks: set<string>): seq<string> {
    FlatMap(Among(d, ServiceKey, ks), OneLabel)
  }

  /** Filing `x` changes nothing under other keys. */
  lemma {:induction false} AmongOthers(d: seq<Service>, x: Service, ks: set<string>)
    requires ServiceKey(x) !in ks
    ensures Among(Upsert(d, x, ServiceKey, TakeNew), ServiceKey, ks) == Among(d, ServiceKey, ks)
  {
    hide ServiceKey;
    var i := Find(d, ServiceKey, ServiceKey(x));
    if i == |d| {
      assert (d + [x])[..|d|] == d;
    } else {
      AmongReplaced(d, x, i, ks);
    }
  }

  lemma {:induction false} AmongReplaced(d: seq<Service>, x: Service, i: nat, ks: set<string>)
    requires i < |d| && ServiceKey(x) == ServiceKey(d[i]) && ServiceKey(x) !in ks
    ensures Among(d[i := x], ServiceKey, ks) == Among(d, ServiceKey, ks)
  {
    hide ServiceKey;
    var n := |d| - 1;
    if i == n {
      assert d[i := x][..n] == d[..n];
    } else {
      assert d[i := x][..n] == d[..n][i := x];
      AmongReplaced(d[..n], x, i, ks);
    }
  }

  /** What a dict of services shows under a set of keys: the labels of the last service of each. */
  lemma {:induction false} DictShowsLast(s: seq<Service>, ks: set<string>)
    ensures multiset(KeyLabels(ServiceDict(s), ks)) == LastLabels(s, |s|, ks)
  {
    hide ServiceKey, ServiceLabel, Among;
    if s == [] {
      NothingAmong(ks);
    } else {
      var n := |s| - 1;
      var front, x := s[..n], s[n];
      var k, d := ServiceKey(x), ServiceDict(front);
      var all := ServiceDict(s);
      assert all == Upsert(d, x, ServiceKey, TakeNew) && s == front + [x];
      DictShowsLast(front, ks - {k});
      LastLabelsSnoc(front, x, n, ks);
      AmongOthers(d, x, ks - {k});
      assert LastOfKey(s, n);
      if k in ks {
        ServiceDictIs(s);
        PutAllGet([], s, ServiceKey, k);
        LastIs(s, ServiceKey, k, n);
        HasKeyAt(s, ServiceKey, n);
        OneKey(all, ServiceKey, ks, k, OneLabel);
      } else {
        assert ks - {k} == ks;
      }
    }
  }

  lemma {:induction false} NothingAmong(ks: set<string>)
    ensures KeyLabels(ServiceDict([]), ks) == []
  {
  }

  lemma {:induction false} KeyMeansPort(s: seq<Service>, x: Service)
    ensures ServiceKey(x) in KeySet(ServiceDict(s), ServiceKey) <==> Listed(s, x)
  {
    hide ServiceDict;
    ServiceDictIs(s);
    forall j | 0 <= j < |s|
      ensures ServiceKey(s[j]) == ServiceKey(x) <==> SamePort(s[j], x)
    {
      ServiceKeyIff(s[j], x);
    }
    if j :| 0 <= j < |s| && SamePort(s[j], x) {
      HasKeyAt(s, ServiceKey, j);
    }
  }

  lemma {:induction false} LastLabelsBeyond(these: seq<Service>, those: seq<Service>, n: nat)
    requires n <= |these|
    ensures LastLabels(these, n, KeySet(ServiceDict(these), ServiceKey) - KeySet(ServiceDict(those), ServiceKey)) ==
            LabelsBeyond(these, those, n)
  {
    hide ServiceKey, ServiceLabel, ServiceDict, KeySet;
    if n > 0 {
      var x := these[n - 1];
      LastLabelsBeyond(these, those, n - 1);
      KeyMeansPort(these, x);
      KeyMeansPort(those, x);
      assert SamePort(these[n - 1], x);
      forall j | 0 <= j < |these|
        ensures ServiceKey(these[j]) == ServiceKey(x) <==> SamePort(these[j], x)
      {
        ServiceKeyIff(these[j], x);
      }
    }
  }

  /**
   * Added are the labels of the ports the new host lists and the old one does not, removed those of the ports only the
   * old one lists: once per port, each time that of its last service, sorted.
   */
  lemma {:induction false} AddedAndRemoved(a: Host, b: Host)
    ensures var c := HostDiff(a, b);
            && multiset(c.servicesAdded) == LabelsBeyond(b.services, a.services, |b.services|)
            && multiset(c.servicesRemoved) == LabelsBeyond(a.services, b.services, |a.services|)
            && SortedBy(c.servicesAdded, Itself) && SortedBy(c.servicesRemoved, Itself)
  {
    hide HostFieldDrift, ServiceDrifts, ServiceDict, HostLabel, LabelsOnlyIn, LabelsBeyond;
    var was, is_ := ServiceDict(a.services), ServiceDict(b.services);
    OrderedIsSorted(LabelsOnlyIn(is_, was), Itself);
    OrderedIsSorted(LabelsOnlyIn(was, is_), Itself);
    LabelsOnlyInAre(b.services, a.services);
    LabelsOnlyInAre(a.services, b.services);
  }

  lemma {:induction false} LabelsOnlyInAre(these: seq<Service>, those: seq<Service>)
    ensures multiset(LabelsOnlyIn(ServiceDict(these), ServiceDict(those))) == LabelsBeyond(these, those, |these|)
  {
    hide ServiceDict;
    DictShowsLast(these, KeySet(ServiceDict(these), ServiceKey) - KeySet(ServiceDict(those), ServiceKey));
    LastLabelsBeyond(these, those, |these|);
  }

  /** The last services of one port on both sides, under different labels: `c` tells the old one and the new one. */
  ghost predicate TellsMove(a: Host, b: Host, i: nat, j: nat, c: FieldChange) {
    && i < |a.services| && LastOfPort(a.services, i) && j < |b.services| && LastOfPort(b.services, j)
    && SamePort(a.services[i], b.services[j])
    && ServiceLabel(a.services[i]) != ServiceLabel(b.services[j])
    && c.field == a.services[i].protocol + "/" + Decimal(a.services[i].port)
    && c.before == TextValue(Some(ServiceLabel(a.services[i])))
    && c.after == TextValue(Some(ServiceLabel(b.services[j])))
  }

  /** Changed are exactly the ports both hosts list under different labels, sorted by port. */
  lemma {:induction false} ChangedServices(a: Host, b: Host, c: FieldChange)
    ensures c in HostDiff(a, b).servicesChanged <==> exists i, j :: TellsMove(a, b, i, j, c)
    ensures SortedBy(HostDiff(a, b).servicesChanged, FieldName)
  {
    hide HostFieldDrift, ServiceDrifts, ServiceDict, HostLabel, LabelsOnlyIn, TellsMove, LabelMoved;
    var was, is_ := ServiceDict(a.services), ServiceDict(b.services);
    var drifts := ServiceDrifts(was, is_);
    OrderedIsSorted(drifts, FieldName);
    assert c in HostDiff(a, b).servicesChanged <==> c in multiset(drifts);
    ServiceDictIs(b.services);
    InServiceDrifts(was, is_, c);
    if LabelMoved(was, is_, c) {
      MovedIsTold(a, b, c);
    }
    forall i, j | TellsMove(a, b, i, j, c)
      ensures LabelMoved(was, is_, c)
    {
      ToldIsMoved(a, b, i, j, c);
    }
  }

  lemma {:induction false} MovedIsTold(a: Host, b: Host, c: FieldChange)
    requires LabelMoved(ServiceDict(a.services), ServiceDict(b.services), c)
    ensures exists i, j :: TellsMove(a, b, i, j, c)
  {
    hide ServiceDict, ServiceLabel;
    ServiceDictIs(a.services);
    ServiceDictIs(b.services);
    LastSome(a.services, ServiceKey, c.field);
    LastSome(b.services, ServiceKey, c.field);
    var i := LastPosition(a.services, ServiceKey, c.field);
    var j := LastPosition(b.services, ServiceKey, c.field);
    KeysTellPorts(a.services, i);
    KeysTellPorts(b.services, j);
    ServiceKeyIff(a.services[i], b.services[j]);
    assert TellsMove(a, b, i, j, c);
  }

  lemma {:induction false} ToldIsMoved(a: Host, b: Host, i: nat, j: nat, c: FieldChange)
    requires TellsMove(a, b, i, j, c)
    ensures LabelMoved(ServiceDict(a.services), ServiceDict(b.services), c)
  {
    hide ServiceDict, ServiceLabel;
    ServiceDictIs(a.services);
    ServiceDictIs(b.services);
    KeysTellPorts(a.services, i);
    KeysTellPorts(b.services, j);
    ServiceKeyIff(a.services[i], b.services[j]);
    LastIs(a.services, ServiceKey, c.field, i);
    LastIs(b.services, ServiceKey, c.field, j);
  }

  lemma {:induction false} KeysTellPorts(s: seq<Service>, i: nat)
    requires i < |s|
    ensures LastOfPort(s, i) <==> LastOfKey(s, i)
  {
    hide ServiceKey;
    forall j | i < j < |s|
      ensures ServiceKey(s[j]) == ServiceKey(s[i]) <==> SamePort(s[j], s[i])
    {
      ServiceKeyIff(s[j], s[i]);
    }
  }

  // ---- Labels and addresses ----

  /** The label of a service: its name, or product, or port; a product other than the name goes in brackets. */
  lemma {:induction false} LabelForms(s: Service)
    ensures var base := if Truthy(s.name) then s.name.value
                        else if Truthy(s.product) then s.product.value
                        else s.protocol + "/" + Decimal(s.port);
            var told := Truthy(s.product) && !(Truthy(s.name) && s.name.value == s.product.value);
            && (told && Truthy(s.version) ==>
                  ServiceLabel(s) == base + " (" + s.product.value + " " + s.version.value + ")")
            && (told && !Truthy(s.version) ==> ServiceLabel(s) == base + " (" + s.product.value + ")")
            && (!told && Truthy(s.version) ==> ServiceLabel(s) == base + " " + s.version.value)
            && (!told && !Truthy(s.version) ==> ServiceLabel(s) == base)
  {
  }

  /** A version bump always shows; versions that are both missing or empty are the same. */
  lemma {:induction false} VersionBumpShows(s: Service, v: Option<string>, w: Option<string>)
    ensures ServiceLabel(s.(version := v)) == ServiceLabel(s.(version := w)) <==>
            v == w || (!Truthy(v) && !Truthy(w))
  {
    var x, y := s.(version := v), s.(version := w);
    LabelForms(x);
    LabelForms(y);
    var base := if Truthy(s.name) then s.name.value
                else if Truthy(s.product) then s.product.value
                else s.protocol + "/" + Decimal(s.port);
    if Truthy(v) && Truthy(w) {
      if Truthy(s.product) && s.product != s.name {
        BetweenCancels(base + " (" + s.product.value + " ", v.value, w.value, ")");
      } else {
        BetweenCancels(base + " ", v.value, w.value, "");
        assert base + " " + v.value + "" == base + " " + v.value && base + " " + w.value + "" == base + " " + w.value;
      }
    }
  }

  lemma {:induction false} BetweenCancels(head: string, v: string, w: string, tail: string)
    ensures head + v + tail == head + w + tail <==> v == w
  {
    var p, q := head + v + tail, head + w + tail;
    assert v == p[|head|..|p| - |tail|] && w == q[|head|..|q| - |tail|];
  }

  /** `", ".join`: separators stand between elements and nowhere else. */
  lemma {:induction false} JoinedConcat(s: seq<string>, t: seq<string>)
    requires s != [] && t != []
    ensures Joined(s + t) == Joined(s) + ", " + Joined(t)
    ensures |s| == 1 ==> Joined(s) == s[0]
  {
    hide Joined;
    JoinedSnoc(s, s[0]);
    var n := |t| - 1;
    if n > 0 {
      var front, x := t[..n], t[n];
      JoinedConcat(s, front);
      assert s + t == s + front + [x] && t == front + [x];
      JoinedSnoc(s + front, x);
      JoinedSnoc(front, x);
      assert Joined(s) + ", " + Joined(front) + ", " + x == Joined(s) + ", " + (Joined(front) + ", " + x);
    } else {
      assert t == [t[0]];
      JoinedSnoc(s, t[0]);
    }
    assert |s| == 1 ==> s == [s[0]];
  }

  lemma {:induction false} JoinedSnoc(s: seq<string>, x: string)
    requires s != []
    ensures Joined(s + [x]) == Joined(s) + ", " + x && Joined([x]) == x
  {
    assert (s + [x])[..|s|] == s;
  }

  /** The address change tells the old addresses first, and appears exactly when the multisets differ. */
  lemma {:induction false} AddressChange(a: Host, b: Host, c: FieldChange)
    requires c.field == "addresses"
    ensures c in HostDiff(a, b).fields <==>
            && multiset(a.addresses) != multiset(b.addresses)
            && c.before == TextValue(Some(Joined(a.addresses))) && c.after == TextValue(Some(Joined(b.addresses)))
  {
    hide HostDiff, RoleName, Joined;
    FieldsInOrder(a, b);
    assert "addresses"[0] == 'a' && "role"[0] == 'r' && "hostname"[0] == 'h' && "mac"[0] == 'm' && "os"[0] == 'o';
  }

  lemma {:induction false} VmAddressChange(a: Vm, b: Vm, c: FieldChange)
    requires c.field == "addresses"
    ensures c in VmDiff(a, b).fields <==>
            && multiset(a.addresses) != multiset(b.addresses)
            && c.before == TextValue(Some(Joined(a.addresses))) && c.after == TextValue(Some(Joined(b.addresses)))
  {
    hide PowerName, Joined;
    VmTable(a, b);
    assert "addresses"[0] == 'a' && "power state"[0] == 'p' && "vcpus"[0] == 'v' && "memory (MB)"[0] == 'm';
    assert "guest OS"[0] == 'g' && "hypervisor"[0] == 'h';
  }
}
