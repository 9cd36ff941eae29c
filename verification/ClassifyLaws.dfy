/** Classification comes to rest: after one pass without rules, after two passes with any rules. */
module ClassifyLaws {
  import opened Classify
  import opened Json
  import opened KeyedLists
  import opened Model
  import opened OrderedSets
  import opened Text
  import opened Wrappers

  // ---- What a pass does, in closed form ----

  /** Matching looks at services, OS, hostname and extra - never at role or tags. */
  lemma {:induction false} MatchingIgnoresVerdict(h: Host, r: HostRole, tags: seq<string>, rule: Rule, lib: Library)
    ensures RuleMatches(h.(role := r, tags := tags), rule, lib) == RuleMatches(h, rule, lib)
  {
    assert Ports(h.(role := r, tags := tags)) == Ports(h);
    assert Names(h.(role := r, tags := tags)) == Names(h);
  }

  /** The role the rules leave when they start from `r`: that of the last matching rule with a known role. */
  function RuledRole(h: Host, rules: seq<Rule>, lib: Library, r: HostRole): HostRole {
    if rules == [] then r
    else
      var rule := rules[|rules| - 1];
      if RuleMatches(h, rule, lib) && RuleRole(rule).Some? then RuleRole(rule).value
      else RuledRole(h, rules[..|rules| - 1], lib, r)
  }

  function RuleTags(h: Host, rules: seq<Rule>, lib: Library): seq<string> {
    if rules == [] then []
    else
      var rule := rules[|rules| - 1];
      RuleTags(h, rules[..|rules| - 1], lib) + if RuleMatches(h, rule, lib) then rule.tags else []
  }

  lemma {:induction false} ApplyRulesIs(h: Host, rules: seq<Rule>, lib: Library)
    requires Dedupe(h.tags) == h.tags
    ensures ApplyRules(h, rules, lib) ==
            h.(role := RuledRole(h, rules, lib, h.role), tags := Dedupe(h.tags + RuleTags(h, rules, lib)))
  {
    hide RuleMatches, Dedupe, RuleRole;
    if rules == [] {
      assert h.tags + [] == h.tags;
    } else {
      var n := |rules| - 1;
      var before, rule := rules[..n], rules[n];
      ApplyRulesIs(h, before, lib);
      var m := ApplyRules(h, before, lib);
      var t := RuleTags(h, before, lib);
      MatchingIgnoresVerdict(h, m.role, m.tags, rule, lib);
      DedupeLeft(h.tags + t, rule.tags);
      assert h.tags + t + rule.tags == h.tags + (t + rule.tags);
      assert t + [] == t;
    }
  }

  /** Rules either set the role whatever it was, or leave it alone. */
  lemma {:induction false} RuledRoleIsConstantOrIdentity(
      h: Host, rules: seq<Rule>, lib: Library, r1: HostRole, r2: HostRole)
    ensures RuledRole(h, rules, lib, r1) == RuledRole(h, rules, lib, r2) ||
            (RuledRole(h, rules, lib, r1) == r1 && RuledRole(h, rules, lib, r2) == r2)
  {
    if rules != [] {
      RuledRoleIsConstantOrIdentity(h, rules[..|rules| - 1], lib, r1, r2);
    }
  }

  function HeuristicRole(h: Host, lib: Library): HostRole {
    var s := SuggestRole(h, lib);
    if s.Some? && Weak(h.role) then s.value else h.role
  }

  /** A pass in closed form; `v` is the host with its vendor noted. */
  lemma {:induction false} PassIs(h: Host, rules: seq<Rule>, names: seq<string>, lib: Library)
    ensures var v := WithVendor(h, lib);
            Pass(h, rules, names, lib) ==
            v.(role := RuledRole(v, rules, lib, HeuristicRole(v, lib)),
               tags := Dedupe(h.tags + (FactTags(v, names, lib) + VerdictTag(v, lib)) + RuleTags(v, rules, lib)))
  {
    var v := WithVendor(h, lib);
    var m := Heuristic(v, names, lib);
    var found := FactTags(v, names, lib) + VerdictTag(v, lib);
    DedupeRight(h.tags, found);
    DedupeElements(h.tags + found);
    DedupeNoDup(m.tags);
    assert m == v.(role := HeuristicRole(v, lib), tags := Dedupe(h.tags + found));
    ApplyRulesIs(m, rules, lib);
    SameFactsForRules(v, m.role, m.tags, rules, lib);
    DedupeLeft(h.tags + found, RuleTags(v, rules, lib));
  }

  lemma {:induction false} SameFactsForRules(v: Host, r: HostRole, tags: seq<string>, rules: seq<Rule>, lib: Library)
    ensures var m := v.(role := r, tags := tags);
            RuleTags(m, rules, lib) == RuleTags(v, rules, lib) &&
            forall q :: RuledRole(m, rules, lib, q) == RuledRole(v, rules, lib, q)
  {
    if rules != [] {
      SameFactsForRules(v, r, tags, rules[..|rules| - 1], lib);
      MatchingIgnoresVerdict(v, r, tags, rules[|rules| - 1], lib);
    }
  }

  // ---- Repeating it ----

  /** Only being a hypervisor or not reaches the suggestion. */
  lemma {:induction false} SuggestionIgnoresTags(h: Host, r: HostRole, tags: seq<string>, lib: Library)
    requires IsHypervisor(h.(role := r)) == IsHypervisor(h)
    ensures SuggestRole(h.(role := r, tags := tags), lib) == SuggestRole(h, lib)
  {
    var m := h.(role := r, tags := tags);
    assert Ports(m) == Ports(h) && Names(m) == Names(h);
  }

  lemma HypervisorSuggestsItself(h: Host, lib: Library)
    requires IsHypervisor(h)
    ensures SuggestRole(h, lib) == Some(Hypervisor)
  {
  }

  /** The heuristics are at rest after one application, and their verdict does not move. */
  lemma {:induction false} HeuristicRoleIdempotent(h: Host, tags: seq<string>, lib: Library)
    ensures var m := h.(role := HeuristicRole(h, lib), tags := tags);
            HeuristicRole(m, lib) == m.role && SuggestRole(m, lib) == SuggestRole(h, lib)
  {
    var m := h.(role := HeuristicRole(h, lib), tags := tags);
    if IsHypervisor(m) == IsHypervisor(h) {
      SuggestionIgnoresTags(h, m.role, tags, lib);
    } else {
      HypervisorSuggestsItself(m, lib);
    }
  }

  /** The enumeration order of the service names does not matter to the set of tags. */
  lemma {:induction false} TagsOfNamesElements(names: seq<string>)
    ensures forall t :: t in TagsOfNames(names) <==> exists n :: n in names && ServiceTag(n) == Some(t)
  {
    hide ServiceTag;
    if names != [] {
      var front, x := names[..|names| - 1], names[|names| - 1];
      TagsOfNamesElements(front);
      assert names == front + [x];
    }
  }

  lemma {:induction false} FactTagsElements(h: Host, v: Host, names1: seq<string>, names2: seq<string>, lib: Library)
    requires v == h.(role := v.role, tags := v.tags, extra := v.extra)
    requires Enumerates(names1, h) && Enumerates(names2, v)
    ensures forall t :: t in FactTags(h, names1, lib) <==> t in FactTags(v, names2, lib)
  {
    hide ServiceTag;
    assert Names(v) == Names(h);
    TagsOfNamesElements(names1);
    TagsOfNamesElements(names2);
    assert forall n :: n in names1 <==> n in names2;
  }

  lemma {:induction false} WithVendorIdempotent(h: Host, r: HostRole, tags: seq<string>, lib: Library)
    ensures var v := WithVendor(h, lib);
            WithVendor(v.(role := r, tags := tags), lib) == v.(role := r, tags := tags)
  {
    var v := WithVendor(h, lib);
    if v != h {
      var e := v.extra[|h.extra|];
      HasKeyAt(v.extra, EntryKey<Json>, |h.extra|);
    }
  }

  /** Tags are only ever added, in every pass with any rules. */
  lemma {:induction false} TagsOnlyGrow(h: Host, rules: seq<Rule>, names: seq<string>, lib: Library)
    ensures forall t :: t in h.tags ==> t in Pass(h, rules, names, lib).tags
  {
    PassIs(h, rules, names, lib);
    var v := WithVendor(h, lib);
    DedupeElements(h.tags + (FactTags(v, names, lib) + VerdictTag(v, lib)) + RuleTags(v, rules, lib));
  }

  /** Without rules a role outside unknown and physical is never touched. */
  lemma {:induction false} HeuristicsKeepProvenRoles(h: Host, names: seq<string>, lib: Library)
    requires h.role != Unknown && h.role != Physical
    ensures Pass(h, [], names, lib).role == h.role
  {
    PassIs(h, [], names, lib);
  }

  /** A pass leaves the services alone, so every pass sees the same set of names, in an order of its own. */
  lemma {:induction false} PassKeepsNames(h: Host, rules: seq<Rule>, names: seq<string>, lib: Library)
    ensures forall order :: Enumerates(order, Pass(h, rules, names, lib)) <==> Enumerates(order, h)
  {
    hide FactTags, VerdictTag, RuleTags, RuledRole, HeuristicRole, Pass;
    PassIs(h, rules, names, lib);
    assert Names(Pass(h, rules, names, lib)) == Names(h);
  }

  /** The second pass finds the role settled and can add at most the tag of the verdict on that role. */
  lemma {:induction false} SecondPass(h: Host, rules: seq<Rule>, names1: seq<string>, names2: seq<string>, lib: Library)
    requires Enumerates(names1, h) && Enumerates(names2, h)
    ensures var p := Pass(h, rules, names1, lib);
            Pass(p, rules, names2, lib) == p.(tags := Dedupe(p.tags + VerdictTag(p, lib)))
  {
    var v, p := WithVendor(h, lib), Pass(h, rules, names1, lib);
    PassIs(h, rules, names1, lib);
    PassIs(p, rules, names2, lib);
    WithVendorIdempotent(h, p.role, p.tags, lib);
    SameFactsForRules(v, p.role, p.tags, rules, lib);
    SecondRole(v, p, rules, lib);
    var all1 := h.tags + (FactTags(v, names1, lib) + VerdictTag(v, lib)) + RuleTags(v, rules, lib);
    DedupeElements(all1);
    assert Names(v) == Names(h);
    FactTagsElements(v, p, names1, names2, lib);
    AddOnlyVerdict(p.tags, FactTags(p, names2, lib), VerdictTag(p, lib), RuleTags(v, rules, lib));
  }

  lemma {:induction false} SecondRole(v: Host, p: Host, rules: seq<Rule>, lib: Library)
    requires p == v.(role := RuledRole(v, rules, lib, HeuristicRole(v, lib)), tags := p.tags)
    ensures RuledRole(v, rules, lib, HeuristicRole(p, lib)) == p.role
  {
    var q := v.(role := HeuristicRole(v, lib), tags := p.tags);
    RuledRoleIsConstantOrIdentity(v, rules, lib, HeuristicRole(v, lib), HeuristicRole(p, lib));
    HeuristicRoleIdempotent(v, p.tags, lib);
    assert p.role == HeuristicRole(v, lib) ==> p == q;
  }

  lemma {:induction false} AddOnlyVerdict(
      tags: seq<string>, facts: seq<string>, verdict: seq<string>, ruled: seq<string>)
    requires NoDup(tags)
    requires (forall t :: t in facts ==> t in tags) && (forall t :: t in ruled ==> t in tags)
    ensures Dedupe(tags + (facts + verdict) + ruled) == Dedupe(tags + verdict)
  {
    hide Dedupe;
    DedupeTail(tags + (facts + verdict), ruled);
    DedupeTail(tags, facts);
    DedupeLeft(tags + facts, verdict);
    DedupeLeft(tags, verdict);
    assert tags + facts + verdict == tags + (facts + verdict);
  }

  /** With no user rules one pass is enough. */
  lemma {:induction false} OnePassWithoutRules(h: Host, names1: seq<string>, names2: seq<string>, lib: Library)
    requires Enumerates(names1, h) && Enumerates(names2, h)
    ensures Pass(Pass(h, [], names1, lib), [], names2, lib) == Pass(h, [], names1, lib)
  {
    var v, p := WithVendor(h, lib), Pass(h, [], names1, lib);
    PassIs(h, [], names1, lib);
    SecondPass(h, [], names1, names2, lib);
    HeuristicRoleIdempotent(v, p.tags, lib);
    var all := h.tags + (FactTags(v, names1, lib) + VerdictTag(v, lib)) + [];
    DedupeElements(all);
    assert p == v.(role := HeuristicRole(v, lib), tags := p.tags);
    assert forall t :: t in VerdictTag(p, lib) ==> t in p.tags;
    DedupeTail(p.tags, VerdictTag(p, lib));
    DedupeNoDup(p.tags);
  }

  /** With any rules the role is fixed after one pass and everything after two. */
  lemma {:induction false} TwoPassesWithRules(
      h: Host, rules: seq<Rule>, names1: seq<string>, names2: seq<string>, names3: seq<string>, lib: Library)
    requires Enumerates(names1, h) && Enumerates(names2, h) && Enumerates(names3, h)
    ensures var p1 := Pass(h, rules, names1, lib);
            var p2 := Pass(p1, rules, names2, lib);
            p2.role == p1.role && Pass(p2, rules, names3, lib) == p2
  {
    var p1 := Pass(h, rules, names1, lib);
    var p2 := Pass(p1, rules, names2, lib);
    PassKeepsNames(h, rules, names1, lib);
    SecondPass(h, rules, names1, names2, lib);
    SecondPass(p1, rules, names2, names3, lib);
    SuggestionIgnoresTags(p1, p1.role, p2.tags, lib);
    DedupeElements(p1.tags + VerdictTag(p1, lib));
    DedupeTail(p2.tags, VerdictTag(p2, lib));
    DedupeNoDup(p2.tags);
  }

  /** The second pass changes something exactly when the verdict on the settled role is not among the tags yet. */
  lemma {:induction false} SecondPassIdleIff(
      h: Host, rules: seq<Rule>, names1: seq<string>, names2: seq<string>, lib: Library)
    requires Enumerates(names1, h) && Enumerates(names2, h)
    ensures var p := Pass(h, rules, names1, lib);
            Pass(p, rules, names2, lib) == p <==> forall t :: t in VerdictTag(p, lib) ==> t in p.tags
  {
    var p := Pass(h, rules, names1, lib);
    SecondPass(h, rules, names1, names2, lib);
    PassIs(h, rules, names1, lib);
    var v := WithVendor(h, lib);
    DedupeElements(h.tags + (FactTags(v, names1, lib) + VerdictTag(v, lib)) + RuleTags(v, rules, lib));
    DedupeNoDup(p.tags);
    DedupeElements(p.tags + VerdictTag(p, lib));
    if forall t :: t in VerdictTag(p, lib) ==> t in p.tags {
      DedupeTail(p.tags, VerdictTag(p, lib));
    }
  }

  /** The role a pass leaves, from the host and the rules alone. */
  function SettledRole(h: Host, rules: seq<Rule>, lib: Library): HostRole {
    var v := WithVendor(h, lib);
    RuledRole(v, rules, lib, HeuristicRole(v, lib))
  }

  /** The tags a pass leaves: those the host had, those of its facts and first verdict, those of the matching rules. */
  ghost predicate Tagged(h: Host, rules: seq<Rule>, names: seq<string>, lib: Library, tag: string) {
    var v := WithVendor(h, lib);
    || tag in h.tags || tag in FactTags(v, names, lib) || tag in VerdictTag(v, lib) || tag in RuleTags(v, rules, lib)
  }

  /**
   * One pass is enough exactly when the host is a hypervisor after the rules if and only if it was one before the pass,
   * or when the verdict on the role the rules left is among the tags anyway.
   */
  lemma {:induction false} OnePassIsEnoughIff(
      h: Host, rules: seq<Rule>, names1: seq<string>, names2: seq<string>, lib: Library)
    requires Enumerates(names1, h) && Enumerates(names2, h)
    ensures var v := WithVendor(h, lib);
            var settled := v.(role := SettledRole(h, rules, lib));
            Pass(Pass(h, rules, names1, lib), rules, names2, lib) == Pass(h, rules, names1, lib) <==>
            || IsHypervisor(settled) == IsHypervisor(v)
            || forall tag :: tag in VerdictTag(settled, lib) ==> Tagged(h, rules, names1, lib, tag)
  {
    hide Pass, RuledRole, HeuristicRole, SuggestRole, FactTags, RuleTags, Dedupe;
    var v, p := WithVendor(h, lib), Pass(h, rules, names1, lib);
    var settled := v.(role := SettledRole(h, rules, lib));
    SecondPassIdleIff(h, rules, names1, names2, lib);
    PassIs(h, rules, names1, lib);
    DedupeElements(h.tags + (FactTags(v, names1, lib) + VerdictTag(v, lib)) + RuleTags(v, rules, lib));
    assert forall tag :: tag in p.tags <==> Tagged(h, rules, names1, lib, tag);
    assert p == settled.(role := settled.role, tags := p.tags);
    SuggestionIgnoresTags(settled, settled.role, p.tags, lib);
    if IsHypervisor(settled) == IsHypervisor(v) {
      SuggestionIgnoresTags(v, settled.role, v.tags, lib);
    }
  }

  /** A rule that makes a host a hypervisor: the first pass sets the role, only the second one tags it. */
  lemma {:induction false} OnePassIsNotEnoughWithRules(h: Host, lib: Library)
    requires h.tags == [] && h.role == Unknown && h.hostedVmIds == [] && h.containers == [] && h.extra == []
    requires h.services == [Service(22, "tcp", None, None, None, "open", None, None, [])]
    requires lib.vendorFor(h.mac) == (None, None) && SuggestRole(h, lib) == None
    ensures var rule := Rule(Some("hypervisor"), [], [22], [], None, None, None);
            var p := Pass(h, [rule], [], lib);
            p.role == Hypervisor && p.tags == [] && Pass(p, [rule], [], lib).tags == ["hypervisor"]
  {
    hide RuleMatches, SuggestRole, Dedupe;
    var rule := Rule(Some("hypervisor"), [], [22], [], None, None, None);
    FirstPassMakesHypervisor(h, rule, lib);
    var p := Pass(h, [rule], [], lib);
    HypervisorSuggestsItself(p, lib);
    assert Names(h) == {};
    SecondPass(h, [rule], [], [], lib);
    assert p.tags + VerdictTag(p, lib) == ["hypervisor"];
    DedupeNoDup(["hypervisor"]);
  }

  lemma {:induction false} FirstPassMakesHypervisor(h: Host, rule: Rule, lib: Library)
    requires h.tags == [] && h.role == Unknown && h.hostedVmIds == [] && h.containers == [] && h.extra == []
    requires h.services == [Service(22, "tcp", None, None, None, "open", None, None, [])]
    requires lib.vendorFor(h.mac) == (None, None) && SuggestRole(h, lib) == None
    requires rule == Rule(Some("hypervisor"), [], [22], [], None, None, None)
    ensures var p := Pass(h, [rule], [], lib); p.role == Hypervisor && p.tags == []
  {
    hide SuggestRole, Pass;
    MatchesPort22(h, rule, lib);
    assert [rule][..0] == [];
    PassIs(h, [rule], [], lib);
    RoleNameRoundTrip(Hypervisor, "hypervisor");
    assert FactTags(h, [], lib) == [] && VerdictTag(h, lib) == [] && RuleTags(h, [rule], lib) == [];
  }

  lemma {:induction false} MatchesPort22(h: Host, rule: Rule, lib: Library)
    requires h.services == [Service(22, "tcp", None, None, None, "open", None, None, [])]
    requires rule == Rule(Some("hypervisor"), [], [22], [], None, None, None)
    ensures RuleMatches(h, rule, lib)
  {
    assert 22 in Elements(rule.ports) && h.services[0].port in Ports(h);
    assert 22 in Elements(rule.ports) * Ports(h);
  }

  /** A library without vendors whose case folding forgets everything, and a host with an open port 22. */
  const PLAIN := Library((s: string) => "", (j: Json) => "", (r: string, s: string) => false,
                         (m: Option<string>) => (None, None))
  const PORT_22 := Host("ip:10.0.0.1", ["10.0.0.1"], None, None, Unknown, None,
                        [Service(22, "tcp", None, None, None, "open", None, None, [])],
                        [], [], [], [], [], None, [], None, None, [])

  lemma {:induction false} LongerIsNotContained(text: string, part: string)
    requires |part| > |text|
    ensures !Contains(text, part)
  {
    if text != [] {
      LongerIsNotContained(text[1..], part);
    }
  }

  lemma {:induction false} NoneOfLonger(text: string, parts: set<string>)
    requires forall p :: p in parts ==> |p| > |text|
    ensures !AnyIn(text, parts)
  {
    forall p | p in parts
      ensures !Contains(text, p)
    {
      LongerIsNotContained(text, p);
    }
  }

  lemma {:induction false} NothingToSuggest(h: Host, lib: Library)
    requires Names(h) == {} && (forall p :: p in Ports(h) ==> p == 22) && |Blob(h, lib)| == 2
    requires !IsHypervisor(h) && lib.vendorFor(h.mac).1 == None
    ensures SuggestRole(h, lib) == None
  {
    hide AnyIn, Names, Ports, Blob;
    var blob := Blob(h, lib);
    NoneOfLonger(blob, {"synology", "qnap", "truenas", "unraid", "freenas"});
    NoneOfLonger(blob, {"routeros", "mikrotik", "cisco ios", "edgeos", "vyos"});
  }

  lemma {:induction false} NothingSuggested()
    ensures SuggestRole(PORT_22, PLAIN) == None
  {
    hide SuggestRole, ServiceTexts, JoinSpaced, ExtraText, AnyIn;
    assert |Blob(PORT_22, PLAIN)| == 2;
    NothingToSuggest(PORT_22, PLAIN);
  }

  lemma {:induction false} WitnessOfTwoPasses()
    ensures var rule := Rule(Some("hypervisor"), [], [22], [], None, None, None);
            Pass(Pass(PORT_22, [rule], [], PLAIN), [rule], [], PLAIN) != Pass(PORT_22, [rule], [], PLAIN)
  {
    hide SuggestRole, Pass;
    NothingSuggested();
    OnePassIsNotEnoughWithRules(PORT_22, PLAIN);
  }
}
