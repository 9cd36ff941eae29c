/** Overlaying a profile on the base configuration: `_deep_merge`. */
module Profiles {
  import opened Wrappers

  /** A parsed configuration value. The order of mapping keys is not represented. */
  datatype Value = Scalar(text: string) | Sequence(items: seq<Value>) | Mapping(m: map<string, Value>)

  /** `overlay` laid over `base`: nested mappings merge key by key, everything else is replaced. */
  function Merged(base: Value, overlay: Value): Value
    decreases overlay
  {
    if base.Mapping? && overlay.Mapping? then
      Mapping(map k | k in base.m.Keys + overlay.m.Keys ::
        if k !in overlay.m then base.m[k] else if k in base.m then Merged(base.m[k], overlay.m[k]) else overlay.m[k])
    else overlay
  }

  /** `_deep_merge`: a copy of `base`, updated key by key. */
  method DeepMerge(base: map<string, Value>, overlay: map<string, Value>) returns (result: map<string, Value>)
    ensures Mapping(result) == Merged(Mapping(base), Mapping(overlay))
    decreases Mapping(overlay)
  {
    result := base;
    var rest := overlay.Keys;
    while rest != {}
      invariant rest <= overlay.Keys
      invariant result.Keys == base.Keys + (overlay.Keys - rest)
      invariant forall k :: k in result ==>
                  result[k] == if k in overlay && k !in rest && k in base then Merged(base[k], overlay[k])
                               else if k in overlay && k !in rest then overlay[k]
                               else base[k]
      decreases rest
    {
      var key :| key in rest;
      var value := overlay[key];
      if key in result && result[key].Mapping? && value.Mapping? {
        var merged := DeepMerge(result[key].m, value.m);
        result := result[key := Mapping(merged)];
      } else {
        result := result[key := value];
      }
      rest := rest - {key};
    }
  }

  // ---- Key paths ----

  type Path = seq<string>

  function At(v: Value, p: Path): Option<Value> {
    if p == [] then Some(v)
    else if v.Mapping? && p[0] in v.m then At(v.m[p[0]], p[1..])
    else None
  }

  /** Some proper prefix of `p` holds something that is not a mapping. */
  predicate CutOff(v: Value, p: Path) {
    p != [] && (!v.Mapping? || (p[0] in v.m && CutOff(v.m[p[0]], p[1..])))
  }

  /** At every path the overlay decides; the base shows only where the overlay neither speaks nor cuts it off. */
  lemma {:induction false} MergedAt(a: Value, b: Value, p: Path)
    ensures At(Merged(a, b), p) ==
            if At(b, p).Some? then
              (if At(a, p).Some? then Some(Merged(At(a, p).value, At(b, p).value)) else At(b, p))
            else if CutOff(b, p) then None
            else At(a, p)
    decreases p
  {
    if p != [] && a.Mapping? && b.Mapping? && p[0] in a.m && p[0] in b.m {
      MergedAt(a.m[p[0]], b.m[p[0]], p[1..]);
    }
  }

  /** In particular a scalar or list of the overlay is found unchanged at its path. */
  lemma {:induction false} OverlayLeafWins(a: Value, b: Value, p: Path)
    requires At(b, p).Some? && !At(b, p).value.Mapping?
    ensures At(Merged(a, b), p) == At(b, p)
  {
    MergedAt(a, b, p);
  }

  // ---- Algebra ----

  lemma {:induction false} EmptyIsIdentity(m: map<string, Value>)
    ensures Merged(Mapping(map[]), Mapping(m)) == Mapping(m) == Merged(Mapping(m), Mapping(map[]))
  {
    assert Merged(Mapping(map[]), Mapping(m)).m == m;
    assert Merged(Mapping(m), Mapping(map[])).m == m;
  }

  /** Every key path of `a` through mappings exists in `c`. */
  predicate Within(a: Value, c: Value)
    decreases c
  {
    a.Mapping? && c.Mapping? ==> forall k | k in a.m :: k in c.m && Within(a.m[k], c.m[k])
  }

  /** An overlay hides its base completely exactly when every key path of the base exists in it. */
  lemma {:induction false} HiddenIff(a: Value, c: Value)
    ensures Merged(a, c) == c <==> Within(a, c)
    decreases c
  {
    if a.Mapping? && c.Mapping? {
      var r := Merged(a, c).m;
      forall k | k in a.m && k in c.m
        ensures r[k] == c.m[k] <==> Within(a.m[k], c.m[k])
      {
        HiddenIff(a.m[k], c.m[k]);
      }
      if Within(a, c) {
        assert r == c.m;
      } else {
        var k :| k in a.m && !(k in c.m && Within(a.m[k], c.m[k]));
        assert k in r;
      }
    }
  }

  lemma {:induction false} WithinSelf(v: Value)
    ensures Within(v, v)
    decreases v
  {
    if v.Mapping? {
      forall k | k in v.m
        ensures Within(v.m[k], v.m[k])
      {
        WithinSelf(v.m[k]);
      }
    }
  }

  /** Laying the same profile twice changes nothing more. */
  lemma {:induction false} OverlayTwice(a: Value, b: Value)
    ensures Merged(Merged(a, b), b) == Merged(a, b)
    decreases b
  {
    if a.Mapping? && b.Mapping? {
      var r, rr := Merged(a, b).m, Merged(Merged(a, b), b).m;
      forall k | k in r
        ensures rr[k] == r[k]
      {
        if k in a.m && k in b.m {
          OverlayTwice(a.m[k], b.m[k]);
        } else if k in b.m {
          WithinSelf(b.m[k]);
          HiddenIff(b.m[k], b.m[k]);
        }
      }
      assert rr == r;
    } else if b.Mapping? {
      WithinSelf(b);
      HiddenIff(b, b);
    }
  }

  /**
   * At every path where the outer two have mappings and the middle one has not,
   * the last one hides the first.
   */
  predicate Harmless(a: Value, b: Value, c: Value)
    decreases c
  {
    a.Mapping? && c.Mapping? ==>
      if b.Mapping? then forall k | k in a.m && k in b.m && k in c.m :: Harmless(a.m[k], b.m[k], c.m[k])
      else Within(a, c)
  }

  /** Stacking three layers is independent of the grouping exactly when every such path is harmless. */
  lemma {:induction false} AssociativeIff(a: Value, b: Value, c: Value)
    ensures Merged(Merged(a, b), c) == Merged(a, Merged(b, c)) <==> Harmless(a, b, c)
    decreases c
  {
    if a.Mapping? && c.Mapping? {
      if b.Mapping? {
        var l, r := Merged(Merged(a, b), c).m, Merged(a, Merged(b, c)).m;
        assert l.Keys == r.Keys;
        forall k | k in l
          ensures if k in a.m && k in b.m && k in c.m
                  then l[k] == r[k] <==> Harmless(a.m[k], b.m[k], c.m[k]) else l[k] == r[k]
        {
          if k in a.m && k in b.m && k in c.m {
            AssociativeIff(a.m[k], b.m[k], c.m[k]);
          }
        }
        if Harmless(a, b, c) {
          assert l == r;
        } else {
          var k :| k in a.m && k in b.m && k in c.m && !Harmless(a.m[k], b.m[k], c.m[k]);
          assert k in l;
        }
      } else {
        HiddenIff(a, c);
      }
    }
  }

  /** The middle layer has no scalar or list where both outer layers have a mapping. */
  predicate NeverBetween(a: Value, b: Value, c: Value)
    decreases c
  {
    a.Mapping? && c.Mapping? ==>
      b.Mapping? && forall k | k in a.m && k in b.m && k in c.m :: NeverBetween(a.m[k], b.m[k], c.m[k])
  }

  /** That is enough for associativity, though not necessary. */
  lemma {:induction false} NeverBetweenIsHarmless(a: Value, b: Value, c: Value)
    requires NeverBetween(a, b, c)
    ensures Harmless(a, b, c)
    decreases c
  {
    if a.Mapping? && c.Mapping? {
      forall k | k in a.m && k in b.m && k in c.m
        ensures Harmless(a.m[k], b.m[k], c.m[k])
      {
        NeverBetweenIsHarmless(a.m[k], b.m[k], c.m[k]);
      }
    }
  }

  /** An empty mapping under a scalar under a mapping: between, yet associative. */
  lemma {:induction false} BetweenCanBeHarmless()
    ensures var a, b, c := Mapping(map["k" := Mapping(map[])]), Mapping(map["k" := Scalar("x")]),
                           Mapping(map["k" := Mapping(map["n" := Scalar("y")])]);
            !NeverBetween(a, b, c) && Merged(Merged(a, b), c) == Merged(a, Merged(b, c))
  {
    var a, b, c := Mapping(map["k" := Mapping(map[])]), Mapping(map["k" := Scalar("x")]),
                   Mapping(map["k" := Mapping(map["n" := Scalar("y")])]);
    assert "k" in a.m && "k" in b.m && "k" in c.m;
    AssociativeIff(a, b, c);
  }
}
