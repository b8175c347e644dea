/** The shared `reserved` map of `inlineCandidate`. */
module NameReservation {
  import opened Script
  import opened FreshNames
  import opened Inliner
  import opened InlineSite
  import opened InlineCall
  import opened InlineFresh

  // All call sites of one helper share it: one growing set of names for every block that
  // receives statements.

  /** Where a call statement stands. The clauses of a `switch` share its scope. */
  datatype Place = InBlock(block: nat) | InClause(switch: nat, clause: nat)

  datatype Scope = BlockScope(id: nat) | SwitchScope(id: nat)

  /** `targetBlock`. */
  function TargetBlock(p: Place): Scope {
    match p
    case InBlock(b) => BlockScope(b)
    case InClause(s, _) => SwitchScope(s)
  }

  datatype CallSiteAt = CallSiteAt(place: Place, args: seq<Expr>)

  class Reserved {
    var sets: map<Scope, set<Name>>

    constructor ()
      ensures sets == map[]
    {
      sets := map[];
    }

    /** `reservedFor`: seeded once with the names that occur in the scope. */
    method For(key: Scope, seed: set<Name>) returns (taken: set<Name>)
      modifies this
      ensures taken == if key in old(sets) then old(sets)[key] else seed
      ensures sets == old(sets)[key := taken]
    {
      if key !in sets {
        sets := sets[key := seed];
      }
      taken := sets[key];
    }

    /** `buildReplacement`: picks the names of one call and records them. */
    method Build(h: Func, call: CallSiteAt, seed: set<Name>, strict: bool) returns (site: Site)
      requires WellScoped(h) && |call.args| <= |h.params|
      modifies this
      ensures var key := TargetBlock(call.place);
              var taken := if key in old(sets) then old(sets)[key] else seed;
              && site == SiteOf(h, call.args, taken, strict)
              && sets == old(sets)[key := taken + NewNames(h, site)]
    {
      var key := TargetBlock(call.place);
      var taken := For(key, seed);
      site := SiteOf(h, call.args, taken, strict);
      SiteFresh(h, call.args, taken, strict);
      sets := sets[key := taken + NewNames(h, site)];
    }
  }

  /** The new names of one replacement are themselves distinct: temporaries from each
      other and from the block locals, and the locals from each other. */
  ghost predicate DistinctInside(h: Func, site: Site) {
    && DistinctTemps(site.plans)
    && (forall x :: x in Decls(h.body) && Guards(h.body) == [] ==> Target(site, x) !in Temps(site.plans))
    && (forall x, y :: x in Decls(h.body) && y in Decls(h.body) && x != y && Guards(h.body) == [] ==>
          Target(site, x) != Target(site, y))
  }

  lemma {:induction false} RenameDistinct(tail: seq<Stmt>, taken: set<Name>)
    requires DistinctDecls(tail)
    ensures var ren := RenameLocals(tail, taken);
            forall x, y :: x in Decls(tail) && y in Decls(tail) && x != y ==>
              (if x in ren then ren[x] else x) != (if y in ren then ren[y] else y)
  {
    if tail != [] {
      assert forall i :: 0 <= i < |tail[1..]| ==> tail[1..][i] == tail[i + 1];
      var c := tail[0];
      if c.Const? {
        var name := if c.x in taken then Fresh(c.x, taken) else c.x;
        var rest := RenameLocals(tail[1..], taken + {name});
        RenameDistinct(tail[1..], taken + {name});
        RenameFacts(tail[1..], taken + {name});
        if c.x in Decls(tail[1..]) {
          var i := DeclsAt(tail[1..], c.x);
          assert false;
        }
        forall x | x in Decls(tail[1..])
          ensures (if x in rest then rest[x] else x) != name
        {
          if x in rest { assert rest[x] in rest.Values; }
        }
      } else {
        RenameDistinct(tail[1..], taken);
      }
    }
  }

  lemma SiteDistinct(h: Func, args: seq<Expr>, taken: set<Name>, strict: bool)
    requires WellScoped(h) && |args| <= |h.params|
    ensures DistinctInside(h, SiteOf(h, args, taken, strict))
  {
    var site := SiteOf(h, args, taken, strict);
    SiteFresh(h, args, taken, strict);
    if Guards(h.body) == [] {
      var taken' := taken + Temps(site.plans);
      RenameDistinct(h.body, taken');
      RenameFacts(h.body, taken');
      forall x | x in Decls(h.body)
        ensures Target(site, x) !in Temps(site.plans)
      {
        if x in site.ren { assert site.ren[x] in site.ren.Values; }
      }
    }
  }

  function Key(call: CallSiteAt): Scope {
    TargetBlock(call.place)
  }

  /** Names never clash: not inside a replacement, not with the identifiers of the scope
      they land in, not with another replacement in the same scope. */
  ghost predicate NoClash(h: Func, calls: seq<CallSiteAt>, seeds: map<Scope, set<Name>>, plans: seq<Site>)
    requires |plans| <= |calls|
  {
    && (forall i :: 0 <= i < |plans| ==>
          && DistinctInside(h, plans[i])
          && Key(calls[i]) in seeds && NewNames(h, plans[i]) !! seeds[Key(calls[i])])
    && (forall i, j :: 0 <= i < j < |plans| && Key(calls[i]) == Key(calls[j]) ==>
          NewNames(h, plans[i]) !! NewNames(h, plans[j]))
  }

  /** The reserved sets cover every seed and every name handed out so far. */
  ghost predicate Covers(h: Func, calls: seq<CallSiteAt>, seeds: map<Scope, set<Name>>, plans: seq<Site>,
                         sets: map<Scope, set<Name>>)
    requires |plans| <= |calls|
  {
    && (forall i :: 0 <= i < |plans| ==> Key(calls[i]) in sets && NewNames(h, plans[i]) <= sets[Key(calls[i])])
    && (forall key :: key in sets ==> key in seeds && seeds[key] <= sets[key])
  }

  lemma PlanStep(h: Func, calls: seq<CallSiteAt>, seeds: map<Scope, set<Name>>, plans: seq<Site>,
                 sets: map<Scope, set<Name>>, strict: bool, site: Site, taken: set<Name>)
    requires WellScoped(h) && |plans| < |calls| && |calls[|plans|].args| <= |h.params| && Key(calls[|plans|]) in seeds
    requires NoClash(h, calls, seeds, plans) && Covers(h, calls, seeds, plans, sets)
    requires var key := Key(calls[|plans|]); taken == if key in sets then sets[key] else seeds[key]
    requires site == SiteOf(h, calls[|plans|].args, taken, strict)
    ensures NoClash(h, calls, seeds, plans + [site])
    ensures Covers(h, calls, seeds, plans + [site], sets[Key(calls[|plans|]) := taken + NewNames(h, site)])
  {
    hide SiteOf, NewNames, DistinctInside;
    SiteFresh(h, calls[|plans|].args, taken, strict);
    SiteDistinct(h, calls[|plans|].args, taken, strict);
    var key := Key(calls[|plans|]);
    assert seeds[key] <= taken;
    forall i | 0 <= i < |plans| && Key(calls[i]) == key
      ensures NewNames(h, plans[i]) !! NewNames(h, site)
    {
      assert NewNames(h, plans[i]) <= taken;
    }
  }

  /** The first loop of `inlineCandidate`: every call is planned before anything is
      rewritten. `seeds`: the identifiers of each scope. */
  method PlanSites(h: Func, calls: seq<CallSiteAt>, seeds: map<Scope, set<Name>>, strict: bool) returns (plans: seq<Site>)
    requires WellScoped(h)
    requires forall i :: 0 <= i < |calls| ==> |calls[i].args| <= |h.params| && Key(calls[i]) in seeds
    ensures |plans| == |calls| && NoClash(h, calls, seeds, plans)
  {
    hide SiteOf, NewNames, DistinctInside, NoClash, Covers;
    var reserved := new Reserved();
    plans := [];
    NothingPlanned(h, calls, seeds);
    for k := 0 to |calls|
      invariant fresh(reserved)
      invariant |plans| == k
      invariant NoClash(h, calls, seeds, plans) && Covers(h, calls, seeds, plans, reserved.sets)
    {
      ghost var sets := reserved.sets;
      ghost var key := Key(calls[k]);
      var site := reserved.Build(h, calls[k], seeds[Key(calls[k])], strict);
      PlanStep(h, calls, seeds, plans, sets, strict, site, if key in sets then sets[key] else seeds[key]);
      plans := plans + [site];
    }
  }

  lemma NothingPlanned(h: Func, calls: seq<CallSiteAt>, seeds: map<Scope, set<Name>>)
    ensures NoClash(h, calls, seeds, []) && Covers(h, calls, seeds, [], map[])
  {
  }
}
