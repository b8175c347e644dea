/** The names chosen at the call sites of one block: fresh, and pairwise distinct. */
module InlineFresh {
  import opened Script
  import opened FreshNames
  import opened Inliner
  import opened InlineSite
  import opened InlineCall
  import opened InlineProgram

  lemma {:induction false} PlansFacts(ps: seq<Name>, args: seq<Expr>, body: seq<Stmt>, taken: set<Name>, strict: bool)
    requires |args| <= |ps|
    ensures var plans := Plans(ps, args, body, taken, strict);
            && ForArgs(plans, args) && DistinctTemps(plans) && Temps(plans) !! taken
            && (forall i :: 0 <= i < |ps| && (plans[i].Skip? || plans[i].Drop? || plans[i].Keep?) ==> Uses(ps[i], body) == 0)
  {
    if ps != [] {
      var plans := Plans(ps, args, body, taken, strict);
      var args' := if args == [] then [] else args[1..];
      PlansFacts(ps[1..], args', body, taken + Temps([plans[0]]), strict);
      assert Temps([plans[0]]) == if plans[0].Hoist? then {plans[0].temp} else {};
      assert plans[1..] == Plans(ps[1..], args', body, taken + Temps([plans[0]]), strict);
      forall i | 0 <= i < |plans|
        ensures i < |args| ==> (plans[i].Drop? || plans[i].Keep? || plans[i].Hoist? || plans[i].Inline?) && plans[i].e == args[i]
        ensures |args| <= i ==> plans[i].Skip? || plans[i].Missing?
        ensures plans[i].Skip? || plans[i].Drop? || plans[i].Keep? ==> Uses(ps[i], body) == 0
      {
        if i > 0 {
          assert plans[i] == plans[1..][i - 1] && ps[i] == ps[1..][i - 1];
        }
      }
    }
  }

  lemma {:induction false} DeclsAt(ss: seq<Stmt>, x: Name) returns (i: nat)
    requires x in Decls(ss)
    ensures i < |ss| && ss[i].Const? && ss[i].x == x
  {
    if ss[0].Const? && ss[0].x == x {
      i := 0;
    } else {
      i := DeclsAt(ss[1..], x);
      i := i + 1;
    }
  }

  lemma {:induction false} RenameFacts(tail: seq<Stmt>, taken: set<Name>)
    requires DistinctDecls(tail)
    ensures var ren := RenameLocals(tail, taken);
            && ren.Keys <= Decls(tail)
            && ren.Values !! taken
            && (forall x, y :: x in ren && y in ren && x != y ==> ren[x] != ren[y])
            && Decls(tail) - ren.Keys !! taken + ren.Values
  {
    if tail != [] {
      assert forall i :: 0 <= i < |tail[1..]| ==> tail[1..][i] == tail[i + 1];
      if tail[0].Const? {
        var x := tail[0].x;
        if x in Decls(tail[1..]) {
          var i := DeclsAt(tail[1..], x);
          assert false;
        }
        if x in taken {
          var y := Fresh(x, taken);
          RenameFacts(tail[1..], taken + {y});
          var rest := RenameLocals(tail[1..], taken + {y});
          assert x !in rest;
          forall u | u in rest
            ensures rest[u] != y
          {
            assert rest[u] in rest.Values;
          }
          var ren := rest[x := y];
          assert forall v :: v in ren.Values ==> v == y || v in rest.Values;
        } else {
          RenameFacts(tail[1..], taken + {x});
        }
      } else {
        RenameFacts(tail[1..], taken);
      }
    }
  }

  /** Everything the proofs need to know about the names of one site. */
  lemma SiteFresh(h: Func, args: seq<Expr>, taken: set<Name>, strict: bool)
    requires WellScoped(h) && |args| <= |h.params|
    ensures var site := SiteOf(h, args, taken, strict);
            SiteNames(h, site) && ForArgs(site.plans, args) && NewNames(h, site) !! taken
  {
    var site := SiteOf(h, args, taken, strict);
    PlansFacts(h.params, args, h.body, taken, strict);
    if Guards(h.body) == [] {
      RenameFacts(h.body, taken + Temps(site.plans));
      forall x | x in Decls(h.body)
        ensures Target(site, x) !in taken
      {
        if x in site.ren {
          assert site.ren[x] in site.ren.Values;
        }
      }
    }
  }

  /** Names added in one block avoid every identifier reserved before, and so the
      original identifiers of the block. */
  lemma {:induction false} AllNewFresh(ss: seq<Stmt>, h: Func, taken: set<Name>, strict: bool)
    requires WellScoped(h) && RefsOk(ss, h)
    ensures AllNew(ss, h, taken, strict) !! taken
  {
    if ss != [] {
      if IsSite(ss[0], h) {
        SiteFresh(h, ss[0].e.args, taken, strict);
        AllNewFresh(ss[1..], h, taken + NewNames(h, SiteOf(h, ss[0].e.args, taken, strict)), strict);
      } else {
        AllNewFresh(ss[1..], h, taken, strict);
      }
    }
  }
}
