/** Technology detection after the pattern matching: direct hits, what they imply, and the generic cart label. */
module TechDetect {
  import opened Common

  /** A signature; hit says whether any of its patterns matched the crawled site. */
  datatype Sig = Sig(name: string, category: string, hit: bool, implies: seq<string>)

  const CART := "Wizzcommerce/Other cart"
  const GENERIC := "Generic shopping cart"
  const ECOMMERCE := "ecommerce"

  // ------------------------------------------------------------------ specification

  /** The direct hits; a repeated name keeps the last category. */
  function HitMap(table: seq<Sig>): map<string, string> {
    if table == [] then map[]
    else
      var (before, sig) := (HitMap(table[..|table| - 1]), table[|table| - 1]);
      if sig.hit then before[sig.name := sig.category] else before
  }

  /** The category of the first signature of that name, else "other". */
  function CategoryOf(table: seq<Sig>, name: string): string {
    if table == [] then "other" else if table[0].name == name then table[0].category else CategoryOf(table[1..], name)
  }

  predicate SigClosed(sig: Sig, names: set<string>) {
    sig.name in names ==> forall k | 0 <= k < |sig.implies| :: sig.implies[k] in names
  }

  /** The names hold whatever their signatures imply. */
  predicate Closed(table: seq<Sig>, names: set<string>) { forall i | 0 <= i < |table| :: SigClosed(table[i], names) }

  /** Every closed set around the hits holds these names. */
  ghost predicate Forced(table: seq<Sig>, hits: set<string>, names: set<string>) {
    forall s: set<string> :: hits <= s && Closed(table, s) ==> names <= s
  }

  /** tech is hits plus entries filed under their signature's category. */
  predicate Extends(table: seq<Sig>, hits: map<string, string>, tech: map<string, string>) {
    && hits.Keys <= tech.Keys
    && forall n | n in tech :: tech[n] == if n in hits then hits[n] else CategoryOf(table, n)
  }

  /** The least closed set that holds the hits, each name with its category. */
  ghost predicate Resolution(table: seq<Sig>, hits: map<string, string>, tech: map<string, string>) {
    Extends(table, hits, tech) && Closed(table, tech.Keys) && Forced(table, hits.Keys, tech.Keys)
  }

  function ByCategory(tech: map<string, string>, category: string): set<string> {
    set n | n in tech && tech[n] == category
  }

  /** The cart markers count only when no real platform was identified, and then under a generic name. */
  function CartResolved(tech: map<string, string>): map<string, string> {
    if CART !in tech then tech
    else if ByCategory(tech, ECOMMERCE) != {CART} then tech - {CART}
    else (tech - {CART})[GENERIC := tech[CART]]
  }

  // ------------------------------------------------------------------ detect

  /** Names that can be implied: what bounds the rounds of the implication loop. */
  function Implied(table: seq<Sig>): set<string> {
    set i, k | 0 <= i < |table| && 0 <= k < |table[i].implies| :: table[i].implies[k]
  }

  class TechResult {
    var technologies: map<string, string>

    constructor ()
      ensures technologies == map[]
    {
      technologies := map[];
    }

    method AddHits(table: seq<Sig>)
      requires technologies == map[]
      modifies this
      ensures technologies == HitMap(table)
    {
      for i := 0 to |table|
        invariant technologies == HitMap(table[..i])
      {
        assert table[..i + 1][..i] == table[..i];
        if table[i].hit { technologies := technologies[table[i].name := table[i].category]; }
      }
      assert table[..|table|] == table;
    }

    /** The names one signature implies, if it is detected. */
    method ImplyFrom(table: seq<Sig>, i: nat, ghost hits: map<string, string>) returns (changed: bool)
      requires i < |table|
      requires Extends(table, hits, technologies) && Forced(table, hits.Keys, technologies.Keys)
      modifies this
      ensures Extends(table, hits, technologies) && Forced(table, hits.Keys, technologies.Keys)
      ensures old(technologies.Keys) <= technologies.Keys && technologies.Keys - old(technologies.Keys) <= Implied(table)
      ensures !changed ==> technologies == old(technologies) && SigClosed(table[i], technologies.Keys)
      ensures changed ==> technologies.Keys != old(technologies.Keys)
    {
      changed := false;
      var sig := table[i];
      if sig.name !in technologies { return; }
      for k := 0 to |sig.implies|
        invariant sig.name in technologies
        invariant Extends(table, hits, technologies) && Forced(table, hits.Keys, technologies.Keys)
        invariant old(technologies.Keys) <= technologies.Keys && technologies.Keys - old(technologies.Keys) <= Implied(table)
        invariant forall l | 0 <= l < k :: sig.implies[l] in technologies.Keys
        invariant !changed ==> technologies == old(technologies)
        invariant changed ==> technologies.Keys != old(technologies.Keys)
      {
        var imp := sig.implies[k];
        var cat := CategoryOf(table, imp);
        if imp !in technologies {
          ForcedImplied(table, hits.Keys, technologies.Keys, i, k);
          assert technologies[imp := cat].Keys == technologies.Keys + {imp};
          technologies := technologies[imp := cat];
          changed := true;
        }
      }
    }

    /** One pass over the table. */
    method ImplyOnce(table: seq<Sig>, ghost hits: map<string, string>) returns (changed: bool)
      requires Extends(table, hits, technologies) && Forced(table, hits.Keys, technologies.Keys)
      modifies this
      ensures Extends(table, hits, technologies) && Forced(table, hits.Keys, technologies.Keys)
      ensures old(technologies.Keys) <= technologies.Keys && technologies.Keys - old(technologies.Keys) <= Implied(table)
      ensures !changed ==> technologies.Keys == old(technologies.Keys) && Closed(table, technologies.Keys)
      ensures changed ==> technologies.Keys != old(technologies.Keys)
    {
      changed := false;
      ghost var start := technologies.Keys;
      for i := 0 to |table|
        invariant Extends(table, hits, technologies) && Forced(table, hits.Keys, technologies.Keys)
        invariant start <= technologies.Keys && technologies.Keys - start <= Implied(table)
        invariant !changed ==> technologies.Keys == start && forall j | 0 <= j < i :: SigClosed(table[j], start)
        invariant changed ==> technologies.Keys != start
      {
        var more := ImplyFrom(table, i, hits);
        changed := changed || more;
      }
    }

    /** The repeat-until-unchanged loop. */
    method ResolveImplications(table: seq<Sig>)
      modifies this
      ensures Resolution(table, old(technologies), technologies)
    {
      ghost var hits := technologies;
      var changed := true;
      while changed
        invariant Extends(table, hits, technologies) && Forced(table, hits.Keys, technologies.Keys)
        invariant !changed ==> Closed(table, technologies.Keys)
        decreases |Implied(table) - technologies.Keys|, changed
      {
        ghost var start := technologies.Keys;
        changed := ImplyOnce(table, hits);
        FewerLeft(Implied(table), start, technologies.Keys);
      }
    }

    method ResolveCart()
      modifies this
      ensures technologies == CartResolved(old(technologies))
    {
      if CART in technologies {
        if ByCategory(technologies, ECOMMERCE) != {CART} {
          technologies := technologies - {CART};
        } else {
          var category := technologies[CART];
          technologies := technologies - {CART};
          technologies := technologies[GENERIC := category];
        }
      }
    }
  }

  /** The table knows the name, as a signature's or as one that a signature implies. */
  predicate Knows(table: seq<Sig>, name: string) {
    name in Implied(table) || exists i :: 0 <= i < |table| && table[i].name == name
  }

  /**
   * What the cart rule leaves of a resolution. From the table alone: the marker is never in the result, and where the
   * table itself does not know the generic label, that label says that the marker was all the ecommerce there was.
   */
  ghost predicate CartRuled(table: seq<Sig>, tech: map<string, string>, result: map<string, string>) {
    var (cart, generic) := ("Wizzcommerce/Other cart", "Generic shopping cart");
    var (shops, left) := (set n | n in tech && tech[n] == "ecommerce", set n | n in result && result[n] == "ecommerce");
    && cart !in result
    && (!Knows(table, generic) ==> (generic in result <==> cart in tech && shops == {cart}) && (generic in result ==> left == {generic}))
    && (shops != {cart} ==> left == shops - {cart})
    && forall n | n != cart && n != generic :: (n in result <==> n in tech) && (n in result ==> result[n] == tech[n])
  }

  method Detect(table: seq<Sig>) returns (result: TechResult)
    ensures fresh(result)
    ensures exists tech :: Resolution(table, HitMap(table), tech) && result.technologies == CartResolved(tech)
                           && CartRuled(table, tech, result.technologies)
  {
    result := new TechResult();
    result.AddHits(table);
    result.ResolveImplications(table);
    ghost var tech := result.technologies;
    result.ResolveCart();
    CartRule(table, tech);
  }

  lemma ForcedImplied(table: seq<Sig>, hits: set<string>, names: set<string>, i: nat, k: nat)
    requires Forced(table, hits, names) && i < |table| && table[i].name in names && k < |table[i].implies|
    ensures Forced(table, hits, names + {table[i].implies[k]})
  {
    forall s: set<string> | hits <= s && Closed(table, s) ensures names + {table[i].implies[k]} <= s {
      assert names <= s && SigClosed(table[i], s);
    }
  }

  lemma FewerLeft(all: set<string>, before: set<string>, after: set<string>)
    requires before <= after && after - before <= all
    ensures before != after ==> |all - after| < |all - before|
    ensures before == after ==> |all - after| == |all - before|
  {
    SubsetSize(all - after, all - before);
    if before != after {
      var x :| x in after && x !in before;
      assert x in all - before;
      SubsetSize(all - after, all - before - {x});
    }
  }

  // ------------------------------------------------------------------ what detection means

  /** There is only one resolution: the loop computes it whatever order it visits the table in. */
  lemma ResolutionIsUnique(table: seq<Sig>, hits: map<string, string>, a: map<string, string>, b: map<string, string>)
    requires Resolution(table, hits, a) && Resolution(table, hits, b)
    ensures a == b
  {
    assert a.Keys <= b.Keys && b.Keys <= a.Keys;
  }

  /** Of signatures with the same name, an implied technology gets the category of the first. */
  lemma {:induction false} CategoryIsFirst(table: seq<Sig>, k: nat, name: string)
    requires k < |table| && table[k].name == name && forall j | 0 <= j < k :: table[j].name != name
    ensures CategoryOf(table, name) == table[k].category
  {
    if k > 0 { CategoryIsFirst(table[1..], k - 1, name); }
  }

  /** A detected one gets that of the last that hit. */
  lemma {:induction false} HitIsLast(table: seq<Sig>, k: nat)
    requires k < |table| && table[k].hit && forall j | k < j < |table| && table[j].hit :: table[j].name != table[k].name
    ensures table[k].name in HitMap(table) && HitMap(table)[table[k].name] == table[k].category
  {
    if k < |table| - 1 { HitIsLast(table[..|table| - 1], k); }
  }

  predicate UniqueNames(table: seq<Sig>) { forall i, j | 0 <= i < j < |table| :: table[i].name != table[j].name }

  ghost predicate SameSigs(t: seq<Sig>, u: seq<Sig>) { forall sig :: sig in t <==> sig in u }

  lemma {:induction false} CategoryOfMember(table: seq<Sig>, sig: Sig)
    requires UniqueNames(table) && sig in table
    ensures CategoryOf(table, sig.name) == sig.category
  {
    if table[0] != sig {
      assert sig in table[1..];
      var j :| 0 <= j < |table| && table[j] == sig;
      CategoryOfMember(table[1..], sig);
    }
  }

  lemma {:induction false} CategoryOfStranger(table: seq<Sig>, name: string)
    requires forall sig | sig in table :: sig.name != name
    ensures CategoryOf(table, name) == "other"
  {
    if table != [] { CategoryOfStranger(table[1..], name); }
  }

  lemma SameCategories(t: seq<Sig>, u: seq<Sig>, name: string)
    requires UniqueNames(t) && UniqueNames(u) && SameSigs(t, u)
    ensures CategoryOf(t, name) == CategoryOf(u, name)
  {
    if sig :| sig in t && sig.name == name {
      CategoryOfMember(t, sig);
      CategoryOfMember(u, sig);
    } else {
      CategoryOfStranger(t, name);
      CategoryOfStranger(u, name);
    }
  }

  lemma {:induction false} HitMapIs(table: seq<Sig>)
    requires UniqueNames(table)
    ensures forall n :: n in HitMap(table) <==> exists sig :: sig in table && sig.hit && sig.name == n
    ensures forall n | n in HitMap(table) :: HitMap(table)[n] == CategoryOf(table, n)
  {
    forall n ensures n in HitMap(table) <==> exists sig :: sig in table && sig.hit && sig.name == n { HitMapKeys(table, n); }
    forall n | n in HitMap(table) ensures HitMap(table)[n] == CategoryOf(table, n) { HitMapValue(table, table, n); }
  }

  lemma {:induction false} HitMapKeys(table: seq<Sig>, n: string)
    ensures n in HitMap(table) <==> exists sig :: sig in table && sig.hit && sig.name == n
  {
    if table != [] {
      var (front, last) := (table[..|table| - 1], table[|table| - 1]);
      HitMapKeys(front, n);
      assert table == front + [last];
    }
  }

  lemma {:induction false} HitMapValue(table: seq<Sig>, part: seq<Sig>, n: string)
    requires UniqueNames(table) && part <= table && n in HitMap(part)
    ensures HitMap(part)[n] == CategoryOf(table, n)
  {
    var last := part[|part| - 1];
    if last.hit && last.name == n {
      assert table[|part| - 1] == last;
      CategoryOfMember(table, last);
    } else {
      HitMapValue(table, part[..|part| - 1], n);
    }
  }

  lemma ClosedAnyOrder(t: seq<Sig>, u: seq<Sig>, names: set<string>)
    requires SameSigs(t, u) && Closed(t, names)
    ensures Closed(u, names)
  {
    forall i | 0 <= i < |u| ensures SigClosed(u[i], names) {
      assert u[i] in t;
    }
  }

  lemma SameHits(t: seq<Sig>, u: seq<Sig>)
    requires UniqueNames(t) && UniqueNames(u) && SameSigs(t, u)
    ensures HitMap(t) == HitMap(u)
  {
    HitMapIs(t);
    HitMapIs(u);
    forall n ensures CategoryOf(t, n) == CategoryOf(u, n) { SameCategories(t, u, n); }
  }

  lemma ResolutionAnyOrder(t: seq<Sig>, u: seq<Sig>, hits: map<string, string>, tech: map<string, string>)
    requires UniqueNames(t) && UniqueNames(u) && SameSigs(t, u) && Resolution(t, hits, tech)
    ensures Resolution(u, hits, tech)
  {
    ClosedAnyOrder(t, u, tech.Keys);
    forall n ensures CategoryOf(t, n) == CategoryOf(u, n) { SameCategories(t, u, n); }
    forall s: set<string> | hits.Keys <= s && Closed(u, s) ensures tech.Keys <= s { ClosedAnyOrder(u, t, s); }
  }

  /** Detection does not depend on the order of the table. */
  lemma OrderDoesNotMatter(t: seq<Sig>, u: seq<Sig>, a: map<string, string>, b: map<string, string>)
    requires UniqueNames(t) && UniqueNames(u) && SameSigs(t, u)
    requires Resolution(t, HitMap(t), a) && Resolution(u, HitMap(u), b)
    ensures a == b
  {
    SameHits(t, u);
    ResolutionAnyOrder(t, u, HitMap(t), a);
    ResolutionIsUnique(u, HitMap(u), a, b);
  }

  lemma {:induction false} HitIsNamed(table: seq<Sig>, n: string)
    requires n in HitMap(table)
    ensures exists i :: 0 <= i < |table| && table[i].name == n
  {
    var k := |table| - 1;
    if table[k].name != n {
      HitIsNamed(table[..k], n);
      var i :| 0 <= i < k && table[..k][i].name == n;
      assert table[i].name == n;
    }
  }

  lemma ClosedWithout(table: seq<Sig>, names: set<string>, n: string)
    requires Closed(table, names) && !Knows(table, n)
    ensures Closed(table, names - {n})
  {
    forall i | 0 <= i < |table| ensures SigClosed(table[i], names - {n}) {
      assert SigClosed(table[i], names);
      assert forall k | 0 <= k < |table[i].implies| :: table[i].implies[k] in Implied(table);
    }
  }

  /** Resolving finds no name that the table does not know. */
  lemma ResolvedAreKnown(table: seq<Sig>, tech: map<string, string>, n: string)
    requires Resolution(table, HitMap(table), tech) && !Knows(table, n)
    ensures n !in tech
  {
    ClosedWithout(table, tech.Keys, n);
    if n in HitMap(table) { HitIsNamed(table, n); }
    assert HitMap(table).Keys <= tech.Keys - {n};
  }

  /** The cart rule on a resolution of the table's hits. */
  lemma CartRule(table: seq<Sig>, tech: map<string, string>)
    requires Resolution(table, HitMap(table), tech)
    ensures CartRuled(table, tech, CartResolved(tech))
  {
    var r := CartResolved(tech);
    assert ByCategory(tech, ECOMMERCE) == (set n | n in tech && tech[n] == "ecommerce") && ByCategory(r, ECOMMERCE) == set n | n in r && r[n] == "ecommerce";
    if !Knows(table, GENERIC) { ResolvedAreKnown(table, tech, GENERIC); }
    if CART in tech && GENERIC in r && !Knows(table, GENERIC) {
      assert CART in ByCategory(tech, ECOMMERCE);
      assert forall n | n in ByCategory(r, ECOMMERCE) :: n == GENERIC || n in ByCategory(tech, ECOMMERCE);
    }
  }
}
