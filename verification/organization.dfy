/**
 * The `Organization` record and its default ordering by name.
 */
module Organization {
  import opened Wrappers

  /** `Organization.OrgType`, stored as the integer codes 0 to 3. */
  datatype OrgType = SoleProprietorship | Holding | Sme | Ngo {
    function Code(): (n: nat)
      ensures n <= 3
    {
      match this
      case SoleProprietorship => 0
      case Holding => 1
      case Sme => 2
      case Ngo => 3
    }
  }

  /** A calendar date, compared year first, then month, then day. */
  datatype Date = Date(year: int, month: int, day: int)

  /** `a` is on or before `b`. */
  predicate DateLe(a: Date, b: Date) {
    a.year < b.year
    || (a.year == b.year && (a.month < b.month || (a.month == b.month && a.day <= b.day)))
  }

  /** One row of the organization table; `headcount` is nullable and the
      logo and timestamps are not modelled. */
  datatype Org = Org(
    name: string,
    orgType: OrgType,
    nation: string,
    foundingDate: Date,
    headcount: Option<nat>,
    slug: string)

  // ---------------------------------------------------------------------
  // Ordering by name (`Meta.ordering = ["name"]`)
  // ---------------------------------------------------------------------

  /** Lexicographic order on names, by character code. */
  predicate NameLe(a: string, b: string)
    decreases |a|
  {
    a == [] || (b != [] && (a[0] < b[0] || (a[0] == b[0] && NameLe(a[1..], b[1..]))))
  }

  lemma {:induction false} NameLeTotal(a: string, b: string)
    ensures NameLe(a, b) || NameLe(b, a)
    decreases |a|
  {
    if a != [] && b != [] && a[0] == b[0] {
      NameLeTotal(a[1..], b[1..]);
    }
  }

  lemma {:induction false} NameLeTransitive(a: string, b: string, c: string)
    requires NameLe(a, b) && NameLe(b, c)
    ensures NameLe(a, c)
    decreases |a|
  {
    if a != [] && a[0] == b[0] && b[0] == c[0] {
      NameLeTransitive(a[1..], b[1..], c[1..]);
    }
  }

  /** Every organization is listed no later than any that sorts after it. */
  ghost predicate SortedByName(xs: seq<Org>) {
    forall i, j :: 0 <= i < j < |xs| ==> NameLe(xs[i].name, xs[j].name)
  }

  /** Places `o` into a name-sorted list, before the first name not below
      it. */
  function InsertByName(o: Org, xs: seq<Org>): (r: seq<Org>)
    requires SortedByName(xs)
    ensures SortedByName(r)
    ensures multiset(r) == multiset(xs) + multiset{o}
  {
    if xs == [] then [o]
    else if NameLe(o.name, xs[0].name) then
      PrependSorted(o, xs);
      [o] + xs
    else
      NameLeTotal(o.name, xs[0].name);
      assert xs == [xs[0]] + xs[1..];
      var rest := InsertByName(o, xs[1..]);
      PrependBelowAll(xs[0], xs[1..], o, rest);
      [xs[0]] + rest
  }

  lemma PrependSorted(o: Org, xs: seq<Org>)
    requires SortedByName(xs) && xs != [] && NameLe(o.name, xs[0].name)
    ensures SortedByName([o] + xs)
  {
    forall j | 0 <= j < |xs|
      ensures NameLe(o.name, xs[j].name)
    {
      if j > 0 {
        NameLeTransitive(o.name, xs[0].name, xs[j].name);
      }
    }
  }

  lemma PrependBelowAll(x: Org, tail: seq<Org>, o: Org, rest: seq<Org>)
    requires SortedByName([x] + tail) && SortedByName(rest)
    requires NameLe(x.name, o.name)
    requires multiset(rest) == multiset(tail) + multiset{o}
    ensures SortedByName([x] + rest)
  {
    var r := [x] + rest;
    forall j | 1 <= j < |r|
      ensures NameLe(x.name, r[j].name)
    {
      assert r[j] == rest[j - 1];
      assert r[j] in multiset(rest);
      if r[j] != o {
        assert r[j] in multiset(tail);
        var k :| 0 <= k < |tail| && tail[k] == r[j];
        var xt := [x] + tail;
        assert xt[0] == x && xt[k + 1] == r[j];
        assert NameLe(xt[0].name, xt[k + 1].name);
      }
    }
  }

  /** `order_by('name')`: the same organizations, sorted by name. */
  function SortByName(xs: seq<Org>): (r: seq<Org>)
    ensures SortedByName(r)
    ensures multiset(r) == multiset(xs)
  {
    if xs == [] then []
    else
      assert xs == [xs[0]] + xs[1..];
      InsertByName(xs[0], SortByName(xs[1..]))
  }
}
