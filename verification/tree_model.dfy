/**
 * The abstract `TreeModel`: rows of one table linked to each other through a
 * nullable `parent` foreign key with `on_delete=CASCADE`, and the queries
 * `children`, `decendant`, `ancestry` and the loop guard `xclean` over them.
 *
 * The table is a map from primary key to the stored `parent` key. An
 * in-memory instance (`Node`) carries its own `id` (absent until saved) and
 * its own `parent`, which may already differ from the stored one.
 */
module TreeModel {
  import opened Wrappers
  import opened Seqs

  /** A primary key. The database never issues 0, so Python's `if self.id:`
      holds exactly when the instance has an identity. */
  type Id = i: int | 1 <= i witness 1

  /** The table: every stored row's key mapped to its stored `parent`. */
  type Store = map<Id, Option<Id>>

  /** An instance in memory: `id` is `None` until the row is first saved. */
  datatype Node = Node(id: Option<Id>, parent: Option<Id>)

  /** The `ValidationError('Loop is not allowed.')` raised by `xclean`. */
  datatype TreeError = LoopNotAllowed

  // ---------------------------------------------------------------------
  // The forest invariant
  // ---------------------------------------------------------------------

  /** Following `parent` from `x` reaches a root within `n` rows, and every
      row on the way is stored. */
  predicate Grounded(s: Store, x: Id, n: nat)
    decreases n
  {
    x in s && n > 0 && (s[x].None? || Grounded(s, s[x].value, n - 1))
  }

  /** The forest invariant: every stored parent is itself stored (the
      foreign key holds) and every row's parent chain ends at a root. A chain
      that never repeats a row has at most `|s|` rows, so `|s|` steps always
      suffice; a row on a cycle is grounded for no bound at all. */
  predicate Forest(s: Store) {
    && (forall x :: x in s && s[x].Some? ==> s[x].value in s)
    && (forall x :: x in s ==> Grounded(s, x, |s|))
  }

  /** `r` follows stored `parent` links from its first row and ends at a root. */
  ghost predicate RootedChain(s: Store, r: seq<Id>) {
    && (forall i :: 0 <= i < |r| ==> r[i] in s)
    && (forall i :: 0 <= i < |r| - 1 ==> s[r[i]] == Some(r[i + 1]))
    && (|r| > 0 ==> s[r[|r| - 1]] == None)
  }

  lemma {:induction false} GroundedMono(s: Store, x: Id, n: nat, m: nat)
    requires Grounded(s, x, n) && n <= m
    ensures Grounded(s, x, m)
    decreases n
  {
    if s[x].Some? {
      GroundedMono(s, s[x].value, n - 1, m - 1);
    }
  }

  /** Number of proper ancestors of `x`, counted with a step bound `n`. */
  ghost function DepthWithin(s: Store, x: Id, n: nat): (d: nat)
    requires Grounded(s, x, n)
    ensures d < n
    decreases n
  {
    if s[x].None? then 0 else 1 + DepthWithin(s, s[x].value, n - 1)
  }

  lemma {:induction false} DepthWithinAnyBound(s: Store, x: Id, n: nat, m: nat)
    requires Grounded(s, x, n) && Grounded(s, x, m)
    ensures DepthWithin(s, x, n) == DepthWithin(s, x, m)
    decreases n
  {
    if s[x].Some? {
      DepthWithinAnyBound(s, s[x].value, n - 1, m - 1);
    }
  }

  /** Number of proper ancestors of a row of a forest. */
  ghost function Depth(s: Store, x: Id): (d: nat)
    requires Forest(s) && x in s
    ensures d < |s|
  {
    DepthWithin(s, x, |s|)
  }

  /** In a forest a parent is stored and sits exactly one level higher. */
  lemma ParentDepth(s: Store, x: Id)
    requires Forest(s) && x in s
    ensures s[x].Some? ==> s[x].value in s && Depth(s, x) == Depth(s, s[x].value) + 1
  {
    if s[x].Some? {
      DepthWithinAnyBound(s, s[x].value, |s| - 1, |s|);
    }
  }

  /** The rows met while following `parent` from `x` within `n` steps. */
  ghost function ChainWithin(s: Store, x: Id, n: nat): (r: seq<Id>)
    requires Grounded(s, x, n)
    ensures 1 <= |r| <= n && r[0] == x
    ensures RootedChain(s, r)
    ensures Grounded(s, x, |r|)
    decreases n
  {
    if s[x].None? then [x] else [x] + ChainWithin(s, s[x].value, n - 1)
  }

  lemma {:induction false} ChainShift(s: Store, r: seq<Id>, i: nat, j: nat, k: nat)
    requires RootedChain(s, r)
    requires i < j && j + k < |r|
    ensures r[i] == r[j] ==> r[i + k] == r[j + k]
    decreases k
  {
    if k > 0 {
      ChainShift(s, r, i, j, k - 1);
    }
  }

  /** A chain that ends at a root never visits a row twice. */
  lemma RootedChainDistinct(s: Store, r: seq<Id>)
    requires RootedChain(s, r)
    ensures Distinct(r)
  {
    forall i, j | 0 <= i < j < |r|
      ensures r[i] != r[j]
    {
      var k := |r| - 1 - j;
      ChainShift(s, r, i, j, k);
      assert s[r[i + k]] == Some(r[i + k + 1]);
    }
  }

  /** A row grounded within any bound is grounded within `|s|` steps. */
  lemma GroundedTight(s: Store, x: Id, n: nat)
    requires Grounded(s, x, n)
    ensures Grounded(s, x, |s|)
  {
    var r := ChainWithin(s, x, n);
    RootedChainDistinct(s, r);
    DistinctWithin(r, s.Keys);
    GroundedMono(s, x, |r|, |s|);
  }

  // ---------------------------------------------------------------------
  // Queries
  // ---------------------------------------------------------------------

  /** `children()`: the rows whose stored parent is this instance; an
      instance without an identity has none. */
  function Children(s: Store, id: Option<Id>): (r: set<Id>)
    ensures id.None? ==> r == {}
    ensures forall y :: y in r <==> y in s && id.Some? && s[y] == id
  {
    if id.Some? then set y | y in s && s[y] == id else {}
  }

  /** Measure for walking down a forest: deeper rows rank lower, and a key
      that is not stored (so has no children) ranks highest. */
  ghost function Rank(s: Store, id: Option<Id>): nat
    requires Forest(s)
  {
    if id.Some? && id.value in s then |s| - Depth(s, id.value) else |s| + 1
  }

  lemma ChildrenRankLower(s: Store, id: Option<Id>)
    requires Forest(s)
    ensures forall c :: c in Children(s, id) ==> Rank(s, Some(c)) < Rank(s, id)
  {
    forall c | c in Children(s, id)
      ensures Rank(s, Some(c)) < Rank(s, id)
    {
      ParentDepth(s, c);
    }
  }

  /** `decendant()`: the children, together with the descendants of each
      child. */
  function Descendants(s: Store, id: Option<Id>): (r: set<Id>)
    requires Forest(s)
    ensures Children(s, id) <= r <= s.Keys
    decreases Rank(s, id)
  {
    var kids := Children(s, id);
    ChildrenRankLower(s, id);
    kids + (set c, d | c in kids && d in Descendants(s, Some(c)) :: d)
  }

  /** The walk of `ancestry()` started at `p`: `p`, its parent, and so on up
      to a root, nearest first, without the terminal `None`. */
  function AncestryFrom(s: Store, p: Option<Id>): (r: seq<Id>)
    requires Forest(s)
    requires p.Some? ==> p.value in s
    ensures p.None? <==> r == []
    ensures p.Some? ==> r[0] == p.value && |r| == Depth(s, p.value) + 1
    ensures RootedChain(s, r)
    decreases if p.Some? then Depth(s, p.value) + 1 else 0
  {
    match p
    case None => []
    case Some(a) =>
      ParentDepth(s, a);
      [a] + AncestryFrom(s, s[a])
  }

  /** `ancestry()` of an instance: the walk from its (in-memory) parent. */
  function Ancestry(s: Store, n: Node): (r: seq<Id>)
    requires Forest(s)
    requires n.parent.Some? ==> n.parent.value in s
    ensures n.parent.None? <==> r == []
    ensures n.parent.Some? ==> r[0] == n.parent.value
    ensures forall i :: 0 <= i < |r| - 1 ==> r[i] in s && s[r[i]] == Some(r[i + 1])
    ensures r != [] ==> r[|r| - 1] in s && s[r[|r| - 1]] == None
    ensures Distinct(r)
  {
    var r := AncestryFrom(s, n.parent);
    RootedChainDistinct(s, r);
    r
  }

  /** The ancestors of a stored row, nearest first; a row is never among
      its own ancestors. */
  function Ancestors(s: Store, x: Id): (r: seq<Id>)
    requires Forest(s) && x in s
    ensures r == AncestryFrom(s, s[x])
    ensures |r| == Depth(s, x)
    ensures x !in r
  {
    ParentDepth(s, x);
    var whole := AncestryFrom(s, Some(x));
    var r := AncestryFrom(s, s[x]);
    assert whole == [x] + r;
    RootedChainDistinct(s, whole);
    assert forall k :: 0 <= k < |r| ==> r[k] == whole[k + 1];
    r
  }

  /** A child names its parent as the first of its ancestors. */
  lemma ChildrenByAncestry(s: Store, x: Id, y: Id)
    requires Forest(s) && y in s
    ensures y in Children(s, Some(x)) <==> Ancestors(s, y) != [] && Ancestors(s, y)[0] == x
  {
  }

  lemma {:induction false} DescendantHasAncestor(s: Store, x: Id, y: Id)
    requires Forest(s)
    requires y in Descendants(s, Some(x))
    ensures y in s && x in Ancestors(s, y)
    decreases Rank(s, Some(x))
  {
    var kids := Children(s, Some(x));
    if y !in kids {
      ChildrenRankLower(s, Some(x));
      var c :| c in kids && y in Descendants(s, Some(c));
      DescendantHasAncestor(s, c, y);
      var r := Ancestors(s, y);
      var i :| 0 <= i < |r| && r[i] == c;
      assert r[i + 1] == x;
    }
  }

  lemma {:induction false} AncestorHasDescendant(s: Store, x: Id, y: Id)
    requires Forest(s) && y in s
    requires x in Ancestors(s, y)
    ensures y in Descendants(s, Some(x))
    decreases Rank(s, Some(x))
  {
    var r := Ancestors(s, y);
    var i :| 0 <= i < |r| && r[i] == x;
    var kids := Children(s, Some(x));
    if i > 0 {
      var c := r[i - 1];
      assert c in kids;
      ChildrenRankLower(s, Some(x));
      AncestorHasDescendant(s, c, y);
      assert y in (set c', d | c' in kids && d in Descendants(s, Some(c')) :: d);
    }
  }

  /** `decendant()` of a stored row is exactly the set of rows that have it
      among their ancestors. */
  lemma DescendantsByAncestry(s: Store, x: Id, y: Id)
    requires Forest(s)
    ensures y in Descendants(s, Some(x)) <==> y in s && x in Ancestors(s, y)
  {
    if y in Descendants(s, Some(x)) {
      DescendantHasAncestor(s, x, y);
    }
    if y in s && x in Ancestors(s, y) {
      AncestorHasDescendant(s, x, y);
    }
  }

  /** In a forest no row is its own descendant; a leaf has no descendants. */
  lemma DescendantsIrreflexive(s: Store, x: Id)
    requires Forest(s)
    ensures x !in Descendants(s, Some(x))
    ensures Children(s, Some(x)) == {} ==> Descendants(s, Some(x)) == {}
  {
    DescendantsByAncestry(s, x, x);
  }

  /** The ancestors of an ancestor are ancestors too. */
  lemma {:induction false} AncestorsOfAncestor(s: Store, y: Id, a: Id)
    requires Forest(s) && y in s
    requires a in Ancestors(s, y)
    ensures a in s && forall b :: b in Ancestors(s, a) ==> b in Ancestors(s, y)
    decreases Depth(s, y)
  {
    ParentDepth(s, y);
    var p := s[y].value;
    assert Ancestors(s, y) == [p] + Ancestors(s, p);
    if a != p {
      AncestorsOfAncestor(s, p, a);
    }
  }

  // ---------------------------------------------------------------------
  // Mutations
  // ---------------------------------------------------------------------

  /** `xclean()`: raise when the instance's in-memory parent is among the
      descendants computed from the children stored under its id. The check
      runs against the table as stored, before the new parent is saved. */
  function XClean(s: Store, n: Node): (r: Outcome<TreeError>)
    requires Forest(s)
    ensures n.id.None? ==> r == Pass
    ensures n.id.Some? ==>
      (r.Fail? <==> n.parent.Some? && n.parent.value in s && n.id.value in Ancestors(s, n.parent.value))
  {
    if n.id.Some? && n.parent.Some? then
      DescendantsByAncestry(s, n.id.value, n.parent.value);
      if n.parent.value in Descendants(s, n.id) then Fail(LoopNotAllowed) else Pass
    else
      Pass
  }

  /** Two tables that agree on a row and all its ancestors agree on where its
      chain ends. */
  lemma {:induction false} GroundedWhereAgreeing(s: Store, t: Store, y: Id)
    requires Forest(s) && y in s
    requires y in t && t[y] == s[y]
    requires forall a :: a in Ancestors(s, y) ==> a in t && t[a] == s[a]
    ensures Grounded(t, y, Depth(s, y) + 1)
    decreases Depth(s, y)
  {
    ParentDepth(s, y);
    if s[y].Some? {
      var a := s[y].value;
      assert Ancestors(s, y) == [a] + Ancestors(s, a);
      GroundedWhereAgreeing(s, t, a);
    }
  }

  lemma {:induction false} GroundedAfterAttach(s: Store, x: Id, p: Option<Id>, y: Id, g: nat)
    requires Forest(s) && y in s
    requires Grounded(s[x := p], x, g)
    ensures Grounded(s[x := p], y, Depth(s, y) + 1 + g)
    decreases Depth(s, y)
  {
    if y == x {
      GroundedMono(s[x := p], x, g, Depth(s, y) + 1 + g);
    } else {
      ParentDepth(s, y);
      if s[y].Some? {
        GroundedAfterAttach(s, x, p, s[y].value, g);
      }
    }
  }

  /** Storing `p` as the parent of `x` keeps the forest whenever `x` is not
      `p` and not on `p`'s ancestry: this covers new rows and reassignments. */
  lemma AttachKeepsForest(s: Store, x: Id, p: Option<Id>)
    requires Forest(s)
    requires p.Some? ==> p.value in s && p.value != x && x !in Ancestors(s, p.value)
    ensures Forest(s[x := p])
  {
    var t := s[x := p];
    var g: nat := 1;
    if p.Some? {
      GroundedWhereAgreeing(s, t, p.value);
      g := Depth(s, p.value) + 2;
    }
    assert Grounded(t, x, g);
    forall y | y in t
      ensures Grounded(t, y, |t|)
    {
      if y == x {
        GroundedTight(t, x, g);
      } else {
        GroundedAfterAttach(s, x, p, y, g);
        GroundedTight(t, y, Depth(s, y) + 1 + g);
      }
    }
  }

  /** A row whose parent chain runs round `cyc` is grounded for no bound. */
  lemma {:induction false} CycleNeverGrounded(t: Store, cyc: seq<Id>, i: nat, n: nat)
    requires i < |cyc|
    requires forall j :: 0 <= j < |cyc| ==> cyc[j] in t && t[cyc[j]] == Some(cyc[(j + 1) % |cyc|])
    ensures !Grounded(t, cyc[i], n)
    decreases n
  {
    if n > 0 {
      CycleNeverGrounded(t, cyc, (i + 1) % |cyc|, n - 1);
    }
  }

  /** Closing a rooted chain from its row `k` back to its first row makes a
      cycle of the first `k + 1` rows. */
  lemma {:induction false} ChainClosedIsCycle(s: Store, chain: seq<Id>, k: nat)
    requires RootedChain(s, chain) && Distinct(chain) && k < |chain|
    ensures var t := s[chain[k] := Some(chain[0])]; var cyc := chain[..k + 1];
      forall j :: 0 <= j < |cyc| ==> cyc[j] in t && t[cyc[j]] == Some(cyc[(j + 1) % |cyc|])
  {
    var t := s[chain[k] := Some(chain[0])];
    var cyc := chain[..k + 1];
    forall j | 0 <= j < |cyc|
      ensures cyc[j] in t && t[cyc[j]] == Some(cyc[(j + 1) % |cyc|])
    {
      assert cyc[j] == chain[j];
      if j < k {
        assert chain[j] != chain[k];
        assert (j + 1) % |cyc| == j + 1;
        assert t[chain[j]] == s[chain[j]] == Some(chain[j + 1]);
      } else {
        assert (j + 1) % |cyc| == 0;
      }
    }
  }

  /** Storing `p` as the parent of `x` breaks the forest when `p` is `x` or
      has `x` among its ancestors. */
  lemma AttachMakesLoop(s: Store, x: Id, p: Id)
    requires Forest(s) && x in s && p in s
    requires p == x || x in Ancestors(s, p)
    ensures !Forest(s[x := Some(p)])
  {
    var chain := AncestryFrom(s, Some(p));
    assert chain == [p] + Ancestors(s, p);
    RootedChainDistinct(s, chain);
    if p != x {
      var j :| 0 <= j < |Ancestors(s, p)| && Ancestors(s, p)[j] == x;
      assert chain[j + 1] == x;
    }
    var k :| 0 <= k < |chain| && chain[k] == x;
    ChainClosedIsCycle(s, chain, k);
    var t := s[x := Some(p)];
    CycleNeverGrounded(t, chain[..k + 1], k, |t|);
    assert x in t && !Grounded(t, x, |t|);
  }

  /** A caller that assigns `p` as the parent of the stored row `x`, runs
      `xclean()` as written and saves only when it does not raise. Nothing in
      the model class itself calls `xclean()`; its plain `save()` stores any
      parent. */
  function Reparent(s: Store, x: Id, p: Option<Id>): (r: Result<Store, TreeError>)
    requires Forest(s) && x in s
    requires p.Some? ==> p.value in s
    ensures r.Err? <==> p.Some? && x in Ancestors(s, p.value)
    ensures r.Ok? ==> r.value == s[x := p]
  {
    match XClean(s, Node(Some(x), p))
    case Fail(e) => Err(e)
    case Pass => Ok(s[x := p])
  }

  /** Whenever the new parent is not the row itself, a reassignment that
      `xclean()` lets through keeps the forest. */
  lemma ReparentKeepsForest(s: Store, x: Id, p: Option<Id>)
    requires Forest(s) && x in s
    requires p.Some? ==> p.value in s
    requires p != Some(x)
    ensures Reparent(s, x, p).Ok? ==> Forest(Reparent(s, x, p).value)
  {
    if Reparent(s, x, p).Ok? {
      AttachKeepsForest(s, x, p);
    }
  }

  /** `xclean()` as written lets a childless row become its own parent, and
      the table that results is no forest: its `ancestry()` never ends. */
  lemma SelfParentAccepted()
    ensures Forest(map[1 := None])
    ensures Reparent(map[1 := None], 1, Some(1)) == Ok(map[1 := Some(1)])
    ensures !Forest(map[1 := Some(1)])
  {
    var s: Store := map[1 := None];
    assert Grounded(s, 1, 1);
    assert 1 !in Ancestors(s, 1);
    assert s[1 := Some(1)] == map[1 := Some(1)];
    assert !Grounded(map[1 := Some(1)], 1, 1);
  }

  /** The loop guard as intended: a parent that is the instance itself is a
      loop too. */
  function XCleanNoSelfParent(s: Store, n: Node): (r: Outcome<TreeError>)
    requires Forest(s)
    ensures r.Fail? <==> XClean(s, n).Fail? || (n.id.Some? && n.parent == n.id)
  {
    if n.id.Some? && n.parent == n.id then Fail(LoopNotAllowed) else XClean(s, n)
  }

  /** Reassignment guarded by the intended check: it succeeds exactly when the
      resulting table is still a forest. */
  function ReparentChecked(s: Store, x: Id, p: Option<Id>): (r: Result<Store, TreeError>)
    requires Forest(s) && x in s
    requires p.Some? ==> p.value in s
    ensures r.Ok? <==> Forest(s[x := p])
    ensures r.Ok? ==> r.value == s[x := p]
  {
    match XCleanNoSelfParent(s, Node(Some(x), p))
    case Fail(e) =>
      AttachMakesLoop(s, x, p.value);
      Err(e)
    case Pass =>
      AttachKeepsForest(s, x, p);
      Ok(s[x := p])
  }

  /** Saving a new instance: the database issues an unused key `x` and stores
      it with the instance's parent (`xclean()` accepts every new instance). */
  function Create(s: Store, x: Id, p: Option<Id>): (r: Store)
    requires Forest(s) && x !in s
    requires p.Some? ==> p.value in s
    ensures Forest(r)
    ensures r.Keys == s.Keys + {x} && r[x] == p
    ensures forall y :: y in s ==> r[y] == s[y]
  {
    assert p.Some? ==> x !in Ancestors(s, p.value);
    AttachKeepsForest(s, x, p);
    s[x := p]
  }

  /** Deleting the stored row `x`: `on_delete=CASCADE` also deletes every row
      below it; the remaining rows keep their parents. */
  function Delete(s: Store, x: Id): (r: Store)
    requires Forest(s) && x in s
    ensures r.Keys == s.Keys - ({x} + Descendants(s, Some(x)))
    ensures forall y :: y in r ==> r[y] == s[y]
  {
    var doomed := {x} + Descendants(s, Some(x));
    map y | y in s && y !in doomed :: s[y]
  }

  /** A row survives the deletion of `x` exactly when it is neither `x` nor
      below `x`. */
  lemma DeleteBySubtree(s: Store, x: Id, y: Id)
    requires Forest(s) && x in s
    ensures y in Delete(s, x) <==> y in s && y != x && x !in Ancestors(s, y)
  {
    DescendantsByAncestry(s, x, y);
  }

  /** Cascading deletion leaves a forest: no surviving row points at a
      deleted one. */
  lemma DeleteKeepsForest(s: Store, x: Id)
    requires Forest(s) && x in s
    ensures Forest(Delete(s, x))
  {
    var t := Delete(s, x);
    forall y | y in t
      ensures t[y].Some? ==> t[y].value in t
      ensures Grounded(t, y, |t|)
    {
      DeleteBySubtree(s, x, y);
      forall a | a in Ancestors(s, y)
        ensures a in t && t[a] == s[a]
      {
        AncestorsOfAncestor(s, y, a);
        DeleteBySubtree(s, x, a);
      }
      ParentDepth(s, y);
      GroundedWhereAgreeing(s, t, y);
      GroundedTight(t, y, Depth(s, y) + 1);
    }
  }
}
